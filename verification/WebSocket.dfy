/**
 The RFC 6455 subset of the gateway: frame encoders and parsers of both sides
 (sections 5.2, 5.3 and 5.5), the server's receive loop and the client's.
 */
module WebSocket {
  import opened Bytes

  const TEXT: nat := 1
  const BINARY: nat := 2
  const CONT: nat := 0
  const CLOSE: nat := 8
  const PING: nat := 9
  const PONG: nat := 10
  const MAX_SAFE_INTEGER: nat := 0x1F_FFFF_FFFF_FFFF

  // ----- exclusive or, big-endian numbers -----------------------------------

  function XorBits(a: nat, b: nat, n: nat): (r: nat) {
    if n == 0 then 0
    else (if a % 2 == b % 2 then 0 else 1) + 2 * XorBits(a / 2, b / 2, n - 1)
  }

  function Pow2(n: nat): nat { if n == 0 then 1 else 2 * Pow2(n - 1) }

  lemma {:induction false} XorBitsSpec(a: nat, b: nat, n: nat)
    requires a < Pow2(n)
    ensures XorBits(a, b, n) < Pow2(n)
    ensures XorBits(XorBits(a, b, n), b, n) == a
  {
    if n > 0 {
      XorBitsSpec(a / 2, b / 2, n - 1);
      var r := XorBits(a, b, n);
      assert r / 2 == XorBits(a / 2, b / 2, n - 1);
    }
  }

  lemma Pow2Of8()
    ensures Pow2(8) == 256
  {
    assert Pow2(4) == 16;
    assert Pow2(6) == 4 * Pow2(4);
  }

  function Xor(a: byte, b: byte): byte {
    Pow2Of8();
    XorBitsSpec(a, b, 8);
    XorBits(a, b, 8)
  }

  lemma XorHalves(a: nat, b: nat, n: nat)
    requires n > 0
    ensures XorBits(a, b, n) % 2 == 1 <==> a % 2 != b % 2
    ensures XorBits(a, b, n) / 2 == XorBits(a / 2, b / 2, n - 1)
  {
  }

  lemma TwoBits(a: nat, b: nat, n: nat)
    requires n >= 2
    ensures var x := XorBits(a, b, n);
            && (x % 2 == 1 <==> a % 2 != b % 2) && (x / 2 % 2 == 1 <==> a / 2 % 2 != b / 2 % 2)
            && x / 4 == XorBits(a / 4, b / 4, n - 2)
  {
    XorHalves(a, b, n);
    XorHalves(a / 2, b / 2, n - 1);
    assert a / 2 / 2 == a / 4 && b / 2 / 2 == b / 4;
  }

  lemma Quarters(x: byte)
    ensures x / 8 == x / 4 / 2 && x / 16 == x / 4 / 4 && x / 32 == x / 16 / 2 && x / 64 == x / 16 / 4 && x / 128 == x / 64 / 2
    ensures x / 128 == x / 128 % 2
  {
  }

  /** Exclusive or, bit by bit: a bit of the result is 1 exactly where the operands differ. */
  lemma XorIsBitwise(a: byte, b: byte)
    ensures Xor(a, b) % 2 == 1 <==> a % 2 != b % 2
    ensures Xor(a, b) / 2 % 2 == 1 <==> a / 2 % 2 != b / 2 % 2
    ensures Xor(a, b) / 4 % 2 == 1 <==> a / 4 % 2 != b / 4 % 2
    ensures Xor(a, b) / 8 % 2 == 1 <==> a / 8 % 2 != b / 8 % 2
    ensures Xor(a, b) / 16 % 2 == 1 <==> a / 16 % 2 != b / 16 % 2
    ensures Xor(a, b) / 32 % 2 == 1 <==> a / 32 % 2 != b / 32 % 2
    ensures Xor(a, b) / 64 % 2 == 1 <==> a / 64 % 2 != b / 64 % 2
    ensures Xor(a, b) / 128 == 1 <==> a / 128 != b / 128
  {
    TwoBits(a, b, 8);
    TwoBits(a / 4, b / 4, 6);
    Quarters(a);
    Quarters(b);
    Quarters(Xor(a, b));
    TwoBits(a / 16, b / 16, 4);
    TwoBits(a / 64, b / 64, 2);
  }

  lemma XorTwice(a: byte, b: byte)
    ensures Xor(Xor(a, b), b) == a
  {
    Pow2Of8();
    XorBitsSpec(a, b, 8);
  }

  /** Section 5.3: octet i is xored with mask octet i mod 4. */
  function Mask(payload: seq<byte>, key: seq<byte>): (r: seq<byte>)
    requires |key| == 4
    ensures |r| == |payload|
  {
    if payload == [] then []
    else
      var i := |payload| - 1;
      Mask(payload[..i], key) + [Xor(payload[i], key[i % 4])]
  }

  /** Octet by octet: byte i of the result is byte i of the payload xored with byte i mod 4 of the key. */
  lemma {:induction false} MaskAt(payload: seq<byte>, key: seq<byte>, i: nat)
    requires |key| == 4 && i < |payload|
    ensures |Mask(payload, key)| == |payload| && Mask(payload, key)[i] == Xor(payload[i], key[i % 4])
  {
    var n := |payload| - 1;
    if i < n {
      MaskAt(payload[..n], key, i);
    }
  }

  lemma {:induction false} MaskTwice(payload: seq<byte>, key: seq<byte>)
    requires |key| == 4
    ensures Mask(Mask(payload, key), key) == payload
  {
    if payload != [] {
      var i := |payload| - 1;
      var masked := Mask(payload, key);
      MaskTwice(payload[..i], key);
      XorTwice(payload[i], key[i % 4]);
      assert masked[..i] == Mask(payload[..i], key);
      assert payload == payload[..i] + [payload[i]];
    }
  }

  function BigEndian(v: nat, n: nat): (r: seq<byte>)
    ensures |r| == n
  {
    if n == 0 then [] else BigEndian(v / 256, n - 1) + [v % 256]
  }

  function FromBigEndian(s: seq<byte>): nat {
    if s == [] then 0 else 256 * FromBigEndian(s[..|s| - 1]) + s[|s| - 1]
  }

  lemma {:induction false} BigEndianRoundTrip(v: nat, n: nat)
    requires v < Pow256(n)
    ensures FromBigEndian(BigEndian(v, n)) == v
  {
    if n > 0 {
      BigEndianRoundTrip(v / 256, n - 1);
      var s := BigEndian(v, n);
      assert s[..|s| - 1] == BigEndian(v / 256, n - 1);
    }
  }

  // ----- parsing ------------------------------------------------------------

  datatype WsFrame = WsFrame(fin: bool, opcode: nat, masked: bool, payload: seq<byte>)

  datatype Parsed =
    | NeedMore
    | TooLarge                                  // protocol error; the whole buffer is consumed
    | Complete(frame: WsFrame, consumed: nat)

  /** The length field at the front of a buffer: not there yet, beyond the limit, or read up to `after`. */
  datatype Length = Short | Huge | Sized(len: nat, after: nat)

  /** `limited` is the server's size check, which the test client does not have. */
  function LengthField(buf: seq<byte>, limited: bool): Length {
    if |buf| < 2 then Short
    else if buf[1] % 128 < 126 then Sized(buf[1] % 128, 2)
    else
      var width := if buf[1] % 128 == 126 then 2 else 8;
      if |buf| < 2 + width then Short
      else
        var n := FromBigEndian(buf[2..2 + width]);
        if limited && width == 8 && n > MAX_SAFE_INTEGER then Huge else Sized(n, 2 + width)
  }

  function KeyBytes(b1: byte): nat { if b1 >= 128 then 4 else 0 }

  function FrameWith(b0: byte, b1: byte, key: seq<byte>, body: seq<byte>): WsFrame
    requires |key| == KeyBytes(b1)
  {
    WsFrame(b0 >= 128, b0 % 16, b1 >= 128, if b1 >= 128 then Mask(body, key) else body)
  }

  /** The frame whose masking key starts at `at` and whose payload has `len` bytes. */
  function FrameAt(buf: seq<byte>, at: nat, len: nat): WsFrame
    requires |buf| >= 2 && 2 <= at && at + KeyBytes(buf[1]) + len <= |buf|
  {
    var start := at + KeyBytes(buf[1]);
    FrameWith(buf[0], buf[1], buf[at..start], buf[start..start + len])
  }

  function ParseBody(buf: seq<byte>, at: nat, len: nat): Parsed
    requires |buf| >= 2 && 2 <= at
  {
    if |buf| < at + KeyBytes(buf[1]) + len then NeedMore
    else Complete(FrameAt(buf, at, len), at + KeyBytes(buf[1]) + len)
  }

  /** tryParseFrame of the server (`limited`) and of the test client. */
  function Parse(buf: seq<byte>, limited: bool): Parsed {
    match LengthField(buf, limited)
    case Short => NeedMore
    case Huge => TooLarge
    case Sized(len, after) => ParseBody(buf, after, len)
  }

  /** Where a parsed frame's bytes went; in particular every parse consumes at least two bytes. */
  lemma ParseAccounts(buf: seq<byte>, limited: bool)
    requires Parse(buf, limited).Complete?
    ensures |buf| >= 2
    ensures var Complete(f, n) := Parse(buf, limited);
            && n == LengthField(buf, limited).after + KeyBytes(buf[1]) + |f.payload|
            && 2 <= n <= |buf|
            && (n == 2 + KeyBytes(buf[1]) + |f.payload| ==> |f.payload| < 126)
            && (f.masked <==> buf[1] >= 128)
  {
  }

  lemma BigEndianBytes(s: seq<byte>)
    ensures |s| == 2 ==> FromBigEndian(s) == Le2(s[1], s[0])
    ensures |s| == 8 ==> FromBigEndian(s) == Le8(s[7], s[6], s[5], s[4], s[3], s[2], s[1], s[0])
  {
    if |s| == 2 {
      LastTwo(s);
    } else if |s| == 8 {
      LastTwo(s);
      LastTwo(s[..6]);
      LastTwo(s[..4]);
      LastTwo(s[..2]);
    }
  }

  lemma LastTwo(s: seq<byte>)
    requires |s| >= 2
    ensures FromBigEndian(s) == Le2(s[|s| - 1], s[|s| - 2]) + 0x1_0000 * FromBigEndian(s[..|s| - 2])
    ensures |s| == 2 ==> FromBigEndian(s[..|s| - 2]) == 0
    ensures forall k :: 0 <= k <= |s| - 2 ==> s[..|s| - 2][..k] == s[..k]
  {
    assert s[..|s| - 1][..|s| - 2] == s[..|s| - 2];
  }

  /** Section 5.2, byte by byte: where the payload starts without a key, and its length. None: the length is not there yet. */
  ghost function Announced(buf: seq<byte>): Option<(nat, nat)> {
    if |buf| < 2 then None
    else if buf[1] % 128 < 126 then Some((2, buf[1] % 128))
    else if buf[1] % 128 == 126 then
      if |buf| < 4 then None else Some((4, Le2(buf[3], buf[2])))
    else if |buf| < 10 then None
    else Some((10, Le8(buf[9], buf[8], buf[7], buf[6], buf[5], buf[4], buf[3], buf[2])))
  }

  /** The frame announced at the front of `buf`, byte by byte. */
  ghost predicate Spelled(buf: seq<byte>, f: WsFrame, n: nat) {
    && Announced(buf).Some?
    && var (at, len) := Announced(buf).value;
    && var start := if buf[1] >= 0x80 then at + 4 else at;
    && n == start + len <= |buf|
    && (f.fin <==> buf[0] >= 0x80) && f.opcode == buf[0] % 0x10 && (f.masked <==> buf[1] >= 0x80)
    && |f.payload| == len
    && forall i :: 0 <= i < len ==> f.payload[i] == if buf[1] >= 0x80 then Xor(buf[start + i], buf[at + i % 4]) else buf[start + i]
  }

  lemma LengthIsAnnounced(buf: seq<byte>, limited: bool)
    ensures LengthField(buf, limited) ==
            if Announced(buf).None? then Short
            else var (at, len) := Announced(buf).value; if limited && at == 10 && len > 0x1F_FFFF_FFFF_FFFF then Huge else Sized(len, at)
  {
    if |buf| >= 10 {
      BigEndianBytes(buf[2..10]);
    }
    if |buf| >= 4 {
      BigEndianBytes(buf[2..4]);
    }
  }

  /**
   The parser, byte by byte. It answers too large iff the server reads a 64-bit length
   above 2^53 - 1, complete iff length, key and payload are all there, and then the
   frame is the one the bytes spell; otherwise it wants more.
   */
  lemma ParseIsSpelled(buf: seq<byte>, limited: bool)
    ensures var tooLarge := limited && Announced(buf).Some? && Announced(buf).value.0 == 10 && Announced(buf).value.1 > 0x1F_FFFF_FFFF_FFFF;
            match Parse(buf, limited)
            case TooLarge => tooLarge
            case Complete(f, n) => !tooLarge && Spelled(buf, f, n)
            case NeedMore => !tooLarge && forall f, n: nat :: !Spelled(buf, f, n)
  {
    LengthIsAnnounced(buf, limited);
    if Parse(buf, limited).Complete? {
      var (at, len) := Announced(buf).value;
      FrameIsSpelled(buf, at, len);
    }
  }

  lemma FrameIsSpelled(buf: seq<byte>, at: nat, len: nat)
    requires |buf| >= 2 && 2 <= at && at + KeyBytes(buf[1]) + len <= |buf|
    ensures var f, start := FrameAt(buf, at, len), at + KeyBytes(buf[1]);
            && (f.fin <==> buf[0] >= 0x80) && f.opcode == buf[0] % 0x10 && (f.masked <==> buf[1] >= 0x80)
            && |f.payload| == len
            && forall i :: 0 <= i < len ==> f.payload[i] == if buf[1] >= 0x80 then Xor(buf[start + i], buf[at + i % 4]) else buf[start + i]
  {
    forall i | 0 <= i < len
      ensures var start := at + KeyBytes(buf[1]);
              FrameAt(buf, at, len).payload[i] == if buf[1] >= 0x80 then Xor(buf[start + i], buf[at + i % 4]) else buf[start + i]
    {
      PayloadByte(buf, at, len, i);
    }
  }

  lemma PayloadByte(buf: seq<byte>, at: nat, len: nat, i: nat)
    requires |buf| >= 2 && 2 <= at && at + KeyBytes(buf[1]) + len <= |buf| && i < len
    ensures var start := at + KeyBytes(buf[1]);
            && |FrameAt(buf, at, len).payload| == len
            && FrameAt(buf, at, len).payload[i] == if buf[1] >= 0x80 then Xor(buf[start + i], buf[at + i % 4]) else buf[start + i]
  {
    var start := at + KeyBytes(buf[1]);
    var key, body := buf[at..start], buf[start..start + len];
    assert body[i] == buf[start + i];
    if buf[1] >= 0x80 {
      MaskAt(body, key, i);
      assert key[i % 4] == buf[at + i % 4];
    }
  }

  lemma LengthFieldStable(buf: seq<byte>, more: seq<byte>, limited: bool)
    requires LengthField(buf, limited) != Short
    ensures LengthField(buf + more, limited) == LengthField(buf, limited)
  {
    assert (buf + more)[1] == buf[1];
    var width := if buf[1] % 128 == 126 then 2 else 8;
    if buf[1] % 128 >= 126 {
      assert (buf + more)[2..2 + width] == buf[2..2 + width];
    }
  }

  lemma FrameAtStable(buf: seq<byte>, more: seq<byte>, at: nat, len: nat)
    requires |buf| >= 2 && 2 <= at && at + KeyBytes(buf[1]) + len <= |buf|
    ensures FrameAt(buf + more, at, len) == FrameAt(buf, at, len)
  {
    var all := buf + more;
    assert all[0] == buf[0] && all[1] == buf[1];
    var start := at + KeyBytes(buf[1]);
    SliceOfFront(buf, more, start, start + len);
    SliceOfFront(buf, more, at, start);
    var key, body := buf[at..start], buf[start..start + len];
    assert all[at..start] == key && all[start..start + len] == body;
    assert FrameAt(all, at, len) == FrameWith(all[0], all[1], key, body);
  }

  lemma SliceOfFront(buf: seq<byte>, more: seq<byte>, from: nat, to: nat)
    requires from <= to <= |buf|
    ensures (buf + more)[from..to] == buf[from..to]
  {
  }

  /** Bytes that arrive later never change an answer already given. */
  lemma ParseStable(buf: seq<byte>, more: seq<byte>, limited: bool)
    requires Parse(buf, limited) != NeedMore
    ensures Parse(buf + more, limited) == Parse(buf, limited)
  {
    LengthFieldStable(buf, more, limited);
    var length := LengthField(buf, limited);
    if length.Sized? {
      FrameAtStable(buf, more, length.after, length.len);
    }
  }

  lemma FrameAtParts(header: seq<byte>, key: seq<byte>, body: seq<byte>)
    requires |header| >= 2 && |key| == KeyBytes(header[1])
    ensures FrameAt(header + key + body, |header|, |body|) == FrameWith(header[0], header[1], key, body)
  {
    var buf := header + key + body;
    var start := |header| + |key|;
    assert buf[0] == header[0] && buf[1] == header[1];
    assert buf[start..start + |body|] == body;
    assert buf[|header|..start] == key;
  }

  lemma ParseWhole(buf: seq<byte>, limited: bool)
    requires |buf| >= 2 && LengthField(buf, limited).Sized?
    requires var Sized(len, after) := LengthField(buf, limited); 2 <= after && |buf| == after + KeyBytes(buf[1]) + len
    ensures var Sized(len, after) := LengthField(buf, limited);
            Parse(buf, limited) == Complete(FrameAt(buf, after, len), |buf|)
  {
  }

  /** A header, a key if the header announces one, and a payload of the announced size are one frame. */
  lemma Framed(header: seq<byte>, key: seq<byte>, body: seq<byte>, limited: bool)
    requires |header| >= 2 && |key| == KeyBytes(header[1])
    requires LengthField(header, limited) == Sized(|body|, |header|)
    ensures Parse(header + key + body, limited) == Complete(FrameWith(header[0], header[1], key, body), |header + key + body|)
  {
    var buf := header + key + body;
    assert LengthField(buf, limited) == Sized(|body|, |header|) by {
      LengthFieldStable(header, key + body, limited);
      assert buf == header + (key + body);
    }
    assert buf[1] == header[1];
    ParseWhole(buf, limited);
    FrameAtParts(header, key, body);
  }

  // ----- encoding -----------------------------------------------------------

  /** The header of encodeTextFrame: 7-bit, 16-bit or 64-bit length. */
  function TextHeader(len: nat): seq<byte> {
    if len < 126 then [129, len]
    else if len < U16 then [129, 126] + BigEndian(len, 2)
    else [129, 127] + BigEndian(len, 8)
  }

  function EncodeText(p: seq<byte>): seq<byte> { TextHeader(|p|) + p }

  /** A Buffer byte keeps the low eight bits of what is stored in it. */
  function LowByte(n: nat): byte { n % 256 }

  function EncodePong(p: seq<byte>): seq<byte> { [138, LowByte(|p|)] + p }

  function ClosePayload(code: u16, reason: seq<byte>): seq<byte> { BigEndian(code, 2) + reason }

  function EncodeClose(code: u16, reason: seq<byte>): seq<byte> {
    var p := ClosePayload(code, reason);
    [136, LowByte(|p|)] + p
  }

  /** The client's control frames: mask bit set, key, masked payload. `0x80 | length` keeps seven length bits. */
  function EncodeMasked(first: byte, p: seq<byte>, key: seq<byte>): seq<byte>
    requires |key| == 4
  {
    [first, 128 + |p| % 128] + key + Mask(p, key)
  }

  function EncodeMaskedPong(p: seq<byte>, key: seq<byte>): seq<byte>
    requires |key| == 4
  {
    EncodeMasked(138, p, key)
  }

  function EncodeMaskedClose(code: u16, reason: seq<byte>, key: seq<byte>): seq<byte>
    requires |key| == 4
  {
    EncodeMasked(136, ClosePayload(code, reason), key)
  }

  // ----- round trips --------------------------------------------------------

  lemma TextHeaderReads(len: nat, limited: bool)
    requires len <= MAX_SAFE_INTEGER
    ensures LengthField(TextHeader(len), limited) == Sized(len, |TextHeader(len)|)
  {
    var h := TextHeader(len);
    if len >= 126 {
      WordSizes();
      var width := if len < U16 then 2 else 8;
      BigEndianRoundTrip(len, width);
      assert h[2..2 + width] == BigEndian(len, width);
    }
  }

  /** An unmasked frame with more bytes behind it. */
  lemma PlainFrame(header: seq<byte>, body: seq<byte>, more: seq<byte>, limited: bool)
    requires |header| >= 2 && header[1] < 128
    requires LengthField(header, limited) == Sized(|body|, |header|)
    ensures Parse(header + body + more, limited)
            == Complete(WsFrame(header[0] >= 128, header[0] % 16, false, body), |header + body|)
  {
    Framed(header, [], body, limited);
    assert header + [] + body == header + body;
    ParseStable(header + body, more, limited);
  }

  /** A text frame of any length form, followed by anything, parses to itself and consumes itself. */
  lemma TextRoundTrip(p: seq<byte>, more: seq<byte>, limited: bool)
    requires |p| <= MAX_SAFE_INTEGER
    ensures Parse(EncodeText(p) + more, limited) == Complete(WsFrame(true, TEXT, false, p), |EncodeText(p)|)
  {
    var h := TextHeader(|p|);
    TextHeaderReads(|p|, limited);
    assert h[0] == 129 && h[1] < 128;
    PlainFrame(h, p, more, limited);
  }

  /** One-byte-length frames read back exactly when the payload is at most 125 bytes. */
  lemma ControlRoundTripIff(first: byte, p: seq<byte>, limited: bool)
    ensures var buf := [first, LowByte(|p|)] + p;
            Parse(buf, limited) == Complete(WsFrame(first >= 128, first % 16, false, p), |buf|) <==> |p| <= 125
  {
    var h := [first, LowByte(|p|)];
    if |p| <= 125 {
      Framed(h, [], p, limited);
      assert h + [] + p == h + p;
    } else if Parse(h + p, limited).Complete? {
      ParseAccounts(h + p, limited);
    }
  }

  /** A server pong is read back by the client exactly when its payload fits the one-byte length. */
  lemma PongRoundTripIff(p: seq<byte>)
    ensures Parse(EncodePong(p), false) == Complete(WsFrame(true, PONG, false, p), |EncodePong(p)|) <==> |p| <= 125
  {
    ControlRoundTripIff(138, p, false);
  }

  /** A server close is read back, code and reason, exactly when the reason has at most 123 bytes. */
  lemma CloseRoundTripIff(code: u16, reason: seq<byte>)
    ensures Parse(EncodeClose(code, reason), false)
              == Complete(WsFrame(true, CLOSE, false, ClosePayload(code, reason)), |EncodeClose(code, reason)|)
            <==> |reason| <= 123
    ensures FromBigEndian(ClosePayload(code, reason)[..2]) == code && ClosePayload(code, reason)[2..] == reason
  {
    WordSizes();
    BigEndianRoundTrip(code, 2);
    assert ClosePayload(code, reason)[..2] == BigEndian(code, 2);
    ControlRoundTripIff(136, ClosePayload(code, reason), false);
  }

  /** The server recovers a client's masked control payload for every key, exactly up to 125 bytes. */
  lemma MaskedRoundTripIff(first: byte, p: seq<byte>, key: seq<byte>)
    requires |key| == 4
    ensures Parse(EncodeMasked(first, p, key), true)
              == Complete(WsFrame(first >= 128, first % 16, true, p), |EncodeMasked(first, p, key)|)
            <==> |p| <= 125
  {
    var h := [first, 128 + |p| % 128];
    if |p| <= 125 {
      assert LengthField(h, true) == Sized(|p|, 2);
      Framed(h, key, Mask(p, key), true);
      MaskTwice(p, key);
    } else if Parse(EncodeMasked(first, p, key), true).Complete? {
      ParseAccounts(EncodeMasked(first, p, key), true);
    }
  }

  // ----- the server's receive loop ------------------------------------------

  /** One connection: unparsed bytes, writes so far, and whether it is closed and unregistered. */
  datatype Conn = Conn(buf: seq<byte>, written: seq<seq<byte>>, closed: bool, registered: bool)

  const TOO_LARGE_REASON: seq<byte> := Ascii("payload too large")
  const UNMASKED_REASON: seq<byte> := Ascii("unmasked client data frame")

  function Ascii(s: string): seq<byte> {
    seq(|s|, i requires 0 <= i < |s| => (s[i] as int) % 256)
  }

  /** _sendCloseAndShutdown on an open connection. */
  function Shut(c: Conn, code: u16, reason: seq<byte>): Conn {
    c.(written := c.written + [EncodeClose(code, reason)], closed := true, registered := false)
  }

  /** What the loop body does with one complete frame. */
  function Handle(c: Conn, f: WsFrame): Conn {
    if !f.masked && (f.opcode == TEXT || f.opcode == BINARY || f.opcode == CONT) then Shut(c, 1002, UNMASKED_REASON)
    else if f.opcode == CLOSE then Shut(c, 1000, [])
    else if f.opcode == PING then c.(written := c.written + [EncodePong(f.payload)])
    else c
  }

  /** The while loop of _onData. */
  function Drive(c: Conn): (r: Conn)
    decreases |c.buf|
  {
    if c.closed then c
    else match Parse(c.buf, true)
      case NeedMore => c
      case TooLarge => Shut(c.(buf := []), 1002, TOO_LARGE_REASON)
      case Complete(f, n) =>
        ParseAccounts(c.buf, true);
        Drive(Handle(c.(buf := c.buf[n..]), f))
  }

  function OnData(c: Conn, chunk: seq<byte>): Conn {
    if c.closed then c else Drive(c.(buf := c.buf + chunk))
  }

  function Feed(c: Conn, chunks: seq<seq<byte>>): Conn
    decreases |chunks|
  {
    if chunks == [] then c else Feed(OnData(c, chunks[0]), chunks[1..])
  }

  function Flatten(chunks: seq<seq<byte>>): seq<byte> {
    if chunks == [] then [] else chunks[0] + Flatten(chunks[1..])
  }

  /** Same replies, same open/closed state, and the same leftover bytes while open. */
  ghost predicate SameConn(a: Conn, b: Conn) {
    && a.written == b.written && a.closed == b.closed && a.registered == b.registered
    && (!a.closed ==> a.buf == b.buf)
  }

  /** Running the loop, then adding bytes and running it again, is running it on all the bytes at once. */
  lemma {:induction false} DriveInTwoParts(c: Conn, more: seq<byte>)
    requires !c.closed
    ensures SameConn(OnData(Drive(c), more), Drive(c.(buf := c.buf + more)))
    decreases |c.buf|
  {
    if Parse(c.buf, true) != NeedMore {
      ParseStable(c.buf, more, true);
    }
    match Parse(c.buf, true)
    case NeedMore =>
    case TooLarge =>
    case Complete(f, n) =>
      ParseAccounts(c.buf, true);
      var next := Handle(c.(buf := c.buf[n..]), f);
      assert (c.buf + more)[n..] == c.buf[n..] + more;
      HandleIgnoresBuffer(c, c.buf[n..], more, f);
      if !next.closed {
        DriveInTwoParts(next, more);
      }
  }

  lemma HandleIgnoresBuffer(c: Conn, rest: seq<byte>, more: seq<byte>, f: WsFrame)
    ensures var next := Handle(c.(buf := rest), f);
            next.buf == rest && Handle(c.(buf := rest + more), f) == next.(buf := rest + more)
  {
  }

  /** A connection at rest: its leftover bytes hold no complete frame. */
  predicate AtRest(c: Conn) { c.closed || Parse(c.buf, true).NeedMore? }

  lemma {:induction false} DriveEndsAtRest(c: Conn)
    ensures AtRest(Drive(c))
    decreases |c.buf|
  {
    if !c.closed && Parse(c.buf, true).Complete? {
      ParseAccounts(c.buf, true);
      var Complete(f, n) := Parse(c.buf, true);
      DriveEndsAtRest(Handle(c.(buf := c.buf[n..]), f));
    }
  }

  lemma {:induction false} FeedClosed(c: Conn, chunks: seq<seq<byte>>)
    requires c.closed
    ensures Feed(c, chunks) == c
    decreases |chunks|
  {
    if chunks != [] {
      FeedClosed(c, chunks[1..]);
    }
  }

  lemma FeedStep(c: Conn, chunks: seq<seq<byte>>)
    requires !c.closed && chunks != []
    ensures Feed(c, chunks) == Feed(Drive(c.(buf := c.buf + chunks[0])), chunks[1..])
    ensures OnData(c, Flatten(chunks)) == Drive(c.(buf := c.buf + chunks[0] + Flatten(chunks[1..])))
  {
    assert c.buf + Flatten(chunks) == c.buf + chunks[0] + Flatten(chunks[1..]);
  }

  /** Feeding chunks one by one is feeding their concatenation in one piece. */
  lemma {:induction false} FeedIsOneChunk(c: Conn, chunks: seq<seq<byte>>)
    requires AtRest(c)
    ensures SameConn(Feed(c, chunks), OnData(c, Flatten(chunks)))
    decreases |chunks|
  {
    if c.closed {
      FeedClosed(c, chunks);
    } else if chunks == [] {
      assert c.buf + [] == c.buf;
    } else {
      var first := c.(buf := c.buf + chunks[0]);
      var rest := Flatten(chunks[1..]);
      DriveEndsAtRest(first);
      FeedIsOneChunk(Drive(first), chunks[1..]);
      DriveInTwoParts(first, rest);
      FeedStep(c, chunks);
    }
  }

  /**
   Chunk independence: however a byte stream is split, the server sends the same
   replies and ends in the same state, with the same leftover buffer while open.
   */
  lemma ChunkIndependence(c: Conn, chunks: seq<seq<byte>>, others: seq<seq<byte>>)
    requires AtRest(c) && Flatten(chunks) == Flatten(others)
    ensures SameConn(Feed(c, chunks), Feed(c, others))
  {
    FeedIsOneChunk(c, chunks);
    FeedIsOneChunk(c, others);
  }

  /** A connection leaves the broadcast set exactly when it closes, in every run. */
  lemma {:induction false} RegisteredWhileOpen(c: Conn, chunks: seq<seq<byte>>)
    requires c.registered <==> !c.closed
    ensures Feed(c, chunks).registered <==> !Feed(c, chunks).closed
    decreases |chunks|
  {
    if chunks != [] {
      if !c.closed {
        DriveKeepsRegistration(c.(buf := c.buf + chunks[0]));
      }
      RegisteredWhileOpen(OnData(c, chunks[0]), chunks[1..]);
    }
  }

  lemma {:induction false} DriveKeepsRegistration(c: Conn)
    requires c.registered <==> !c.closed
    ensures Drive(c).registered <==> !Drive(c).closed
    decreases |c.buf|
  {
    if !c.closed && Parse(c.buf, true).Complete? {
      ParseAccounts(c.buf, true);
      var Complete(f, n) := Parse(c.buf, true);
      DriveKeepsRegistration(Handle(c.(buf := c.buf[n..]), f));
    }
  }

  /** A pong of the client's, with the key it drew. */
  datatype MaskedPong = MaskedPong(payload: seq<byte>, key: seq<byte>)

  ghost predicate Sendable(m: MaskedPong) { |m.key| == 4 && |m.payload| <= 125 }

  ghost function PongStream(pongs: seq<MaskedPong>): seq<byte>
    requires forall i :: 0 <= i < |pongs| ==> Sendable(pongs[i])
  {
    if pongs == [] then [] else
      assert Sendable(pongs[0]);
      EncodeMaskedPong(pongs[0].payload, pongs[0].key) + PongStream(pongs[1..])
  }

  /** The loop on an encoded frame with more bytes behind it. */
  lemma DriveOne(c: Conn, enc: seq<byte>, rest: seq<byte>, f: WsFrame)
    requires !c.closed && c.buf == enc + rest
    requires Parse(enc, true) == Complete(f, |enc|)
    ensures Drive(c) == Drive(Handle(c.(buf := rest), f))
  {
    ParseStable(enc, rest, true);
    assert c.buf[|enc|..] == rest;
  }

  lemma DriveSkipsPong(c: Conn, m: MaskedPong, rest: seq<byte>)
    requires !c.closed && Sendable(m) && c.buf == EncodeMaskedPong(m.payload, m.key) + rest
    ensures Drive(c) == Drive(c.(buf := rest))
  {
    MaskedRoundTripIff(138, m.payload, m.key);
    DriveOne(c, EncodeMaskedPong(m.payload, m.key), rest, WsFrame(true, PONG, true, m.payload));
  }

  lemma DriveAnswersClose(c: Conn, code: u16, reason: seq<byte>, key: seq<byte>, rest: seq<byte>)
    requires !c.closed && |key| == 4 && |reason| <= 123 && c.buf == EncodeMaskedClose(code, reason, key) + rest
    ensures Drive(c) == Shut(c.(buf := rest), 1000, [])
  {
    var payload := ClosePayload(code, reason);
    MaskedRoundTripIff(136, payload, key);
    DriveOne(c, EncodeMaskedClose(code, reason, key), rest, WsFrame(true, CLOSE, true, payload));
  }

  lemma {:induction false} DriveSkipsPongs(c: Conn, pongs: seq<MaskedPong>, rest: seq<byte>)
    requires forall i :: 0 <= i < |pongs| ==> Sendable(pongs[i])
    requires !c.closed && c.buf == PongStream(pongs) + rest
    ensures Drive(c) == Drive(c.(buf := rest))
    decreases |pongs|
  {
    if pongs == [] {
      assert c.buf == rest;
    } else {
      var after := PongStream(pongs[1..]) + rest;
      assert c.buf == EncodeMaskedPong(pongs[0].payload, pongs[0].key) + after;
      DriveSkipsPong(c, pongs[0], after);
      DriveSkipsPongs(c.(buf := after), pongs[1..], rest);
    }
  }

  /**
   The closing handshake over both programs: whatever pongs the client sent before
   its close, whatever keys it drew, whatever follows and however the bytes arrive,
   the server writes exactly one close frame (1000), leaves the broadcast set and
   stays closed, and the client's own parser reads that close.
   */
  lemma ClosingHandshake(pongs: seq<MaskedPong>, code: u16, reason: seq<byte>, key: seq<byte>, rest: seq<byte>, chunks: seq<seq<byte>>)
    requires |key| == 4 && |reason| <= 123
    requires forall i :: 0 <= i < |pongs| ==> Sendable(pongs[i])
    requires Flatten(chunks) == PongStream(pongs) + (EncodeMaskedClose(code, reason, key) + rest)
    ensures var end := Feed(Conn([], [], false, true), chunks);
            && end.closed && !end.registered && |end.written| == 1
            && Parse(end.written[0], false) == Complete(WsFrame(true, CLOSE, false, ClosePayload(1000, [])), |end.written[0]|)
  {
    var c := Conn([], [], false, true);
    FeedIsOneChunk(c, chunks);
    assert c.buf + Flatten(chunks) == Flatten(chunks);
    var tail := EncodeMaskedClose(code, reason, key) + rest;
    DriveSkipsPongs(c.(buf := Flatten(chunks)), pongs, tail);
    DriveAnswersClose(c.(buf := tail), code, reason, key, rest);
    CloseRoundTripIff(1000, []);
  }

  // ----- any conversation -----------------------------------------------------

  /** A frame of at most 125 bytes from a client, with its masking key if it has one. */
  datatype Inbound = Inbound(first: byte, payload: seq<byte>, key: Option<seq<byte>>) {
    ghost predicate Sane() { |payload| <= 125 && (key.Some? ==> |key.value| == 4) }
  }

  ghost function InboundBytes(m: Inbound): seq<byte>
    requires m.Sane()
  {
    match m.key
    case Some(k) => EncodeMasked(m.first, m.payload, k)
    case None => [m.first, |m.payload|] + m.payload
  }

  ghost function InboundStream(ms: seq<Inbound>): seq<byte>
    requires forall i :: 0 <= i < |ms| ==> ms[i].Sane()
  {
    if ms == [] then [] else assert ms[0].Sane(); InboundBytes(ms[0]) + InboundStream(ms[1..])
  }

  /** Data (opcodes 0 to 2) without a mask, and a close (opcode 8), end the connection. */
  ghost predicate Ends(m: Inbound) { m.first % 16 == 8 || (m.key.None? && m.first % 16 <= 2) }

  /** The bytes a frame is answered with: code 1002 and a reason, code 1000, a pong with the same payload, or nothing. */
  ghost function Answer(m: Inbound): seq<seq<byte>>
    requires m.Sane()
  {
    if m.first % 16 == 8 then [[136, 2, 3, 232]]
    else if m.key.None? && m.first % 16 <= 2 then [[136, 28, 3, 234] + Ascii("unmasked client data frame")]
    else if m.first % 16 == 9 then [[138, |m.payload|] + m.payload]
    else []
  }

  /** The answers to a conversation, up to and including the frame that ends it. */
  ghost function Answers(ms: seq<Inbound>): seq<seq<byte>>
    requires forall i :: 0 <= i < |ms| ==> ms[i].Sane()
  {
    if ms == [] then [] else assert ms[0].Sane(); Answer(ms[0]) + if Ends(ms[0]) then [] else Answers(ms[1..])
  }

  lemma InboundParses(m: Inbound)
    requires m.Sane()
    ensures Parse(InboundBytes(m), true)
         == Complete(WsFrame(m.first >= 128, m.first % 16, m.key.Some?, m.payload), |InboundBytes(m)|)
  {
    if m.key.Some? {
      MaskedRoundTripIff(m.first, m.payload, m.key.value);
    } else {
      PlainParses(m.first, m.payload);
    }
  }

  lemma PlainParses(first: byte, p: seq<byte>)
    requires |p| <= 125
    ensures var buf := [first, |p|] + p; Parse(buf, true) == Complete(WsFrame(first >= 128, first % 16, false, p), |buf|)
  {
    ControlRoundTripIff(first, p, true);
    assert LowByte(|p|) == |p|;
  }

  lemma CloseBytes()
    ensures EncodeClose(1000, []) == [136, 2, 3, 232]
    ensures EncodeClose(1002, UNMASKED_REASON) == [136, 28, 3, 234] + Ascii("unmasked client data frame")
    ensures EncodeClose(1002, TOO_LARGE_REASON) == [136, 19, 3, 234] + Ascii("payload too large")
  {
    assert BigEndian(1000, 2) == [3, 232];
    assert BigEndian(1002, 2) == [3, 234];
    assert ClosePayload(1000, []) == [3, 232];
  }

  lemma HandleAnswers(c: Conn, m: Inbound)
    requires !c.closed && m.Sane()
    ensures var e := Handle(c, WsFrame(m.first >= 128, m.first % 16, m.key.Some?, m.payload));
            && e.written == c.written + Answer(m) && e.buf == c.buf
            && (e.closed <==> Ends(m)) && e.registered == (c.registered && !Ends(m))
  {
    CloseBytes();
  }

  lemma {:induction false} DriveAnswers(c: Conn, ms: seq<Inbound>)
    requires !c.closed && forall i :: 0 <= i < |ms| ==> ms[i].Sane()
    requires c.buf == InboundStream(ms)
    ensures Drive(c).written == c.written + Answers(ms)
    ensures Drive(c).closed <==> exists i :: 0 <= i < |ms| && Ends(ms[i])
    decreases |ms|
  {
    if ms != [] {
      var next := DriveAnswersFirst(c, ms);
      EndsSomewhere(ms);
      if Ends(ms[0]) {
        assert Drive(next) == next;
      } else {
        DriveAnswers(next, ms[1..]);
      }
    }
  }

  lemma EndsSomewhere(ms: seq<Inbound>)
    requires ms != []
    ensures (exists i :: 0 <= i < |ms| && Ends(ms[i])) <==> Ends(ms[0]) || exists i :: 0 <= i < |ms[1..]| && Ends(ms[1..][i])
  {
    if i :| 0 <= i < |ms| && Ends(ms[i]) {
      if i > 0 { assert ms[1..][i - 1] == ms[i]; }
    }
    if i :| 0 <= i < |ms[1..]| && Ends(ms[1..][i]) {
      assert ms[i + 1] == ms[1..][i];
    }
  }

  /** The loop's turn on the first frame. */
  lemma DriveAnswersFirst(c: Conn, ms: seq<Inbound>) returns (next: Conn)
    requires !c.closed && ms != [] && forall i :: 0 <= i < |ms| ==> ms[i].Sane()
    requires c.buf == InboundStream(ms)
    ensures Drive(c) == Drive(next) && next.buf == InboundStream(ms[1..]) && (next.closed <==> Ends(ms[0]))
    ensures ms[0].Sane() && next.written == c.written + Answer(ms[0])
    ensures |next.buf| < |c.buf|
  {
    var m, rest := ms[0], InboundStream(ms[1..]);
    assert m.Sane();
    var f := WsFrame(m.first >= 128, m.first % 16, m.key.Some?, m.payload);
    InboundParses(m);
    DriveOne(c, InboundBytes(m), rest, f);
    HandleAnswers(c.(buf := rest), m);
    next := Handle(c.(buf := rest), f);
  }

  /**
   Any conversation: whatever frames of at most 125 bytes a client sends, masked or
   not, and however they arrive, the server writes exactly the answers to them up to
   the first that ends the connection, and is closed iff one does.
   */
  lemma Conversation(ms: seq<Inbound>, chunks: seq<seq<byte>>)
    requires (forall i :: 0 <= i < |ms| ==> ms[i].Sane()) && Flatten(chunks) == InboundStream(ms)
    ensures var end := Feed(Conn([], [], false, true), chunks);
            && end.written == Answers(ms)
            && (end.closed <==> exists i :: 0 <= i < |ms| && Ends(ms[i])) && (end.registered <==> !end.closed)
  {
    var c := Conn([], [], false, true);
    RegisteredWhileOpen(c, chunks);
    FeedIsOneChunk(c, chunks);
    assert c.buf + Flatten(chunks) == Flatten(chunks);
    var whole := Conn(Flatten(chunks), [], false, true);
    DriveAnswers(whole, ms);
    assert whole.written + Answers(ms) == Answers(ms);
  }

  /** A 64-bit length above 2^53 - 1 is answered with a 1002 at once; the whole buffer is dropped. */
  lemma TooLargeCloses(c: Conn)
    requires !c.closed && Announced(c.buf).Some? && Announced(c.buf).value.0 == 10
    requires Announced(c.buf).value.1 > 0x1F_FFFF_FFFF_FFFF
    ensures Drive(c) == Conn([], c.written + [[136, 19, 3, 234] + Ascii("payload too large")], true, false)
  {
    ParseIsSpelled(c.buf, true);
    CloseBytes();
  }

  // ----- the test client's receive loop -------------------------------------

  /** What the client has shown, which pings it answered, and whether it is exiting. */
  datatype Client = Client(buf: seq<byte>, shown: seq<seq<byte>>, ponged: seq<seq<byte>>, exiting: bool)

  /** One turn of the client's loop on a complete frame. */
  function ClientTurn(c: Client, f: WsFrame, exitAfter: nat): Client {
    if f.opcode == TEXT then
      var e := c.(shown := c.shown + [f.payload]);
      e.(exiting := exitAfter != 0 && |e.shown| >= exitAfter)
    else if f.opcode == CLOSE then c.(exiting := true)
    else if f.opcode == PING then c.(ponged := c.ponged + [f.payload])
    else c
  }

  function ClientDrive(c: Client, exitAfter: nat): Client
    decreases |c.buf|
  {
    if c.exiting then c
    else match Parse(c.buf, false)
      case Complete(f, n) =>
        ParseAccounts(c.buf, false);
        ClientDrive(ClientTurn(c.(buf := c.buf[n..]), f, exitAfter), exitAfter)
      case _ => c
  }

  lemma ClientTurns(c: Client, f: WsFrame, n: nat, exitAfter: nat)
    requires !c.exiting && Parse(c.buf, false) == Complete(f, n)
    ensures n <= |c.buf|
    ensures ClientDrive(c, exitAfter) == ClientDrive(ClientTurn(c.(buf := c.buf[n..]), f, exitAfter), exitAfter)
  {
    ParseAccounts(c.buf, false);
  }

  function EncodeAll(texts: seq<seq<byte>>): seq<byte> {
    if texts == [] then [] else EncodeText(texts[0]) + EncodeAll(texts[1..])
  }

  lemma ClientShowsText(c: Client, text: seq<byte>, rest: seq<byte>, exitAfter: nat)
    requires !c.exiting && c.buf == EncodeText(text) + rest && |text| <= MAX_SAFE_INTEGER
    ensures var e := c.(buf := rest, shown := c.shown + [text]);
            ClientDrive(c, exitAfter)
            == if exitAfter != 0 && |e.shown| >= exitAfter then e.(exiting := true) else ClientDrive(e, exitAfter)
  {
    TextRoundTrip(text, rest, false);
    assert c.buf[|EncodeText(text)|..] == rest;
  }

  /**
   Any list of texts, in all three length forms, sent back to back, is shown by the
   client as exactly that list, cut at its --count limit if it has one.
   */
  lemma {:induction false} BroadcastRoundTrip(c: Client, texts: seq<seq<byte>>, exitAfter: nat)
    requires !c.exiting && c.buf == EncodeAll(texts)
    requires forall i :: 0 <= i < |texts| ==> |texts[i]| <= MAX_SAFE_INTEGER
    requires exitAfter != 0 ==> |c.shown| < exitAfter
    ensures var n := Quota(c, |texts|, exitAfter);
            ClientDrive(c, exitAfter)
            == Client(EncodeAll(texts[n..]), c.shown + texts[..n], c.ponged, exitAfter != 0 && |c.shown| + n >= exitAfter)
    decreases |texts|
  {
    if texts == [] {
      assert c.shown + texts[..0] == c.shown;
    } else {
      var e := c.(buf := EncodeAll(texts[1..]), shown := c.shown + [texts[0]]);
      ClientShowsText(c, texts[0], e.buf, exitAfter);
      var n := Quota(c, |texts|, exitAfter);
      CutAfterFirst(c.shown, texts, n);
      if exitAfter == 0 || |e.shown| < exitAfter {
        BroadcastRoundTrip(e, texts[1..], exitAfter);
      }
    }
  }

  /** How many of `available` texts the client shows before its --count limit. */
  function Quota(c: Client, available: nat, exitAfter: nat): (n: nat)
    requires exitAfter != 0 ==> |c.shown| < exitAfter
    ensures n <= available
  {
    if exitAfter == 0 then available else Min(available, exitAfter - |c.shown|)
  }

  lemma CutAfterFirst(shown: seq<seq<byte>>, texts: seq<seq<byte>>, n: nat)
    requires 1 <= n <= |texts|
    ensures shown + texts[..n] == shown + [texts[0]] + texts[1..][..n - 1]
    ensures texts[n..] == texts[1..][n - 1..]
  {
  }

  /** The data handler after the upgrade: bytes are appended even while exiting, but no longer parsed. */
  function ClientData(c: Client, chunk: seq<byte>, exitAfter: nat): Client {
    ClientDrive(c.(buf := c.buf + chunk), exitAfter)
  }

  function ClientFeed(c: Client, chunks: seq<seq<byte>>, exitAfter: nat): Client
    decreases |chunks|
  {
    if chunks == [] then c else ClientFeed(ClientData(c, chunks[0], exitAfter), chunks[1..], exitAfter)
  }

  ghost predicate SameClient(a: Client, b: Client) {
    a.shown == b.shown && a.ponged == b.ponged && a.exiting == b.exiting && (!a.exiting ==> a.buf == b.buf)
  }

  lemma {:induction false} ClientInTwoParts(c: Client, more: seq<byte>, exitAfter: nat)
    ensures SameClient(ClientData(ClientDrive(c, exitAfter), more, exitAfter), ClientData(c, more, exitAfter))
    decreases |c.buf|
  {
    var parsed := Parse(c.buf, false);
    if !c.exiting && parsed.Complete? {
      ParseStable(c.buf, more, false);
      ParseAccounts(c.buf, false);
      var n := parsed.consumed;
      var next := ClientTurn(c.(buf := c.buf[n..]), parsed.frame, exitAfter);
      assert (c.buf + more)[n..] == c.buf[n..] + more;
      ClientInTwoParts(next, more, exitAfter);
    }
  }

  lemma {:induction false} ClientFeedExiting(c: Client, chunks: seq<seq<byte>>, exitAfter: nat)
    requires c.exiting
    ensures SameClient(ClientFeed(c, chunks, exitAfter), c)
    decreases |chunks|
  {
    if chunks != [] {
      ClientFeedExiting(ClientData(c, chunks[0], exitAfter), chunks[1..], exitAfter);
    }
  }

  lemma ClientFeedStep(c: Client, chunks: seq<seq<byte>>, exitAfter: nat)
    requires chunks != []
    ensures ClientFeed(c, chunks, exitAfter)
            == ClientFeed(ClientDrive(c.(buf := c.buf + chunks[0]), exitAfter), chunks[1..], exitAfter)
    ensures ClientData(c, Flatten(chunks), exitAfter)
            == ClientData(c.(buf := c.buf + chunks[0]), Flatten(chunks[1..]), exitAfter)
  {
    assert c.buf + Flatten(chunks) == c.buf + chunks[0] + Flatten(chunks[1..]);
  }

  lemma {:induction false} ClientFeedIsOneChunk(c: Client, chunks: seq<seq<byte>>, exitAfter: nat)
    requires c == ClientDrive(c, exitAfter)
    ensures SameClient(ClientFeed(c, chunks, exitAfter), ClientData(c, Flatten(chunks), exitAfter))
    decreases |chunks|
  {
    if c.exiting {
      ClientFeedExiting(c, chunks, exitAfter);
    } else if chunks == [] {
      assert c.(buf := c.buf + []) == c;
    } else {
      var first := c.(buf := c.buf + chunks[0]);
      var rest := Flatten(chunks[1..]);
      ClientDriveIdempotent(first, exitAfter);
      ClientFeedIsOneChunk(ClientDrive(first, exitAfter), chunks[1..], exitAfter);
      ClientInTwoParts(first, rest, exitAfter);
      ClientFeedStep(c, chunks, exitAfter);
    }
  }

  lemma {:induction false} ClientDriveIdempotent(c: Client, exitAfter: nat)
    ensures ClientDrive(ClientDrive(c, exitAfter), exitAfter) == ClientDrive(c, exitAfter)
    decreases |c.buf|
  {
    var parsed := Parse(c.buf, false);
    if !c.exiting && parsed.Complete? {
      ParseAccounts(c.buf, false);
      ClientDriveIdempotent(ClientTurn(c.(buf := c.buf[parsed.consumed..]), parsed.frame, exitAfter), exitAfter);
    }
  }

  /**
   The broadcast, end to end: however the server's encoded texts are cut into
   chunks on the way, the client shows exactly the texts that were sent, in order
   (the first --count of them if that is set), and exits only at that count.
   */
  lemma BroadcastInChunks(texts: seq<seq<byte>>, chunks: seq<seq<byte>>, exitAfter: nat)
    requires Flatten(chunks) == EncodeAll(texts)
    requires forall i :: 0 <= i < |texts| ==> |texts[i]| <= MAX_SAFE_INTEGER
    ensures var end := ClientFeed(Client([], [], [], false), chunks, exitAfter);
            && end.shown == (if exitAfter == 0 then texts else texts[..Min(|texts|, exitAfter)])
            && end.ponged == []
            && (end.exiting <==> exitAfter != 0 && |texts| >= exitAfter)
            && (!end.exiting ==> end.buf == [])
  {
    var c := Client([], [], [], false);
    ClientFeedIsOneChunk(c, chunks, exitAfter);
    assert c.buf + Flatten(chunks) == EncodeAll(texts);
    var loaded := c.(buf := EncodeAll(texts));
    BroadcastRoundTrip(loaded, texts, exitAfter);
    var n := Quota(loaded, |texts|, exitAfter);
    assert [] + texts[..n] == texts[..n];
  }

  /** A frame of at most 125 bytes from the server. */
  datatype Outbound = Outbound(first: byte, payload: seq<byte>)

  ghost function OutboundStream(ms: seq<Outbound>): seq<byte>
    requires forall i :: 0 <= i < |ms| ==> |ms[i].payload| <= 125
  {
    if ms == [] then [] else [ms[0].first, |ms[0].payload|] + ms[0].payload + OutboundStream(ms[1..])
  }

  /** What the client makes of them: texts (opcode 1) are shown, pings (9) answered, a close (8) or the --count limit ends it. */
  ghost function Sees(c: Client, ms: seq<Outbound>, exitAfter: nat): (seq<seq<byte>>, seq<seq<byte>>, bool)
    decreases |ms|
  {
    if ms == [] then (c.shown, c.ponged, false)
    else
      var op, p := ms[0].first % 16, ms[0].payload;
      if op == 8 then (c.shown, c.ponged, true)
      else if op == 9 then Sees(c.(ponged := c.ponged + [p]), ms[1..], exitAfter)
      else if op != 1 then Sees(c, ms[1..], exitAfter)
      else if exitAfter > 0 && |c.shown| + 1 >= exitAfter then (c.shown + [p], c.ponged, true)
      else Sees(c.(shown := c.shown + [p]), ms[1..], exitAfter)
  }

  lemma SeesTurn(c: Client, f: WsFrame, exitAfter: nat)
    requires !c.exiting
    ensures ClientTurn(c, f, exitAfter) ==
            if f.opcode == 8 then c.(exiting := true)
            else if f.opcode == 9 then c.(ponged := c.ponged + [f.payload])
            else if f.opcode != 1 then c
            else c.(shown := c.shown + [f.payload], exiting := exitAfter > 0 && |c.shown| + 1 >= exitAfter)
  {
  }

  lemma SeesIgnoresBuffer(c: Client, d: Client, ms: seq<Outbound>, exitAfter: nat)
    requires c.shown == d.shown && c.ponged == d.ponged
    ensures Sees(c, ms, exitAfter) == Sees(d, ms, exitAfter)
    decreases |ms|
  {
    if ms != [] {
      var p := ms[0].payload;
      SeesIgnoresBuffer(c, d, ms[1..], exitAfter);
      SeesIgnoresBuffer(c.(ponged := c.ponged + [p]), d.(ponged := d.ponged + [p]), ms[1..], exitAfter);
      SeesIgnoresBuffer(c.(shown := c.shown + [p]), d.(shown := d.shown + [p]), ms[1..], exitAfter);
    }
  }

  lemma {:induction false} ClientDriveSees(c: Client, ms: seq<Outbound>, exitAfter: nat)
    requires !c.exiting && forall i :: 0 <= i < |ms| ==> |ms[i].payload| <= 125
    requires c.buf == OutboundStream(ms)
    ensures var e := ClientDrive(c, exitAfter); (e.shown, e.ponged, e.exiting) == Sees(c, ms, exitAfter)
    decreases |ms|
  {
    if ms != [] {
      var m, rest := ms[0], OutboundStream(ms[1..]);
      var enc, f := [m.first, LowByte(|m.payload|)] + m.payload, WsFrame(m.first >= 128, m.first % 16, false, m.payload);
      ControlRoundTripIff(m.first, m.payload, false);
      ParseStable(enc, rest, false);
      assert c.buf == enc + rest && c.buf[|enc|..] == rest;
      ClientTurns(c, f, |enc|, exitAfter);
      var next := ClientTurn(c.(buf := rest), f, exitAfter);
      SeesTurn(c.(buf := rest), f, exitAfter);
      if !next.exiting {
        ClientDriveSees(next, ms[1..], exitAfter);
        SeesIgnoresBuffer(next, next.(buf := c.buf), ms[1..], exitAfter);
      }
    }
  }

  /** The client in any conversation: whatever frames of at most 125 bytes the server sends, however they arrive. */
  lemma ClientConversation(ms: seq<Outbound>, chunks: seq<seq<byte>>, exitAfter: nat)
    requires (forall i :: 0 <= i < |ms| ==> |ms[i].payload| <= 125) && Flatten(chunks) == OutboundStream(ms)
    ensures var start := Client([], [], [], false);
            var end := ClientFeed(start, chunks, exitAfter);
            (end.shown, end.ponged, end.exiting) == Sees(start, ms, exitAfter)
  {
    var c := Client([], [], [], false);
    ClientFeedIsOneChunk(c, chunks, exitAfter);
    assert c.buf + Flatten(chunks) == Flatten(chunks);
    ClientDriveSees(c.(buf := Flatten(chunks)), ms, exitAfter);
    SeesIgnoresBuffer(c, c.(buf := Flatten(chunks)), ms, exitAfter);
  }

  // ----- both programs together ---------------------------------------------

  /** The key the client draws for its n-th frame. */
  type Key = k: seq<byte> | |k| == 4 witness [0, 0, 0, 0]

  /** A masked pong per answered ping. */
  function Pongs(ponged: seq<seq<byte>>, keys: nat -> Key): seq<seq<byte>> {
    if ponged == [] then []
    else
      var n := |ponged| - 1;
      Pongs(ponged[..n], keys) + [EncodeMaskedPong(ponged[n], keys(n))]
  }

  /** Everything the client has written: its pongs, and a masked close 1000 once it is exiting. */
  function Replies(ponged: seq<seq<byte>>, exiting: bool, keys: nat -> Key): seq<seq<byte>> {
    Pongs(ponged, keys) + if exiting then [EncodeMaskedClose(1000, [], keys(|ponged|))] else []
  }

  lemma {:induction false} PongCount(ponged: seq<seq<byte>>, keys: nat -> Key)
    ensures |Pongs(ponged, keys)| == |ponged|
  {
    if ponged != [] {
      PongCount(ponged[..|ponged| - 1], keys);
    }
  }

  lemma {:induction false} PongAt(ponged: seq<seq<byte>>, keys: nat -> Key, i: nat)
    requires i < |ponged|
    ensures |Pongs(ponged, keys)| == |ponged| && Pongs(ponged, keys)[i] == EncodeMaskedPong(ponged[i], keys(i))
  {
    PongCount(ponged, keys);
    PongCount(ponged[..|ponged| - 1], keys);
    if i < |ponged| - 1 {
      PongAt(ponged[..|ponged| - 1], keys, i);
    }
  }

  /** The server reads what the client wrote: a masked pong per ping with that ping's payload, then a close with code 1000 iff it exits. */
  lemma RepliesReadBack(ponged: seq<seq<byte>>, exiting: bool, keys: nat -> Key)
    requires forall i :: 0 <= i < |ponged| ==> |ponged[i]| <= 125
    ensures var r := Replies(ponged, exiting, keys);
            && |r| == |ponged| + (if exiting then 1 else 0)
            && (forall i :: 0 <= i < |ponged| ==> Parse(r[i], true) == Complete(WsFrame(true, 10, true, ponged[i]), |r[i]|))
            && (exiting ==> Parse(r[|ponged|], true) == Complete(WsFrame(true, 8, true, [3, 232]), |r[|ponged|]|))
  {
    PongCount(ponged, keys);
    forall i | 0 <= i < |ponged|
      ensures Parse(Pongs(ponged, keys)[i], true) == Complete(WsFrame(true, 10, true, ponged[i]), |Pongs(ponged, keys)[i]|)
    {
      PongReadsBack(ponged, keys, i);
    }
    CloseReadsBack(keys(|ponged|));
  }

  lemma PongReadsBack(ponged: seq<seq<byte>>, keys: nat -> Key, i: nat)
    requires i < |ponged| && |ponged[i]| <= 125
    ensures |Pongs(ponged, keys)| == |ponged|
    ensures var r := Pongs(ponged, keys)[i]; Parse(r, true) == Complete(WsFrame(true, 10, true, ponged[i]), |r|)
  {
    PongAt(ponged, keys, i);
    MaskedRoundTripIff(138, ponged[i], keys(i));
  }

  lemma CloseReadsBack(key: Key)
    ensures var r := EncodeMaskedClose(1000, [], key); Parse(r, true) == Complete(WsFrame(true, 8, true, [3, 232]), |r|)
  {
    assert ClosePayload(1000, []) == BigEndian(1000, 2) == [3, 232];
    MaskedRoundTripIff(136, ClosePayload(1000, []), key);
  }

  lemma {:induction false} PongStreamSnoc(pongs: seq<MaskedPong>, last: MaskedPong)
    requires Sendable(last) && forall i :: 0 <= i < |pongs| ==> Sendable(pongs[i])
    ensures PongStream(pongs + [last]) == PongStream(pongs) + EncodeMaskedPong(last.payload, last.key)
    decreases |pongs|
  {
    var all := pongs + [last];
    if pongs == [] {
      assert all[1..] == [];
    } else {
      assert all[1..] == pongs[1..] + [last];
      PongStreamSnoc(pongs[1..], last);
    }
  }

  /** The client's pongs as one stream of bytes. */
  lemma {:induction false} PongsAreAStream(ponged: seq<seq<byte>>, keys: nat -> Key) returns (pongs: seq<MaskedPong>)
    requires forall i :: 0 <= i < |ponged| ==> |ponged[i]| <= 125
    ensures forall i :: 0 <= i < |pongs| ==> Sendable(pongs[i])
    ensures Flatten(Pongs(ponged, keys)) == PongStream(pongs)
    decreases |ponged|
  {
    if ponged == [] {
      pongs := [];
    } else {
      var n := |ponged| - 1;
      var before := PongsAreAStream(ponged[..n], keys);
      var last := MaskedPong(ponged[n], keys(n));
      var enc := EncodeMaskedPong(ponged[n], keys(n));
      pongs := before + [last];
      PongStreamSnoc(before, last);
      var one: seq<seq<byte>> := [enc];
      FlattenAppend(Pongs(ponged[..n], keys), one);
      assert one[1..] == [] && Flatten(one) == enc;
    }
  }

  lemma {:induction false} FlattenAppend(a: seq<seq<byte>>, b: seq<seq<byte>>)
    ensures Flatten(a + b) == Flatten(a) + Flatten(b)
  {
    if a == [] {
      assert a + b == b;
    } else {
      assert (a + b)[1..] == a[1..] + b;
      FlattenAppend(a[1..], b);
    }
  }

  /**
   What the server makes of everything a client wrote, however it arrives: as long
   as the pings it answered had at most 125 bytes, the connection is closed iff the
   client is exiting, and the server's only write is then the one close 1000.
   */
  lemma ServerReadsReplies(c: Client, keys: nat -> Key, chunks: seq<seq<byte>>)
    requires forall i :: 0 <= i < |c.ponged| ==> |c.ponged[i]| <= 125
    requires Flatten(chunks) == Flatten(Replies(c.ponged, c.exiting, keys))
    ensures var end := Feed(Conn([], [], false, true), chunks);
            && (end.closed <==> c.exiting) && (end.registered <==> !c.exiting)
            && end.written == (if c.exiting then [EncodeClose(1000, [])] else [])
  {
    var start := Conn([], [], false, true);
    var bytes := Flatten(chunks);
    var pongs := PongsAreAStream(c.ponged, keys);
    FeedIsOneChunk(start, chunks);
    assert start.buf + bytes == bytes;
    if c.exiting {
      var close := EncodeMaskedClose(1000, [], keys(|c.ponged|));
      var one: seq<seq<byte>> := [close];
      FlattenAppend(Pongs(c.ponged, keys), one);
      assert one[1..] == [] && Flatten(one) == close + [];
      DriveSkipsPongs(start.(buf := bytes), pongs, close + []);
      DriveAnswersClose(start.(buf := close + []), 1000, [], keys(|c.ponged|), []);
    } else {
      assert Pongs(c.ponged, keys) + [] == Pongs(c.ponged, keys);
      assert bytes == PongStream(pongs) + [];
      DriveSkipsPongs(start.(buf := bytes), pongs, []);
    }
  }

  // ----- the code -----------------------------------------------------------

  /** The unmasking loop shared by both parsers and the masking encoders. */
  method XorLoop(data: seq<byte>, key: seq<byte>) returns (out: seq<byte>)
    requires |key| == 4
    ensures out == Mask(data, key)
    ensures |out| == |data| && forall i :: 0 <= i < |data| ==> out[i] == Xor(data[i], key[i % 4])
  {
    out := [];
    for i := 0 to |data|
      invariant out == Mask(data[..i], key)
    {
      out := out + [Xor(data[i], key[i % 4])];
      assert data[..i + 1][..i] == data[..i];
    }
    assert data[..|data|] == data;
    forall i | 0 <= i < |data| ensures out[i] == Xor(data[i], key[i % 4]) {
      MaskAt(data, key, i);
    }
  }

  /** encodeMaskedPongFrame and encodeMaskedCloseFrame: header, key, payload xored in a loop. */
  method MaskedFrame(first: byte, p: seq<byte>, key: seq<byte>) returns (frame: seq<byte>)
    requires |key| == 4
    ensures frame == EncodeMasked(first, p, key)
  {
    var masked := XorLoop(p, key);
    return [first, 128 + |p| % 128] + key + masked;
  }

  /** The length block of tryParseFrame. */
  method ReadLength(buf: seq<byte>, limited: bool) returns (r: Length)
    requires |buf| >= 2
    ensures r == LengthField(buf, limited)
  {
    var payloadLen: nat := buf[1] % 128;
    var cursor: nat := 2;
    if payloadLen == 126 {
      if |buf| < cursor + 2 {
        return Short;
      }
      payloadLen := FromBigEndian(buf[cursor..cursor + 2]);
      cursor := cursor + 2;
    } else if payloadLen == 127 {
      if |buf| < cursor + 8 {
        return Short;
      }
      var big := FromBigEndian(buf[cursor..cursor + 8]);
      if limited && big > MAX_SAFE_INTEGER {
        return Huge;
      }
      payloadLen := big;
      cursor := cursor + 8;
    }
    return Sized(payloadLen, cursor);
  }

  /** The payload block of tryParseFrame: a copy, unmasked if there is a key. */
  method TakePayload(b0: byte, b1: byte, key: seq<byte>, data: seq<byte>) returns (frame: WsFrame)
    requires |key| == KeyBytes(b1)
    ensures frame == FrameWith(b0, b1, key, data)
  {
    var fin, opcode, masked := b0 >= 128, b0 % 16, b1 >= 128;
    var payload := data;
    if masked {
      payload := XorLoop(data, key);
    }
    return WsFrame(fin, opcode, masked, payload);
  }

  /** The rest of tryParseFrame, from the cursor its length block leaves. */
  method ReadBody(buf: seq<byte>, at: nat, payloadLen: nat) returns (r: Parsed)
    requires |buf| >= 2 && 2 <= at
    ensures r == ParseBody(buf, at, payloadLen)
  {
    var cursor := at;
    if buf[1] >= 128 {
      if |buf| < cursor + 4 {
        return NeedMore;
      }
      cursor := cursor + 4;
    }
    if |buf| < cursor + payloadLen {
      return NeedMore;
    }
    var frame := TakePayload(buf[0], buf[1], buf[at..cursor], buf[cursor..cursor + payloadLen]);
    return Complete(frame, cursor + payloadLen);
  }

  /** tryParseFrame. */
  method TryParseFrame(buf: seq<byte>, limited: bool) returns (r: Parsed)
    ensures r == Parse(buf, limited)
  {
    if |buf| < 2 {
      return NeedMore;
    }
    var length := ReadLength(buf, limited);
    match length
    case Short => return NeedMore;
    case Huge => return TooLarge;
    case Sized(len, after) => r := ReadBody(buf, after, len);
  }

  class WsClient {
    var buf: seq<byte>
    var written: seq<seq<byte>>
    var closed: bool
    var registered: bool

    ghost function Snapshot(): Conn
      reads this
    {
      Conn(buf, written, closed, registered)
    }

    constructor ()
      ensures Snapshot() == Conn([], [], false, true)
    {
      buf, written, closed, registered := [], [], false, true;
    }

    method SendCloseAndShutdown(code: u16, reason: seq<byte>)
      modifies this
      ensures Snapshot() == if old(closed) then old(Snapshot()) else Shut(old(Snapshot()), code, reason)
    {
      if closed {
        return;
      }
      written := written + [EncodeClose(code, reason)];
      closed := true;
      registered := false;
    }

    /** _onData: append, then parse and handle frames until more bytes are needed or the connection closes. */
    method Receive(chunk: seq<byte>)
      modifies this
      ensures Snapshot() == OnData(old(Snapshot()), chunk)
    {
      if closed {
        return;
      }
      buf := if |buf| == 0 then chunk else buf + chunk;
      assert buf == old(buf) + chunk;
      ghost var result := Drive(Snapshot());
      while !closed
        invariant Drive(Snapshot()) == result
        decreases |buf|, !closed
      {
        var parsed := TryParseFrame(buf, true);
        if parsed.NeedMore? {
          break;
        }
        if parsed.TooLarge? {
          buf := [];
          SendCloseAndShutdown(1002, TOO_LARGE_REASON);
          return;
        }
        ParseAccounts(buf, true);
        buf := buf[parsed.consumed..];
        var frame := parsed.frame;
        if !frame.masked && (frame.opcode == TEXT || frame.opcode == BINARY || frame.opcode == CONT) {
          SendCloseAndShutdown(1002, UNMASKED_REASON);
          return;
        }
        if frame.opcode == CLOSE {
          SendCloseAndShutdown(1000, []);
          return;
        }
        if frame.opcode == PING {
          written := written + [EncodePong(frame.payload)];
        }
      }
    }
  }

  /** The test client after its upgrade. */
  class TestClient {
    var buf: seq<byte>
    var shown: seq<seq<byte>>
    var exiting: bool
    var written: seq<seq<byte>>
    ghost var ponged: seq<seq<byte>>
    const keys: nat -> Key

    ghost function Snapshot(): Client
      reads this
    {
      Client(buf, shown, ponged, exiting)
    }

    /** The bytes on the wire are the replies the run calls for. */
    ghost predicate Valid()
      reads this
    {
      written == Replies(ponged, exiting, keys)
    }

    constructor (keys: nat -> Key)
      ensures Valid() && this.keys == keys && Snapshot() == Client([], [], [], false)
    {
      buf, shown, ponged, exiting, written := [], [], [], false, [];
      this.keys := keys;
    }

    method Exit()
      requires Valid()
      modifies this
      ensures Valid() && Snapshot() == old(Snapshot()).(exiting := true)
    {
      if exiting {
        return;
      }
      PongCount(ponged, keys);
      exiting := true;
      var close := MaskedFrame(136, ClosePayload(1000, []), keys(|written|));
      written := written + [close];
    }

    method AnswerPing(payload: seq<byte>)
      requires Valid() && !exiting
      modifies this
      ensures Valid() && Snapshot() == old(Snapshot()).(ponged := old(ponged) + [payload])
    {
      PongCount(ponged, keys);
      var pong := MaskedFrame(138, payload, keys(|written|));
      ponged := ponged + [payload];
      written := written + [pong];
      assert ponged[..|ponged| - 1] == old(ponged);
    }

    /** What the loop does with one complete frame; after an exit it ends. */
    method Turn(frame: WsFrame, exitAfter: nat)
      requires Valid() && !exiting
      modifies this
      ensures Valid() && buf == old(buf)
      ensures Snapshot() == ClientTurn(old(Snapshot()), frame, exitAfter)
    {
      if frame.opcode == TEXT {
        shown := shown + [frame.payload];
        if exitAfter != 0 && |shown| >= exitAfter {
          Exit();
        }
      } else if frame.opcode == CLOSE {
        Exit();
      } else if frame.opcode == PING {
        AnswerPing(frame.payload);
      }
    }

    /** The data handler's loop. */
    method Receive(chunk: seq<byte>, exitAfter: nat)
      requires Valid()
      modifies this
      ensures Valid() && Snapshot() == ClientData(old(Snapshot()), chunk, exitAfter)
    {
      buf := if |buf| == 0 then chunk else buf + chunk;
      assert buf == old(buf) + chunk;
      ghost var result := ClientDrive(Snapshot(), exitAfter);
      while !exiting
        invariant Valid() && ClientDrive(Snapshot(), exitAfter) == result
        decreases |buf|
      {
        var parsed := TryParseFrame(buf, false);
        if !parsed.Complete? {
          break;
        }
        ParseAccounts(buf, false);
        ClientTurns(Snapshot(), parsed.frame, parsed.consumed, exitAfter);
        buf := buf[parsed.consumed..];
        Turn(parsed.frame, exitAfter);
      }
    }
  }
}
