/** RouterFrame v2: 64 bytes, little-endian fields at fixed offsets, a 32-byte inline payload. */
module Frame {
  import opened Bytes

  const FRAME_SIZE: nat := 64
  const PAYLOAD_AT: nat := 32
  const PAYLOAD_SIZE: nat := 32
  const SIDEBAND_NONE: u16 := 0xFFFF
  const ENDPOINT_INVALID: byte := 0
  const ENDPOINT_SERVER: byte := 255

  type FrameBytes = s: seq<byte> | |s| == FRAME_SIZE witness seq(FRAME_SIZE, _ => 0)

  datatype Field = Source | Flags | TopicId | SeqNo | TimestampNs | SidebandIdx | SidebandLen | SidebandSeq {

    function Offset(): nat {
      match this
      case Source => 0 case Flags => 1 case TopicId => 2 case SeqNo => 4
      case TimestampNs => 8 case SidebandIdx => 16 case SidebandLen => 18 case SidebandSeq => 24
    }

    function Width(): nat {
      match this
      case Source => 1 case Flags => 1 case TopicId => 2 case SeqNo => 4
      case TimestampNs => 8 case SidebandIdx => 2 case SidebandLen => 6 case SidebandSeq => 8
    }
  }

  function Get(f: FrameBytes, field: Field): nat {
    FromLittleEndian(f[field.Offset()..field.Offset() + field.Width()])
  }

  /** Stores the low-order bytes of `v`; every setter but sideband_len gets a value that fits its field. */
  function Set(f: FrameBytes, field: Field, v: nat): (r: FrameBytes) {
    Splice(f, field.Offset(), LittleEndian(v % Pow256(field.Width()), field.Width()))
  }

  // ----- the format, byte by byte -------------------------------------------

  /** Every getter is the little-endian number in its own bytes of the 64. */
  lemma FieldsAreBytes(f: FrameBytes)
    ensures Get(f, Source) == f[0] && Get(f, Flags) == f[1]
    ensures Get(f, TopicId) == Le2(f[2], f[3])
    ensures Get(f, SeqNo) == Le4(f[4], f[5], f[6], f[7])
    ensures Get(f, TimestampNs)
         == Le8(f[8], f[9], f[10], f[11], f[12], f[13], f[14], f[15])
    ensures Get(f, SidebandIdx) == Le2(f[16], f[17])
    ensures Get(f, SidebandLen)
         == Le6(f[18], f[19], f[20], f[21], f[22], f[23])
    ensures Get(f, SidebandSeq)
         == Le8(f[24], f[25], f[26], f[27], f[28], f[29], f[30], f[31])
  {
    assert f[0..1][1..] == [] && f[1..2][1..] == [];
    TwoBytes(f[2..4]);
    FourBytes(f[4..8]);
    EightBytes(f[8..16]);
    TwoBytes(f[16..18]);
    FourBytes(f[18..24]);
    TwoBytes(f[18..24][4..]);
    EightBytes(f[24..32]);
  }

  /** The bytes that differ after a setter are its own, and they hold the new value, cut to the field. */
  ghost predicate Written(f: FrameBytes, r: FrameBytes, field: Field, v: nat) {
    match field
    case Source => r[1..] == f[1..] && r[0] == v % 0x100
    case Flags => r[..1] == f[..1] && r[2..] == f[2..] && r[1] == v % 0x100
    case TopicId => r[..2] == f[..2] && r[4..] == f[4..] && Le2(r[2], r[3]) == v % 0x1_0000
    case SeqNo =>
      && r[..4] == f[..4] && r[8..] == f[8..]
      && Le4(r[4], r[5], r[6], r[7]) == v % 0x1_0000_0000
    case TimestampNs =>
      && r[..8] == f[..8] && r[16..] == f[16..]
      && Le8(r[8], r[9], r[10], r[11], r[12], r[13], r[14], r[15])
         == v % 0x1_0000_0000_0000_0000
    case SidebandIdx => r[..16] == f[..16] && r[18..] == f[18..] && Le2(r[16], r[17]) == v % 0x1_0000
    case SidebandLen =>
      && r[..18] == f[..18] && r[24..] == f[24..]
      && Le6(r[18], r[19], r[20], r[21], r[22], r[23])
         == v % 0x1_0000_0000_0000
    case SidebandSeq =>
      && r[..24] == f[..24] && r[32..] == f[32..]
      && Le8(r[24], r[25], r[26], r[27], r[28], r[29], r[30], r[31])
         == v % 0x1_0000_0000_0000_0000
  }

  lemma SetWrites(f: FrameBytes, field: Field, v: nat)
    ensures Written(f, Set(f, field, v), field, v)
  {
    WordSizes();
    GetAfterSet(f, field, v);
    FieldsAreBytes(Set(f, field, v));
    SetIsLocal(f, field, v);
  }

  lemma SetIsLocal(f: FrameBytes, field: Field, v: nat)
    ensures var r := Set(f, field, v);
            r[..field.Offset()] == f[..field.Offset()] && r[field.Offset() + field.Width()..] == f[field.Offset() + field.Width()..]
  {
  }

  lemma GetAfterSet(f: FrameBytes, field: Field, v: nat)
    ensures Get(Set(f, field, v), field) == v % Pow256(field.Width())
  {
    LittleEndianRoundTrip(v % Pow256(field.Width()), field.Width());
  }

  lemma GetAfterOtherSet(f: FrameBytes, field: Field, other: Field, v: nat)
    requires field != other
    ensures Get(Set(f, other, v), field) == Get(f, field)
  {
    SpliceElsewhere(f, other.Offset(), LittleEndian(v % Pow256(other.Width()), other.Width()),
                    field.Offset(), field.Offset() + field.Width());
  }

  // ----- payload ------------------------------------------------------------

  function Padded(p: seq<byte>): (r: seq<byte>)
    requires |p| <= PAYLOAD_SIZE
    ensures |r| == PAYLOAD_SIZE
  {
    p + seq(PAYLOAD_SIZE - |p|, _ => 0)
  }

  function SetPayload(f: FrameBytes, p: seq<byte>): FrameBytes
    requires |p| <= PAYLOAD_SIZE
  {
    Splice(f, PAYLOAD_AT, Padded(p))
  }

  function StripNuls(s: seq<byte>): seq<byte> {
    if s != [] && s[|s| - 1] == 0 then StripNuls(s[..|s| - 1]) else s
  }

  function Payload(f: FrameBytes): seq<byte> {
    StripNuls(f[PAYLOAD_AT..])
  }

  lemma {:induction false} StripAppendedNuls(p: seq<byte>, k: nat)
    ensures StripNuls(p + seq(k, _ => 0)) == StripNuls(p)
  {
    var s := p + seq(k, _ => 0);
    if k > 0 {
      assert s[..|s| - 1] == p + seq(k - 1, _ => 0);
      StripAppendedNuls(p, k - 1);
    } else {
      assert s == p;
    }
  }

  lemma {:induction false} StripOnlyStrips(s: seq<byte>)
    ensures |StripNuls(s)| <= |s|
    ensures StripNuls(s) == s <==> (s == [] || s[|s| - 1] != 0)
  {
    if s != [] && s[|s| - 1] == 0 {
      StripOnlyStrips(s[..|s| - 1]);
    }
  }

  /** set_payload leaves bytes 0..31, copies the payload from byte 32 on and zeroes what is left of the 64. */
  lemma PayloadBytes(f: FrameBytes, p: seq<byte>)
    requires |p| <= 32
    ensures var r := SetPayload(f, p);
            && (forall j :: 0 <= j < 32 ==> r[j] == f[j])
            && (forall j :: 0 <= j < |p| ==> r[32 + j] == p[j])
            && (forall j :: 32 + |p| <= j < 64 ==> r[j] == 0)
  {
    var r := SetPayload(f, p);
    PayloadIsPadded(f, p);
    forall j | 0 <= j < 32 ensures r[32 + j] == Padded(p)[j] {
      assert r[PAYLOAD_AT..][j] == r[32 + j];
    }
  }

  lemma PayloadIsPadded(f: FrameBytes, p: seq<byte>)
    requires |p| <= PAYLOAD_SIZE
    ensures SetPayload(f, p)[PAYLOAD_AT..] == Padded(p)
  {
  }

  lemma StripPadding(p: seq<byte>)
    requires |p| <= PAYLOAD_SIZE
    ensures StripNuls(Padded(p)) == StripNuls(p)
  {
    StripAppendedNuls(p, PAYLOAD_SIZE - |p|);
  }

  /** Reading back a payload gives the written bytes without trailing NULs, hence intact iff it had none. */
  lemma PayloadRoundTrip(f: FrameBytes, p: seq<byte>)
    requires |p| <= PAYLOAD_SIZE
    ensures Payload(SetPayload(f, p)) == StripNuls(p)
    ensures Payload(SetPayload(f, p)) == p <==> (p == [] || p[|p| - 1] != 0)
  {
    PayloadIsPadded(f, p);
    StripPadding(p);
    StripOnlyStrips(p);
  }

  lemma PayloadAndFieldsAreSeparate(f: FrameBytes, field: Field, v: nat, p: seq<byte>)
    requires |p| <= PAYLOAD_SIZE
    ensures Payload(Set(f, field, v)) == Payload(f)
    ensures Get(SetPayload(f, p), field) == Get(f, field)
  {
    SpliceElsewhere(f, field.Offset(), LittleEndian(v % Pow256(field.Width()), field.Width()), PAYLOAD_AT, FRAME_SIZE);
    assert Set(f, field, v)[PAYLOAD_AT..] == Set(f, field, v)[PAYLOAD_AT..FRAME_SIZE];
    assert f[PAYLOAD_AT..] == f[PAYLOAD_AT..FRAME_SIZE];
    SpliceElsewhere(f, PAYLOAD_AT, Padded(p), field.Offset(), field.Offset() + field.Width());
  }

  // ----- any sequence of setter calls ---------------------------------------

  datatype Write = WriteField(field: Field, v: nat) | WritePayload(p: seq<byte>)

  /** An oversized payload makes set_payload throw and leaves the frame alone. */
  function Apply(f: FrameBytes, w: Write): FrameBytes {
    match w
    case WriteField(field, v) => Set(f, field, v)
    case WritePayload(p) => if |p| > PAYLOAD_SIZE then f else SetPayload(f, p)
  }

  function ApplyAll(f: FrameBytes, ws: seq<Write>): FrameBytes
    decreases |ws|
  {
    if ws == [] then f else ApplyAll(Apply(f, ws[0]), ws[1..])
  }

  /** The value last written to `field`, or `initial` if it was never written. */
  function LastWritten(ws: seq<Write>, field: Field, initial: nat): nat {
    if ws == [] then initial
    else LastWritten(ws[1..], field,
                     if ws[0].WriteField? && ws[0].field == field then ws[0].v % Pow256(field.Width()) else initial)
  }

  function LastPayload(ws: seq<Write>, initial: seq<byte>): seq<byte> {
    if ws == [] then initial
    else LastPayload(ws[1..], if ws[0].WritePayload? && |ws[0].p| <= PAYLOAD_SIZE then StripNuls(ws[0].p) else initial)
  }

  /** After any setter calls in any order, every getter returns what was last written to its own field. */
  lemma {:induction false} GettersReturnLastWrite(f: FrameBytes, ws: seq<Write>, field: Field)
    ensures Get(ApplyAll(f, ws), field) == LastWritten(ws, field, Get(f, field))
    ensures Payload(ApplyAll(f, ws)) == LastPayload(ws, Payload(f))
    decreases |ws|
  {
    if ws != [] {
      match ws[0] {
        case WriteField(written, v) =>
          PayloadAndFieldsAreSeparate(f, written, v, []);
          if written == field { GetAfterSet(f, field, v); } else { GetAfterOtherSet(f, field, written, v); }
        case WritePayload(p) =>
          if |p| <= PAYLOAD_SIZE {
            PayloadRoundTrip(f, p);
            PayloadAndFieldsAreSeparate(f, field, 0, p);
          }
      }
      GettersReturnLastWrite(Apply(f, ws[0]), ws[1..], field);
    }
  }

  // ----- what the router reads and stamps -----------------------------------

  function Topic(f: FrameBytes): (t: u16)
  {
    WordSizes();
    FromLittleEndianBound(f[2..4]);
    Get(f, TopicId)
  }

  function SeqOf(f: FrameBytes): (q: u32)
  {
    WordSizes();
    FromLittleEndianBound(f[4..8]);
    Get(f, SeqNo)
  }

  /** What routing and numbering read: the little-endian numbers in bytes 2..3 and 4..7, and bits 4..6 of byte 1. */
  lemma TopicSeqPriority(f: FrameBytes)
    ensures Topic(f) == Le2(f[2], f[3])
    ensures SeqOf(f) == Le4(f[4], f[5], f[6], f[7])
    ensures f[1] == f[1] % 0x10 + 0x10 * Priority(f) + 0x80 * (f[1] / 0x80)
  {
    FieldsAreBytes(f);
  }

  /** Bits 4..6 of the flags byte. */
  function Priority(f: FrameBytes): (p: nat)
    ensures p < 8
  {
    (f[1] / 16) % 8
  }

  function Stamp(f: FrameBytes, source: byte, timestamp: u64): FrameBytes {
    Set(Set(f, Source, source), TimestampNs, timestamp)
  }

  /** The timestamp is the number in bytes 8..15. */
  lemma StampTime(f: FrameBytes, source: byte, timestamp: u64)
    ensures var r := Stamp(f, source, timestamp); Le8(r[8], r[9], r[10], r[11], r[12], r[13], r[14], r[15]) == timestamp
  {
    SetWrites(Set(f, Source, source), TimestampNs, timestamp);
  }

  /** Stamping touches byte 0 and bytes 8..15 only, so routing and numbering are unaffected. */
  lemma StampSpec(f: FrameBytes, source: byte, timestamp: u64)
    ensures var r := Stamp(f, source, timestamp);
            && r[0] == source
            && Get(r, TimestampNs) == timestamp
            && (forall j :: 0 < j < FRAME_SIZE && !(8 <= j < 16) ==> r[j] == f[j])
            && Topic(r) == Topic(f) && SeqOf(r) == SeqOf(f) && Priority(r) == Priority(f)
  {
    WordSizes();
    var g := Set(f, Source, source);
    GetAfterSet(g, TimestampNs, timestamp);
    assert LittleEndian(source, 1) == [source];
    GetAfterOtherSet(f, TopicId, Source, source);
    GetAfterOtherSet(g, TopicId, TimestampNs, timestamp);
    GetAfterOtherSet(f, SeqNo, Source, source);
    GetAfterOtherSet(g, SeqNo, TimestampNs, timestamp);
  }

  // ----- the frame as the mutable buffer the code uses ----------------------

  class RouterFrame {
    const bytes: array<byte>

    ghost predicate Valid() { bytes.Length == FRAME_SIZE }

    constructor ()
      ensures Valid() && fresh(bytes) && bytes[..] == seq(FRAME_SIZE, _ => 0)
    {
      bytes := new byte[FRAME_SIZE](_ => 0);
    }

    method CopyAt(at: nat, data: seq<byte>)
      requires at + |data| <= bytes.Length
      modifies bytes
      ensures bytes[..] == Splice(old(bytes[..]), at, data)
    {
      ghost var was := bytes[..];
      for k := 0 to |data|
        invariant forall j :: 0 <= j < k ==> bytes[at + j] == data[j]
        invariant forall j :: 0 <= j < bytes.Length && !(at <= j < at + k) ==> bytes[j] == was[j]
      {
        bytes[at + k] := data[k];
      }
      ghost var now, want := bytes[..], Splice(was, at, data);
      assert now[at..at + |data|] == want[at..at + |data|];
      forall j | 0 <= j < |now| ensures now[j] == want[j] {
        if at <= j < at + |data| {
          assert want[j] == want[at..at + |data|][j - at];
        }
      }
    }

    method SetField(field: Field, v: nat)
      requires Valid()
      modifies bytes
      ensures bytes[..] == Set(old(bytes[..]), field, v)
      ensures Written(old(bytes[..]), bytes[..], field, v)
    {
      SetWrites(bytes[..], field, v);
      CopyAt(field.Offset(), LittleEndian(v % Pow256(field.Width()), field.Width()));
    }

    /** init(): a zeroed frame with its source set and no sideband. */
    method Init(source: byte)
      requires Valid()
      modifies bytes
      ensures bytes[..] == Fresh(source)
      ensures bytes[0] == source && bytes[16] == bytes[17] == 0xFF
      ensures forall j :: 1 <= j < 64 && j != 16 && j != 17 ==> bytes[j] == 0
    {
      FreshBytes(source);
      CopyAt(0, seq(FRAME_SIZE, _ => 0));
      assert bytes[..] == seq(FRAME_SIZE, _ => 0);
      SetField(Source, source);
      SetField(SidebandIdx, SIDEBAND_NONE);
    }

    /** set_payload: throws (returns false) on more than 32 bytes, before touching the frame. */
    method WritePayloadBytes(p: seq<byte>) returns (ok: bool)
      requires Valid()
      modifies bytes
      ensures ok <==> |p| <= PAYLOAD_SIZE
      ensures bytes[..] == Apply(old(bytes[..]), WritePayload(p))
      ensures ok ==> bytes[..32] == old(bytes[..32]) && bytes[32..32 + |p|] == p && forall j :: 32 + |p| <= j < 64 ==> bytes[j] == 0
    {
      if |p| > PAYLOAD_SIZE {
        return false;
      }
      ghost var was := bytes[..];
      CopyAt(PAYLOAD_AT, seq(PAYLOAD_SIZE, _ => 0));
      CopyAt(PAYLOAD_AT, p);
      assert bytes[..] == SetPayload(was, p);
      PayloadBytes(was, p);
      return true;
    }

    /** payload(): the trimming loop. */
    method ReadPayload() returns (p: seq<byte>)
      requires Valid()
      ensures p == Payload(bytes[..])
    {
      var len: nat := PAYLOAD_SIZE;
      ghost var all := bytes[..][PAYLOAD_AT..];
      assert all[..len] == all;
      while len > 0 && bytes[PAYLOAD_AT + len - 1] == 0
        invariant len <= PAYLOAD_SIZE
        invariant StripNuls(all) == StripNuls(all[..len])
      {
        assert all[..len][..len - 1] == all[..len - 1];
        len := len - 1;
      }
      p := bytes[PAYLOAD_AT..PAYLOAD_AT + len];
      assert p == all[..len];
    }
  }

  lemma {:induction false} ZerosAreZero(k: nat)
    ensures FromLittleEndian(seq(k, _ => 0)) == 0
    ensures StripNuls(seq(k, _ => 0)) == []
  {
    if k > 0 {
      ZerosAreZero(k - 1);
      var z := seq(k, _ => 0);
      assert z[1..] == seq(k - 1, _ => 0);
      assert z[..k - 1] == seq(k - 1, _ => 0);
    }
  }

  lemma ZeroFrame(field: Field)
    ensures var z: FrameBytes := seq(FRAME_SIZE, _ => 0); Get(z, field) == 0 && Payload(z) == []
  {
    var z: FrameBytes := seq(FRAME_SIZE, _ => 0);
    ZerosAreZero(field.Width());
    ZerosAreZero(PAYLOAD_SIZE);
    assert z[field.Offset()..field.Offset() + field.Width()] == seq(field.Width(), _ => 0);
    assert z[PAYLOAD_AT..] == seq(PAYLOAD_SIZE, _ => 0);
  }

  function Fresh(source: byte): FrameBytes {
    Set(Set(seq(FRAME_SIZE, _ => 0), Source, source), SidebandIdx, SIDEBAND_NONE)
  }

  /** init(), byte by byte: the source first, 0xFFFF in bytes 16..17, zeros elsewhere. */
  lemma FreshBytes(source: byte)
    ensures |Fresh(source)| == 64 && Fresh(source)[0] == source && Fresh(source)[16] == Fresh(source)[17] == 0xFF
    ensures forall j :: 1 <= j < 64 && j != 16 && j != 17 ==> Fresh(source)[j] == 0
  {
    var zero: FrameBytes := seq(FRAME_SIZE, _ => 0);
    SetWrites(zero, Source, source);
    var stamped := Set(zero, Source, source);
    SetWrites(stamped, SidebandIdx, SIDEBAND_NONE);
    var r := Fresh(source);
    assert r[0] == r[..16][0] && stamped[0] == stamped[..16][0];
    forall j | 1 <= j < 64 && j != 16 && j != 17 ensures r[j] == 0 {
      assert r[j] == if j < 16 then r[..16][j] else r[18..][j - 18];
      assert stamped[j] == stamped[1..][j - 1] == zero[1..][j - 1] == 0;
      assert stamped[j] == if j < 16 then stamped[..16][j] else stamped[18..][j - 18];
    }
  }

  /** A fresh frame reads back its source, no sideband, zero elsewhere and an empty payload. */
  lemma FreshReadsBack(source: byte, field: Field)
    ensures Get(Fresh(source), field) == (match field case Source => source case SidebandIdx => SIDEBAND_NONE case _ => 0)
    ensures Payload(Fresh(source)) == []
  {
    WordSizes();
    ZeroFrame(field);
    var zero: FrameBytes := seq(FRAME_SIZE, _ => 0);
    var stamped := Set(zero, Source, source);
    PayloadAndFieldsAreSeparate(zero, Source, source, []);
    PayloadAndFieldsAreSeparate(stamped, SidebandIdx, SIDEBAND_NONE, []);
    if field == Source { GetAfterSet(zero, field, source); } else { GetAfterOtherSet(zero, field, Source, source); }
    if field == SidebandIdx { GetAfterSet(stamped, field, SIDEBAND_NONE); }
    else { GetAfterOtherSet(stamped, field, SidebandIdx, SIDEBAND_NONE); }
  }
}
