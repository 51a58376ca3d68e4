/** Machine words, byte strings and the small datatypes every other module uses. */
module Bytes {

  type byte = b: int | 0 <= b < 256

  const U16: int := 0x1_0000
  const U32: int := 0x1_0000_0000
  const U48: int := 0x1_0000_0000_0000
  const U64: int := 0x1_0000_0000_0000_0000

  type u16 = n: int | 0 <= n < U16
  type u32 = n: int | 0 <= n < U32
  type u64 = n: int | 0 <= n < U64

  datatype Option<+T> = None | Some(value: T)

  function Min(a: int, b: int): int {
    if a < b then a else b
  }

  /** `mem` with the bytes from `at` onwards overwritten by `bytes` (a memcpy). */
  function Splice(mem: seq<byte>, at: nat, bytes: seq<byte>): (r: seq<byte>)
    requires at + |bytes| <= |mem|
    ensures |r| == |mem|
    ensures r[at..at + |bytes|] == bytes
    ensures forall j :: 0 <= j < |mem| && !(at <= j < at + |bytes|) ==> r[j] == mem[j]
  {
    mem[..at] + bytes + mem[at + |bytes|..]
  }

  /** Bytes outside the overwritten window read back unchanged. */
  lemma SpliceElsewhere(mem: seq<byte>, at: nat, bytes: seq<byte>, lo: nat, hi: nat)
    requires at + |bytes| <= |mem| && lo <= hi <= |mem|
    requires hi <= at || at + |bytes| <= lo
    ensures Splice(mem, at, bytes)[lo..hi] == mem[lo..hi]
  {
  }

  function Pow256(n: nat): (r: int)
    ensures r > 0
  {
    if n == 0 then 1 else 256 * Pow256(n - 1)
  }

  /** The `n` low-order bytes of `v`, least significant first. */
  function LittleEndian(v: nat, n: nat): (r: seq<byte>)
    ensures |r| == n
  {
    if n == 0 then [] else [v % 256] + LittleEndian(v / 256, n - 1)
  }

  function FromLittleEndian(s: seq<byte>): (v: nat)
  {
    if s == [] then 0 else s[0] + 256 * FromLittleEndian(s[1..])
  }

  /** The numbers that two, four, six and eight bytes spell, low byte first. */
  function Le2(a: int, b: int): int { a + 0x100 * b }

  function Le4(a: int, b: int, c: int, d: int): int { a + 0x100 * b + 0x1_0000 * c + 0x100_0000 * d }

  function Le6(a: int, b: int, c: int, d: int, e: int, f: int): int { Le4(a, b, c, d) + 0x1_0000_0000 * e + 0x100_0000_0000 * f }

  function Le8(a: int, b: int, c: int, d: int, e: int, f: int, g: int, h: int): int {
    Le6(a, b, c, d, e, f) + 0x1_0000_0000_0000 * g + 0x100_0000_0000_0000 * h
  }

  lemma TwoBytes(s: seq<byte>)
    requires |s| >= 2
    ensures FromLittleEndian(s) == Le2(s[0], s[1]) + 0x1_0000 * FromLittleEndian(s[2..])
  {
    assert s[1..][1..] == s[2..];
  }

  lemma FourBytes(s: seq<byte>)
    requires |s| >= 4
    ensures FromLittleEndian(s) == Le4(s[0], s[1], s[2], s[3]) + 0x1_0000_0000 * FromLittleEndian(s[4..])
  {
    TwoBytes(s);
    TwoBytes(s[2..]);
    assert s[2..][2..] == s[4..];
  }

  lemma EightBytes(s: seq<byte>)
    requires |s| == 8
    ensures FromLittleEndian(s) == Le8(s[0], s[1], s[2], s[3], s[4], s[5], s[6], s[7])
  {
    FourBytes(s);
    FourBytes(s[4..]);
  }

  lemma {:induction false} LittleEndianRoundTrip(v: nat, n: nat)
    requires v < Pow256(n)
    ensures FromLittleEndian(LittleEndian(v, n)) == v
  {
    if n > 0 {
      LittleEndianRoundTrip(v / 256, n - 1);
      assert LittleEndian(v, n)[1..] == LittleEndian(v / 256, n - 1);
    }
  }

  lemma {:induction false} FromLittleEndianBound(s: seq<byte>)
    ensures FromLittleEndian(s) < Pow256(|s|)
  {
    if s != [] {
      FromLittleEndianBound(s[1..]);
    }
  }

  lemma WordSizes()
    ensures Pow256(1) == 256 && Pow256(2) == U16 && Pow256(4) == U32 && Pow256(6) == U48 && Pow256(8) == U64
  {
    assert Pow256(3) == 256 * Pow256(2);
    assert Pow256(5) == 256 * Pow256(4);
    assert Pow256(7) == 256 * Pow256(6);
  }
}
