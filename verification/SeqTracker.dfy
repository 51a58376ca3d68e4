/**
 SourceSeqTracker: per-source sequence bookkeeping on 32-bit counters that wrap,
 related to the unwrapped integers the publisher had in mind.
 */
module SeqTracker {
  import opened Bytes

  const WINDOW: int := 0x8000_0000

  datatype Observation = First | InOrder | Gap | Duplicate | OutOfOrder

  datatype Slot = Slot(lastSeq: u32, valid: bool, samples: nat, gaps: nat, duplicates: nat, outOfOrder: nat) {

    /** Samples that advanced the tracker, plus the positions they skipped. */
    function Accounted(): int { samples - duplicates - outOfOrder + gaps }
  }

  const BLANK := Slot(0, false, 0, 0, 0, 0)

  function Observe(slot: Slot, num: u32): (Slot, Observation) {
    var s := slot.(samples := slot.samples + 1);
    if !s.valid then (s.(valid := true, lastSeq := num), First)
    else
      var delta := (num - s.lastSeq) % U32;
      if delta == 0 then (s.(duplicates := s.duplicates + 1), Duplicate)
      else if delta < WINDOW then
        if delta > 1 then (s.(gaps := s.gaps + (delta - 1), lastSeq := num), Gap)
        else (s.(lastSeq := num), InOrder)
      else (s.(outOfOrder := s.outOfOrder + 1), OutOfOrder)
  }

  /** The tracker table: one slot per source id below its length. */
  class Tracker {
    const slots: array<Slot>

    constructor (n: nat)
      requires 0 < n <= 256
      ensures slots.Length == n && fresh(slots)
      ensures slots[..] == seq(n, _ => BLANK)
    {
      slots := new Slot[n](_ => BLANK);
    }

    method ObserveSource(source: byte, num: u32) returns (o: Observation)
      modifies slots
      ensures slots[..] == Do(old(slots[..]), See(source, num))
      ensures o == if source < slots.Length then Observe(old(slots[..])[source], num).1 else First
    {
      if source >= slots.Length {
        return First;
      }
      var slot := slots[source];
      slot := slot.(samples := slot.samples + 1);
      if !slot.valid {
        slots[source] := slot.(valid := true, lastSeq := num);
        return First;
      }
      var delta := (num - slot.lastSeq) % U32;
      if delta == 0 {
        slots[source] := slot.(duplicates := slot.duplicates + 1);
        return Duplicate;
      }
      if delta < WINDOW {
        if delta > 1 {
          slots[source] := slot.(gaps := slot.gaps + (delta - 1), lastSeq := num);
          return Gap;
        }
        slots[source] := slot.(lastSeq := num);
        return InOrder;
      }
      slots[source] := slot.(outOfOrder := slot.outOfOrder + 1);
      return OutOfOrder;
    }

    method Reset(source: byte)
      modifies slots
      ensures slots[..] == Do(old(slots[..]), Forget(source))
      ensures forall j :: 0 <= j < slots.Length ==> slots[j] == if j == source then Slot(0, false, 0, 0, 0, 0) else old(slots[j])
    {
      if source < slots.Length {
        slots[source] := BLANK;
      }
    }

    method Clear()
      modifies slots
      ensures slots[..] == Do(old(slots[..]), ForgetAll)
      ensures forall j :: 0 <= j < slots.Length ==> slots[j] == Slot(0, false, 0, 0, 0, 0)
    {
      for i := 0 to slots.Length
        invariant forall j :: 0 <= j < i ==> slots[j] == BLANK
      {
        slots[i] := BLANK;
      }
    }
  }

  // ----- sources are independent --------------------------------------------

  datatype Command = See(source: byte, num: u32) | Forget(source: byte) | ForgetAll

  function Do(table: seq<Slot>, c: Command): (r: seq<Slot>)
    ensures |r| == |table|
  {
    match c
    case See(s, q) => if s < |table| then table[s := Observe(table[s], q).0] else table
    case Forget(s) => if s < |table| then table[s := BLANK] else table
    case ForgetAll => seq(|table|, _ => BLANK)
  }

  function DoAll(table: seq<Slot>, cs: seq<Command>): (r: seq<Slot>)
    ensures |r| == |table|
    decreases |cs|
  {
    if cs == [] then table else DoAll(Do(table, cs[0]), cs[1..])
  }

  /** The commands that can concern source `s`. */
  function About(cs: seq<Command>, s: byte): seq<Command> {
    if cs == [] then []
    else (if cs[0].ForgetAll? || cs[0].source == s then [cs[0]] else []) + About(cs[1..], s)
  }

  /** Whatever other sources send or reset, a source's counters come from its own history alone. */
  lemma {:induction false} SourcesAreIndependent(table: seq<Slot>, other: seq<Slot>, cs: seq<Command>, s: byte)
    requires s < |table| == |other| && table[s] == other[s]
    ensures DoAll(table, cs)[s] == DoAll(other, About(cs, s))[s]
    decreases |cs|
  {
    if cs != [] {
      if cs[0].ForgetAll? || cs[0].source == s {
        assert About(cs, s)[1..] == About(cs[1..], s);
        SourcesAreIndependent(Do(table, cs[0]), Do(other, cs[0]), cs[1..], s);
      } else {
        assert About(cs, s) == About(cs[1..], s);
        SourcesAreIndependent(Do(table, cs[0]), other, cs[1..], s);
      }
    }
  }

  // ----- wrapped counters against true integers -----------------------------

  function Wrap(x: int): u32 { x % U32 }

  function WrapAll(xs: seq<int>): (r: seq<u32>)
    ensures |r| == |xs|
  {
    if xs == [] then [] else [Wrap(xs[0])] + WrapAll(xs[1..])
  }

  function Max(a: int, b: int): int { if a < b then b else a }

  function MaxFrom(m: int, xs: seq<int>): int
    decreases |xs|
  {
    if xs == [] then m else MaxFrom(Max(m, xs[0]), xs[1..])
  }

  /** What an integer tracker that has seen `m` as its highest number says about `x`. */
  function Classify(m: int, x: int): Observation {
    if x == m then Duplicate else if x < m then OutOfOrder else if x == m + 1 then InOrder else Gap
  }

  function ClassifyAll(m: int, xs: seq<int>): seq<Observation>
    decreases |xs|
  {
    if xs == [] then [] else [Classify(m, xs[0])] + ClassifyAll(Max(m, xs[0]), xs[1..])
  }

  /** How often an integer tracker at maximum `m` answers `o` over a stream. */
  function Times(o: Observation, m: int, xs: seq<int>): nat
    decreases |xs|
  {
    if xs == [] then 0 else (if Classify(m, xs[0]) == o then 1 else 0) + Times(o, Max(m, xs[0]), xs[1..])
  }

  /** The positions a stream skips: every number that is ahead leaves out those between the maximum and itself. */
  function Skipped(m: int, xs: seq<int>): nat
    decreases |xs|
  {
    if xs == [] then 0 else (if xs[0] > m then xs[0] - m - 1 else 0) + Skipped(Max(m, xs[0]), xs[1..])
  }

  /** A tracker at maximum `m` can tell what `x` is: ahead by less than 2^31, or behind by a distance that wraps to the upper half. */
  predicate Readable(m: int, x: int) {
    if x >= m then x - m < WINDOW else (x - m) % U32 >= WINDOW
  }

  ghost predicate AllReadable(m: int, xs: seq<int>)
    decreases |xs|
  {
    xs == [] || (Readable(m, xs[0]) && AllReadable(Max(m, xs[0]), xs[1..]))
  }

  /** In particular everything within half the counter range of the maximum. */
  lemma WindowIsReadable(m: int, x: int)
    requires -WINDOW <= x - m < WINDOW
    ensures Readable(m, x)
  {
    if x < m {
      assert (x - m) % U32 == x - m + U32;
    }
  }

  function Track(slot: Slot, seqs: seq<u32>): Slot
    decreases |seqs|
  {
    if seqs == [] then slot else Track(Observe(slot, seqs[0]).0, seqs[1..])
  }

  function Observations(slot: Slot, seqs: seq<u32>): seq<Observation>
    decreases |seqs|
  {
    if seqs == [] then []
    else [Observe(slot, seqs[0]).1] + Observations(Observe(slot, seqs[0]).0, seqs[1..])
  }

  /** One observation does what an integer tracker at maximum `m` would do with `x`. */
  ghost predicate Exact(slot: Slot, m: int, x: int) {
    var (slot', o) := Observe(slot, Wrap(x));
    && o == Classify(m, x)
    && slot'.lastSeq == Wrap(Max(m, x))
    && slot'.Accounted() == slot.Accounted() + Max(m, x) - m
    && Counted(slot, slot', 1, if x == m then 1 else 0, if x < m then 1 else 0, if x > m then x - m - 1 else 0)
  }

  /** What each of the four counters has gone up by. */
  ghost predicate Counted(slot: Slot, slot': Slot, samples: nat, duplicates: nat, outOfOrder: nat, gaps: nat) {
    && slot'.samples == slot.samples + samples
    && slot'.duplicates == slot.duplicates + duplicates
    && slot'.outOfOrder == slot.outOfOrder + outOfOrder
    && slot'.gaps == slot.gaps + gaps
  }

  lemma WrappedDistance(m: int, x: int)
    ensures (Wrap(x) - Wrap(m)) % U32 == (x - m) % U32
  {
    var k := x / U32 - m / U32;
    assert Wrap(x) - Wrap(m) == (x - m) - U32 * k;
  }

  /**
   Exactness of one observation: classification, last_seq and accounting are
   those of an integer tracker if and only if the number is readable.
   */
  lemma ObserveExactIff(slot: Slot, m: int, x: int)
    requires slot.valid && slot.lastSeq == Wrap(m)
    ensures Exact(slot, m, x) <==> Readable(m, x)
    ensures Observe(slot, Wrap(x)).0.valid && Observe(slot, Wrap(x)).0.samples == slot.samples + 1
  {
    WrappedDistance(m, x);
    var delta := (Wrap(x) - slot.lastSeq) % U32;
    if m <= x < m + WINDOW {
      assert delta == x - m;
    } else if x >= m {
      var counted := if delta < WINDOW then delta else 0;
      assert Observe(slot, Wrap(x)).0.Accounted() == slot.Accounted() + counted;
    }
  }

  /** After feeding `xs` in wrapped form the tracker is where an integer tracker would be. */
  ghost predicate TracksExactly(slot: Slot, m: int, xs: seq<int>) {
    var end := Track(slot, WrapAll(xs));
    && Observations(slot, WrapAll(xs)) == ClassifyAll(m, xs)
    && end.lastSeq == Wrap(MaxFrom(m, xs))
    && end.Accounted() == slot.Accounted() + MaxFrom(m, xs) - m
    && Counted(slot, end, |xs|, Times(Duplicate, m, xs), Times(OutOfOrder, m, xs), Skipped(m, xs))
  }

  /**
   Exactness across wraps: fed wrapped numbers, the tracker classifies each one
   as an integer tracker would, its last_seq is the running maximum modulo 2^32,
   and its counters account for the whole distance the maximum moved.
   */
  lemma {:induction false} TrackExact(slot: Slot, m: int, xs: seq<int>)
    requires slot.valid && slot.lastSeq == Wrap(m) && AllReadable(m, xs)
    ensures TracksExactly(slot, m, xs)
    ensures Track(slot, WrapAll(xs)).valid && Track(slot, WrapAll(xs)).samples == slot.samples + |xs|
    decreases |xs|
  {
    if xs != [] {
      ObserveExactIff(slot, m, xs[0]);
      assert WrapAll(xs)[1..] == WrapAll(xs[1..]);
      TrackExact(Observe(slot, Wrap(xs[0])).0, Max(m, xs[0]), xs[1..]);
    }
  }

  /** Feeding one more number is one more observation; on both sides. */
  lemma {:induction false} OneMore(slot: Slot, m: int, xs: seq<int>, x: int)
    ensures WrapAll(xs + [x]) == WrapAll(xs) + [Wrap(x)]
    ensures Track(slot, WrapAll(xs + [x])) == Observe(Track(slot, WrapAll(xs)), Wrap(x)).0
    ensures Observations(slot, WrapAll(xs + [x]))
            == Observations(slot, WrapAll(xs)) + [Observe(Track(slot, WrapAll(xs)), Wrap(x)).1]
    ensures ClassifyAll(m, xs + [x]) == ClassifyAll(m, xs) + [Classify(MaxFrom(m, xs), x)]
    ensures MaxFrom(m, xs + [x]) == Max(MaxFrom(m, xs), x)
    decreases |xs|
  {
    if xs == [] {
      assert xs + [x] == [x];
      assert WrapAll([x]) == [Wrap(x)];
      assert Observations(slot, [Wrap(x)]) == [Observe(slot, Wrap(x)).1];
    } else {
      assert (xs + [x])[1..] == xs[1..] + [x];
      OneMore(Observe(slot, Wrap(xs[0])).0, Max(m, xs[0]), xs[1..], x);
      assert WrapAll(xs + [x])[1..] == WrapAll(xs[1..] + [x]);
      assert WrapAll(xs)[1..] == WrapAll(xs[1..]);
    }
  }

  lemma {:induction false} OneMoreCounted(m: int, xs: seq<int>, x: int)
    ensures forall o :: Times(o, m, xs + [x]) == Times(o, m, xs) + if Classify(MaxFrom(m, xs), x) == o then 1 else 0
    ensures Skipped(m, xs + [x]) == Skipped(m, xs) + if x > MaxFrom(m, xs) then x - MaxFrom(m, xs) - 1 else 0
    decreases |xs|
  {
    if xs == [] {
      assert xs + [x] == [x];
    } else {
      assert (xs + [x])[1..] == xs[1..] + [x];
      OneMoreCounted(Max(m, xs[0]), xs[1..], x);
    }
  }

  lemma {:induction false} ReadableSnoc(m: int, xs: seq<int>, x: int)
    ensures AllReadable(m, xs + [x]) <==> AllReadable(m, xs) && Readable(MaxFrom(m, xs), x)
    decreases |xs|
  {
    if xs != [] {
      assert (xs + [x])[1..] == xs[1..] + [x];
      ReadableSnoc(Max(m, xs[0]), xs[1..], x);
    }
  }

  /** For whole streams: the tracker is exact at every point of the stream iff every number is readable when it comes. */
  lemma {:induction false} TrackExactIff(slot: Slot, m: int, xs: seq<int>)
    requires slot.valid && slot.lastSeq == Wrap(m)
    ensures (forall n :: 0 <= n <= |xs| ==> TracksExactly(slot, m, xs[..n])) <==> AllReadable(m, xs)
    decreases |xs|
  {
    if xs == [] {
      assert xs[..0] == [];
    } else {
      var k := |xs| - 1;
      var front, x := xs[..k], xs[k];
      assert xs == front + [x] && xs[..|xs|] == xs;
      assert forall n :: 0 <= n <= k ==> xs[..n] == front[..n];
      TrackExactIff(slot, m, front);
      ReadableSnoc(m, front, x);
      if AllReadable(m, front) {
        LastIsExactIff(slot, m, front, x);
      }
    }
  }

  lemma LastIsExactIff(slot: Slot, m: int, xs: seq<int>, x: int)
    requires slot.valid && slot.lastSeq == Wrap(m) && AllReadable(m, xs)
    ensures TracksExactly(slot, m, xs + [x]) <==> Readable(MaxFrom(m, xs), x)
  {
    TrackExact(slot, m, xs);
    OneMore(slot, m, xs, x);
    OneMoreCounted(m, xs, x);
    var now, max := Track(slot, WrapAll(xs)), MaxFrom(m, xs);
    ObserveExactIff(now, max, x);
    var a, b := Observations(slot, WrapAll(xs)), ClassifyAll(m, xs);
    assert (a + [Observe(now, Wrap(x)).1])[|a|] == Observe(now, Wrap(x)).1;
    assert (b + [Classify(max, x)])[|b|] == Classify(max, x);
  }

  /** The whole life of a slot: First, then exact classification, and the accounting identity. */
  lemma TrackFromBlank(x0: int, xs: seq<int>)
    requires AllReadable(x0, xs)
    ensures Observations(BLANK, WrapAll([x0] + xs)) == [First] + ClassifyAll(x0, xs)
    ensures var end := Track(BLANK, WrapAll([x0] + xs));
            && end.lastSeq == Wrap(MaxFrom(x0, xs))
            && Counted(BLANK, end, 1 + |xs|, Times(Duplicate, x0, xs), Times(OutOfOrder, x0, xs), Skipped(x0, xs))
            && end.samples - end.duplicates - end.outOfOrder + end.gaps == 1 + MaxFrom(x0, xs) - x0
  {
    assert ([x0] + xs)[1..] == xs;
    var seqs := WrapAll([x0] + xs);
    assert seqs[0] == Wrap(x0) && seqs[1..] == WrapAll(xs);
    TrackExact(Observe(BLANK, Wrap(x0)).0, x0, xs);
  }

  /** The integer a tracker at maximum `m` takes a wrapped number to mean. */
  function Unwrap(m: int, q: u32): int {
    var d := (q - m) % U32;
    if d < WINDOW then m + d else m + d - U32
  }

  function UnwrapAll(m: int, seqs: seq<u32>): seq<int>
    decreases |seqs|
  {
    if seqs == [] then []
    else var x := Unwrap(m, seqs[0]); [x] + UnwrapAll(Max(m, x), seqs[1..])
  }

  lemma UnwrapSpec(m: int, q: u32)
    ensures var x := Unwrap(m, q); Wrap(x) == q && -WINDOW <= x - m < WINDOW
  {
    var d := (q - m) % U32;
    var k := (q - m) / U32;
    assert q - m == U32 * k + d;
    assert m + d == q + U32 * (-k);
    assert (q + U32 * (-k)) % U32 == q;
    assert m + d - U32 == q + U32 * (-k - 1);
    assert (q + U32 * (-k - 1)) % U32 == q;
  }

  lemma {:induction false} UnwrapAllSpec(m: int, seqs: seq<u32>)
    ensures WrapAll(UnwrapAll(m, seqs)) == seqs
    ensures AllReadable(m, UnwrapAll(m, seqs))
    decreases |seqs|
  {
    if seqs != [] {
      var x := Unwrap(m, seqs[0]);
      UnwrapSpec(m, seqs[0]);
      WindowIsReadable(m, x);
      UnwrapAllSpec(Max(m, x), seqs[1..]);
      assert UnwrapAll(m, seqs)[1..] == UnwrapAll(Max(m, x), seqs[1..]);
    }
  }

  /**
   Accounting with no assumption on the stream. Each counter counts its own: samples
   the numbers, duplicates and out_of_order the answers of that name, gaps the
   positions skipped; and together they add up to one plus the forward distance of
   the unwrapped numbers.
   */
  lemma AccountingForAnyStream(q0: u32, seqs: seq<u32>)
    ensures var end, xs := Track(BLANK, [q0] + seqs), UnwrapAll(q0, seqs);
            && end.samples == 1 + |seqs|
            && end.duplicates == Times(Duplicate, q0, xs)
            && end.outOfOrder == Times(OutOfOrder, q0, xs)
            && end.gaps == Skipped(q0, xs)
            && end.samples - end.duplicates - end.outOfOrder + end.gaps == 1 + MaxFrom(q0, xs) - q0
    ensures Observations(BLANK, [q0] + seqs) == [First] + ClassifyAll(q0, UnwrapAll(q0, seqs))
  {
    var xs := StreamFrom(q0, seqs);
    TrackFromBlank(q0, xs);
  }

  /** The stream of integers whose wrapped numbers a slot has seen. */
  lemma StreamFrom(q0: u32, seqs: seq<u32>) returns (xs: seq<int>)
    ensures xs == UnwrapAll(q0, seqs) && |xs| == |seqs| && AllReadable(q0, xs)
    ensures WrapAll([q0] + xs) == [q0] + seqs
  {
    xs := UnwrapAll(q0, seqs);
    UnwrapAllSpec(q0, seqs);
    assert ([q0] + xs)[1..] == xs;
  }

  /**
   A publisher that restarts at 0 without reset: the tracker counts missed
   frames exactly when the last number was above 2^31 (and not the last before
   the wrap); from 10^9 the restart is reported OutOfOrder.
   */
  lemma RestartAtZero(slot: Slot)
    requires slot.valid
    ensures Observe(slot, 0).1 == Gap <==> WINDOW < slot.lastSeq < U32 - 1
    ensures Observe(slot, 0).1 == OutOfOrder <==> 1 <= slot.lastSeq <= WINDOW
    ensures Observe(slot, 0).0.gaps > slot.gaps <==> WINDOW < slot.lastSeq < U32 - 1
    ensures slot.lastSeq == 1_000_000_000 ==> Observe(slot, 0).1 == OutOfOrder && Observe(slot, 0).0.gaps == slot.gaps
  {
    assert (0 - slot.lastSeq) % U32 == if slot.lastSeq == 0 then 0 else U32 - slot.lastSeq;
  }
}
