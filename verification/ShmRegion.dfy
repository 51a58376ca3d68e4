/**
 The shared mapping itself: where the counters and slots lie in it, and
 shm_try_push_slot / shm_try_pop_slot as loads and stores of its bytes.
 */
module ShmRegion {
  import opened Bytes
  import opened BoundedFifo
  import Spsc = SpscProtocol

  const HEADER: nat := 64
  const LEN_WORD: nat := 4

  datatype Direction = Request | Reply

  /** `i * w`, spelled out so that address arithmetic stays linear. */
  function Times(i: nat, w: nat): nat {
    if i == 0 then 0 else Times(i - 1, w) + w
  }

  lemma {:induction false} TimesIsProduct(i: nat, w: nat)
    ensures Times(i, w) == i * w
  {
    if i > 0 {
      TimesIsProduct(i - 1, w);
      assert i * w == (i - 1) * w + w;
    }
  }

  /** `counter % n`, spelled out for the same reason. */
  function Index(counter: nat, n: nat): (r: nat)
    requires 0 < n
    ensures r < n
  {
    if counter < n then counter else Index(counter - n, n)
  }

  lemma {:induction false} IndexIsRemainder(counter: nat, n: nat)
    requires 0 < n
    ensures Index(counter, n) == counter % n
  {
    if counter >= n {
      IndexIsRemainder(counter - n, n);
      var q := (counter - n) / n;
      assert counter == n * (q + 1) + (counter - n) % n;
      Spsc.RemainderIs(counter, n, q + 1, (counter - n) % n);
    }
  }

  function Stride(maxPayload: nat): nat { LEN_WORD + maxPayload }

  function RegionSize(slotCount: nat, maxPayload: nat): nat { HEADER + 2 * Times(slotCount, Stride(maxPayload)) }

  function SlotsBase(slotCount: nat, maxPayload: nat, dir: Direction): nat {
    match dir
    case Request => HEADER
    case Reply => HEADER + Times(slotCount, Stride(maxPayload))
  }

  function SlotAddress(base: nat, maxPayload: nat, index: nat): nat {
    base + Times(index, Stride(maxPayload))
  }

  // ----- layout -------------------------------------------------------------

  /** Everything that has an address: req_head, req_tail, rep_head, rep_tail and each slot. */
  datatype Cell = Counter(which: nat) | SlotCell(dir: Direction, index: nat) {

    predicate Within(slotCount: nat) {
      match this
      case Counter(w) => w < 4
      case SlotCell(_, i) => i < slotCount
    }

    function Start(slotCount: nat, maxPayload: nat): nat {
      match this
      case Counter(w) => 8 * w
      case SlotCell(dir, i) => SlotAddress(SlotsBase(slotCount, maxPayload, dir), maxPayload, i)
    }

    function End(slotCount: nat, maxPayload: nat): nat {
      Start(slotCount, maxPayload) + if Counter? then 8 else Stride(maxPayload)
    }
  }

  lemma {:induction false} RowsDoNotOverlap(i: nat, j: nat, width: nat)
    requires i < j
    ensures Times(i, width) + width <= Times(j, width)
  {
    if i < j - 1 {
      RowsDoNotOverlap(i, j - 1, width);
    }
  }

  /** All counters and slots lie inside the mapping and no two of them share a byte. */
  lemma LayoutDisjoint(slotCount: nat, maxPayload: nat, a: Cell, b: Cell)
    requires a.Within(slotCount) && b.Within(slotCount) && a != b
    ensures a.End(slotCount, maxPayload) <= RegionSize(slotCount, maxPayload)
    ensures || a.End(slotCount, maxPayload) <= b.Start(slotCount, maxPayload)
            || b.End(slotCount, maxPayload) <= a.Start(slotCount, maxPayload)
  {
    var width := Stride(maxPayload);
    if a.SlotCell? {
      RowsDoNotOverlap(a.index, slotCount, width);
    }
    if b.SlotCell? {
      RowsDoNotOverlap(b.index, slotCount, width);
    }
    if a.SlotCell? && b.SlotCell? && a.dir == b.dir {
      if a.index < b.index {
        RowsDoNotOverlap(a.index, b.index, width);
      } else {
        RowsDoNotOverlap(b.index, a.index, width);
      }
    }
  }

  lemma {:induction false} TimesModFour(i: nat, w: nat)
    requires w % 4 == 0
    ensures Times(i, w) % 4 == 0
  {
    if i > 0 {
      TimesModFour(i - 1, w);
    }
  }

  lemma AlignedSlot(slotCount: nat, maxPayload: nat, cell: Cell)
    requires maxPayload % 4 == 0 && cell.SlotCell?
    ensures cell.Start(slotCount, maxPayload) % 4 == 0
  {
    TimesModFour(slotCount, Stride(maxPayload));
    TimesModFour(cell.index, Stride(maxPayload));
  }

  /** The second slot of the region: of the requests, or the only one of the replies. */
  lemma SecondSlot(slotCount: nat, maxPayload: nat) returns (cell: Cell)
    requires slotCount > 0
    ensures cell.SlotCell? && cell.Within(slotCount) && cell.Start(slotCount, maxPayload) == HEADER + LEN_WORD + maxPayload
  {
    assert Times(1, Stride(maxPayload)) == Stride(maxPayload);
    cell := if slotCount == 1 then SlotCell(Reply, 0) else SlotCell(Request, 1);
  }

  /** The length words, used as 32-bit atomics, are all 4-aligned iff the payload size is a multiple of 4. */
  lemma LengthWordsAlignedIff(slotCount: nat, maxPayload: nat)
    requires slotCount > 0
    ensures (forall cell: Cell :: cell.SlotCell? && cell.Within(slotCount) ==> cell.Start(slotCount, maxPayload) % 4 == 0)
       <==> maxPayload % 4 == 0
  {
    if maxPayload % 4 == 0 {
      forall cell: Cell | cell.SlotCell? && cell.Within(slotCount) ensures cell.Start(slotCount, maxPayload) % 4 == 0 {
        AlignedSlot(slotCount, maxPayload, cell);
      }
    } else {
      var cell := SecondSlot(slotCount, maxPayload);
    }
  }

  lemma {:induction false} TimesBounded(i: nat, w: nat)
    requires w <= 0x1000_0004
    ensures Times(i, w) <= i * 0x1000_0004
  {
    if i > 0 {
      TimesBounded(i - 1, w);
    }
  }

  /** Under the loader's limits (2^20 slots, 256 MiB payload) a mapping stays below 2^50 bytes. */
  lemma RegionSizeBounded(slotCount: nat, maxPayload: nat)
    requires slotCount <= 0x10_0000 && maxPayload <= 0x1000_0000
    ensures RegionSize(slotCount, maxPayload) < 0x4_0000_0000_0000
    ensures RegionSize(slotCount, maxPayload) == 64 + 2 * (slotCount * (4 + maxPayload))
  {
    TimesBounded(slotCount, Stride(maxPayload));
    TimesIsProduct(slotCount, Stride(maxPayload));
  }

  // ----- reading slots out of memory ----------------------------------------

  /** The record in the slot whose length word is at `at`. */
  function RecordIn(mem: seq<byte>, at: nat, m: nat): Record
    requires at + Stride(m) <= |mem|
  {
    var n := FromLittleEndian(mem[at..at + LEN_WORD]);
    mem[at + LEN_WORD..at + LEN_WORD + Min(n, m)]
  }

  /** `mem` after a record has been copied into the slot at `at` and its length stored. */
  function Filled(mem: seq<byte>, at: nat, record: Record): (r: seq<byte>)
    requires at + LEN_WORD + |record| <= |mem|
    ensures |r| == |mem|
    ensures forall j :: 0 <= j < |mem| && !(at <= j < at + LEN_WORD + |record|) ==> r[j] == mem[j]
  {
    Splice(Splice(mem, at + LEN_WORD, record), at, LittleEndian(|record|, LEN_WORD))
  }

  lemma FilledReadsBack(mem: seq<byte>, at: nat, m: nat, record: Record)
    requires at + Stride(m) <= |mem| && |record| <= m < U32
    ensures RecordIn(Filled(mem, at, record), at, m) == record
  {
    WordSizes();
    var mem1 := Splice(mem, at + LEN_WORD, record);
    var word := LittleEndian(|record|, LEN_WORD);
    LittleEndianRoundTrip(|record|, LEN_WORD);
    SpliceElsewhere(mem1, at, word, at + LEN_WORD, at + LEN_WORD + |record|);
  }

  lemma RecordDependsOnSlotOnly(mem: seq<byte>, mem': seq<byte>, at: nat, m: nat)
    requires |mem| == |mem'| && at + Stride(m) <= |mem|
    requires forall j :: at <= j < at + Stride(m) ==> mem'[j] == mem[j]
    ensures RecordIn(mem', at, m) == RecordIn(mem, at, m)
  {
    assert mem'[at..at + LEN_WORD] == mem[at..at + LEN_WORD];
  }

  /** One direction's slots: where they start, how many, how wide. */
  datatype Geometry = Geometry(base: nat, n: nat, m: nat) {

    ghost predicate Fits(size: nat) {
      0 < n < U64 && m < U32 && End() <= size
    }

    function End(): nat { base + Times(n, Stride(m)) }

    function SlotOf(counter: nat): nat
      requires 0 < n
    {
      SlotAddress(base, m, Index(counter, n))
    }
  }

  lemma SlotFits(g: Geometry, size: nat, counter: nat)
    requires g.Fits(size)
    ensures g.base <= g.SlotOf(counter)
    ensures g.SlotOf(counter) + Stride(g.m) <= g.End() <= size
  {
    RowsDoNotOverlap(Index(counter, g.n), g.n, Stride(g.m));
  }

  lemma SlotsApart(g: Geometry, i: nat, h: nat)
    requires 0 < g.n && i < h < i + g.n
    ensures || g.SlotOf(i) + Stride(g.m) <= g.SlotOf(h)
            || g.SlotOf(h) + Stride(g.m) <= g.SlotOf(i)
  {
    Spsc.SlotsDiffer(i, h, g.n);
    IndexIsRemainder(i, g.n);
    IndexIsRemainder(h, g.n);
    var a, b := Index(i, g.n), Index(h, g.n);
    if a < b {
      RowsDoNotOverlap(a, b, Stride(g.m));
    } else {
      RowsDoNotOverlap(b, a, Stride(g.m));
    }
  }

  function RecordAt(mem: seq<byte>, g: Geometry, counter: nat): Record
    requires g.Fits(|mem|)
  {
    SlotFits(g, |mem|, counter);
    RecordIn(mem, g.SlotOf(counter), g.m)
  }

  /** The records between tail and head, oldest first. */
  function QueueIn(mem: seq<byte>, g: Geometry, tail: nat, head: nat): (q: seq<Record>)
    requires g.Fits(|mem|) && tail <= head
    ensures |q| == head - tail
    decreases head - tail
  {
    if tail == head then [] else [RecordAt(mem, g, tail)] + QueueIn(mem, g, tail + 1, head)
  }

  lemma {:induction false} SameRecordsSameQueue(mem: seq<byte>, mem': seq<byte>, g: Geometry, tail: nat, head: nat)
    requires |mem| == |mem'| && g.Fits(|mem|) && tail <= head
    requires forall i: nat :: tail <= i < head ==> RecordAt(mem', g, i) == RecordAt(mem, g, i)
    ensures QueueIn(mem', g, tail, head) == QueueIn(mem, g, tail, head)
    decreases head - tail
  {
    if tail < head {
      SameRecordsSameQueue(mem, mem', g, tail + 1, head);
    }
  }

  lemma {:induction false} QueueSnoc(mem: seq<byte>, g: Geometry, tail: nat, head: nat)
    requires g.Fits(|mem|) && tail <= head
    ensures QueueIn(mem, g, tail, head + 1) == QueueIn(mem, g, tail, head) + [RecordAt(mem, g, head)]
    decreases head - tail
  {
    if tail < head {
      QueueSnoc(mem, g, tail + 1, head);
    } else {
      assert QueueIn(mem, g, head + 1, head + 1) == [];
    }
  }

  /** Filling the slot at the head appends that record to the queue. */
  lemma FillExtendsQueue(mem: seq<byte>, g: Geometry, record: Record, tail: nat, head: nat)
    requires g.Fits(|mem|) && |record| <= g.m && tail <= head < tail + g.n
    ensures g.SlotOf(head) + LEN_WORD + |record| <= |mem|
    ensures QueueIn(Filled(mem, g.SlotOf(head), record), g, tail, head + 1) == QueueIn(mem, g, tail, head) + [record]
    ensures var mem' := Filled(mem, g.SlotOf(head), record);
            forall j :: 0 <= j < |mem| && !(g.base <= j < g.End()) ==> mem'[j] == mem[j]
  {
    SlotFits(g, |mem|, head);
    var at := g.SlotOf(head);
    var mem' := Filled(mem, at, record);
    FilledReadsBack(mem, at, g.m, record);
    forall i: nat | tail <= i < head ensures RecordAt(mem', g, i) == RecordAt(mem, g, i) {
      SlotFits(g, |mem|, i);
      SlotsApart(g, i, head);
      RecordDependsOnSlotOnly(mem, mem', g.SlotOf(i), g.m);
    }
    SameRecordsSameQueue(mem, mem', g, tail, head);
    QueueSnoc(mem', g, tail, head);
  }

  /** Bytes outside a direction's slots do not matter to its queue. */
  lemma QueueFrame(mem: seq<byte>, mem': seq<byte>, g: Geometry, tail: nat, head: nat)
    requires |mem| == |mem'| && g.Fits(|mem|) && tail <= head
    requires forall j :: g.base <= j < g.End() ==> mem'[j] == mem[j]
    ensures QueueIn(mem', g, tail, head) == QueueIn(mem, g, tail, head)
  {
    forall i: nat | tail <= i < head ensures RecordAt(mem', g, i) == RecordAt(mem, g, i) {
      SlotFits(g, |mem|, i);
      RecordDependsOnSlotOnly(mem, mem', g.SlotOf(i), g.m);
    }
    SameRecordsSameQueue(mem, mem', g, tail, head);
  }

  /** The first slot is in the same place whatever sizes two sides assume, so its record can be read through either. */
  lemma FirstSlotIgnoresSizes(mem: seq<byte>, g: Geometry, other: Geometry, record: Record)
    requires g.Fits(|mem|) && other.Fits(|mem|) && g.base == other.base && |record| <= g.m
    ensures g.SlotOf(0) + LEN_WORD + |record| <= |mem|
    ensures RecordAt(Filled(mem, g.SlotOf(0), record), other, 0) == Clip(record, other.m)
  {
    SlotFits(g, |mem|, 0);
    SlotFits(other, |mem|, 0);
    var at := g.SlotOf(0);
    var mem' := Filled(mem, at, record);
    FilledReadsBack(mem, at, g.m, record);
    WordSizes();
    LittleEndianRoundTrip(|record|, LEN_WORD);
    assert mem'[at..at + LEN_WORD] == LittleEndian(|record|, LEN_WORD);
    assert mem'[at + LEN_WORD..at + LEN_WORD + |record|] == record;
  }

  // ----- one direction of a mapping, counters included -----------------------

  /** Where a direction's slots and its two counters are. */
  datatype Lane = Lane(g: Geometry, headAt: nat, tailAt: nat) {

    ghost predicate Fits(size: nat) {
      && g.Fits(size) && HEADER <= g.base
      && headAt + WORD <= HEADER && tailAt + WORD <= HEADER
      && (headAt + WORD <= tailAt || tailAt + WORD <= headAt)
    }

    /** Byte j belongs to this direction. */
    ghost predicate Owns(j: nat) {
      || g.base <= j < g.End()
      || headAt <= j < headAt + WORD
      || tailAt <= j < tailAt + WORD
    }
  }

  const WORD: nat := 8

  function WordAt(mem: seq<byte>, at: nat): (v: u64)
    requires at + WORD <= |mem|
  {
    WordSizes();
    FromLittleEndianBound(mem[at..at + WORD]);
    FromLittleEndian(mem[at..at + WORD])
  }

  /** Only bytes in lo..hi may differ. */
  ghost predicate OnlyIn(mem: seq<byte>, mem': seq<byte>, lo: nat, hi: nat) {
    |mem'| == |mem| && forall j :: 0 <= j < |mem| && !(lo <= j < hi) ==> mem'[j] == mem[j]
  }

  lemma WordStored(mem: seq<byte>, at: nat, v: u64)
    requires at + WORD <= |mem|
    ensures var mem' := Splice(mem, at, LittleEndian(v, WORD)); OnlyIn(mem, mem', at, at + WORD) && WordAt(mem', at) == v
  {
    WordSizes();
    LittleEndianRoundTrip(v, WORD);
  }

  lemma SameBytesSameWord(mem: seq<byte>, mem': seq<byte>, at: nat)
    requires |mem| == |mem'| && at + WORD <= |mem| && forall j :: at <= j < at + WORD ==> mem'[j] == mem[j]
    ensures WordAt(mem', at) == WordAt(mem, at)
  {
    assert mem'[at..at + WORD] == mem[at..at + WORD];
  }

  ghost predicate LaneOk(mem: seq<byte>, lane: Lane) {
    lane.Fits(|mem|) && WordAt(mem, lane.tailAt) <= WordAt(mem, lane.headAt) <= WordAt(mem, lane.tailAt) + lane.g.n
  }

  /** The queue a direction's bytes spell. */
  ghost function FifoIn(mem: seq<byte>, lane: Lane): Fifo
    requires LaneOk(mem, lane)
  {
    Fifo(lane.g.n, lane.g.m, QueueIn(mem, lane.g, WordAt(mem, lane.tailAt), WordAt(mem, lane.headAt)))
  }

  /** Bytes of other directions do not matter. */
  lemma LaneFrame(mem: seq<byte>, mem': seq<byte>, lane: Lane)
    requires |mem| == |mem'| && LaneOk(mem, lane)
    requires forall j :: 0 <= j < |mem| && lane.Owns(j) ==> mem'[j] == mem[j]
    ensures LaneOk(mem', lane) && FifoIn(mem', lane) == FifoIn(mem, lane)
  {
    SameBytesSameWord(mem, mem', lane.headAt);
    SameBytesSameWord(mem, mem', lane.tailAt);
    QueueFrame(mem, mem', lane.g, WordAt(mem, lane.tailAt), WordAt(mem, lane.headAt));
  }

  lemma QueueRest(mem: seq<byte>, g: Geometry, tail: nat, head: nat)
    requires g.Fits(|mem|) && tail < head
    ensures QueueIn(mem, g, tail, head)[0] == RecordAt(mem, g, tail)
    ensures QueueIn(mem, g, tail, head)[1..] == QueueIn(mem, g, tail + 1, head)
  {
  }

  /** The stores of a push, seen from outside: record into the slots, then the new head. */
  lemma PushSpec(mem: seq<byte>, filled: seq<byte>, done: seq<byte>, lane: Lane, tail: u64, head: u64, record: Record)
    requires LaneOk(mem, lane) && tail == WordAt(mem, lane.tailAt) && head == WordAt(mem, lane.headAt)
    requires head + 1 < U64 && head < tail + lane.g.n
    requires OnlyIn(mem, filled, lane.g.base, lane.g.End())
    requires QueueIn(filled, lane.g, tail, head + 1) == QueueIn(mem, lane.g, tail, head) + [record]
    requires OnlyIn(filled, done, lane.headAt, lane.headAt + WORD) && WordAt(done, lane.headAt) == head + 1
    ensures LaneOk(done, lane)
    ensures FifoIn(done, lane) == FifoIn(mem, lane).(queue := FifoIn(mem, lane).queue + [record])
    ensures forall j :: 0 <= j < |mem| && !lane.Owns(j) ==> done[j] == mem[j]
  {
    SameBytesSameWord(mem, done, lane.tailAt);
    QueueFrame(filled, done, lane.g, tail, head + 1);
  }

  /** The store of a pop: the new tail. */
  lemma PopSpec(mem: seq<byte>, done: seq<byte>, lane: Lane, tail: u64, head: u64)
    requires LaneOk(mem, lane) && tail == WordAt(mem, lane.tailAt) && head == WordAt(mem, lane.headAt) && tail < head
    requires OnlyIn(mem, done, lane.tailAt, lane.tailAt + WORD) && WordAt(done, lane.tailAt) == tail + 1
    ensures LaneOk(done, lane)
    ensures FifoIn(done, lane) == FifoIn(mem, lane).(queue := FifoIn(mem, lane).queue[1..])
    ensures forall j :: 0 <= j < |mem| && !lane.Owns(j) ==> done[j] == mem[j]
  {
    SameBytesSameWord(mem, done, lane.headAt);
    QueueFrame(mem, done, lane.g, tail + 1, head);
    QueueRest(mem, lane.g, tail, head);
  }

  /** Where the record of a counter's slot is. */
  lemma RecordWindow(mem: seq<byte>, g: Geometry, counter: nat, n: nat)
    requires g.Fits(|mem|)
    requires var slot := g.SlotOf(counter); slot + LEN_WORD <= |mem| && n == FromLittleEndian(mem[slot..slot + LEN_WORD])
    ensures var at := g.SlotOf(counter) + LEN_WORD;
            at + Min(n, g.m) <= |mem| && mem[at..at + Min(n, g.m)] == RecordAt(mem, g, counter)
  {
    SlotFits(g, |mem|, counter);
  }

  lemma OldestRecord(mem: seq<byte>, lane: Lane, tail: u64, n: nat)
    requires LaneOk(mem, lane) && tail == WordAt(mem, lane.tailAt) < WordAt(mem, lane.headAt)
    requires var slot := lane.g.SlotOf(tail); slot + LEN_WORD <= |mem| && n == FromLittleEndian(mem[slot..slot + LEN_WORD])
    ensures var at, copy := lane.g.SlotOf(tail) + LEN_WORD, Min(n, lane.g.m);
            at + copy <= |mem| && mem[at..at + copy] == FifoIn(mem, lane).queue[0]
  {
    RecordWindow(mem, lane.g, tail, n);
    QueueRest(mem, lane.g, tail, WordAt(mem, lane.headAt));
  }

  datatype RecvStatus = NothingThere | BufferTooSmall | Received

  /** `buf` starts with `record` and is otherwise as it was. */
  ghost predicate Overlaid(buf: seq<byte>, was: seq<byte>, record: Record) {
    && |record| <= |buf| == |was|
    && (forall j :: 0 <= j < |record| ==> buf[j] == record[j])
    && forall j :: |record| <= j < |buf| ==> buf[j] == was[j]
  }

  /** One direction of a mapped region; its whole state is in the bytes. */
  class Ring {
    const mapping: array<byte>
    const lane: Lane

    ghost predicate Valid()
      reads mapping
    {
      LaneOk(mapping[..], lane)
    }

    ghost function Contents(): Fifo
      requires Valid()
      reads mapping
    {
      FifoIn(mapping[..], lane)
    }

    /** Over a zeroed mapping, as bind leaves it. */
    constructor (mapping: array<byte>, lane: Lane)
      requires lane.Fits(mapping.Length) && forall j :: 0 <= j < mapping.Length ==> mapping[j] == 0
      ensures this.mapping == mapping && this.lane == lane
      ensures Valid() && Contents() == Fifo(lane.g.n, lane.g.m, [])
    {
      this.mapping, this.lane := mapping, lane;
      new;
      ghost var mem := mapping[..];
      ZeroWord(mem, lane.headAt);
      ZeroWord(mem, lane.tailAt);
    }

    method CopyIn(at: nat, bytes: seq<byte>)
      requires at + |bytes| <= mapping.Length
      modifies mapping
      ensures mapping[..] == Splice(old(mapping[..]), at, bytes)
    {
      ghost var was := mapping[..];
      for k := 0 to |bytes|
        invariant mapping[..] == Splice(was, at, bytes[..k])
      {
        mapping[at + k] := bytes[k];
        assert Splice(was, at, bytes[..k + 1]) == Splice(was, at, bytes[..k])[at + k := bytes[k]];
      }
      assert bytes[..|bytes|] == bytes;
    }

    method CopyOut(at: nat, count: nat, buf: array<byte>)
      requires at + count <= mapping.Length && count <= buf.Length && buf != mapping
      modifies buf
      ensures Overlaid(buf[..], old(buf[..]), mapping[at..at + count])
    {
      ghost var was := buf[..];
      for k := 0 to count
        invariant forall j :: 0 <= j < k ==> buf[j] == mapping[at + j]
        invariant forall j :: k <= j < buf.Length ==> buf[j] == was[j]
      {
        buf[k] := mapping[at + k];
      }
    }

    method LoadWord(at: nat) returns (v: u64)
      requires at + WORD <= mapping.Length
      ensures v == WordAt(mapping[..], at)
    {
      ghost var mem := mapping[..];
      assert mem[at..at + WORD] == mapping[at..at + WORD];
      WordSizes();
      FromLittleEndianBound(mapping[at..at + WORD]);
      v := FromLittleEndian(mapping[at..at + WORD]);
    }

    method StoreWord(at: nat, v: u64)
      requires at + WORD <= mapping.Length
      modifies mapping
      ensures OnlyIn(old(mapping[..]), mapping[..], at, at + WORD) && WordAt(mapping[..], at) == v
    {
      WordStored(mapping[..], at, v);
      CopyIn(at, LittleEndian(v, WORD));
    }

    /** The payload copy and the length store of a push. */
    method StoreRecord(slot: nat, record: Record)
      requires |record| < U32 && slot + LEN_WORD + |record| <= mapping.Length
      modifies mapping
      ensures mapping[..] == Filled(old(mapping[..]), slot, record)
    {
      CopyIn(slot + LEN_WORD, record);
      var n := |record| % U32;
      assert n == |record|;
      CopyIn(slot, LittleEndian(n, LEN_WORD));
    }

    /** The length load of a pop, clamped: the record of counter `t` lies at `at..at + copy`. */
    method FindRecord(t: u64) returns (at: nat, copy: nat)
      requires Valid() && t == WordAt(mapping[..], lane.tailAt) < WordAt(mapping[..], lane.headAt)
      ensures at + copy <= mapping.Length
      ensures mapping[at..at + copy] == Contents().queue[0]
    {
      ghost var mem := mapping[..];
      SlotFits(lane.g, mapping.Length, t);
      var slot := lane.g.SlotOf(t);
      assert mem[slot..slot + LEN_WORD] == mapping[slot..slot + LEN_WORD];
      var n := FromLittleEndian(mapping[slot..slot + LEN_WORD]);
      OldestRecord(mem, lane, t, n);
      copy := if n < lane.g.m then n else lane.g.m;
      at := slot + LEN_WORD;
      assert at + copy <= |mem| && mem[at..at + copy] == FifoIn(mem, lane).queue[0];
      assert mapping[at..at + copy] == mem[at..at + copy];
    }

    /** Puts a record into the slot of counter `h`; the head has not moved yet. */
    method FillSlot(h: u64, record: Record, ghost t: u64)
      requires lane.Fits(mapping.Length) && |record| <= lane.g.m && t <= h < t + lane.g.n
      modifies mapping
      ensures OnlyIn(old(mapping[..]), mapping[..], lane.g.base, lane.g.End())
      ensures QueueIn(mapping[..], lane.g, t, h + 1) == QueueIn(old(mapping[..]), lane.g, t, h) + [record]
    {
      FillExtendsQueue(mapping[..], lane.g, record, t, h);
      StoreRecord(lane.g.SlotOf(h), record);
    }

    /** The two stores of a push, in their order. */
    method Append(h: u64, t: u64, record: Record)
      requires Valid() && |record| <= lane.g.m && h + 1 < U64 && h < t + lane.g.n
      requires t == WordAt(mapping[..], lane.tailAt) && h == WordAt(mapping[..], lane.headAt)
      modifies mapping
      ensures Valid() && Contents() == old(Contents()).(queue := old(Contents()).queue + [record])
      ensures forall j :: 0 <= j < mapping.Length && !lane.Owns(j) ==> mapping[..][j] == old(mapping[..])[j]
    {
      ghost var mem := mapping[..];
      FillSlot(h, record, t);
      ghost var filled := mapping[..];
      StoreWord(lane.headAt, Spsc.Succ64(h));
      PushSpec(mem, filled, mapping[..], lane, t, h, record);
    }

    /**
     shm_try_push_slot. The record is in place before the head moves, and only
     this direction's bytes are written.
     */
    method TryPush(payload: seq<byte>) returns (ok: bool)
      requires Valid() && WordAt(mapping[..], lane.headAt) + 1 < U64
      modifies mapping
      ensures Valid()
      ensures ok <==> !old(Contents()).Full()
      ensures Contents() == Push(old(Contents()), payload)
      ensures ok ==> Contents().queue == old(Contents()).queue + [if |payload| <= lane.g.m then payload else payload[..lane.g.m]]
      ensures forall j :: 0 <= j < mapping.Length && !lane.Owns(j) ==> mapping[..][j] == old(mapping[..])[j]
    {
      var h := LoadWord(lane.headAt);
      var t := LoadWord(lane.tailAt);
      Spsc.Sub64InRange(h, t);
      if Spsc.Sub64(h, t) >= lane.g.n {
        return false;
      }
      var n := if |payload| < lane.g.m then |payload| else lane.g.m;
      assert payload[..n] == if |payload| <= lane.g.m then payload else payload[..lane.g.m];
      Append(h, t, payload[..n]);
      return true;
    }

    /** shm_try_pop_slot into the caller's buffer; a throw is the status BufferTooSmall. */
    method TryPop(buf: array<byte>) returns (status: RecvStatus, size: nat)
      requires Valid() && buf != mapping
      modifies mapping, buf
      ensures Valid()
      ensures match Pop(old(Contents()), buf.Length)
              case Empty => status == NothingThere && mapping[..] == old(mapping[..]) && buf[..] == old(buf[..])
              case TooSmall => status == BufferTooSmall && mapping[..] == old(mapping[..]) && buf[..] == old(buf[..])
              case Popped(record, rest) =>
                && status == Received && size == |record|
                && Overlaid(buf[..], old(buf[..]), record)
                && Contents() == rest
      ensures status == NothingThere <==> old(Contents()).queue == []
      ensures status == BufferTooSmall ==> |old(Contents()).queue[0]| > buf.Length
      ensures status == Received ==> Contents().queue == old(Contents()).queue[1..] && size == |old(Contents()).queue[0]| <= buf.Length
      ensures forall j :: 0 <= j < mapping.Length && !lane.Owns(j) ==> mapping[..][j] == old(mapping[..])[j]
    {
      var t := LoadWord(lane.tailAt);
      var h := LoadWord(lane.headAt);
      if t >= h {
        return NothingThere, 0;
      }
      var at, copy := FindRecord(t);
      ghost var mem := mapping[..];
      if copy > buf.Length {
        return BufferTooSmall, 0;
      }
      CopyOut(at, copy, buf);
      assert mapping[..] == mem;
      StoreWord(lane.tailAt, Spsc.Succ64(t));
      PopSpec(mem, mapping[..], lane, t, h);
      return Received, copy;
    }
  }

  lemma ZeroWord(mem: seq<byte>, at: nat)
    requires at + WORD <= |mem| && forall j :: 0 <= j < |mem| ==> mem[j] == 0
    ensures WordAt(mem, at) == 0
  {
    ZeroBytes(mem[at..at + WORD]);
  }

  lemma {:induction false} ZeroBytes(s: seq<byte>)
    requires forall j :: 0 <= j < |s| ==> s[j] == 0
    ensures FromLittleEndian(s) == 0
  {
    if s != [] {
      ZeroBytes(s[1..]);
    }
  }

  /** shm_map_layout: req_head, req_tail, rep_head, rep_tail, then the request slots and the reply slots. */
  function LaneOf(dir: Direction, slotCount: nat, maxPayload: nat): Lane {
    Lane(Geometry(SlotsBase(slotCount, maxPayload, dir), slotCount, maxPayload),
         if dir == Request then 0 else 16, if dir == Request then 8 else 24)
  }

  /**
   The mapping, byte by byte: four counters of eight bytes at 0, 8, 16 and 24, the
   request slots from byte 64, the reply slots behind them, and a slot per record:
   counter modulo slot count, a four-byte length, the payload.
   */
  lemma LayoutBytes(n: nat, m: nat, counter: nat)
    requires 0 < n
    ensures LaneOf(Request, n, m) == Lane(Geometry(64, n, m), 0, 8)
    ensures LaneOf(Reply, n, m) == Lane(Geometry(64 + n * (4 + m), n, m), 16, 24)
    ensures LaneOf(Request, n, m).g.SlotOf(counter) == 64 + (counter % n) * (4 + m)
    ensures LaneOf(Reply, n, m).g.SlotOf(counter) == 64 + n * (4 + m) + (counter % n) * (4 + m)
  {
    TimesIsProduct(n, 4 + m);
    IndexIsRemainder(counter, n);
    TimesIsProduct(counter % n, 4 + m);
  }

  /** A counter's value and a slot's record, byte by byte, low byte first. */
  lemma WordsAreBytes(mem: seq<byte>, at: nat, m: nat)
    ensures at + 8 <= |mem| ==>
              WordAt(mem, at) == Le8(mem[at], mem[at + 1], mem[at + 2], mem[at + 3], mem[at + 4], mem[at + 5], mem[at + 6], mem[at + 7])
    ensures at + 4 + m <= |mem| ==>
              var len := Le4(mem[at], mem[at + 1], mem[at + 2], mem[at + 3]);
              RecordIn(mem, at, m) == mem[at + 4..at + 4 + if len < m then len else m]
  {
    if at + 8 <= |mem| {
      EightBytes(mem[at..at + 8]);
    }
    if at + 4 + m <= |mem| {
      FourBytes(mem[at..at + 4]);
    }
  }

  lemma LanesFit(dir: Direction, slotCount: nat, maxPayload: nat)
    requires 0 < slotCount < U64 && maxPayload < U32
    ensures LaneOf(dir, slotCount, maxPayload).Fits(RegionSize(slotCount, maxPayload))
  {
  }

  lemma LanesApart(dir: Direction, other: Direction, slotCount: nat, maxPayload: nat, j: nat)
    requires dir != other
    ensures !(LaneOf(dir, slotCount, maxPayload).Owns(j) && LaneOf(other, slotCount, maxPayload).Owns(j))
  {
  }

  /** One bound region: a request ring and a reply ring over the same mapping. */
  class Region {
    const mapping: array<byte>
    const req: Ring
    const rep: Ring
    const slotCount: nat
    const maxPayload: nat

    ghost predicate Valid()
      reads mapping
    {
      && req.mapping == mapping && rep.mapping == mapping
      && req.lane == LaneOf(Request, slotCount, maxPayload) && rep.lane == LaneOf(Reply, slotCount, maxPayload)
      && LaneOk(mapping[..], req.lane) && LaneOk(mapping[..], rep.lane)
    }

    /** The ring a role pushes. */
    ghost function Outgoing(serverRole: bool): Fifo
      requires Valid()
      reads mapping
    {
      FifoIn(mapping[..], if serverRole then rep.lane else req.lane)
    }

    /** The ring a role pops. */
    ghost function Incoming(serverRole: bool): Fifo
      requires Valid()
      reads mapping
    {
      Outgoing(!serverRole)
    }

    constructor (slotCount: nat, maxPayload: nat)
      requires 0 < slotCount < U64 && maxPayload < U32
      ensures Valid() && fresh(mapping) && this.slotCount == slotCount && this.maxPayload == maxPayload
      ensures mapping.Length == RegionSize(slotCount, maxPayload)
      ensures Outgoing(true) == Outgoing(false) == Fifo(slotCount, maxPayload, [])
    {
      var bytes := new byte[RegionSize(slotCount, maxPayload)](_ => 0);
      LanesFit(Request, slotCount, maxPayload);
      LanesFit(Reply, slotCount, maxPayload);
      var q := new Ring(bytes, LaneOf(Request, slotCount, maxPayload));
      var p := new Ring(bytes, LaneOf(Reply, slotCount, maxPayload));
      mapping, req, rep := bytes, q, p;
      this.slotCount, this.maxPayload := slotCount, maxPayload;
    }

    /** The server side of a region sends on the reply ring, a client on the request ring; the other ring stays as it is. */
    method TrySend(serverRole: bool, payload: seq<byte>) returns (ok: bool)
      requires Valid() && WordAt(mapping[..], (if serverRole then rep else req).lane.headAt) + 1 < U64
      modifies mapping
      ensures Valid()
      ensures ok <==> !old(Outgoing(serverRole)).Full()
      ensures Outgoing(serverRole) == Push(old(Outgoing(serverRole)), payload)
      ensures Incoming(serverRole) == old(Incoming(serverRole))
      ensures FifoIn(mapping[..], LaneOf(Reply, slotCount, maxPayload))
           == (if serverRole then Push(old(FifoIn(mapping[..], rep.lane)), payload) else old(FifoIn(mapping[..], rep.lane)))
      ensures FifoIn(mapping[..], LaneOf(Request, slotCount, maxPayload))
           == (if serverRole then old(FifoIn(mapping[..], req.lane)) else Push(old(FifoIn(mapping[..], req.lane)), payload))
    {
      ghost var mem := mapping[..];
      var ring := if serverRole then rep else req;
      ghost var other := if serverRole then req.lane else rep.lane;
      ok := ring.TryPush(payload);
      forall j | 0 <= j < |mem| && other.Owns(j) ensures mapping[..][j] == mem[j] {
        LanesApart(if serverRole then Reply else Request, if serverRole then Request else Reply, slotCount, maxPayload, j);
      }
      LaneFrame(mem, mapping[..], other);
    }

    /** What one role sends, only the other role receives. */
    method TryRecv(serverRole: bool, buf: array<byte>) returns (status: RecvStatus, size: nat)
      requires Valid() && buf != mapping
      modifies mapping, buf
      ensures Valid()
      ensures Outgoing(serverRole) == old(Outgoing(serverRole))
      ensures match Pop(old(Incoming(serverRole)), buf.Length)
              case Empty => status == NothingThere && Incoming(serverRole) == old(Incoming(serverRole)) && buf[..] == old(buf[..])
              case TooSmall => status == BufferTooSmall && Incoming(serverRole) == old(Incoming(serverRole)) && buf[..] == old(buf[..])
              case Popped(record, rest) =>
                && status == Received && size == |record|
                && Overlaid(buf[..], old(buf[..]), record)
                && Incoming(serverRole) == rest
      ensures serverRole ==> FifoIn(mapping[..], LaneOf(Reply, slotCount, maxPayload)) == old(FifoIn(mapping[..], rep.lane))
      ensures !serverRole ==> FifoIn(mapping[..], LaneOf(Request, slotCount, maxPayload)) == old(FifoIn(mapping[..], req.lane))
    {
      ghost var mem := mapping[..];
      var ring := if serverRole then req else rep;
      ghost var other := if serverRole then rep.lane else req.lane;
      status, size := ring.TryPop(buf);
      forall j | 0 <= j < |mem| && other.Owns(j) ensures mapping[..][j] == mem[j] {
        LanesApart(if serverRole then Request else Reply, if serverRole then Reply else Request, slotCount, maxPayload, j);
      }
      LaneFrame(mem, mapping[..], other);
    }
  }
}
