/**
 shm_try_push_slot and shm_try_pop_slot as two processes that share the head and
 tail counters and the slot memory. Each transition is one load, one store, one
 copied byte or one branch, so a run may interleave the two sides anywhere, and
 a counter that was loaded may be out of date by the time it is compared.
 */
module SpscProtocol {
  import opened Bytes
  import opened BoundedFifo

  datatype Config = Config(slotCount: nat, maxPayload: nat) {
    ghost predicate Valid() { 0 < slotCount < U64 && maxPayload < U32 }
  }

  datatype Slot = Slot(len: u32, data: seq<byte>)

  datatype Producer =
    | PIdle
    | PStart(payload: seq<byte>)
    | PHaveHead(payload: seq<byte>, h: u64)
    | PHaveTail(payload: seq<byte>, h: u64, t: u64)
    | PCopying(payload: seq<byte>, h: u64, k: nat)
    | PLenStored(payload: seq<byte>, h: u64)

  datatype Consumer =
    | CIdle
    | CStart(capacity: nat)
    | CHaveTail(capacity: nat, t: u64)
    | CHaveHead(capacity: nat, t: u64, h: u64)
    | CAtSlot(capacity: nat, t: u64)
    | CHaveLen(capacity: nat, t: u64, copy: nat)
    | CCopying(capacity: nat, t: u64, copy: nat, buf: seq<byte>)

  datatype State = State(head: u64, tail: u64, slots: seq<Slot>, p: Producer, c: Consumer)

  /** Which side moves; a call is started with its argument. */
  datatype Action = CallPush(payload: seq<byte>) | StepProducer | CallPop(capacity: nat) | StepConsumer

  ghost predicate Shaped(cfg: Config, s: State) {
    && cfg.Valid()
    && |s.slots| == cfg.slotCount
    && forall i :: 0 <= i < |s.slots| ==> |s.slots[i].data| == cfg.maxPayload
  }

  function CopyLength(cfg: Config, payload: seq<byte>): nat { Min(|payload|, cfg.maxPayload) }

  /** uint64_t subtraction. */
  function Sub64(a: u64, b: u64): u64 { (a - b) % U64 }

  /** A counter's next value: it wraps. */
  function Succ64(a: u64): (r: u64)
    ensures a + 1 < U64 ==> r == a + 1
  {
    (a + 1) % U64
  }

  function NextProducer(cfg: Config, s: State): (r: (State, RingEvent))
    requires Shaped(cfg, s)
    ensures |r.0.slots| == |s.slots|
  {
    match s.p
    case PIdle => (s, Silent)
    case PStart(payload) => (s.(p := PHaveHead(payload, s.head)), Silent)
    case PHaveHead(payload, h) =>
      // The answer Full is decided by this load, whenever the branch runs.
      (s.(p := PHaveTail(payload, h, s.tail)), if Sub64(h, s.tail) >= cfg.slotCount then SawFull else Silent)
    case PHaveTail(payload, h, t) =>
      (s.(p := if Sub64(h, t) >= cfg.slotCount then PIdle else PCopying(payload, h, 0)), Silent)
    case PCopying(payload, h, k) =>
      var index := h % cfg.slotCount;
      var slot := s.slots[index];
      if k < CopyLength(cfg, payload) then
        (s.(slots := s.slots[index := slot.(data := slot.data[k := payload[k]])], p := PCopying(payload, h, k + 1)), Silent)
      else
        (s.(slots := s.slots[index := slot.(len := CopyLength(cfg, payload) % U32)], p := PLenStored(payload, h)), Silent)
    case PLenStored(payload, h) =>
      (s.(head := (h + 1) % U64, p := PIdle), Pushed(payload))
  }

  function NextConsumer(cfg: Config, s: State): (r: (State, RingEvent))
    requires Shaped(cfg, s)
    ensures r.0.slots == s.slots && r.0.head == s.head
  {
    match s.c
    case CIdle => (s, Silent)
    case CStart(cap) => (s.(c := CHaveTail(cap, s.tail)), Silent)
    case CHaveTail(cap, t) =>
      (s.(c := CHaveHead(cap, t, s.head)), if t >= s.head then SawEmpty else Silent)
    case CHaveHead(cap, t, h) =>
      (s.(c := if t >= h then CIdle else CAtSlot(cap, t)), Silent)
    case CAtSlot(cap, t) =>
      (s.(c := CHaveLen(cap, t, Min(s.slots[t % cfg.slotCount].len, cfg.maxPayload))), Silent)
    case CHaveLen(cap, t, copy) =>
      if copy > cap then (s.(c := CIdle), Refused(cap)) else (s.(c := CCopying(cap, t, copy, [])), Silent)
    case CCopying(cap, t, copy, buf) =>
      if |buf| < copy && |buf| < cfg.maxPayload then
        (s.(c := CCopying(cap, t, copy, buf + [s.slots[t % cfg.slotCount].data[|buf|]])), Silent)
      else
        (s.(tail := (t + 1) % U64, c := CIdle), Took(cap, buf))
  }

  function Next(cfg: Config, s: State, a: Action): (State, RingEvent)
    requires Shaped(cfg, s)
  {
    match a
    case CallPush(payload) => (if s.p.PIdle? then s.(p := PStart(payload)) else s, Silent)
    case StepProducer => NextProducer(cfg, s)
    case CallPop(cap) => (if s.c.CIdle? then s.(c := CStart(cap)) else s, Silent)
    case StepConsumer => NextConsumer(cfg, s)
  }

  lemma NextShaped(cfg: Config, s: State, a: Action)
    requires Shaped(cfg, s)
    ensures Shaped(cfg, Next(cfg, s, a).0)
  {
    assert a.StepProducer? && s.p.PCopying? ==> 0 <= s.p.h % cfg.slotCount < cfg.slotCount;
  }

  // ----- the invariant ------------------------------------------------------

  function SlotOf(cfg: Config, s: State, i: nat): Slot
    requires Shaped(cfg, s)
  {
    s.slots[i % cfg.slotCount]
  }

  /** The complete record a slot holds. */
  function Content(cfg: Config, slot: Slot): Record {
    slot.data[..Min(Min(slot.len, cfg.maxPayload), |slot.data|)]
  }

  ghost predicate ProducerInv(cfg: Config, s: State)
    requires Shaped(cfg, s)
  {
    match s.p
    case PIdle => true
    case PStart(_) => true
    case PHaveHead(_, h) => h == s.head
    case PHaveTail(_, h, t) => h == s.head && t <= s.tail
    case PCopying(payload, h, k) =>
      && h == s.head < s.tail + cfg.slotCount
      && k <= CopyLength(cfg, payload)
      && SlotOf(cfg, s, h).data[..k] == payload[..k]
    case PLenStored(payload, h) =>
      && h == s.head < s.tail + cfg.slotCount
      && Content(cfg, SlotOf(cfg, s, h)) == Clip(payload, cfg.maxPayload)
      && SlotOf(cfg, s, h).len <= cfg.maxPayload
  }

  ghost predicate ConsumerInv(cfg: Config, s: State)
    requires Shaped(cfg, s)
  {
    match s.c
    case CIdle => true
    case CStart(_) => true
    case CHaveTail(_, t) => t == s.tail
    case CHaveHead(_, t, h) => t == s.tail && h <= s.head
    case CAtSlot(_, t) => t == s.tail < s.head
    case CHaveLen(_, t, copy) => t == s.tail < s.head && copy == |Content(cfg, SlotOf(cfg, s, t))|
    case CCopying(cap, t, copy, buf) =>
      && t == s.tail < s.head
      && copy == |Content(cfg, SlotOf(cfg, s, t))| <= cap
      && |buf| <= copy
      && buf == Content(cfg, SlotOf(cfg, s, t))[..|buf|]
  }

  ghost predicate Inv(cfg: Config, s: State) {
    && Shaped(cfg, s)
    && s.tail <= s.head <= s.tail + cfg.slotCount
    && (forall i: nat :: s.tail <= i < s.head ==> SlotOf(cfg, s, i).len <= cfg.maxPayload)
    && ProducerInv(cfg, s)
    && ConsumerInv(cfg, s)
  }

  /** The queue as it stands in shared memory between tail and head. */
  function Queue(cfg: Config, s: State): (q: seq<Record>)
    requires Inv(cfg, s)
    ensures |q| == s.head - s.tail
    ensures forall j :: 0 <= j < |q| ==> q[j] == Content(cfg, SlotOf(cfg, s, s.tail + j))
  {
    seq(s.head - s.tail, j requires 0 <= j < s.head - s.tail => Content(cfg, SlotOf(cfg, s, s.tail + j)))
  }

  function Abstract(cfg: Config, s: State): Fifo
    requires Inv(cfg, s)
  {
    Fifo(cfg.slotCount, cfg.maxPayload, Queue(cfg, s))
  }

  lemma NoMultipleBetween(n: nat, q: int)
    requires 0 < n
    ensures n * q <= 0 || n * q >= n
  {
    if q >= 1 {
      assert n * q == n * (q - 1) + n;
      assert n * (q - 1) >= 0;
    } else {
      assert n * (-q) >= 0;
    }
  }

  lemma RemainderIs(x: nat, n: nat, q: int, r: nat)
    requires n > 0 && x == n * q + r && r < n
    ensures x % n == r
  {
    var d := x / n - q;
    assert n * d == n * (x / n) - n * q;
    NoMultipleBetween(n, d);
    NoMultipleBetween(n, -d);
  }

  /** Two counters less than one lap apart never name the same slot. */
  lemma SlotsDiffer(i: nat, h: nat, n: nat)
    requires 0 < n && i < h < i + n
    ensures i % n != h % n
  {
    var qi, qh := i / n, h / n;
    assert i == n * qi + i % n && h == n * qh + h % n;
    NoMultipleBetween(n, qh - qi);
    assert n * (qh - qi) == n * qh - n * qi;
  }

  /** Safety of slot memory: a slot being filled is never the slot being read out. */
  ghost predicate NoCollision(cfg: Config, s: State) {
    (s.p.PCopying? || s.p.PLenStored?) && (s.c.CAtSlot? || s.c.CHaveLen? || s.c.CCopying?) && cfg.Valid()
    ==> s.p.h % cfg.slotCount != s.c.t % cfg.slotCount
  }

  lemma InvExcludesCollision(cfg: Config, s: State)
    requires Inv(cfg, s)
    ensures NoCollision(cfg, s)
  {
    if (s.p.PCopying? || s.p.PLenStored?) && (s.c.CAtSlot? || s.c.CHaveLen? || s.c.CCopying?) {
      SlotsDiffer(s.c.t, s.p.h, cfg.slotCount);
    }
  }

  // ----- one step refines the atomic queue ----------------------------------

  /** A step that leaves queued slots alone leaves the abstract queue alone. */
  lemma SameQueue(cfg: Config, s: State, s': State)
    requires Inv(cfg, s) && Inv(cfg, s')
    requires s'.head == s.head && s'.tail == s.tail
    requires forall i: nat :: s.tail <= i < s.head ==> SlotOf(cfg, s', i) == SlotOf(cfg, s, i)
    ensures Abstract(cfg, s') == Abstract(cfg, s)
  {
    assert Queue(cfg, s') == Queue(cfg, s);
  }

  /** Writing the head slot does not touch any queued slot. */
  lemma HeadSlotIsFree(cfg: Config, s: State, slot: Slot)
    requires Shaped(cfg, s) && |slot.data| == cfg.maxPayload
    requires s.tail <= s.head < s.tail + cfg.slotCount
    ensures var s' := s.(slots := s.slots[s.head % cfg.slotCount := slot]);
            && Shaped(cfg, s')
            && SlotOf(cfg, s', s.head) == slot
            && forall i: nat :: s.tail <= i < s.head ==> SlotOf(cfg, s', i) == SlotOf(cfg, s, i)
  {
    forall i: nat | s.tail <= i < s.head
      ensures s.slots[s.head % cfg.slotCount := slot][i % cfg.slotCount] == SlotOf(cfg, s, i)
    {
      SlotsDiffer(i, s.head, cfg.slotCount);
    }
  }

  ghost predicate Refines(cfg: Config, s: State, s': State, e: RingEvent) {
    && Inv(cfg, s)
    && Inv(cfg, s')
    && Apply(Abstract(cfg, s), e) == Some(Abstract(cfg, s'))
    && s'.head == (if e.Pushed? then s.head + 1 else s.head)
  }

  /** A store into the head slot that keeps its shape and the producer's own invariant. */
  lemma HeadStore(cfg: Config, s: State, slot: Slot, p: Producer)
    requires Inv(cfg, s) && s.head < s.tail + cfg.slotCount && |slot.data| == cfg.maxPayload
    requires var s' := s.(slots := s.slots[s.head % cfg.slotCount := slot], p := p);
             Shaped(cfg, s') && ProducerInv(cfg, s')
    ensures var s' := s.(slots := s.slots[s.head % cfg.slotCount := slot], p := p);
            Inv(cfg, s') && Abstract(cfg, s') == Abstract(cfg, s)
  {
    var s' := s.(slots := s.slots[s.head % cfg.slotCount := slot], p := p);
    HeadSlotIsFree(cfg, s, slot);
    assert forall i: nat :: s.tail <= i < s.head ==> SlotOf(cfg, s', i) == SlotOf(cfg, s, i);
    SameQueue(cfg, s, s');
  }

  lemma ByteStep(cfg: Config, s: State)
    requires Inv(cfg, s) && s.p.PCopying? && s.p.k < CopyLength(cfg, s.p.payload)
    ensures Refines(cfg, s, NextProducer(cfg, s).0, NextProducer(cfg, s).1)
  {
    var PCopying(payload, h, k) := s.p;
    var slot := SlotOf(cfg, s, h);
    var slot' := slot.(data := slot.data[k := payload[k]]);
    HeadSlotIsFree(cfg, s, slot');
    assert slot'.data[..k + 1] == slot.data[..k] + [payload[k]];
    assert payload[..k + 1] == payload[..k] + [payload[k]];
    HeadStore(cfg, s, slot', PCopying(payload, h, k + 1));
  }

  lemma LengthStoreStep(cfg: Config, s: State)
    requires Inv(cfg, s) && s.p.PCopying? && s.p.k == CopyLength(cfg, s.p.payload)
    ensures Refines(cfg, s, NextProducer(cfg, s).0, NextProducer(cfg, s).1)
  {
    var PCopying(payload, h, n) := s.p;
    var slot := SlotOf(cfg, s, h);
    var slot' := slot.(len := n % U32);
    HeadSlotIsFree(cfg, s, slot');
    assert Content(cfg, slot') == payload[..n];
    HeadStore(cfg, s, slot', PLenStored(payload, h));
  }

  lemma PublishKeepsInv(cfg: Config, s: State)
    requires Inv(cfg, s) && s.p.PLenStored? && s.head + 1 < U64
    ensures var s' := NextProducer(cfg, s).0;
            Inv(cfg, s') && s'.head == s.head + 1 && s'.tail == s.tail && s'.slots == s.slots
  {
    var s' := NextProducer(cfg, s).0;
    assert forall i: nat :: s.tail <= i <= s.head ==> SlotOf(cfg, s', i) == SlotOf(cfg, s, i);
  }

  lemma PublishStep(cfg: Config, s: State)
    requires Inv(cfg, s) && s.p.PLenStored? && s.head + 1 < U64
    ensures Refines(cfg, s, NextProducer(cfg, s).0, NextProducer(cfg, s).1)
  {
    PublishKeepsInv(cfg, s);
    var s' := NextProducer(cfg, s).0;
    var q, q' := Queue(cfg, s), Queue(cfg, s');
    var record := Clip(s.p.payload, cfg.maxPayload);
    assert q' == q + [record] by {
      forall j | 0 <= j < |q'| ensures q'[j] == (q + [record])[j] {
        assert SlotOf(cfg, s', s.tail + j) == SlotOf(cfg, s, s.tail + j);
      }
    }
  }

  /** A step that only moves the producer's program counter. */
  lemma MoveProducer(cfg: Config, s: State, p: Producer)
    requires Inv(cfg, s) && ProducerInv(cfg, s.(p := p))
    ensures Inv(cfg, s.(p := p)) && Abstract(cfg, s.(p := p)) == Abstract(cfg, s)
  {
    var s' := s.(p := p);
    assert forall i: nat :: s.tail <= i <= s.head ==> SlotOf(cfg, s', i) == SlotOf(cfg, s, i);
    SameQueue(cfg, s, s');
  }

  lemma MoveConsumer(cfg: Config, s: State, c: Consumer)
    requires Inv(cfg, s) && ConsumerInv(cfg, s.(c := c))
    ensures Inv(cfg, s.(c := c)) && Abstract(cfg, s.(c := c)) == Abstract(cfg, s)
  {
    var s' := s.(c := c);
    assert forall i: nat :: s.tail <= i <= s.head ==> SlotOf(cfg, s', i) == SlotOf(cfg, s, i);
    SameQueue(cfg, s, s');
  }

  lemma Sub64InRange(h: u64, t: u64)
    requires t <= h
    ensures Sub64(h, t) == h - t
  {
  }

  lemma LoadStep(cfg: Config, s: State)
    requires Inv(cfg, s) && (s.p.PIdle? || s.p.PStart? || s.p.PHaveHead? || s.p.PHaveTail?)
    ensures Refines(cfg, s, NextProducer(cfg, s).0, NextProducer(cfg, s).1)
  {
    if s.p.PHaveHead? {
      Sub64InRange(s.p.h, s.tail);
    }
    if s.p.PHaveTail? {
      Sub64InRange(s.p.h, s.p.t);
    }
    MoveProducer(cfg, s, NextProducer(cfg, s).0.p);
  }

  lemma ProducerStep(cfg: Config, s: State)
    requires Inv(cfg, s)
    requires s.p.PLenStored? ==> s.head + 1 < U64
    ensures Refines(cfg, s, NextProducer(cfg, s).0, NextProducer(cfg, s).1)
  {
    match s.p
    case PCopying(payload, _, k) =>
      if k < CopyLength(cfg, payload) { ByteStep(cfg, s); } else { LengthStoreStep(cfg, s); }
    case PLenStored(_, _) => PublishStep(cfg, s);
    case _ => LoadStep(cfg, s);
  }

  lemma TakeKeepsInv(cfg: Config, s: State)
    requires Inv(cfg, s) && s.c.CCopying? && |s.c.buf| == s.c.copy
    ensures var s' := NextConsumer(cfg, s).0;
            Inv(cfg, s') && s'.tail == s.tail + 1 && s'.head == s.head && s'.slots == s.slots
  {
    var s' := s.(tail := s.tail + 1, c := CIdle);
    assert NextConsumer(cfg, s).0 == s';
    assert forall i: nat :: SlotOf(cfg, s', i) == SlotOf(cfg, s, i);
    assert ProducerInv(cfg, s');
  }

  lemma TakeStep(cfg: Config, s: State)
    requires Inv(cfg, s) && s.c.CCopying? && |s.c.buf| == s.c.copy
    ensures Refines(cfg, s, NextConsumer(cfg, s).0, NextConsumer(cfg, s).1)
  {
    TakeKeepsInv(cfg, s);
    var s' := NextConsumer(cfg, s).0;
    var q, q' := Queue(cfg, s), Queue(cfg, s');
    assert s.c.buf == q[0];
    assert q' == q[1..] by {
      forall j | 0 <= j < |q'| ensures q'[j] == q[1..][j] {
        assert SlotOf(cfg, s', s'.tail + j) == SlotOf(cfg, s, s.tail + (j + 1));
      }
    }
  }

  lemma ReadStep(cfg: Config, s: State)
    requires Inv(cfg, s) && s.c.CCopying? && |s.c.buf| < s.c.copy
    ensures Refines(cfg, s, NextConsumer(cfg, s).0, NextConsumer(cfg, s).1)
  {
    var content := Content(cfg, SlotOf(cfg, s, s.c.t));
    assert content[..|s.c.buf| + 1] == content[..|s.c.buf|] + [content[|s.c.buf|]];
    MoveConsumer(cfg, s, NextConsumer(cfg, s).0.c);
  }

  lemma LengthStep(cfg: Config, s: State)
    requires Inv(cfg, s) && (s.c.CAtSlot? || s.c.CHaveLen?)
    ensures Refines(cfg, s, NextConsumer(cfg, s).0, NextConsumer(cfg, s).1)
  {
    assert Queue(cfg, s)[0] == Content(cfg, SlotOf(cfg, s, s.tail));
    MoveConsumer(cfg, s, NextConsumer(cfg, s).0.c);
  }

  lemma CounterStep(cfg: Config, s: State)
    requires Inv(cfg, s) && (s.c.CIdle? || s.c.CStart? || s.c.CHaveTail? || s.c.CHaveHead?)
    ensures Refines(cfg, s, NextConsumer(cfg, s).0, NextConsumer(cfg, s).1)
  {
    MoveConsumer(cfg, s, NextConsumer(cfg, s).0.c);
  }

  lemma ConsumerStep(cfg: Config, s: State)
    requires Inv(cfg, s)
    ensures Refines(cfg, s, NextConsumer(cfg, s).0, NextConsumer(cfg, s).1)
  {
    match s.c
    case CCopying(_, _, copy, buf) =>
      if |buf| == copy { TakeStep(cfg, s); } else { ReadStep(cfg, s); }
    case CAtSlot(_, _) => LengthStep(cfg, s);
    case CHaveLen(_, _, _) => LengthStep(cfg, s);
    case _ => CounterStep(cfg, s);
  }

  // ----- whole runs ---------------------------------------------------------

  function Initial(cfg: Config): State {
    State(0, 0, seq(cfg.slotCount, _ => Slot(0, seq(cfg.maxPayload, _ => 0))), PIdle, CIdle)
  }

  function Run(cfg: Config, s: State, actions: seq<Action>): (r: State)
    requires Shaped(cfg, s)
    ensures Shaped(cfg, r)
    decreases |actions|
  {
    if actions == [] then s
    else
      NextShaped(cfg, s, actions[0]);
      Run(cfg, Next(cfg, s, actions[0]).0, actions[1..])
  }

  function Trace(cfg: Config, s: State, actions: seq<Action>): seq<RingEvent>
    requires Shaped(cfg, s)
    decreases |actions|
  {
    if actions == [] then []
    else
      NextShaped(cfg, s, actions[0]);
      [Next(cfg, s, actions[0]).1] + Trace(cfg, Next(cfg, s, actions[0]).0, actions[1..])
  }

  lemma StepRefines(cfg: Config, s: State, a: Action)
    requires Inv(cfg, s)
    requires Next(cfg, s, a).1.Pushed? ==> s.head + 1 < U64
    ensures Refines(cfg, s, Next(cfg, s, a).0, Next(cfg, s, a).1)
  {
    match a
    case StepProducer => ProducerStep(cfg, s);
    case StepConsumer => ConsumerStep(cfg, s);
    case CallPush(payload) => MoveProducer(cfg, s, Next(cfg, s, a).0.p);
    case CallPop(cap) => MoveConsumer(cfg, s, Next(cfg, s, a).0.c);
  }

  ghost predicate ConsumerOnly(actions: seq<Action>) {
    forall a :: a in actions ==> a.CallPop? || a.StepConsumer?
  }

  lemma {:induction false} ConsumerLeavesProducerAlone(cfg: Config, s: State, actions: seq<Action>)
    requires Shaped(cfg, s) && ConsumerOnly(actions)
    ensures Run(cfg, s, actions).p == s.p
    decreases |actions|
  {
    if actions != [] {
      NextShaped(cfg, s, actions[0]);
      assert actions[0] in actions;
      ConsumerLeavesProducerAlone(cfg, Next(cfg, s, actions[0]).0, actions[1..]);
    }
  }

  /**
   A push answers Full exactly when its tail load was linearised as SawFull, no
   matter how far the consumer has moved on by the time the branch runs.
   */
  lemma FullIsDecidedAtTheTailLoad(cfg: Config, s: State, between: seq<Action>)
    requires Inv(cfg, s) && s.p.PHaveHead? && ConsumerOnly(between)
    ensures var (loaded, e) := NextProducer(cfg, s);
            var later := Run(cfg, loaded, between);
            && (NextProducer(cfg, later).0.p.PIdle? <==> e == SawFull)
            && (e == SawFull <==> |Queue(cfg, s)| == cfg.slotCount)
  {
    LoadStep(cfg, s);
    ConsumerLeavesProducerAlone(cfg, NextProducer(cfg, s).0, between);
  }

  ghost predicate ProducerOnly(actions: seq<Action>) {
    forall a :: a in actions ==> a.CallPush? || a.StepProducer?
  }

  lemma {:induction false} ProducerLeavesConsumerAlone(cfg: Config, s: State, actions: seq<Action>)
    requires Shaped(cfg, s) && ProducerOnly(actions)
    ensures Run(cfg, s, actions).c == s.c
    decreases |actions|
  {
    if actions != [] {
      NextShaped(cfg, s, actions[0]);
      assert actions[0] in actions;
      ProducerLeavesConsumerAlone(cfg, Next(cfg, s, actions[0]).0, actions[1..]);
    }
  }

  /** A pop answers empty exactly when the ring was empty at its head load, whatever has been pushed since. */
  lemma EmptyIsDecidedAtTheHeadLoad(cfg: Config, s: State, between: seq<Action>)
    requires Inv(cfg, s) && s.c.CHaveTail? && ProducerOnly(between)
    ensures var (loaded, e) := NextConsumer(cfg, s);
            var later := Run(cfg, loaded, between);
            && (NextConsumer(cfg, later).0.c.CIdle? <==> e == SawEmpty)
            && (e == SawEmpty <==> Queue(cfg, s) == [])
  {
    CounterStep(cfg, s);
    ProducerLeavesConsumerAlone(cfg, NextConsumer(cfg, s).0, between);
  }

  lemma {:induction false} RunFromRefines(cfg: Config, s: State, actions: seq<Action>)
    requires Inv(cfg, s)
    requires s.head + |PushedRecords(Trace(cfg, s, actions), cfg.maxPayload)| < U64
    ensures Inv(cfg, Run(cfg, s, actions))
    ensures Replay(Abstract(cfg, s), Trace(cfg, s, actions)) == Some(Abstract(cfg, Run(cfg, s, actions)))
    decreases |actions|
  {
    if actions != [] {
      var (s', e) := Next(cfg, s, actions[0]);
      var rest := Trace(cfg, s', actions[1..]);
      assert Trace(cfg, s, actions) == [e] + rest;
      assert Trace(cfg, s, actions)[1..] == rest;
      StepRefines(cfg, s, actions[0]);
      RunFromRefines(cfg, s', actions[1..]);
    }
  }

  lemma InitialInv(cfg: Config)
    requires cfg.Valid()
    ensures Inv(cfg, Initial(cfg)) && Abstract(cfg, Initial(cfg)) == Fifo(cfg.slotCount, cfg.maxPayload, [])
  {
  }

  ghost predicate WithinCounterRange(cfg: Config, actions: seq<Action>)
    requires cfg.Valid()
  {
    InitialInv(cfg);
    |PushedRecords(Trace(cfg, Initial(cfg), actions), cfg.maxPayload)| < U64
  }

  /**
   Main theorem of the ring. For every interleaving with fewer than 2^64 pushes,
   the events at the linearisation points (head store, tail store, the deciding
   counter load, the throw) are a run of the atomic bounded queue that ends in
   the queue now in memory, so a popped record is a whole pushed record, Full and
   empty answers were true when the counter was loaded, and slots never collide.
   */
  lemma RunRefinesFifo(cfg: Config, actions: seq<Action>)
    requires cfg.Valid() && WithinCounterRange(cfg, actions)
    ensures Inv(cfg, Initial(cfg))
    ensures var s := Run(cfg, Initial(cfg), actions);
            var trace := Trace(cfg, Initial(cfg), actions);
            && Inv(cfg, s)
            && NoCollision(cfg, s)
            && 0 <= s.head - s.tail <= cfg.slotCount
            && Replay(Fifo(cfg.slotCount, cfg.maxPayload, []), trace) == Some(Abstract(cfg, s))
            && PushedRecords(trace, cfg.maxPayload) == TakenRecords(trace) + Queue(cfg, s)
  {
    InitialInv(cfg);
    RunFromRefines(cfg, Initial(cfg), actions);
    var s := Run(cfg, Initial(cfg), actions);
    InvExcludesCollision(cfg, s);
    var empty := Fifo(cfg.slotCount, cfg.maxPayload, []);
    ReplayConserves(empty, Trace(cfg, Initial(cfg), actions));
    assert empty.queue + PushedRecords(Trace(cfg, Initial(cfg), actions), cfg.maxPayload)
        == PushedRecords(Trace(cfg, Initial(cfg), actions), cfg.maxPayload);
  }
}
