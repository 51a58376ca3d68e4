/**
 What the ring does at push number 2^64, one more than the refinement theorem
 allows, as runs of the same transition system.
 */
module SpscWrap {
  import opened Bytes
  import opened BoundedFifo
  import opened SpscProtocol

  // ----- after the head has wrapped -----------------------------------------

  /** The consumer is past its empty test and on its way to take a record. */
  predicate Committed(c: Consumer) {
    c.CAtSlot? || c.CHaveLen? || c.CCopying? || (c.CHaveHead? && c.t < c.h)
  }

  /**
   The head counter has wrapped and the tail counter has not: head < tail, yet the
   ring holds head + 2^64 - tail records.
   */
  ghost predicate Lost(cfg: Config, s: State) {
    && Shaped(cfg, s)
    && s.head + U64 <= s.tail + cfg.slotCount
    && (match s.p
        case PIdle => true
        case PStart(_) => true
        case PHaveHead(_, h) => h == s.head
        case PHaveTail(_, h, t) => h == s.head && s.head < t <= s.tail
        case PCopying(payload, h, k) => h == s.head && k <= CopyLength(cfg, payload) && s.head + U64 < s.tail + cfg.slotCount
        case PLenStored(_, h) => h == s.head && s.head + U64 < s.tail + cfg.slotCount)
    && (match s.c
        case CIdle => true
        case CStart(_) => true
        case CHaveTail(_, t) => t == s.tail
        case CHaveHead(_, t, _) => t == s.tail
        case CAtSlot(_, t) => t == s.tail
        case CHaveLen(_, t, _) => t == s.tail
        case CCopying(_, t, _, _) => t == s.tail)
    && (Committed(s.c) ==> s.tail + 1 < U64)
  }

  function OnePerCommitment(s: State): nat { if Committed(s.c) then 1 else 0 }

  /** Slots still free, counting the one a committed consumer is about to give back. */
  function Room(cfg: Config, s: State): int { s.tail + cfg.slotCount - s.head - U64 + OnePerCommitment(s) }

  /** What a producer step does to the counters and the other side. */
  lemma ProducerTouches(cfg: Config, s: State)
    requires Shaped(cfg, s)
    ensures var (s', e) := NextProducer(cfg, s);
            && s'.tail == s.tail && s'.c == s.c && !e.Took?
            && (e.Pushed? <==> s.p.PLenStored?)
            && s'.head == (if s.p.PLenStored? then (s.p.h + 1) % U64 else s.head)
            && Shaped(cfg, s')
  {
    NextShaped(cfg, s, StepProducer);
  }

  lemma LostCopyStep(cfg: Config, s: State)
    requires Lost(cfg, s) && s.p.PCopying?
    ensures Lost(cfg, NextProducer(cfg, s).0)
  {
    ProducerTouches(cfg, s);
  }

  lemma LostLoadStep(cfg: Config, s: State)
    requires Lost(cfg, s) && !s.p.PCopying?
    ensures Lost(cfg, NextProducer(cfg, s).0)
  {
    ProducerTouches(cfg, s);
    if s.p.PHaveTail? {
      assert Sub64(s.p.h, s.p.t) == s.p.h - s.p.t + U64;
    }
    if s.p.PLenStored? {
      assert (s.p.h + 1) % U64 == s.head + 1;
    }
  }

  /** Every step from a lost state leads to a lost state, and spends from what is left. */
  lemma LostProducerStep(cfg: Config, s: State)
    requires Lost(cfg, s)
    ensures var (s', e) := NextProducer(cfg, s);
            && Lost(cfg, s') && !e.Took? && s'.c == s.c
            && Room(cfg, s') == Room(cfg, s) - (if e.Pushed? then 1 else 0)
  {
    ProducerTouches(cfg, s);
    if s.p.PCopying? { LostCopyStep(cfg, s); } else { LostLoadStep(cfg, s); }
    if s.p.PLenStored? {
      assert (s.p.h + 1) % U64 == s.head + 1;
    }
  }

  lemma LostConsumerStep(cfg: Config, s: State)
    requires Lost(cfg, s)
    ensures var (s', e) := NextConsumer(cfg, s);
            && Lost(cfg, s') && !e.Pushed? && (e.Took? ==> Committed(s.c))
            && Room(cfg, s') <= Room(cfg, s)
            && OnePerCommitment(s') <= OnePerCommitment(s) - (if e.Took? then 1 else 0)
  {
    NextShaped(cfg, s, StepConsumer);
    assert s.head < s.tail;
    if s.c.CCopying? {
      assert (s.c.t + 1) % U64 == s.tail + 1;
    }
  }

  lemma LostStep(cfg: Config, s: State, a: Action)
    requires Lost(cfg, s)
    ensures var (s', e) := Next(cfg, s, a);
            && Lost(cfg, s')
            && OnePerCommitment(s') <= OnePerCommitment(s) - (if e.Took? then 1 else 0)
            && Room(cfg, s') <= Room(cfg, s) - (if e.Pushed? then 1 else 0)
  {
    match a
    case StepProducer => LostProducerStep(cfg, s);
    case StepConsumer => LostConsumerStep(cfg, s);
    case _ => NextShaped(cfg, s, a);
  }

  lemma {:induction false} LostForEver(cfg: Config, s: State, actions: seq<Action>)
    requires Lost(cfg, s)
    ensures var trace := Trace(cfg, s, actions);
            && Lost(cfg, Run(cfg, s, actions))
            && |TakenRecords(trace)| <= OnePerCommitment(s)
            && |PushedRecords(trace, cfg.maxPayload)| <= Room(cfg, s)
    decreases |actions|
  {
    if actions != [] {
      var (s', e) := Next(cfg, s, actions[0]);
      LostStep(cfg, s, actions[0]);
      LostForEver(cfg, s', actions[1..]);
      assert Trace(cfg, s, actions)[1..] == Trace(cfg, s', actions[1..]);
    }
  }

  /**
   The publish step that takes the head from 2^64 - 1 to 0 ends the ring for good:
   in every continuation the consumer takes nothing more (except a record it was
   already reading), the producer fits in at most the slots still free, and no
   step of either side ever leads out of this condition.
   */
  lemma WrapLosesTheRing(cfg: Config, s: State, actions: seq<Action>)
    requires Inv(cfg, s) && s.p.PLenStored? && s.head == U64 - 1
    ensures var lost := NextProducer(cfg, s).0;
            var trace := Trace(cfg, lost, actions);
            && NextProducer(cfg, s).1.Pushed? && lost.head == 0
            && Lost(cfg, Run(cfg, lost, actions))
            && |TakenRecords(trace)| <= (if Committed(s.c) then 1 else 0)
            && |PushedRecords(trace, cfg.maxPayload)| <= cfg.slotCount
  {
    NextShaped(cfg, s, StepProducer);
    LostForEver(cfg, NextProducer(cfg, s).0, actions);
  }

  // ----- ... and it is reached ------------------------------------------------

  lemma Walk(cfg: Config, s: State, a: Action, rest: seq<Action>)
    requires Shaped(cfg, s)
    ensures Shaped(cfg, Next(cfg, s, a).0)
    ensures Run(cfg, s, [a] + rest) == Run(cfg, Next(cfg, s, a).0, rest)
    ensures Trace(cfg, s, [a] + rest) == [Next(cfg, s, a).1] + Trace(cfg, Next(cfg, s, a).0, rest)
  {
    NextShaped(cfg, s, a);
    assert ([a] + rest)[1..] == rest;
  }

  lemma {:induction false} RunAppend(cfg: Config, s: State, a: seq<Action>, b: seq<Action>)
    requires Shaped(cfg, s)
    ensures Run(cfg, s, a + b) == Run(cfg, Run(cfg, s, a), b)
    ensures Trace(cfg, s, a + b) == Trace(cfg, s, a) + Trace(cfg, Run(cfg, s, a), b)
    decreases |a|
  {
    if a == [] {
      assert a + b == b;
    } else {
      NextShaped(cfg, s, a[0]);
      assert (a + b)[1..] == a[1..] + b;
      RunAppend(cfg, Next(cfg, s, a[0]).0, a[1..], b);
    }
  }

  function Repeat(a: Action, n: nat): seq<Action> { if n == 0 then [] else [a] + Repeat(a, n - 1) }

  /** An empty ring at rest whose counters are both n. */
  ghost predicate AtRest(cfg: Config, s: State, n: nat) {
    Shaped(cfg, s) && s.head == s.tail == n && s.p == PIdle && s.c == CIdle
  }

  /** A push of the empty payload, up to but not including its publish step. */
  function PushActions(): seq<Action> { [CallPush([])] + Repeat(StepProducer, 4) }

  lemma PushUpToPublish(cfg: Config, s: State, n: nat)
    requires AtRest(cfg, s, n)
    ensures var s' := Run(cfg, s, PushActions());
            s'.head == s'.tail == n && s'.p == PLenStored([], n) && s'.c == CIdle && SlotOf(cfg, s', n).len == 0
    ensures PushedRecords(Trace(cfg, s, PushActions()), cfg.maxPayload) == []
  {
    var a := StepProducer;
    Walk(cfg, s, CallPush([]), Repeat(a, 4));
    var s1 := s.(p := PStart([]));
    Walk(cfg, s1, a, Repeat(a, 3));
    var s2 := s.(p := PHaveHead([], n));
    Walk(cfg, s2, a, Repeat(a, 2));
    var s3 := s.(p := PHaveTail([], n, n));
    assert Sub64(n, n) == 0;
    Walk(cfg, s3, a, Repeat(a, 1));
    var s4 := s.(p := PCopying([], n, 0));
    Walk(cfg, s4, a, Repeat(a, 0));
    SilentAddsNothing(Trace(cfg, s4, Repeat(a, 1)), cfg.maxPayload);
    SilentAddsNothing(Trace(cfg, s3, Repeat(a, 2)), cfg.maxPayload);
    SilentAddsNothing(Trace(cfg, s2, Repeat(a, 3)), cfg.maxPayload);
    SilentAddsNothing(Trace(cfg, s1, Repeat(a, 4)), cfg.maxPayload);
    SilentAddsNothing(Trace(cfg, s, PushActions()), cfg.maxPayload);
  }

  lemma SilentAddsNothing(trace: seq<RingEvent>, m: nat)
    requires trace != [] && !trace[0].Pushed?
    ensures PushedRecords(trace, m) == PushedRecords(trace[1..], m)
  {
  }

  lemma {:induction false} ConsumerPushesNothing(cfg: Config, s: State, actions: seq<Action>)
    requires Shaped(cfg, s) && ConsumerOnly(actions)
    ensures PushedRecords(Trace(cfg, s, actions), cfg.maxPayload) == []
    decreases |actions|
  {
    if actions != [] {
      NextShaped(cfg, s, actions[0]);
      assert actions[0] in actions;
      var s' := Next(cfg, s, actions[0]).0;
      ConsumerPushesNothing(cfg, s', actions[1..]);
      assert Trace(cfg, s, actions)[1..] == Trace(cfg, s', actions[1..]);
    }
  }

  function PopActions(): seq<Action> { [CallPop(0)] + Repeat(StepConsumer, 6) }

  lemma PopLoads(cfg: Config, s: State, n: nat)
    requires Shaped(cfg, s) && s.head == n + 1 < U64 && s.tail == n && s.c == CIdle
    ensures Run(cfg, s, PopActions()) == Run(cfg, s.(c := CAtSlot(0, n)), Repeat(StepConsumer, 3))
  {
    var a := StepConsumer;
    Walk(cfg, s, CallPop(0), Repeat(a, 6));
    Walk(cfg, s.(c := CStart(0)), a, Repeat(a, 5));
    Walk(cfg, s.(c := CHaveTail(0, n)), a, Repeat(a, 4));
    Walk(cfg, s.(c := CHaveHead(0, n, n + 1)), a, Repeat(a, 3));
  }

  lemma PopTakes(cfg: Config, s: State, n: nat)
    requires Shaped(cfg, s) && n + 1 < U64 && SlotOf(cfg, s, n).len == 0
    ensures Run(cfg, s.(c := CAtSlot(0, n)), Repeat(StepConsumer, 3)) == s.(tail := n + 1, c := CIdle)
  {
    var a := StepConsumer;
    Walk(cfg, s.(c := CAtSlot(0, n)), a, Repeat(a, 2));
    Walk(cfg, s.(c := CHaveLen(0, n, 0)), a, Repeat(a, 1));
    Walk(cfg, s.(c := CCopying(0, n, 0, [])), a, Repeat(a, 0));
  }

  lemma PublishAndPop(cfg: Config, s: State, n: nat)
    requires Shaped(cfg, s) && s.head == s.tail == n && n + 1 < U64
    requires s.p == PLenStored([], n) && s.c == CIdle && SlotOf(cfg, s, n).len == 0
    ensures AtRest(cfg, Run(cfg, s, [StepProducer] + PopActions()), n + 1)
    ensures |PushedRecords(Trace(cfg, s, [StepProducer] + PopActions()), cfg.maxPayload)| == 1
  {
    var s' := s.(head := n + 1, p := PIdle);
    assert NextProducer(cfg, s) == (s', Pushed([]));
    Walk(cfg, s, StepProducer, PopActions());
    assert AtRest(cfg, Run(cfg, s', PopActions()), n + 1) by {
      assert SlotOf(cfg, s', n) == SlotOf(cfg, s, n);
      PopLoads(cfg, s', n);
      PopTakes(cfg, s', n);
    }
    PopsPushNothing(cfg, s');
    PushedFirst([], Trace(cfg, s', PopActions()), cfg.maxPayload);
  }

  lemma PopsPushNothing(cfg: Config, s: State)
    requires Shaped(cfg, s)
    ensures PushedRecords(Trace(cfg, s, PopActions()), cfg.maxPayload) == []
  {
    RepeatIs(StepConsumer, 6);
    ConsumerPushesNothing(cfg, s, PopActions());
  }

  lemma {:induction false} RepeatIs(a: Action, n: nat)
    ensures forall x :: x in Repeat(a, n) ==> x == a
  {
    if n > 0 {
      RepeatIs(a, n - 1);
    }
  }

  lemma PushedFirst(payload: seq<byte>, trace: seq<RingEvent>, m: nat)
    ensures PushedRecords([Pushed(payload)] + trace, m) == [Clip(payload, m)] + PushedRecords(trace, m)
  {
    assert ([Pushed(payload)] + trace)[1..] == trace;
  }

  /** One whole push and pop of an empty record. */
  function Cycle(): seq<Action> { PushActions() + ([StepProducer] + PopActions()) }

  lemma CycleAdvances(cfg: Config, s: State, n: nat)
    requires AtRest(cfg, s, n) && n + 1 < U64
    ensures AtRest(cfg, Run(cfg, s, Cycle()), n + 1)
    ensures |PushedRecords(Trace(cfg, s, Cycle()), cfg.maxPayload)| == 1
  {
    var first, second := PushActions(), [StepProducer] + PopActions();
    PushUpToPublish(cfg, s, n);
    var s1 := Run(cfg, s, first);
    PublishAndPop(cfg, s1, n);
    RunAppend(cfg, s, first, second);
    PushedAppend(Trace(cfg, s, first), Trace(cfg, s1, second), cfg.maxPayload);
  }

  /** Pushing and popping in turn brings the counters to any value. */
  lemma {:induction false} CountersReach(cfg: Config, n: nat) returns (actions: seq<Action>)
    requires cfg.Valid() && n < U64
    ensures AtRest(cfg, Run(cfg, Initial(cfg), actions), n)
    ensures |PushedRecords(Trace(cfg, Initial(cfg), actions), cfg.maxPayload)| == n
  {
    if n == 0 {
      actions := [];
    } else {
      var before := CountersReach(cfg, n - 1);
      var s := Run(cfg, Initial(cfg), before);
      CycleAdvances(cfg, s, n - 1);
      actions := before + Cycle();
      RunAppend(cfg, Initial(cfg), before, Cycle());
      PushedAppend(Trace(cfg, Initial(cfg), before), Trace(cfg, s, Cycle()), cfg.maxPayload);
    }
  }

  lemma {:induction false} ReplayAppend(f: Fifo, a: seq<RingEvent>, b: seq<RingEvent>)
    ensures Replay(f, a + b) == match Replay(f, a) case None => None case Some(g) => Replay(g, b)
    decreases |a|
  {
    if a == [] {
      assert a + b == b;
    } else {
      assert (a + b)[1..] == a[1..] + b;
      if Apply(f, a[0]).Some? {
        ReplayAppend(Apply(f, a[0]).value, a[1..], b);
      }
    }
  }

  lemma {:induction false} PushedAppend(a: seq<RingEvent>, b: seq<RingEvent>, m: nat)
    ensures PushedRecords(a + b, m) == PushedRecords(a, m) + PushedRecords(b, m)
  {
    if a == [] {
      assert a + b == b;
    } else {
      assert (a + b)[1..] == a[1..] + b;
      PushedAppend(a[1..], b, m);
    }
  }

  /** Publish, then a pop that reports empty with that record in the ring. */
  function LateActions(): seq<Action> { [StepProducer] + ([CallPop(0)] + ([StepConsumer] + [StepConsumer])) }

  lemma LateTrace(cfg: Config, s: State, payload: seq<byte>)
    requires Inv(cfg, s) && s.p == PLenStored(payload, s.head) && s.c == CIdle && s.head == U64 - 1
    ensures Trace(cfg, s, LateActions()) == [Pushed(payload), Silent, Silent, SawEmpty]
  {
    Walk(cfg, s, StepProducer, [CallPop(0)] + ([StepConsumer] + [StepConsumer]));
    var s1 := Next(cfg, s, StepProducer).0;
    Walk(cfg, s1, CallPop(0), [StepConsumer] + [StepConsumer]);
    var s2 := Next(cfg, s1, CallPop(0)).0;
    Walk(cfg, s2, StepConsumer, [StepConsumer]);
    var s3 := Next(cfg, s2, StepConsumer).0;
    Walk(cfg, s3, StepConsumer, []);
    assert [StepConsumer] + [] == [StepConsumer];
    var s4 := Next(cfg, s3, StepConsumer).0;
    assert Trace(cfg, s4, []) == [];
  }

  /**
   The bound of RunRefinesFifo is exact: every ring has a run with 2^64 pushes,
   one more than the bound allows, that is no run of the bounded FIFO.
   */
  lemma PushBoundIsExact(cfg: Config) returns (actions: seq<Action>)
    requires cfg.Valid()
    ensures var trace := Trace(cfg, Initial(cfg), actions);
            && |PushedRecords(trace, cfg.maxPayload)| == U64
            && Replay(Fifo(cfg.slotCount, cfg.maxPayload, []), trace) == None
  {
    var ready := ReadyToWrap(cfg);
    ReadyRefines(cfg, ready);
    var s, a, b := Run(cfg, Initial(cfg), ready), Trace(cfg, Initial(cfg), ready), LATE_EVENTS;
    LateTrace(cfg, s, []);
    actions := ready + LateActions();
    RunAppend(cfg, Initial(cfg), ready, LateActions());
    ReplayAppend(Fifo(cfg.slotCount, cfg.maxPayload, []), a, b);
    PushedAppend(a, b, cfg.maxPayload);
    LateEvents(Abstract(cfg, s), cfg.maxPayload);
  }

  /** A run to the brink: 2^64 - 1 records pushed and popped, one more in its slot and not yet published. */
  lemma ReadyToWrap(cfg: Config) returns (actions: seq<Action>)
    requires cfg.Valid()
    ensures var s := Run(cfg, Initial(cfg), actions);
            s.head == s.tail == U64 - 1 && s.p == PLenStored([], U64 - 1) && s.c == CIdle
    ensures |PushedRecords(Trace(cfg, Initial(cfg), actions), cfg.maxPayload)| == U64 - 1
  {
    var before := CountersReach(cfg, U64 - 1);
    var rest := Run(cfg, Initial(cfg), before);
    PushUpToPublish(cfg, rest, U64 - 1);
    actions := before + PushActions();
    RunAppend(cfg, Initial(cfg), before, PushActions());
    PushedAppend(Trace(cfg, Initial(cfg), before), Trace(cfg, rest, PushActions()), cfg.maxPayload);
  }

  lemma ReadyRefines(cfg: Config, actions: seq<Action>)
    requires cfg.Valid() && WithinCounterRange(cfg, actions)
    ensures Inv(cfg, Run(cfg, Initial(cfg), actions))
    ensures Replay(Fifo(cfg.slotCount, cfg.maxPayload, []), Trace(cfg, Initial(cfg), actions))
            == Some(Abstract(cfg, Run(cfg, Initial(cfg), actions)))
  {
    InitialInv(cfg);
    RunFromRefines(cfg, Initial(cfg), actions);
  }

  const LATE_EVENTS: seq<RingEvent> := [Pushed([]), Silent, Silent, SawEmpty]

  lemma LateEvents(f: Fifo, m: nat)
    ensures Replay(f, LATE_EVENTS) == None
    ensures |PushedRecords(LATE_EVENTS, m)| == 1
  {
    var b2: seq<RingEvent>, b1: seq<RingEvent>, b0: seq<RingEvent> := [Silent, Silent, SawEmpty], [Silent, SawEmpty], [SawEmpty];
    assert LATE_EVENTS[1..] == b2 && b2[1..] == b1 && b1[1..] == b0 && b0[1..] == [];
    SilentAddsNothing(b0, m);
    SilentAddsNothing(b1, m);
    SilentAddsNothing(b2, m);
    assert LATE_EVENTS == [Pushed([])] + b2;
    PushedFirst([], b2, m);
    if !f.Full() {
      var g := Push(f, []);
      assert g.queue != [];
      assert Replay(g, b0) == None && Replay(g, b1) == None && Replay(g, b2) == None;
    }
  }

  /**
   Independently of the counters' comparison, the slot after the one of counter
   2^64 - 1 is slot 0, where the wrapped head goes, only if the slot count divides
   2^64; for three slots the wrapped push lands on the record pushed just before it.
   */
  lemma SlotsContinueIff(slotCount: nat)
    requires slotCount > 0
    ensures ((U64 - 1) % slotCount + 1) % slotCount == 0 % slotCount <==> U64 % slotCount == 0
    ensures (U64 - 1) % 3 == 0 % 3
  {
    var q, r := (U64 - 1) / slotCount, (U64 - 1) % slotCount;
    assert U64 == slotCount * q + (r + 1);
    if r + 1 < slotCount {
      RemainderIs(U64, slotCount, q, r + 1);
    } else {
      assert slotCount * q + slotCount == slotCount * (q + 1);
      RemainderIs(U64, slotCount, q + 1, 0);
    }
  }
}
