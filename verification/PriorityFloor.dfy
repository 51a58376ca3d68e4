/**
 The priority admission floor, compared with no floor: two runs of the whole
 router over the same events, one whose operator sets floors and one without any.
 */
module PriorityFloor {
  import opened Bytes
  import opened BoundedFifo
  import opened Frame
  import opened Routing
  import opened ShmRouter
  import opened RouterRuns

  /** Channel `a` (with a floor) is no fuller than `b` (without), and otherwise alike. */
  ghost predicate Lighter(a: Channel, b: Channel) {
    && a.peerId == b.peerId && a.inbound == b.inbound
    && a.outbound.slotCount == b.outbound.slotCount && a.outbound.maxPayload == b.outbound.maxPayload
    && |a.outbound.queue| <= |b.outbound.queue|
    && a.outbound.Valid() && b.outbound.Valid()
  }

  /** Everything of priority f or more that `b` got through, `a` got through as well. */
  ghost predicate GetsThrough(f: byte, a: seq<Copy>, b: seq<Copy>) {
    forall c :: c in b && PriorityOf(c.frame) >= f ==> c in a
  }

  /** `f` bounds every floor `a` has had so far. */
  ghost predicate Dominates(f: byte, a: System, b: System) {
    && Shaped(a) && Shaped(b)
    && a.link.floor <= f && b.link.floor == 0
    && a.pc == b.pc && a.published == b.published
    && |a.link.channels| == |b.link.channels|
    && (forall d :: 0 <= d < |a.link.channels| ==> Lighter(a.link.channels[d], b.link.channels[d]))
    && (forall d :: 0 <= d < |a.link.channels| ==> GetsThrough(f, a.enqueued[d], b.enqueued[d]))
    && (forall p :: f <= p < PRIORITIES ==> a.link.metrics.byPriority[p] <= b.link.metrics.byPriority[p])
  }

  /** One admission decision: the floored channel admits whatever the plain one does, at or above the floor. */
  lemma AdmissionDominates(f: byte, a: Channel, b: Channel, payload: seq<byte>)
    requires Lighter(a, b)
    ensures Lighter(AfterSend(a, f, payload), AfterSend(b, 0, payload))
    ensures PriorityOf(payload) >= f && Admits(b, 0, PriorityOf(payload)) ==> Admits(a, f, PriorityOf(payload))
  {
  }

  lemma SendChannels(f: byte, a: System, b: System)
    requires Dominates(f, a, b) && a.pc.Fanning? && a.pc.rest != []
    ensures var a', b' := DoSend(a), DoSend(b);
            forall d :: 0 <= d < |a'.link.channels| ==> Lighter(a'.link.channels[d], b'.link.channels[d])
  {
    var dest := a.pc.rest[0];
    FindDependsOnIds(a.link.channels, b.link.channels, dest, 0);
    var k := Find(a.link.channels, dest);
    if k < |a.link.channels| {
      AdmissionDominates(a.link.floor, a.link.channels[k], b.link.channels[k], a.pc.frame);
    }
  }

  /** One send in both systems, seen from ring d: what gets in without a floor and is of priority f or more gets in with one. */
  lemma SendCopiesAt(f: byte, a: System, b: System, d: nat)
    requires Dominates(f, a, b) && a.pc.Fanning? && a.pc.rest != [] && d < |a.link.channels|
    ensures GetsThrough(f, DoSend(a).enqueued[d], DoSend(b).enqueued[d])
  {
    var dest := a.pc.rest[0];
    FindDependsOnIds(a.link.channels, b.link.channels, dest, 0);
    var k := Find(a.link.channels, dest);
    assert GetsThrough(f, a.enqueued[d], b.enqueued[d]);
    if k == d {
      AdmissionDominates(a.link.floor, a.link.channels[k], b.link.channels[k], a.pc.frame);
    }
  }

  lemma SendDrops(f: byte, a: System, b: System)
    requires Dominates(f, a, b) && a.pc.Fanning? && a.pc.rest != []
    ensures DoSend(a).pc == DoSend(b).pc
    ensures forall p :: f <= p < PRIORITIES ==> DoSend(a).link.metrics.byPriority[p] <= DoSend(b).link.metrics.byPriority[p]
  {
    var dest := a.pc.rest[0];
    FindDependsOnIds(a.link.channels, b.link.channels, dest, 0);
    var k := Find(a.link.channels, dest);
    if k < |a.link.channels| {
      AdmissionDominates(a.link.floor, a.link.channels[k], b.link.channels[k], a.pc.frame);
    }
  }

  /** What a poll does to one system, apart from its program counter. */
  lemma PollKeepsCopies(s: System, rules: seq<Rule>)
    requires Shaped(s) && s.pc.Scanning? && s.pc.i < |s.link.channels|
    ensures var s' := DoPoll(s, rules);
            && s'.enqueued == s.enqueued && s'.published == s.published && s'.link.floor == s.link.floor
            && s'.link.metrics.byPriority == s.link.metrics.byPriority
  {
  }

  lemma PollsAlike(a: System, b: System, rules: seq<Rule>)
    requires Shaped(a) && Shaped(b) && a.pc == b.pc && a.published == b.published
    requires a.pc.Scanning? && a.pc.i < |a.link.channels| == |b.link.channels|
    requires a.link.channels[a.pc.i].inbound == b.link.channels[a.pc.i].inbound
    requires a.link.channels[a.pc.i].peerId == b.link.channels[a.pc.i].peerId
    ensures DoPoll(a, rules).pc == DoPoll(b, rules).pc
  {
  }

  function PolledRing(c: Channel): Fifo {
    match PollChannel(c)
    case Short(rest, _) => rest
    case Ready(rest, _) => rest
    case _ => c.inbound
  }

  lemma PollTouchesInbound(s: System, rules: seq<Rule>, d: nat)
    requires Shaped(s) && s.pc.Scanning? && s.pc.i < |s.link.channels| && d < |s.link.channels|
    ensures DoPoll(s, rules).link.channels[d]
            == if d == s.pc.i then s.link.channels[d].(inbound := PolledRing(s.link.channels[d])) else s.link.channels[d]
  {
  }

  lemma PollDominates(f: byte, a: System, b: System, rules: seq<Rule>)
    requires Dominates(f, a, b) && a.pc.Scanning? && a.pc.i < |a.link.channels|
    ensures Dominates(f, DoPoll(a, rules), DoPoll(b, rules))
  {
    assert Lighter(a.link.channels[a.pc.i], b.link.channels[a.pc.i]);
    PollsAlike(a, b, rules);
    PollKeepsCopies(a, rules);
    PollKeepsCopies(b, rules);
    forall d | 0 <= d < |a.link.channels|
      ensures Lighter(DoPoll(a, rules).link.channels[d], DoPoll(b, rules).link.channels[d])
    {
      PollTouchesInbound(a, rules, d);
      PollTouchesInbound(b, rules, d);
    }
  }

  lemma TakeDominates(f: byte, a: System, b: System, i: nat)
    requires Dominates(f, a, b) && i < |a.link.channels|
    requires FramesOnly(a.link.channels[i].outbound) && FramesOnly(b.link.channels[i].outbound)
    ensures Dominates(f, DoTake(a, i), DoTake(b, i))
  {
    assert Lighter(a.link.channels[i], b.link.channels[i]);
    TakeTouchesOutbound(a, i);
    TakeTouchesOutbound(b, i);
  }

  /** What a subscriber's pop does when every record fits its buffer. */
  lemma TakeTouchesOutbound(s: System, i: nat)
    requires Shaped(s) && i < |s.link.channels| && FramesOnly(s.link.channels[i].outbound)
    ensures var c, s' := s.link.channels[i], DoTake(s, i);
            && s' == s.(link := s'.link, taken := s'.taken)
            && s'.link == s.link.(channels := s.link.channels[i := c.(outbound := c.outbound.(queue :=
                 if c.outbound.queue == [] then [] else c.outbound.queue[1..]))])
  {
    var c := s.link.channels[i];
    if c.outbound.queue == [] {
      assert s.link.channels[i := c.(outbound := c.outbound.(queue := []))] == s.link.channels;
    } else {
      assert c.outbound.queue[0] in c.outbound.queue;
    }
  }

  /** Outbound rings hold frames (cut to the slot size), so a subscriber's one-frame buffer always fits. */
  ghost predicate FramesOnly(q: Fifo) {
    forall r :: r in q.queue ==> |r| <= FRAME_SIZE
  }

  ghost predicate AllFrames(s: System) {
    forall d :: 0 <= d < |s.link.channels| ==> FramesOnly(s.link.channels[d].outbound)
  }

  lemma SendKeepsFrames(s: System, d: nat)
    requires Shaped(s) && s.pc.Fanning? && s.pc.rest != []
    requires d < |s.link.channels| && FramesOnly(s.link.channels[d].outbound)
    ensures FramesOnly(DoSend(s).link.channels[d].outbound)
  {
  }

  lemma StepKeepsFrames(s: System, rules: seq<Rule>, e: Event, d: nat)
    requires Shaped(s) && d < |s.link.channels| && FramesOnly(s.link.channels[d].outbound)
    ensures FramesOnly(Next(s, rules, e).link.channels[d].outbound)
  {
    if e.RouterStep? && s.pc.Fanning? && s.pc.rest != [] {
      SendKeepsFrames(s, d);
    } else {
      OtherStepsAddNoFrame(s, rules, e, d);
    }
  }

  lemma OtherStepsAddNoFrame(s: System, rules: seq<Rule>, e: Event, d: nat)
    requires Shaped(s) && d < |s.link.channels| && !(e.RouterStep? && s.pc.Fanning? && s.pc.rest != [])
    ensures var q, q' := s.link.channels[d].outbound.queue, Next(s, rules, e).link.channels[d].outbound.queue;
            q' == q || (q != [] && q' == q[1..])
  {
  }

  lemma PublishDominates(f: byte, a: System, b: System, i: nat, payload: seq<byte>)
    requires Dominates(f, a, b) && i < |a.link.channels|
    ensures Dominates(f, DoPublish(a, i, payload), DoPublish(b, i, payload))
  {
    assert Lighter(a.link.channels[i], b.link.channels[i]);
  }

  lemma SendDominates(f: byte, a: System, b: System)
    requires Dominates(f, a, b) && a.pc.Fanning? && a.pc.rest != []
    ensures Dominates(f, DoSend(a), DoSend(b))
  {
    SendChannels(f, a, b);
    SendDrops(f, a, b);
    forall d | 0 <= d < |a.link.channels| ensures GetsThrough(f, DoSend(a).enqueued[d], DoSend(b).enqueued[d]) {
      SendCopiesAt(f, a, b, d);
    }
  }

  /** The same event in a router that never has a floor. */
  function Unfloored(e: Event): Event { if e.SetFloor? then SetFloor(0) else e }

  function UnflooredAll(events: seq<Event>): (r: seq<Event>)
    ensures |r| == |events|
  {
    if events == [] then [] else [Unfloored(events[0])] + UnflooredAll(events[1..])
  }

  lemma StepDominates(f: byte, a: System, b: System, rules: seq<Rule>, e: Event)
    requires Dominates(f, a, b) && AllFrames(a) && AllFrames(b) && (e.SetFloor? ==> e.floor <= f)
    ensures Dominates(f, Next(a, rules, e), Next(b, rules, Unfloored(e)))
  {
    match e
    case Publish(i, payload) => if i < |a.link.channels| { PublishDominates(f, a, b, i, payload); }
    case Take(i) => if i < |a.link.channels| { TakeDominates(f, a, b, i); }
    case SetFloor(_) =>
    case RouterStep(ts) => RouterStepDominates(f, a, b, rules, ts);
  }

  lemma RouterStepDominates(f: byte, a: System, b: System, rules: seq<Rule>, ts: u64)
    requires Dominates(f, a, b)
    ensures Dominates(f, DoRouter(a, rules, ts), DoRouter(b, rules, ts))
  {
    if a.pc.Scanning? && a.pc.i < |a.link.channels| {
      PollDominates(f, a, b, rules);
    } else if a.pc.Fanning? && a.pc.rest != [] {
      SendDominates(f, a, b);
    }
  }

  lemma {:induction false} RunDominates(f: byte, a: System, b: System, rules: seq<Rule>, events: seq<Event>)
    requires Dominates(f, a, b) && AllFrames(a) && AllFrames(b)
    requires forall e :: e in events && e.SetFloor? ==> e.floor <= f
    ensures Dominates(f, Run(a, rules, events), Run(b, rules, UnflooredAll(events)))
    decreases |events|
  {
    if events != [] {
      var e := events[0];
      var a', b' := Next(a, rules, e), Next(b, rules, Unfloored(e));
      assert e in events;
      StepDominates(f, a, b, rules, e);
      forall d | 0 <= d < |a.link.channels|
        ensures FramesOnly(a'.link.channels[d].outbound) && FramesOnly(b'.link.channels[d].outbound)
      {
        StepKeepsFrames(a, rules, e, d);
        StepKeepsFrames(b, rules, Unfloored(e), d);
      }
      assert UnflooredAll(events)[1..] == UnflooredAll(events[1..]);
      RunDominates(f, a', b', rules, events[1..]);
    }
  }

  function WithFloor(s: System, f: byte): System { s.(link := s.link.(floor := f)) }

  /**
   Dominance over whole runs. For the same publications, router steps and drains,
   a router whose floor starts at `initial` and is changed at will, never above f,
   holds no more in any outbound ring than a router that has no floor, delivers to
   every ring each copy of priority f or more that the other one delivers, and
   reports no more drops of any priority f or more.
   */
  lemma FloorDominates(channels: seq<Channel>, rules: seq<Rule>, events: seq<Event>, initial: byte, f: byte)
    requires forall c :: c in channels ==> c.inbound.queue == [] && c.outbound.queue == [] && !c.congested
    requires initial <= f && forall e :: e in events && e.SetFloor? ==> e.floor <= f
    ensures var a := Run(WithFloor(Boot(channels), initial), rules, events);
            var b := Run(Boot(channels), rules, UnflooredAll(events));
            && |a.link.channels| == |b.link.channels|
            && (forall d :: 0 <= d < |a.link.channels| ==>
                  && |a.link.channels[d].outbound.queue| <= |b.link.channels[d].outbound.queue|
                  && GetsThrough(f, a.enqueued[d], b.enqueued[d]))
            && forall p :: f <= p < PRIORITIES ==> a.link.metrics.byPriority[p] <= b.link.metrics.byPriority[p]
  {
    var a, b := WithFloor(Boot(channels), initial), Boot(channels);
    assert forall d :: 0 <= d < |channels| ==> channels[d] in channels;
    RunDominates(f, a, b, rules, events);
    var a', b' := Run(a, rules, events), Run(b, rules, UnflooredAll(events));
    assert forall d :: 0 <= d < |a'.link.channels| ==> Lighter(a'.link.channels[d], b'.link.channels[d]);
  }
}
