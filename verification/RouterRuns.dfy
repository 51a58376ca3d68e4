/**
 Whole runs of publishers, router and subscribers. One event is one ring
 operation, so publishers and subscribers may act between any two ring
 operations of the router. The logs record what crossed each ring.
 */
module RouterRuns {
  import opened Bytes
  import opened BoundedFifo
  import opened Frame
  import opened Routing
  import opened ShmRouter

  datatype Pc =
    | Idle
    | Scanning(i: nat, ts: u64)
    | Fanning(src: nat, pub: nat, ts: u64, frame: FrameBytes, rest: seq<byte>)

  /** A frame put into some outbound ring: publication `pub` of channel `src`, stamped at `ts`. */
  datatype Copy = Copy(frame: FrameBytes, src: nat, pub: nat, ts: u64)

  datatype System = System(
    link: Link,
    pc: Pc,
    published: seq<seq<Record>>,   // per channel: records its peer got into the inbound ring
    enqueued: seq<seq<Copy>>,      // per channel: frames the router got into the outbound ring
    taken: seq<seq<Record>>,       // per channel: records its peer popped from the outbound ring
    fanout: nat,                   // sum over received frames of the number of targets
    abandoned: nat,                // targets given up because a fan-out threw
    drops: seq<Drop<Copy>>             // copies shed or refused by a full ring, in order
  )

  datatype Event =
    | Publish(i: nat, payload: seq<byte>)
    | RouterStep(ts: u64)
    | Take(i: nat)
    | SetFloor(floor: byte)

  ghost predicate Shaped(s: System) {
    && s.link.Shaped()
    && |s.published| == |s.enqueued| == |s.taken| == |s.link.channels|
    && (s.pc.Scanning? ==> s.pc.i <= |s.link.channels|)
    && (s.pc.Fanning? ==> s.pc.src < |s.link.channels|)
  }

  // ----- transitions --------------------------------------------------------

  function DoPublish(s: System, i: nat, payload: seq<byte>): (r: System)
    requires Shaped(s) && i < |s.link.channels|
    ensures Shaped(r) && |r.link.channels| == |s.link.channels|
  {
    var c := s.link.channels[i];
    if c.inbound.Full() then s
    else s.(link := s.link.(channels := s.link.channels[i := c.(inbound := Push(c.inbound, payload))]),
            published := s.published[i := s.published[i] + [Clip(payload, c.inbound.maxPayload)]])
  }

  function DoTake(s: System, i: nat): (r: System)
    requires Shaped(s) && i < |s.link.channels|
    ensures Shaped(r) && |r.link.channels| == |s.link.channels|
  {
    var c := s.link.channels[i];
    match Pop(c.outbound, FRAME_SIZE)
    case Popped(record, rest) =>
      s.(link := s.link.(channels := s.link.channels[i := c.(outbound := rest)]),
         taken := s.taken[i := s.taken[i] + [record]])
    case _ => s
  }

  /** One poll of channel i by the scanning router. */
  function DoPoll(s: System, rules: seq<Rule>): (r: System)
    requires Shaped(s) && s.pc.Scanning? && s.pc.i < |s.link.channels|
    ensures Shaped(r) && |r.link.channels| == |s.link.channels|
  {
    var Scanning(i, ts) := s.pc;
    var c := s.link.channels[i];
    match PollChannel(c)
    case NotReady => s.(pc := Scanning(i + 1, ts))
    case TooLong => s.(pc := Idle)
    case Short(rest, _) => s.(link := SkipShort(s.link, i, rest), pc := Scanning(i + 1, ts))
    case Ready(rest, frame) =>
      var l := s.link.(channels := s.link.channels[i := c.(inbound := rest)]);
      if c.peerId == ENDPOINT_INVALID then s.(link := CountEmpty(l), pc := Idle)
      else
        var stamped := Stamp(frame, c.peerId, ts);
        var targets := TargetsFor(rules, c.peerId, Topic(stamped));
        s.(link := l, fanout := s.fanout + |targets|,
           pc := Fanning(i, Consumed(s, i), ts, stamped, targets))
  }

  /** One send of the fan-out loop. */
  function DoSend(s: System): (r: System)
    requires Shaped(s) && s.pc.Fanning? && s.pc.rest != []
    ensures Shaped(r) && |r.link.channels| == |s.link.channels|
  {
    var Fanning(src, pub, ts, frame, rest) := s.pc;
    var d := Find(s.link.channels, rest[0]);
    var (l, status) := SendTo(s.link, rest[0], frame);
    match status
    case NoChannel => s.(link := l, pc := Idle, abandoned := s.abandoned + |rest|)
    case Dropped => s.(link := l, pc := Fanning(src, pub, ts, frame, rest[1..]),
                       drops := s.drops + [Drop(rest[0], frame, Copy(frame, src, pub, ts))])
    case Enqueued => s.(link := l, pc := Fanning(src, pub, ts, frame, rest[1..]),
                        enqueued := s.enqueued[d := s.enqueued[d] + [Copy(frame, src, pub, ts)]])
  }

  function DoRouter(s: System, rules: seq<Rule>, ts: u64): (r: System)
    requires Shaped(s)
    ensures Shaped(r) && |r.link.channels| == |s.link.channels|
  {
    match s.pc
    case Idle => s.(pc := Scanning(0, ts))
    case Scanning(i, _) =>
      if i < |s.link.channels| then DoPoll(s, rules) else s.(link := CountEmpty(s.link), pc := Idle)
    case Fanning(_, _, _, _, rest) => if rest == [] then s.(pc := Idle) else DoSend(s)
  }

  function Next(s: System, rules: seq<Rule>, e: Event): (r: System)
    requires Shaped(s)
    ensures Shaped(r)
    ensures |r.link.channels| == |s.link.channels|
  {
    match e
    case Publish(i, payload) => if i < |s.link.channels| then DoPublish(s, i, payload) else s
    case RouterStep(ts) => DoRouter(s, rules, ts)
    case Take(i) => if i < |s.link.channels| then DoTake(s, i) else s
    case SetFloor(f) => s.(link := s.link.(floor := f))
  }

  function Run(s: System, rules: seq<Rule>, events: seq<Event>): (r: System)
    requires Shaped(s)
    ensures Shaped(r) && |r.link.channels| == |s.link.channels|
    decreases |events|
  {
    if events == [] then s else Run(Next(s, rules, events[0]), rules, events[1..])
  }

  // ----- the invariant ------------------------------------------------------

  /** How many of channel i's publications the router has popped. */
  function Consumed(s: System, i: nat): nat
    requires Shaped(s) && i < |s.link.channels|
  {
    var n := |s.published[i]| - |s.link.channels[i].inbound.queue|;
    if n < 0 then 0 else n
  }

  ghost predicate InboundOk(s: System, i: nat)
    requires Shaped(s) && i < |s.link.channels|
  {
    && |s.link.channels[i].inbound.queue| <= |s.published[i]|
    && s.link.channels[i].inbound.queue == s.published[i][Consumed(s, i)..]
  }

  /** The frame is a full-size publication of a peer, already popped, stamped and nothing else. */
  ghost predicate Genuine(s: System, c: Copy)
    requires Shaped(s)
  {
    && c.src < |s.link.channels|
    && c.pub < Consumed(s, c.src) <= |s.published[c.src]|
    && |s.published[c.src][c.pub]| == FRAME_SIZE
    && c.frame == Stamp(s.published[c.src][c.pub], s.link.channels[c.src].peerId, c.ts)
  }

  ghost predicate RoutedTo(s: System, rules: seq<Rule>, d: nat, c: Copy)
    requires Shaped(s) && d < |s.link.channels|
  {
    && Genuine(s, c)
    && s.link.channels[d].peerId in TargetsFor(rules, s.link.channels[c.src].peerId, Topic(c.frame))
  }

  /** Copies from one source appear in publication order and at most once. */
  ghost predicate InOrder(copies: seq<Copy>) {
    forall j, k :: 0 <= j < k < |copies| && copies[j].src == copies[k].src ==> copies[j].pub < copies[k].pub
  }

  function Clipped(copies: seq<Copy>, maxPayload: nat): (r: seq<Record>)
    ensures |r| == |copies|
    ensures forall k :: 0 <= k < |r| ==> r[k] == Clip(copies[k].frame, maxPayload)
  {
    seq(|copies|, k requires 0 <= k < |copies| => Clip(copies[k].frame, maxPayload))
  }

  ghost predicate OutboundOk(s: System, rules: seq<Rule>, d: nat)
    requires Shaped(s) && d < |s.link.channels|
  {
    var c := s.link.channels[d];
    && Clipped(s.enqueued[d], c.outbound.maxPayload) == s.taken[d] + c.outbound.queue
    && InOrder(s.enqueued[d])
    && forall k :: 0 <= k < |s.enqueued[d]| ==> RoutedTo(s, rules, d, s.enqueued[d][k])
  }

  ghost predicate Distinct(ids: seq<byte>) {
    forall j, k :: 0 <= j < k < |ids| ==> ids[j] != ids[k]
  }

  ghost predicate DistinctChannels(cs: seq<Channel>) {
    forall j, k :: 0 <= j < k < |cs| ==> cs[j].peerId != cs[k].peerId
  }

  ghost predicate DistinctTargets(rules: seq<Rule>) {
    forall r :: r in rules ==> Distinct(r.dests)
  }

  ghost predicate AllBefore(copies: seq<Copy>, src: nat, pub: nat) {
    forall k :: 0 <= k < |copies| && copies[k].src == src ==> copies[k].pub < pub
  }

  /** The frame being fanned out has not yet reached any channel it still has to be sent to. */
  ghost predicate PcOk(s: System, rules: seq<Rule>)
    requires Shaped(s)
  {
    s.pc.Fanning? ==>
      && Genuine(s, Copy(s.pc.frame, s.pc.src, s.pc.pub, s.pc.ts))
      && Distinct(s.pc.rest)
      && (forall t :: t in s.pc.rest ==> t in TargetsFor(rules, s.link.channels[s.pc.src].peerId, Topic(s.pc.frame)))
      && forall d :: 0 <= d < |s.enqueued| && s.link.channels[d].peerId in s.pc.rest
           ==> AllBefore(s.enqueued[d], s.pc.src, s.pc.pub)
  }

  ghost predicate Inv(s: System, rules: seq<Rule>) {
    && Shaped(s)
    && DistinctChannels(s.link.channels)
    && (forall i :: 0 <= i < |s.link.channels| ==> InboundOk(s, i))
    && (forall d :: 0 <= d < |s.link.channels| ==> OutboundOk(s, rules, d))
    && PcOk(s, rules)
  }

  // ----- preservation -------------------------------------------------------

  /** Later states keep ids and ring sizes, only add publications and only consume more. */
  ghost predicate Extends(s: System, s': System) {
    && Shaped(s) && Shaped(s')
    && |s.link.channels| == |s'.link.channels|
    && forall i :: 0 <= i < |s.link.channels| ==> ChannelExtends(s, s', i)
  }

  ghost predicate ChannelExtends(s: System, s': System, i: nat)
    requires Shaped(s) && Shaped(s') && i < |s.link.channels| == |s'.link.channels|
  {
    && s'.link.channels[i].peerId == s.link.channels[i].peerId
    && s'.link.channels[i].outbound.maxPayload == s.link.channels[i].outbound.maxPayload
    && s.published[i] <= s'.published[i]
    && Consumed(s, i) <= Consumed(s', i) <= |s'.published[i]|
  }

  lemma GenuineExtends(s: System, s': System, c: Copy)
    requires Extends(s, s') && Genuine(s, c)
    ensures Genuine(s', c)
  {
    assert ChannelExtends(s, s', c.src);
  }

  lemma RoutedExtends(s: System, s': System, rules: seq<Rule>, d: nat, c: Copy)
    requires Extends(s, s') && d < |s.link.channels| && RoutedTo(s, rules, d, c)
    ensures RoutedTo(s', rules, d, c)
  {
    GenuineExtends(s, s', c);
    assert ChannelExtends(s, s', d) && ChannelExtends(s, s', c.src);
  }

  /** An outbound side nobody touched stays as it was. */
  lemma OutboundKept(s: System, s': System, rules: seq<Rule>, d: nat)
    requires Extends(s, s') && d < |s.link.channels| && OutboundOk(s, rules, d)
    requires s'.enqueued[d] == s.enqueued[d] && s'.taken[d] == s.taken[d]
    requires s'.link.channels[d].outbound == s.link.channels[d].outbound
    ensures OutboundOk(s', rules, d)
  {
    forall k | 0 <= k < |s.enqueued[d]| ensures RoutedTo(s', rules, d, s.enqueued[d][k]) {
      RoutedExtends(s, s', rules, d, s.enqueued[d][k]);
    }
  }

  lemma PcKept(s: System, s': System, rules: seq<Rule>)
    requires Extends(s, s') && PcOk(s, rules)
    requires s'.enqueued == s.enqueued && s'.pc == s.pc
    ensures PcOk(s', rules)
  {
    if s.pc.Fanning? {
      GenuineExtends(s, s', Copy(s.pc.frame, s.pc.src, s.pc.pub, s.pc.ts));
      assert ChannelExtends(s, s', s.pc.src);
      forall d | 0 <= d < |s'.enqueued| && s'.link.channels[d].peerId in s'.pc.rest
        ensures AllBefore(s'.enqueued[d], s'.pc.src, s'.pc.pub)
      {
        assert ChannelExtends(s, s', d);
      }
    }
  }

  lemma DistinctKept(s: System, s': System)
    requires Extends(s, s') && DistinctChannels(s.link.channels)
    ensures DistinctChannels(s'.link.channels)
  {
    forall j, k | 0 <= j < k < |s'.link.channels|
      ensures s'.link.channels[j].peerId != s'.link.channels[k].peerId
    {
      assert ChannelExtends(s, s', j) && ChannelExtends(s, s', k);
    }
  }

  lemma PublishKeepsInv(s: System, rules: seq<Rule>, i: nat, payload: seq<byte>)
    requires Inv(s, rules) && i < |s.link.channels|
    ensures Inv(DoPublish(s, i, payload), rules)
  {
    var s' := DoPublish(s, i, payload);
    assert InboundOk(s, i);
    assert InboundOk(s', i);
    forall j | 0 <= j < |s.link.channels| ensures InboundOk(s', j) && ChannelExtends(s, s', j) {
      assert InboundOk(s, j);
    }
    DistinctKept(s, s');
    forall d | 0 <= d < |s.link.channels| ensures OutboundOk(s', rules, d) {
      OutboundKept(s, s', rules, d);
    }
    PcKept(s, s', rules);
  }

  lemma TakeKeepsInv(s: System, rules: seq<Rule>, i: nat)
    requires Inv(s, rules) && i < |s.link.channels|
    ensures Inv(DoTake(s, i), rules)
  {
    var s' := DoTake(s, i);
    forall j | 0 <= j < |s.link.channels| ensures InboundOk(s', j) && ChannelExtends(s, s', j) {
      assert InboundOk(s, j);
    }
    DistinctKept(s, s');
    forall d | 0 <= d < |s.link.channels| ensures OutboundOk(s', rules, d) {
      if d == i {
        assert OutboundOk(s, rules, i);
        assert s'.taken[i] + s'.link.channels[i].outbound.queue == s.taken[i] + s.link.channels[i].outbound.queue;
        forall k | 0 <= k < |s.enqueued[d]| ensures RoutedTo(s', rules, d, s.enqueued[d][k]) {
          RoutedExtends(s, s', rules, d, s.enqueued[d][k]);
        }
      } else {
        OutboundKept(s, s', rules, d);
      }
    }
    PcKept(s, s', rules);
  }

  lemma {:induction false} TargetsDistinct(rules: seq<Rule>, source: byte, topic: u16)
    requires DistinctTargets(rules)
    ensures Distinct(TargetsFor(rules, source, topic))
  {
    if rules != [] && !Matches(rules[0], source, topic) {
      TargetsDistinct(rules[1..], source, topic);
    }
  }

  /** Popping channel i's oldest record. */
  lemma PopConsumes(s: System, s': System, i: nat, rest: Fifo)
    requires Shaped(s) && Shaped(s') && i < |s.link.channels| && InboundOk(s, i)
    requires s.link.channels[i].inbound.queue != []
    requires s'.published == s.published
    requires s'.link.channels == s.link.channels[i := s.link.channels[i].(inbound := rest)]
    requires rest.queue == s.link.channels[i].inbound.queue[1..]
    ensures InboundOk(s', i)
    ensures Consumed(s', i) == Consumed(s, i) + 1
    ensures s.published[i][Consumed(s, i)] == s.link.channels[i].inbound.queue[0]
  {
  }

  lemma PollKeepsInv(s: System, rules: seq<Rule>)
    requires Inv(s, rules) && DistinctTargets(rules)
    requires s.pc.Scanning? && s.pc.i < |s.link.channels|
    ensures Inv(DoPoll(s, rules), rules)
  {
    var s' := DoPoll(s, rules);
    var i := s.pc.i;
    var polled := PollChannel(s.link.channels[i]);
    if polled.Short? || polled.Ready? {
      assert InboundOk(s, i);
      PopConsumes(s, s', i, polled.rest);
    }
    forall j | 0 <= j < |s.link.channels| ensures InboundOk(s', j) && ChannelExtends(s, s', j) {
      assert InboundOk(s, j);
    }
    DistinctKept(s, s');
    forall d | 0 <= d < |s.link.channels| ensures OutboundOk(s', rules, d) {
      OutboundKept(s, s', rules, d);
    }
    if s'.pc.Fanning? {
      NewFrameOk(s, s', rules);
    }
  }

  /** A frame just received is newer than everything already sent on from its source. */
  lemma NewFrameOk(s: System, s': System, rules: seq<Rule>)
    requires Inv(s, rules) && DistinctTargets(rules)
    requires s.pc.Scanning? && s.pc.i < |s.link.channels| && s' == DoPoll(s, rules) && s'.pc.Fanning?
    requires Extends(s, s') && Consumed(s', s.pc.i) == Consumed(s, s.pc.i) + 1
    requires s.published[s.pc.i][Consumed(s, s.pc.i)] == s.link.channels[s.pc.i].inbound.queue[0]
    ensures PcOk(s', rules)
  {
    var i := s.pc.i;
    assert ChannelExtends(s, s', i);
    TargetsDistinct(rules, s.link.channels[i].peerId, Topic(s'.pc.frame));
    forall d | 0 <= d < |s'.enqueued| ensures AllBefore(s'.enqueued[d], i, s'.pc.pub) {
      assert OutboundOk(s, rules, d);
      forall k | 0 <= k < |s.enqueued[d]| && s.enqueued[d][k].src == i ensures s.enqueued[d][k].pub < s'.pc.pub {
        assert RoutedTo(s, rules, d, s.enqueued[d][k]);
      }
    }
  }

  lemma SendExtends(s: System)
    requires Shaped(s) && s.pc.Fanning? && s.pc.rest != []
    requires forall i :: 0 <= i < |s.link.channels| ==> InboundOk(s, i)
    ensures Extends(s, DoSend(s))
    ensures forall i :: 0 <= i < |s.link.channels| ==> InboundOk(DoSend(s), i)
  {
    var s' := DoSend(s);
    forall j | 0 <= j < |s.link.channels| ensures InboundOk(s', j) && ChannelExtends(s, s', j) {
      assert InboundOk(s, j);
    }
  }

  lemma EnqueueKeepsOutbound(s: System, rules: seq<Rule>, d: nat)
    requires Inv(s, rules) && s.pc.Fanning? && s.pc.rest != []
    requires d == Find(s.link.channels, s.pc.rest[0]) < |s.link.channels|
    requires SendTo(s.link, s.pc.rest[0], s.pc.frame).1 == Enqueued
    ensures OutboundOk(DoSend(s), rules, d)
  {
    var s' := DoSend(s);
    SendExtends(s);
    assert OutboundOk(s, rules, d);
    var copy := Copy(s.pc.frame, s.pc.src, s.pc.pub, s.pc.ts);
    var c := s.link.channels[d];
    assert s'.enqueued[d] == s.enqueued[d] + [copy];
    assert s'.link.channels[d].outbound.queue == c.outbound.queue + [Clip(copy.frame, c.outbound.maxPayload)];
    assert Clipped(s'.enqueued[d], c.outbound.maxPayload)
        == Clipped(s.enqueued[d], c.outbound.maxPayload) + [Clip(copy.frame, c.outbound.maxPayload)];
    assert c.peerId in s.pc.rest;
    assert AllBefore(s.enqueued[d], s.pc.src, s.pc.pub);
    assert RoutedTo(s, rules, d, copy);
    forall k | 0 <= k < |s'.enqueued[d]| ensures RoutedTo(s', rules, d, s'.enqueued[d][k]) {
      RoutedExtends(s, s', rules, d, s'.enqueued[d][k]);
    }
  }

  lemma SendKeepsPc(s: System, rules: seq<Rule>)
    requires Inv(s, rules) && s.pc.Fanning? && s.pc.rest != []
    ensures PcOk(DoSend(s), rules)
  {
    var s' := DoSend(s);
    SendExtends(s);
    if s'.pc.Fanning? {
      GenuineExtends(s, s', Copy(s.pc.frame, s.pc.src, s.pc.pub, s.pc.ts));
      assert ChannelExtends(s, s', s.pc.src);
      forall d | 0 <= d < |s'.enqueued| && s'.link.channels[d].peerId in s'.pc.rest
        ensures AllBefore(s'.enqueued[d], s'.pc.src, s'.pc.pub)
      {
        assert ChannelExtends(s, s', d);
        var k :| 0 <= k < |s'.pc.rest| && s'.pc.rest[k] == s'.link.channels[d].peerId;
        assert s.pc.rest[k + 1] == s'.link.channels[d].peerId;
        assert s.pc.rest[0] != s.pc.rest[k + 1];
      }
    }
  }

  lemma SendKeepsInv(s: System, rules: seq<Rule>)
    requires Inv(s, rules) && s.pc.Fanning? && s.pc.rest != []
    ensures Inv(DoSend(s), rules)
  {
    var s' := DoSend(s);
    SendExtends(s);
    DistinctKept(s, s');
    var k := Find(s.link.channels, s.pc.rest[0]);
    forall d | 0 <= d < |s.link.channels| ensures OutboundOk(s', rules, d) {
      if d == k && SendTo(s.link, s.pc.rest[0], s.pc.frame).1 == Enqueued {
        EnqueueKeepsOutbound(s, rules, d);
      } else {
        OutboundKept(s, s', rules, d);
      }
    }
    SendKeepsPc(s, rules);
  }

  lemma IdleStepKeepsInv(s: System, s': System, rules: seq<Rule>)
    requires Inv(s, rules) && Shaped(s')
    requires s'.link.channels == s.link.channels
    requires s'.published == s.published && s'.enqueued == s.enqueued && s'.taken == s.taken
    requires s'.pc == s.pc || !s'.pc.Fanning?
    ensures Inv(s', rules)
  {
    forall j | 0 <= j < |s.link.channels| ensures InboundOk(s', j) && ChannelExtends(s, s', j) {
      assert InboundOk(s, j);
    }
    forall d | 0 <= d < |s.link.channels| ensures OutboundOk(s', rules, d) {
      OutboundKept(s, s', rules, d);
    }
    if s'.pc.Fanning? {
      PcKept(s, s', rules);
    }
  }

  lemma StepKeepsInv(s: System, rules: seq<Rule>, e: Event)
    requires Inv(s, rules) && DistinctTargets(rules)
    ensures Inv(Next(s, rules, e), rules)
  {
    match e
    case Publish(i, payload) =>
      if i < |s.link.channels| { PublishKeepsInv(s, rules, i, payload); }
    case Take(i) =>
      if i < |s.link.channels| { TakeKeepsInv(s, rules, i); }
    case SetFloor(_) => IdleStepKeepsInv(s, Next(s, rules, e), rules);
    case RouterStep(ts) =>
      if s.pc.Scanning? && s.pc.i < |s.link.channels| { PollKeepsInv(s, rules); }
      else if s.pc.Fanning? && s.pc.rest != [] { SendKeepsInv(s, rules); }
      else { IdleStepKeepsInv(s, Next(s, rules, e), rules); }
  }

  lemma {:induction false} RunKeepsInv(s: System, rules: seq<Rule>, events: seq<Event>)
    requires Inv(s, rules) && DistinctTargets(rules)
    ensures Inv(Run(s, rules, events), rules)
    decreases |events|
  {
    if events != [] {
      StepKeepsInv(s, rules, events[0]);
      RunKeepsInv(Next(s, rules, events[0]), rules, events[1..]);
    }
  }

  // ----- end to end ---------------------------------------------------------

  /** The state after bind_router: empty rings, zero metrics, empty logs. */
  function Boot(channels: seq<Channel>): System {
    var blank := seq(|channels|, _ => []);
    System(Link(channels, ZeroMetrics(), 0), Idle, blank, seq(|channels|, _ => []), blank, 0, 0, [])
  }

  ghost predicate Bootable(channels: seq<Channel>) {
    && DistinctChannels(channels)
    && forall c :: c in channels ==> c.inbound.queue == [] && c.outbound.queue == [] && !c.congested
  }

  /** `record`, received on channel d, is publication `c.pub` of channel `c.src` apart from the stamp. */
  ghost predicate Delivered(s: System, rules: seq<Rule>, d: nat, record: Record, c: Copy)
    requires Shaped(s) && d < |s.link.channels|
  {
    && c.src < |s.link.channels| && c.pub < |s.published[c.src]|
    && var original := s.published[c.src][c.pub];
    && |original| == FRAME_SIZE
    && s.link.channels[d].peerId in TargetsFor(rules, s.link.channels[c.src].peerId, Topic(original))
    && (|record| >= FRAME_SIZE ==>
          && |record| == FRAME_SIZE
          && record[0] == s.link.channels[c.src].peerId
          && Get(record, TimestampNs) == c.ts
          && forall j :: 0 < j < FRAME_SIZE && !(8 <= j < 16) ==> record[j] == original[j])
  }

  lemma RoutedIsDelivered(s: System, rules: seq<Rule>, d: nat, c: Copy, maxPayload: nat)
    requires Shaped(s) && d < |s.link.channels| && RoutedTo(s, rules, d, c)
    ensures Delivered(s, rules, d, Clip(c.frame, maxPayload), c)
  {
    var original: FrameBytes := s.published[c.src][c.pub];
    StampSpec(original, s.link.channels[c.src].peerId, c.ts);
    if |Clip(c.frame, maxPayload)| >= FRAME_SIZE {
      assert Clip(c.frame, maxPayload) == c.frame;
    }
  }

  /**
   End to end. In every run from a fresh bind, with distinct channel ids and
   distinct targets per rule, every record a subscriber has popped has an origin
   log that shows it to be an unchanged (but for the stamp) full-size frame
   published by the peer named in byte 0, sent to a target of the first matching
   rule; and per source those origins are strictly increasing: in publication
   order, without duplicates.
   */
  lemma EndToEnd(channels: seq<Channel>, rules: seq<Rule>, events: seq<Event>, d: nat)
    requires Bootable(channels) && DistinctTargets(rules) && d < |channels|
    ensures var s := Run(Boot(channels), rules, events);
            && |s.taken[d]| <= |s.enqueued[d]|
            && var origins := s.enqueued[d][..|s.taken[d]|];
            && (forall k :: 0 <= k < |origins| ==> Delivered(s, rules, d, s.taken[d][k], origins[k]))
            && InOrder(origins)
  {
    var s := ReachableInv(channels, rules, events);
    assert OutboundOk(s, rules, d);
    var m := s.link.channels[d].outbound.maxPayload;
    var all := Clipped(s.enqueued[d], m);
    assert |all| == |s.taken[d]| + |s.link.channels[d].outbound.queue|;
    forall k | 0 <= k < |s.taken[d]| ensures Delivered(s, rules, d, s.taken[d][k], s.enqueued[d][k]) {
      assert all[k] == (s.taken[d] + s.link.channels[d].outbound.queue)[k] == s.taken[d][k];
      assert RoutedTo(s, rules, d, s.enqueued[d][k]);
      RoutedIsDelivered(s, rules, d, s.enqueued[d][k], m);
    }
  }

  lemma {:induction false} RunKeepsSlotSize(s: System, rules: seq<Rule>, events: seq<Event>, d: nat)
    requires Shaped(s) && d < |s.link.channels|
    ensures Run(s, rules, events).link.channels[d].outbound.maxPayload == s.link.channels[d].outbound.maxPayload
    decreases |events|
  {
    if events != [] {
      RunKeepsSlotSize(Next(s, rules, events[0]), rules, events[1..], d);
    }
  }

  /** With slots of at least one frame, everything a subscriber pops is a whole frame. */
  lemma WholeFrames(channels: seq<Channel>, rules: seq<Rule>, events: seq<Event>, d: nat)
    requires Bootable(channels) && DistinctTargets(rules) && d < |channels|
    requires channels[d].outbound.maxPayload >= FRAME_SIZE
    ensures forall r :: r in Run(Boot(channels), rules, events).taken[d] ==> |r| == FRAME_SIZE
  {
    var s := ReachableInv(channels, rules, events);
    RunKeepsSlotSize(Boot(channels), rules, events, d);
    assert OutboundOk(s, rules, d);
    var all := Clipped(s.enqueued[d], s.link.channels[d].outbound.maxPayload);
    assert all == s.taken[d] + s.link.channels[d].outbound.queue;
    forall k | 0 <= k < |s.taken[d]| ensures |s.taken[d][k]| == FRAME_SIZE {
      assert all[k] == s.taken[d][k];
    }
  }

  lemma BootInv(channels: seq<Channel>, rules: seq<Rule>)
    requires Bootable(channels)
    ensures Inv(Boot(channels), rules)
  {
    var s := Boot(channels);
    forall i | 0 <= i < |channels| ensures InboundOk(s, i) && OutboundOk(s, rules, i) {
      assert channels[i] in channels;
    }
  }

  lemma ReachableInv(channels: seq<Channel>, rules: seq<Rule>, events: seq<Event>) returns (s: System)
    requires Bootable(channels) && DistinctTargets(rules)
    ensures s == Run(Boot(channels), rules, events)
    ensures Inv(s, rules)
  {
    BootInv(channels, rules);
    RunKeepsInv(Boot(channels), rules, events);
    s := Run(Boot(channels), rules, events);
  }
}
