/**
 Conservation laws of the SHM router over whole runs, and the bridge from the
 code's forward() call to the step-by-step runs the laws are proved on.
 */
module RouterConservation {
  import opened Bytes
  import opened BoundedFifo
  import opened Frame
  import opened Routing
  import opened ShmRouter
  import opened RouterRuns

  function Sum(s: seq<nat>): nat {
    if s == [] then 0 else Sum(s[..|s| - 1]) + s[|s| - 1]
  }

  /** Sums of sequences that differ in one place. */
  lemma {:induction false} SumChange(a: seq<nat>, b: seq<nat>, i: nat)
    requires |a| == |b| && i < |a|
    requires forall j :: 0 <= j < |a| && j != i ==> a[j] == b[j]
    ensures Sum(b) == Sum(a) - a[i] + b[i]
  {
    var n := |a| - 1;
    if i == n {
      assert a[..n] == b[..n];
    } else {
      SumChange(a[..n], b[..n], i);
    }
  }

  lemma {:induction false} SumZeros(s: seq<nat>)
    requires forall j :: 0 <= j < |s| ==> s[j] == 0
    ensures Sum(s) == 0
  {
    if s != [] {
      SumZeros(s[..|s| - 1]);
    }
  }

  // ----- what the totals should be, from the logs alone ---------------------

  /** Copies one popped record asks for. */
  function FanoutOne(rules: seq<Rule>, id: byte, record: Record): nat {
    if |record| == FRAME_SIZE && id != ENDPOINT_INVALID then |TargetsFor(rules, id, Topic(record))| else 0
  }

  function FanoutOf(rules: seq<Rule>, id: byte, records: seq<Record>): nat {
    if records == [] then 0
    else FanoutOf(rules, id, records[..|records| - 1]) + FanoutOne(rules, id, records[|records| - 1])
  }

  function ShortIn(records: seq<Record>): nat {
    if records == [] then 0
    else ShortIn(records[..|records| - 1]) + if |records[|records| - 1]| < FRAME_SIZE then 1 else 0
  }

  /** The publications of channel i that the router has popped. */
  function PoppedFrom(s: System, i: nat): seq<Record>
    requires Shaped(s) && i < |s.link.channels|
  {
    s.published[i][..Min(Consumed(s, i), |s.published[i]|)]
  }

  function Fanouts(s: System, rules: seq<Rule>): (r: seq<nat>)
    requires Shaped(s)
    ensures |r| == |s.link.channels|
    ensures forall i :: 0 <= i < |r| ==> r[i] == FanoutOf(rules, s.link.channels[i].peerId, PoppedFrom(s, i))
  {
    seq(|s.link.channels|, i requires 0 <= i < |s.link.channels| =>
      FanoutOf(rules, s.link.channels[i].peerId, PoppedFrom(s, i)))
  }

  function Shorts(s: System): (r: seq<nat>)
    requires Shaped(s)
    ensures |r| == |s.link.channels|
    ensures forall i :: 0 <= i < |r| ==> r[i] == ShortIn(PoppedFrom(s, i))
  {
    seq(|s.link.channels|, i requires 0 <= i < |s.link.channels| => ShortIn(PoppedFrom(s, i)))
  }

  function CopyCounts(enqueued: seq<seq<Copy>>): (r: seq<nat>)
    ensures |r| == |enqueued|
    ensures forall d :: 0 <= d < |r| ==> r[d] == |enqueued[d]|
  {
    seq(|enqueued|, d requires 0 <= d < |enqueued| => |enqueued[d]|)
  }

  function Pending(pc: Pc): nat { if pc.Fanning? then |pc.rest| else 0 }

  ghost predicate HasChannel(cs: seq<Channel>, id: byte) {
    exists k :: 0 <= k < |cs| && cs[k].peerId == id
  }

  /** Every target of every rule has a channel, as the loader guarantees for an all-SHM profile. */
  ghost predicate Closed(rules: seq<Rule>, cs: seq<Channel>) {
    forall r, t :: r in rules && t in r.dests ==> HasChannel(cs, t)
  }

  // ----- the laws -----------------------------------------------------------

  ghost predicate DropsOk(m: Metrics, cs: seq<Channel>) {
    && m.Shaped()
    && m.droppedFull == Sum(m.perPeer)
    && m.droppedFull == Sum(m.byPriority)
    && forall id: byte :: !HasChannel(cs, id) ==> m.perPeer[id] == 0
  }

  /** Every copy asked for is forwarded, dropped, abandoned or still to be sent; every drop is charged once. */
  ghost predicate EgressOk(s: System) {
    var m := s.link.metrics;
    && Shaped(s)
    && DropsOk(m, s.link.channels) && DropsLogged(m, s.drops)
    && m.forwarded == Sum(CopyCounts(s.enqueued))
    && m.forwarded + m.droppedFull + s.abandoned + Pending(s.pc) == s.fanout
  }

  /** The copies asked for are those of the publications popped so far, and so are the truncations. */
  ghost predicate IngressOk(s: System, rules: seq<Rule>)
    requires Shaped(s)
  {
    s.fanout == Sum(Fanouts(s, rules)) && s.link.metrics.recvTruncated == Sum(Shorts(s))
  }

  ghost predicate NothingAbandoned(s: System, rules: seq<Rule>) {
    Closed(rules, s.link.channels) ==>
      s.abandoned == 0 && (s.pc.Fanning? ==> forall t :: t in s.pc.rest ==> HasChannel(s.link.channels, t))
  }

  ghost predicate Laws(s: System, rules: seq<Rule>) {
    && EgressOk(s) && IngressOk(s, rules) && NothingAbandoned(s, rules)
    && forall i :: 0 <= i < |s.link.channels| ==> InboundOk(s, i)
  }

  ghost predicate SameIds(cs: seq<Channel>, cs': seq<Channel>) {
    |cs| == |cs'| && forall i :: 0 <= i < |cs| ==> cs'[i].peerId == cs[i].peerId
  }

  lemma SameIdsSameChannels(cs: seq<Channel>, cs': seq<Channel>, rules: seq<Rule>)
    requires SameIds(cs, cs')
    ensures forall id: byte :: HasChannel(cs', id) <==> HasChannel(cs, id)
    ensures Closed(rules, cs') <==> Closed(rules, cs)
  {
    forall id: byte ensures HasChannel(cs', id) <==> HasChannel(cs, id) {
      if HasChannel(cs, id) {
        var k :| 0 <= k < |cs| && cs[k].peerId == id;
        assert cs'[k].peerId == id;
      }
      if HasChannel(cs', id) {
        var k :| 0 <= k < |cs'| && cs'[k].peerId == id;
        assert cs[k].peerId == id;
      }
    }
  }

  lemma StepKeepsIds(s: System, rules: seq<Rule>, e: Event)
    requires Shaped(s)
    ensures SameIds(s.link.channels, Next(s, rules, e).link.channels)
  {
  }

  /** The router has popped exactly the same publications. */
  ghost predicate SamePopped(s: System, s': System) {
    && Shaped(s) && Shaped(s') && SameIds(s.link.channels, s'.link.channels)
    && forall i :: 0 <= i < |s.link.channels| ==> PoppedFrom(s', i) == PoppedFrom(s, i)
  }

  lemma SamePoppedSameTotals(s: System, s': System, rules: seq<Rule>)
    requires SamePopped(s, s')
    ensures Fanouts(s', rules) == Fanouts(s, rules) && Shorts(s') == Shorts(s)
  {
  }

  /** Under closed rules no fan-out ever meets a missing channel. */
  lemma StepAbandonsNothing(s: System, rules: seq<Rule>, e: Event)
    requires Shaped(s) && NothingAbandoned(s, rules)
    ensures NothingAbandoned(Next(s, rules, e), rules)
  {
    var s' := Next(s, rules, e);
    SameIdsSameChannels(s.link.channels, s'.link.channels, rules);
    if Closed(rules, s'.link.channels) && e.RouterStep? {
      if s.pc.Scanning? && s'.pc.Fanning? {
        TargetsHaveChannels(rules, s'.link.channels, s.link.channels[s.pc.i].peerId, Topic(s'.pc.frame));
      }
      if s.pc.Fanning? && s.pc.rest != [] {
        assert s.pc.rest[0] in s.pc.rest;
      }
    }
  }

  lemma {:induction false} TargetsHaveChannels(rules: seq<Rule>, cs: seq<Channel>, source: byte, topic: u16)
    requires Closed(rules, cs)
    ensures forall t :: t in TargetsFor(rules, source, topic) ==> HasChannel(cs, t)
  {
    if rules != [] && !Matches(rules[0], source, topic) {
      assert Closed(rules[1..], cs);
      TargetsHaveChannels(rules[1..], cs, source, topic);
    } else if rules != [] {
      assert rules[0] in rules;
    }
  }

  /** The router has popped one more publication of channel i and no other. */
  ghost predicate PoppedOne(s: System, s': System, i: nat, record: Record) {
    && Shaped(s) && Shaped(s') && SameIds(s.link.channels, s'.link.channels) && i < |s.link.channels|
    && (forall j :: 0 <= j < |s.link.channels| && j != i ==> PoppedFrom(s', j) == PoppedFrom(s, j))
    && PoppedFrom(s', i) == PoppedFrom(s, i) + [record]
  }

  lemma PopsOne(s: System, s': System, i: nat, record: Record)
    requires Shaped(s) && Shaped(s') && i < |s.link.channels| == |s'.link.channels|
    requires s'.published == s.published
    requires SameIds(s.link.channels, s'.link.channels)
    requires forall j :: 0 <= j < |s.link.channels| && j != i ==> s'.link.channels[j] == s.link.channels[j]
    requires Consumed(s', i) == Consumed(s, i) + 1 && Consumed(s, i) < |s.published[i]|
    requires record == s.published[i][Consumed(s, i)]
    ensures PoppedOne(s, s', i, record)
  {
    forall j | 0 <= j < |s.link.channels| && j != i ensures PoppedFrom(s', j) == PoppedFrom(s, j) {
      assert Consumed(s', j) == Consumed(s, j);
    }
  }

  /** Popping a record adds its fan-out to the total and nothing else. */
  lemma PopAddsFanout(s: System, s': System, rules: seq<Rule>, i: nat, record: Record)
    requires PoppedOne(s, s', i, record)
    ensures Sum(Fanouts(s', rules)) == Sum(Fanouts(s, rules)) + FanoutOne(rules, s.link.channels[i].peerId, record)
  {
    var popped, popped' := PoppedFrom(s, i), PoppedFrom(s', i);
    assert popped'[..|popped'| - 1] == popped;
    SumChange(Fanouts(s, rules), Fanouts(s', rules), i);
  }

  lemma PopAddsShort(s: System, s': System, i: nat, record: Record)
    requires PoppedOne(s, s', i, record)
    ensures Sum(Shorts(s')) == Sum(Shorts(s)) + if |record| < FRAME_SIZE then 1 else 0
  {
    var popped, popped' := PoppedFrom(s, i), PoppedFrom(s', i);
    assert popped'[..|popped'| - 1] == popped;
    SumChange(Shorts(s), Shorts(s'), i);
  }

  /** What popping a record changes in the router's own counters. */
  lemma PopEffect(s: System, rules: seq<Rule>)
    requires Shaped(s) && s.pc.Scanning? && s.pc.i < |s.link.channels|
    requires var polled := PollChannel(s.link.channels[s.pc.i]); polled.Short? || polled.Ready?
    ensures var s' := DoPoll(s, rules);
            var c := s.link.channels[s.pc.i];
            var record := c.inbound.queue[0];
            && s'.link.metrics.recvTruncated == s.link.metrics.recvTruncated + (if |record| < FRAME_SIZE then 1 else 0)
            && s'.fanout == s.fanout + FanoutOne(rules, c.peerId, record)
  {
    var c := s.link.channels[s.pc.i];
    var polled := PollChannel(c);
    if polled.Ready? {
      StampSpec(polled.frame, c.peerId, s.pc.ts);
    }
  }

  /** DoPoll on a channel with a record that fits: one pop and its bookkeeping. */
  lemma PollPopsOne(s: System, rules: seq<Rule>)
    requires Shaped(s) && s.pc.Scanning? && s.pc.i < |s.link.channels| && InboundOk(s, s.pc.i)
    requires var polled := PollChannel(s.link.channels[s.pc.i]); polled.Short? || polled.Ready?
    ensures PoppedOne(s, DoPoll(s, rules), s.pc.i, s.link.channels[s.pc.i].inbound.queue[0])
  {
    var s' := DoPoll(s, rules);
    var c := s.link.channels[s.pc.i];
    PopConsumes(s, s', s.pc.i, PollChannel(c).rest);
    PopsOne(s, s', s.pc.i, c.inbound.queue[0]);
  }

  /** Does this event pop a record? */
  predicate Pops(s: System, e: Event)
    requires Shaped(s)
  {
    e.RouterStep? && s.pc.Scanning? && s.pc.i < |s.link.channels|
    && var polled := PollChannel(s.link.channels[s.pc.i]); polled.Short? || polled.Ready?
  }

  /** A pop whose bookkeeping is right keeps the totals right. */
  lemma IngressAfterPop(s: System, s': System, rules: seq<Rule>, i: nat, record: Record)
    requires PoppedOne(s, s', i, record) && IngressOk(s, rules)
    requires s'.fanout == s.fanout + FanoutOne(rules, s.link.channels[i].peerId, record)
    requires s'.link.metrics.recvTruncated == s.link.metrics.recvTruncated + (if |record| < FRAME_SIZE then 1 else 0)
    ensures IngressOk(s', rules)
  {
    PopAddsFanout(s, s', rules, i, record);
    PopAddsShort(s, s', i, record);
  }

  lemma PopKeepsIngress(s: System, rules: seq<Rule>)
    requires Shaped(s) && IngressOk(s, rules) && s.pc.Scanning? && s.pc.i < |s.link.channels| && InboundOk(s, s.pc.i)
    requires var polled := PollChannel(s.link.channels[s.pc.i]); polled.Short? || polled.Ready?
    ensures IngressOk(DoPoll(s, rules), rules)
  {
    PollPopsOne(s, rules);
    PopEffect(s, rules);
    IngressAfterPop(s, DoPoll(s, rules), rules, s.pc.i, s.link.channels[s.pc.i].inbound.queue[0]);
  }

  lemma OtherStepsPopNothing(s: System, rules: seq<Rule>, e: Event, i: nat)
    requires Shaped(s) && !Pops(s, e) && i < |s.link.channels| && InboundOk(s, i)
    ensures var s' := Next(s, rules, e);
            PoppedFrom(s', i) == PoppedFrom(s, i) && s'.link.channels[i].peerId == s.link.channels[i].peerId
  {
  }

  lemma OtherStepsCountNothing(s: System, rules: seq<Rule>, e: Event)
    requires Shaped(s) && !Pops(s, e)
    ensures var s' := Next(s, rules, e); s'.fanout == s.fanout && s'.link.metrics.recvTruncated == s.link.metrics.recvTruncated
  {
  }

  lemma StepKeepsIngress(s: System, rules: seq<Rule>, e: Event)
    requires Shaped(s) && IngressOk(s, rules)
    requires forall i :: 0 <= i < |s.link.channels| ==> InboundOk(s, i)
    ensures IngressOk(Next(s, rules, e), rules)
  {
    if Pops(s, e) {
      PopKeepsIngress(s, rules);
    } else {
      var s' := Next(s, rules, e);
      forall i | 0 <= i < |s.link.channels|
        ensures PoppedFrom(s', i) == PoppedFrom(s, i) && s'.link.channels[i].peerId == s.link.channels[i].peerId
      {
        OtherStepsPopNothing(s, rules, e, i);
      }
      SamePoppedSameTotals(s, s', rules);
      OtherStepsCountNothing(s, rules, e);
    }
  }

  lemma DropKeepsSums(m: Metrics, dest: byte, prio: nat)
    requires m.Shaped() && prio < PRIORITIES
    ensures var m' := RecordDrop(m, dest, prio);
            Sum(m'.perPeer) == Sum(m.perPeer) + 1 && Sum(m'.byPriority) == Sum(m.byPriority) + 1
  {
    var m' := RecordDrop(m, dest, prio);
    SumChange(m.perPeer, m'.perPeer, dest);
    SumChange(m.byPriority, m'.byPriority, prio);
  }

  /** A step that sends nothing: every counter of the egress side stays, and what is asked for is pending. */
  ghost predicate Quiet(s: System, s': System) {
    var m, m' := s.link.metrics, s'.link.metrics;
    && Shaped(s) && Shaped(s') && SameIds(s.link.channels, s'.link.channels)
    && m' == m.(recvEmpty := m'.recvEmpty, recvTruncated := m'.recvTruncated)
    && s'.enqueued == s.enqueued && s'.drops == s.drops && s'.abandoned == s.abandoned
    && s'.fanout - Pending(s'.pc) == s.fanout - Pending(s.pc)
  }

  lemma QuietKeepsEgress(s: System, s': System)
    requires EgressOk(s) && Quiet(s, s')
    ensures EgressOk(s')
  {
    SameIdsSameChannels(s.link.channels, s'.link.channels, []);
  }

  /** Does this event try to send a copy? */
  predicate Sends(s: System, e: Event) { e.RouterStep? && s.pc.Fanning? && s.pc.rest != [] }

  lemma OtherStepsAreQuiet(s: System, rules: seq<Rule>, e: Event)
    requires Shaped(s) && !Sends(s, e)
    ensures Quiet(s, Next(s, rules, e))
  {
  }

  /** A send charges a drop at most once, to a peer that has a channel. */
  lemma SendKeepsDrops(l: Link, dest: byte, payload: seq<byte>)
    requires DropsOk(l.metrics, l.channels)
    ensures var l' := SendTo(l, dest, payload).0; DropsOk(l'.metrics, l'.channels)
  {
    var (l', status) := SendTo(l, dest, payload);
    SameIdsSameChannels(l.channels, l'.channels, []);
    if status == Dropped {
      DropKeepsSums(l.metrics, dest, PriorityOf(payload));
      assert l.channels[Find(l.channels, dest)].peerId == dest;
      assert HasChannel(l.channels, dest);
    }
  }

  lemma SendKeepsLog(s: System)
    requires Shaped(s) && DropsLogged(s.link.metrics, s.drops) && s.pc.Fanning? && s.pc.rest != []
    ensures DropsLogged(DoSend(s).link.metrics, DoSend(s).drops)
  {
    SendCounts(s.link, s.pc.rest[0], s.pc.frame);
    var (l, status) := SendTo(s.link, s.pc.rest[0], s.pc.frame);
    if status == Dropped {
      ChargeKeepsLog(s.link.metrics, l.metrics, s.drops, Drop(s.pc.rest[0], s.pc.frame, Copy(s.pc.frame, s.pc.src, s.pc.pub, s.pc.ts)));
    }
  }

  lemma SendKeepsEgress(s: System)
    requires EgressOk(s) && s.pc.Fanning? && s.pc.rest != []
    ensures EgressOk(DoSend(s))
  {
    var s' := DoSend(s);
    var dest := s.pc.rest[0];
    SendKeepsDrops(s.link, dest, s.pc.frame);
    SendKeepsLog(s);
    if SendTo(s.link, dest, s.pc.frame).1 == Enqueued {
      SumChange(CopyCounts(s.enqueued), CopyCounts(s'.enqueued), Find(s.link.channels, dest));
    }
  }

  /** The egress laws need no hypothesis at all. */
  lemma StepKeepsEgress(s: System, rules: seq<Rule>, e: Event)
    requires EgressOk(s)
    ensures EgressOk(Next(s, rules, e))
  {
    if Sends(s, e) {
      SendKeepsEgress(s);
    } else {
      OtherStepsAreQuiet(s, rules, e);
      QuietKeepsEgress(s, Next(s, rules, e));
    }
  }

  lemma RouterStepKeepsInbound(s: System, rules: seq<Rule>, ts: u64, i: nat)
    requires Shaped(s) && i < |s.link.channels| && InboundOk(s, i)
    ensures InboundOk(DoRouter(s, rules, ts), i)
  {
  }

  /** Whatever happens, an inbound ring holds exactly the publications not yet popped from it. */
  lemma StepKeepsInbound(s: System, rules: seq<Rule>, e: Event, i: nat)
    requires Shaped(s) && i < |s.link.channels| && InboundOk(s, i)
    ensures InboundOk(Next(s, rules, e), i)
  {
    if e.RouterStep? {
      RouterStepKeepsInbound(s, rules, e.ts, i);
    }
  }

  lemma StepKeepsLaws(s: System, rules: seq<Rule>, e: Event)
    requires Laws(s, rules)
    ensures Laws(Next(s, rules, e), rules)
  {
    StepKeepsEgress(s, rules, e);
    StepKeepsIngress(s, rules, e);
    StepAbandonsNothing(s, rules, e);
    forall i | 0 <= i < |s.link.channels| ensures InboundOk(Next(s, rules, e), i) {
      StepKeepsInbound(s, rules, e, i);
    }
  }

  lemma {:induction false} RunKeepsLaws(s: System, rules: seq<Rule>, events: seq<Event>)
    requires Laws(s, rules)
    ensures Laws(Run(s, rules, events), rules)
    decreases |events|
  {
    if events != [] {
      StepKeepsLaws(s, rules, events[0]);
      RunKeepsLaws(Next(s, rules, events[0]), rules, events[1..]);
    }
  }

  lemma ZeroDrops(cs: seq<Channel>)
    ensures DropsOk(ZeroMetrics(), cs)
    ensures DropsLogged<Copy>(ZeroMetrics(), [])
  {
    SumZeros(ZeroMetrics().perPeer);
    SumZeros(ZeroMetrics().byPriority);
  }

  lemma BootIngress(channels: seq<Channel>, rules: seq<Rule>)
    requires forall c :: c in channels ==> c.inbound.queue == []
    ensures IngressOk(Boot(channels), rules) && forall i :: 0 <= i < |channels| ==> InboundOk(Boot(channels), i)
  {
    var s := Boot(channels);
    forall i | 0 <= i < |channels| ensures InboundOk(s, i) {
      assert channels[i] in channels;
    }
    SumZeros(Fanouts(s, rules));
    SumZeros(Shorts(s));
  }

  lemma BootLaws(channels: seq<Channel>, rules: seq<Rule>)
    requires forall c :: c in channels ==> c.inbound.queue == []
    ensures Laws(Boot(channels), rules)
  {
    ZeroDrops(channels);
    BootIngress(channels, rules);
    SumZeros(CopyCounts(Boot(channels).enqueued));
  }

  /**
   Conservation in every reachable state: dropped_full counts the copies refused
   and is the sum of its per-peer and of its per-priority split; each cell of the
   splits counts the refused copies for its own peer and of its own priority; ids without a channel (0 and 255 among them
   under the loader's id range) are never charged; forwarded counts exactly the
   copies placed in rings; truncations count exactly the short records popped;
   and forwarded + dropped + still-to-send + abandoned is the total fan-out of
   the full-size frames popped so far, where a target is abandoned only by the
   "no channel" throw, hence never when every target has a channel.
   */
  lemma Conservation(channels: seq<Channel>, rules: seq<Rule>, events: seq<Event>)
    requires forall c :: c in channels ==> c.inbound.queue == []
    ensures var s := Run(Boot(channels), rules, events);
            var m := s.link.metrics;
            && m.Shaped()
            && m.droppedFull == Sum(m.perPeer) == Sum(m.byPriority) == |s.drops|
            && (forall p :: 0 <= p < 8 ==> m.byPriority[p] == DropsAt(s.drops, p))
            && (forall id :: 0 <= id < 256 ==> m.perPeer[id] == DropsFor(s.drops, id))
            && (forall id: byte :: !HasChannel(s.link.channels, id) ==> m.perPeer[id] == 0)
            && m.forwarded == Sum(CopyCounts(s.enqueued))
            && m.recvTruncated == Sum(Shorts(s))
            && m.forwarded + m.droppedFull + s.abandoned + Pending(s.pc) == Sum(Fanouts(s, rules))
            && (Closed(rules, s.link.channels) ==> s.abandoned == 0)
  {
    BootLaws(channels, rules);
    RunKeepsLaws(Boot(channels), rules, events);
  }

  // ----- what was dropped ----------------------------------------------------

  /** A logged drop is a whole published frame, stamped, on its way to a target of the first matching rule. */
  ghost predicate DropRouted(s: System, rules: seq<Rule>, d: Drop<Copy>)
    requires Shaped(s)
  {
    && d.origin.frame == d.frame && Genuine(s, d.origin)
    && d.dest in TargetsFor(rules, s.link.channels[d.origin.src].peerId, Topic(d.frame))
  }

  ghost predicate DropsRouted(s: System, rules: seq<Rule>)
    requires Shaped(s)
  {
    forall k :: 0 <= k < |s.drops| ==> DropRouted(s, rules, s.drops[k])
  }

  lemma StepExtends(s: System, rules: seq<Rule>, e: Event)
    requires Shaped(s) && forall i :: 0 <= i < |s.link.channels| ==> InboundOk(s, i)
    ensures Extends(s, Next(s, rules, e))
  {
    var s' := Next(s, rules, e);
    forall i | 0 <= i < |s.link.channels| ensures ChannelExtends(s, s', i) {
      assert InboundOk(s, i);
      ChannelStepExtends(s, rules, e, i);
    }
  }

  lemma ChannelStepExtends(s: System, rules: seq<Rule>, e: Event, i: nat)
    requires Shaped(s) && i < |s.link.channels| && InboundOk(s, i)
    ensures ChannelExtends(s, Next(s, rules, e), i)
  {
  }

  lemma DropStaysRouted(s: System, s': System, rules: seq<Rule>, d: Drop<Copy>)
    requires Extends(s, s') && DropRouted(s, rules, d)
    ensures DropRouted(s', rules, d)
  {
    GenuineExtends(s, s', d.origin);
    assert ChannelExtends(s, s', d.origin.src);
  }

  /** The copy about to be sent is one the log may hold. */
  lemma NextDropRouted(s: System, rules: seq<Rule>)
    requires Shaped(s) && PcOk(s, rules) && s.pc.Fanning? && s.pc.rest != []
    ensures DropRouted(s, rules, Drop(s.pc.rest[0], s.pc.frame, Copy(s.pc.frame, s.pc.src, s.pc.pub, s.pc.ts)))
  {
    assert s.pc.rest[0] in s.pc.rest;
  }

  lemma DropsAfter(s: System, rules: seq<Rule>, e: Event)
    requires Shaped(s)
    ensures var drops := Next(s, rules, e).drops;
            || drops == s.drops
            || (s.pc.Fanning? && s.pc.rest != []
                && drops == s.drops + [Drop(s.pc.rest[0], s.pc.frame, Copy(s.pc.frame, s.pc.src, s.pc.pub, s.pc.ts))])
  {
  }

  lemma StepKeepsDropsRouted(s: System, rules: seq<Rule>, e: Event)
    requires Inv(s, rules) && DropsRouted(s, rules)
    ensures DropsRouted(Next(s, rules, e), rules)
  {
    var s' := Next(s, rules, e);
    StepExtends(s, rules, e);
    DropsAfter(s, rules, e);
    forall k | 0 <= k < |s'.drops| ensures DropRouted(s', rules, s'.drops[k]) {
      if k < |s.drops| {
        assert DropRouted(s, rules, s.drops[k]);
      } else {
        NextDropRouted(s, rules);
      }
      DropStaysRouted(s, s', rules, s'.drops[k]);
    }
  }

  /** In every run, each drop that was counted is of a genuine frame on its way to a peer it was routed to. */
  lemma {:induction false} DropsAreRouted(s: System, rules: seq<Rule>, events: seq<Event>)
    requires Inv(s, rules) && DistinctTargets(rules) && DropsRouted(s, rules)
    ensures DropsRouted(Run(s, rules, events), rules)
    decreases |events|
  {
    if events != [] {
      StepKeepsDropsRouted(s, rules, events[0]);
      StepKeepsInv(s, rules, events[0]);
      DropsAreRouted(Next(s, rules, events[0]), rules, events[1..]);
    }
  }

  // ----- forward() is a run -------------------------------------------------

  function Steps(n: nat, ts: u64): seq<Event> { seq(n, _ => RouterStep(ts)) }

  lemma {:induction false} RunAppend(s: System, rules: seq<Rule>, a: seq<Event>, b: seq<Event>)
    requires Shaped(s)
    ensures Run(s, rules, a + b) == Run(Run(s, rules, a), rules, b)
    decreases |a|
  {
    if a == [] {
      assert a + b == b;
    } else {
      assert (a + b)[1..] == a[1..] + b;
      RunAppend(Next(s, rules, a[0]), rules, a[1..], b);
    }
  }

  lemma StepThenRun(s: System, rules: seq<Rule>, ts: u64, n: nat)
    requires Shaped(s)
    ensures Run(s, rules, Steps(n + 1, ts)) == Run(Next(s, rules, RouterStep(ts)), rules, Steps(n, ts))
  {
    assert Steps(n + 1, ts)[1..] == Steps(n, ts);
  }

  lemma {:induction false} FanOutIsARun(s: System, rules: seq<Rule>, ts: u64) returns (n: nat)
    requires Shaped(s) && s.pc.Fanning?
    ensures var s' := Run(s, rules, Steps(n, ts));
            s'.pc.Idle? && s'.link == FanOut(s.link, s.pc.rest, s.pc.frame).0
    decreases |s.pc.rest|
  {
    var next := Next(s, rules, RouterStep(ts));
    if next.pc.Idle? {
      n := 1;
      StepThenRun(s, rules, ts, 0);
    } else {
      var k := FanOutIsARun(next, rules, ts);
      n := k + 1;
      StepThenRun(s, rules, ts, k);
    }
  }

  /** What forward() does with the answer of its receive scan. */
  ghost function AfterScan(scanned: (Link, Reception, FrameBytes), rules: seq<Rule>): Link
    requires scanned.0.Shaped()
  {
    var (l, got, frame) := scanned;
    match got
    case Threw => l
    case Nothing => CountEmpty(l)
    case Got(source) =>
      if source == ENDPOINT_INVALID then CountEmpty(l)
      else FanOut(l, TargetsFor(rules, source, Topic(frame)), frame).0
  }

  ghost function NextScratch(c: Channel, scratch: FrameBytes): FrameBytes {
    var polled := PollChannel(c);
    if polled.Short? then polled.bytes + scratch[|polled.bytes|..] else scratch
  }

  lemma ScanStep(s: System, rules: seq<Rule>, ts: u64, scratch: FrameBytes)
    requires Shaped(s) && s.pc.Scanning? && s.pc.ts == ts
    ensures var next := Next(s, rules, RouterStep(ts));
            var scanned := Scan(s.link, s.pc.i, ts, scratch);
            && (next.pc.Idle? ==> next.link == AfterScan(scanned, rules))
            && (next.pc.Fanning? ==> FanOut(next.link, next.pc.rest, next.pc.frame).0 == AfterScan(scanned, rules))
            && (next.pc.Scanning? ==>
                  && s.pc.i < |s.link.channels| == |next.link.channels|
                  && next.pc == s.pc.(i := s.pc.i + 1)
                  && scanned == Scan(next.link, next.pc.i, ts, NextScratch(s.link.channels[s.pc.i], scratch)))
  {
  }

  lemma {:induction false} ScanIsARun(s: System, rules: seq<Rule>, ts: u64, scratch: FrameBytes) returns (n: nat)
    requires Shaped(s) && s.pc.Scanning? && s.pc.ts == ts
    ensures var s' := Run(s, rules, Steps(n, ts));
            s'.pc.Idle? && s'.link == AfterScan(Scan(s.link, s.pc.i, ts, scratch), rules)
    decreases |s.link.channels| - s.pc.i
  {
    var next := Next(s, rules, RouterStep(ts));
    ScanStep(s, rules, ts, scratch);
    var k := 0;
    if next.pc.Scanning? {
      k := ScanIsARun(next, rules, ts, NextScratch(s.link.channels[s.pc.i], scratch));
    } else if next.pc.Fanning? {
      k := FanOutIsARun(next, rules, ts);
    }
    n := k + 1;
    StepThenRun(s, rules, ts, k);
  }

  /** One forward() call is some number of router steps with nobody else moving. */
  lemma ForwardIsARun(s: System, rules: seq<Rule>, ts: u64, scratch: FrameBytes) returns (n: nat)
    requires Shaped(s) && s.pc.Idle?
    ensures var s' := Run(s, rules, Steps(n, ts));
            s'.pc.Idle? && s'.link == Forward(s.link, rules, ts, scratch).link
  {
    var next := Next(s, rules, RouterStep(ts));
    var k := ScanIsARun(next, rules, ts, scratch);
    n := k + 1;
    StepThenRun(s, rules, ts, k);
  }
}
