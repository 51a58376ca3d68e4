/**
 bind_shm_endpoint opens a region by name, so two peers with one name get one
 pair of rings between them. Here the router's runs are repeated with rings that
 belong to names: after every ring operation, all channels on the same name see
 the same queues. With pairwise different names nothing changes and every theorem
 about runs applies; with a repeated name frames are attributed to the wrong peer.
 */
module SharedRegions {
  import opened Bytes
  import opened BoundedFifo
  import opened Frame
  import opened Routing
  import opened ShmRouter
  import opened RouterRuns
  import C = RouterConservation

  /** The queues of channel k, seen by every channel on the same region; sizes stay each channel's own. */
  function Sync(cs: seq<Channel>, names: seq<string>, k: nat): (r: seq<Channel>)
    requires |names| == |cs| && k < |cs|
    ensures |r| == |cs|
    ensures forall j :: 0 <= j < |cs| ==> r[j] == Aliased(cs[j], cs[k], names[j] == names[k])
  {
    seq(|cs|, j requires 0 <= j < |cs| => Aliased(cs[j], cs[k], names[j] == names[k]))
  }

  function Aliased(c: Channel, touched: Channel, same: bool): Channel {
    if same then c.(inbound := c.inbound.(queue := touched.inbound.queue), outbound := c.outbound.(queue := touched.outbound.queue))
    else c
  }

  /** The channel whose rings an event operates on, if any. */
  function Touched(s: System, e: Event): Option<nat>
    requires Shaped(s)
  {
    match e
    case Publish(i, _) => if i < |s.link.channels| then Some(i) else None
    case Take(i) => if i < |s.link.channels| then Some(i) else None
    case SetFloor(_) => None
    case RouterStep(_) =>
      if s.pc.Scanning? && s.pc.i < |s.link.channels| then Some(s.pc.i)
      else if s.pc.Fanning? && s.pc.rest != [] && Find(s.link.channels, s.pc.rest[0]) < |s.link.channels|
      then Some(Find(s.link.channels, s.pc.rest[0]))
      else None
  }

  function NextShared(s: System, names: seq<string>, rules: seq<Rule>, e: Event): (r: System)
    requires Shaped(s) && |names| == |s.link.channels|
    ensures Shaped(r) && |r.link.channels| == |s.link.channels|
  {
    var s' := Next(s, rules, e);
    match Touched(s, e)
    case None => s'
    case Some(k) => s'.(link := s'.link.(channels := Sync(s'.link.channels, names, k)))
  }

  function RunShared(s: System, names: seq<string>, rules: seq<Rule>, events: seq<Event>): (r: System)
    requires Shaped(s) && |names| == |s.link.channels|
    ensures Shaped(r) && |r.link.channels| == |s.link.channels|
    decreases |events|
  {
    if events == [] then s else RunShared(NextShared(s, names, rules, events[0]), names, rules, events[1..])
  }

  // ----- different names: separate rings ------------------------------------

  ghost predicate DistinctNames(names: seq<string>) {
    forall i, j :: 0 <= i < j < |names| ==> names[i] != names[j]
  }

  lemma SyncIsIdentity(cs: seq<Channel>, names: seq<string>, k: nat)
    requires |names| == |cs| && k < |cs| && DistinctNames(names)
    ensures Sync(cs, names, k) == cs
  {
    forall j | 0 <= j < |cs| ensures Sync(cs, names, k)[j] == cs[j] {
    }
  }

  /** With pairwise different names, shared memory is separate memory, in every run. */
  lemma {:induction false} DistinctNamesSeparate(s: System, names: seq<string>, rules: seq<Rule>, events: seq<Event>)
    requires Shaped(s) && |names| == |s.link.channels| && DistinctNames(names)
    ensures RunShared(s, names, rules, events) == Run(s, rules, events)
    decreases |events|
  {
    if events != [] {
      var s' := Next(s, rules, events[0]);
      if k :| Touched(s, events[0]) == Some(k) {
        SyncIsIdentity(s'.link.channels, names, k);
      }
      assert NextShared(s, names, rules, events[0]) == s';
      DistinctNamesSeparate(s', names, rules, events[1..]);
    }
  }

  // ----- any names: the counters --------------------------------------------

  lemma SharedStepKeepsCounts(s: System, names: seq<string>, rules: seq<Rule>, e: Event)
    requires C.EgressOk(s) && C.NothingAbandoned(s, rules) && |names| == |s.link.channels|
    ensures var s' := NextShared(s, names, rules, e);
            C.EgressOk(s') && C.NothingAbandoned(s', rules) && C.SameIds(s.link.channels, s'.link.channels)
  {
    var next, shared := Next(s, rules, e), NextShared(s, names, rules, e);
    C.StepKeepsIds(s, rules, e);
    C.StepKeepsEgress(s, rules, e);
    C.StepAbandonsNothing(s, rules, e);
    C.QuietKeepsEgress(next, shared);
    C.SameIdsSameChannels(next.link.channels, shared.link.channels, rules);
  }

  lemma {:induction false} SharedRunKeepsCounts(s: System, names: seq<string>, rules: seq<Rule>, events: seq<Event>)
    requires C.EgressOk(s) && C.NothingAbandoned(s, rules) && |names| == |s.link.channels|
    ensures var s' := RunShared(s, names, rules, events);
            C.EgressOk(s') && C.NothingAbandoned(s', rules) && C.SameIds(s.link.channels, s'.link.channels)
    decreases |events|
  {
    if events != [] {
      SharedStepKeepsCounts(s, names, rules, events[0]);
      SharedRunKeepsCounts(NextShared(s, names, rules, events[0]), names, rules, events[1..]);
    }
  }

  /** The egress laws hold whatever regions are shared: each copy asked for is forwarded, dropped, pending or abandoned. */
  lemma SharedConservation(channels: seq<Channel>, names: seq<string>, rules: seq<Rule>, events: seq<Event>)
    requires |names| == |channels| && forall c :: c in channels ==> c.inbound.queue == []
    ensures var s := RunShared(Boot(channels), names, rules, events);
            && C.EgressOk(s) && C.SameIds(channels, s.link.channels)
            && (C.Closed(rules, channels) ==> s.abandoned == 0)
  {
    C.BootLaws(channels, rules);
    SharedRunKeepsCounts(Boot(channels), names, rules, events);
    C.SameIdsSameChannels(channels, RunShared(Boot(channels), names, rules, events).link.channels, rules);
  }

  // ----- what delivery promises ---------------------------------------------

  /** The frame in the router's hands was published by the peer whose id it has been stamped with. */
  ghost predicate Attributed(s: System)
    requires Shaped(s)
  {
    s.pc.Fanning? ==>
      exists i, p :: && 0 <= i < |s.link.channels| && 0 <= p < |s.published[i]| && |s.published[i][p]| == FRAME_SIZE
                     && s.link.channels[i].peerId == s.pc.frame[0]
                     && s.pc.frame == Stamp(s.published[i][p], s.link.channels[i].peerId, s.pc.ts)
  }

  /** Everything subscriber d has popped is a whole routed frame of the peer it names, in order, once. */
  ghost predicate Delivers(s: System, rules: seq<Rule>, d: nat)
    requires Shaped(s) && d < |s.link.channels|
  {
    && |s.taken[d]| <= |s.enqueued[d]|
    && InOrder(s.enqueued[d][..|s.taken[d]|])
    && forall k :: 0 <= k < |s.taken[d]| ==>
         |s.taken[d][k]| == FRAME_SIZE && Delivered(s, rules, d, s.taken[d][k], s.enqueued[d][k])
  }

  ghost predicate Promise(s: System, rules: seq<Rule>)
    requires Shaped(s)
  {
    Attributed(s) && forall d :: 0 <= d < |s.link.channels| ==> Delivers(s, rules, d)
  }

  /** Channels as a bind leaves them: rings empty, room for a frame, a usable id. */
  ghost predicate FreshlyBound(channels: seq<Channel>) {
    && Bootable(channels)
    && forall c :: c in channels ==>
         && c.peerId != ENDPOINT_INVALID
         && 0 < c.inbound.slotCount && FRAME_SIZE <= c.inbound.maxPayload
         && 0 < c.outbound.slotCount && FRAME_SIZE <= c.outbound.maxPayload
  }

  lemma InvDelivers(s: System, rules: seq<Rule>, d: nat)
    requires Inv(s, rules) && d < |s.link.channels| && FRAME_SIZE <= s.link.channels[d].outbound.maxPayload
    ensures Delivers(s, rules, d)
  {
    var m := s.link.channels[d].outbound.maxPayload;
    var all := Clipped(s.enqueued[d], m);
    assert OutboundOk(s, rules, d);
    assert |all| == |s.taken[d]| + |s.link.channels[d].outbound.queue|;
    forall k | 0 <= k < |s.taken[d]|
      ensures |s.taken[d][k]| == FRAME_SIZE && Delivered(s, rules, d, s.taken[d][k], s.enqueued[d][k])
    {
      assert all[k] == (s.taken[d] + s.link.channels[d].outbound.queue)[k] == s.taken[d][k];
      RoutedIsDelivered(s, rules, d, s.enqueued[d][k], m);
    }
  }

  lemma SeparateDelivers(channels: seq<Channel>, rules: seq<Rule>, events: seq<Event>, d: nat)
    requires FreshlyBound(channels) && DistinctTargets(rules) && d < |channels|
    ensures Delivers(Run(Boot(channels), rules, events), rules, d)
  {
    assert channels[d] in channels;
    var s := ReachableInv(channels, rules, events);
    RunKeepsSlotSize(Boot(channels), rules, events, d);
    InvDelivers(s, rules, d);
  }

  lemma SeparateAttributes(channels: seq<Channel>, rules: seq<Rule>, events: seq<Event>)
    requires Bootable(channels) && DistinctTargets(rules)
    ensures Attributed(Run(Boot(channels), rules, events))
  {
    var s := ReachableInv(channels, rules, events);
    if s.pc.Fanning? {
      var i := s.pc.src;
      StampSpec(s.published[i][s.pc.pub], s.link.channels[i].peerId, s.pc.ts);
      assert s.link.channels[i].peerId == s.pc.frame[0];
    }
  }

  // ----- a repeated name: the wrong peer ------------------------------------

  /** The first channel on the region that channel j is on. */
  function FirstOn(names: seq<string>, name: string, i: nat): (k: nat)
    requires i <= |names|
    ensures i <= k <= |names|
    ensures k < |names| ==> names[k] == name
    ensures forall j :: i <= j < k ==> names[j] != name
    decreases |names| - i
  {
    if i == |names| || names[i] == name then i else FirstOn(names, name, i + 1)
  }

  function RouterSteps(n: nat): seq<Event> { seq(n, _ => RouterStep(0)) }

  lemma OneStep(s: System, names: seq<string>, rules: seq<Rule>, e: Event, rest: seq<Event>)
    requires Shaped(s) && |names| == |s.link.channels|
    ensures RunShared(s, names, rules, [e] + rest) == RunShared(NextShared(s, names, rules, e), names, rules, rest)
  {
    assert ([e] + rest)[1..] == rest;
  }

  lemma RouterStepFirst(s: System, names: seq<string>, rules: seq<Rule>, n: nat)
    requires Shaped(s) && |names| == |s.link.channels| && n > 0
    ensures RunShared(s, names, rules, RouterSteps(n))
         == RunShared(NextShared(s, names, rules, RouterStep(0)), names, rules, RouterSteps(n - 1))
  {
    assert RouterSteps(n) == [RouterStep(0)] + RouterSteps(n - 1);
    OneStep(s, names, rules, RouterStep(0), RouterSteps(n - 1));
  }

  lemma {:induction false} RunSharedAppend(s: System, names: seq<string>, rules: seq<Rule>, a: seq<Event>, b: seq<Event>)
    requires Shaped(s) && |names| == |s.link.channels|
    ensures RunShared(s, names, rules, a + b) == RunShared(RunShared(s, names, rules, a), names, rules, b)
    decreases |a|
  {
    if a == [] {
      assert a + b == b;
    } else {
      assert (a + b)[1..] == a[1..] + b;
      RunSharedAppend(NextShared(s, names, rules, a[0]), names, rules, a[1..], b);
    }
  }

  /** Nothing but queues, metrics and the program counter has changed. */
  ghost predicate SamePeers(s: System, s': System) {
    && |s'.link.channels| == |s.link.channels|
    && s'.published == s.published && s'.taken == s.taken && s'.link.floor == s.link.floor
    && forall j :: 0 <= j < |s.link.channels| ==>
         && s'.link.channels[j].peerId == s.link.channels[j].peerId
         && s'.link.channels[j].congested == s.link.channels[j].congested
         && s'.link.channels[j].outbound == s.link.channels[j].outbound
  }

  /** On one region, one queue. */
  ghost predicate Coherent(cs: seq<Channel>, names: seq<string>) {
    && |cs| == |names|
    && forall i, j :: 0 <= i < |cs| && 0 <= j < |cs| && names[i] == names[j] ==>
         cs[i].inbound.queue == cs[j].inbound.queue && cs[i].outbound.queue == cs[j].outbound.queue
  }

  /** Polling an empty channel only moves on. */
  lemma EmptyPoll(s: System, names: seq<string>, rules: seq<Rule>)
    requires Shaped(s) && Coherent(s.link.channels, names) && s.pc.Scanning? && s.pc.i < |names|
    requires s.link.channels[s.pc.i].inbound.queue == []
    ensures NextShared(s, names, rules, RouterStep(0)) == s.(pc := Scanning(s.pc.i + 1, s.pc.ts))
  {
    assert Sync(s.link.channels, names, s.pc.i) == s.link.channels;
  }

  /** Polling a channel with a frame pops it for every channel on the region and stamps the polled channel's id. */
  lemma ReadyPoll(s: System, names: seq<string>, rules: seq<Rule>)
    requires Shaped(s) && Coherent(s.link.channels, names) && s.pc.Scanning? && s.pc.i < |names|
    requires PollChannel(s.link.channels[s.pc.i]).Ready? && s.link.channels[s.pc.i].peerId != ENDPOINT_INVALID
    ensures var s' := NextShared(s, names, rules, RouterStep(0));
            var c := s.link.channels[s.pc.i];
            && SamePeers(s, s') && s'.enqueued == s.enqueued
            && s'.pc.Fanning? && s'.pc.src == s.pc.i && s'.pc.ts == s.pc.ts
            && s'.pc.frame == Stamp(PollChannel(c).frame, c.peerId, s.pc.ts)
            && s'.pc.rest == TargetsFor(rules, c.peerId, Topic(s'.pc.frame))
  {
  }

  /** A scan passes the empty channels before channel i and takes the frame there. */
  lemma {:induction false} ScanReaches(s: System, names: seq<string>, rules: seq<Rule>, i: nat)
    requires Shaped(s) && Coherent(s.link.channels, names) && s.pc.Scanning? && s.pc.i <= i < |names|
    requires forall j :: s.pc.i <= j < i ==> s.link.channels[j].inbound.queue == []
    requires PollChannel(s.link.channels[i]).Ready? && s.link.channels[i].peerId != ENDPOINT_INVALID
    ensures var s' := RunShared(s, names, rules, RouterSteps(i - s.pc.i + 1));
            var c := s.link.channels[i];
            && SamePeers(s, s') && s'.enqueued == s.enqueued
            && s'.pc.Fanning? && s'.pc.src == i && s'.pc.ts == s.pc.ts
            && s'.pc.frame == Stamp(PollChannel(c).frame, c.peerId, s.pc.ts)
            && s'.pc.rest == TargetsFor(rules, c.peerId, Topic(s'.pc.frame))
    decreases i - s.pc.i
  {
    var n := i - s.pc.i;
    RouterStepFirst(s, names, rules, n + 1);
    if n > 0 {
      EmptyPoll(s, names, rules);
      ScanReaches(s.(pc := Scanning(s.pc.i + 1, s.pc.ts)), names, rules, i);
    } else {
      ReadyPoll(s, names, rules);
      assert RouterSteps(0) == [];
    }
  }

  function ZeroFrame(): FrameBytes { seq(FRAME_SIZE, _ => 0) }

  function FrameOn(topic: u16): FrameBytes { Set(ZeroFrame(), TopicId, topic) }

  lemma FrameOnTopic(topic: u16, source: byte, ts: u64)
    ensures Topic(FrameOn(topic)) == topic && Topic(Stamp(FrameOn(topic), source, ts)) == topic
  {
    WordSizes();
    GetAfterSet(ZeroFrame(), TopicId, topic);
    StampSpec(FrameOn(topic), source, ts);
  }

  /** Peer j publishes one frame into fresh rings; the router then polls up to the first channel on j's region. */
  function OneFrame(names: seq<string>, j: nat): seq<Event>
    requires j < |names|
  {
    [Publish(j, ZeroFrame())] + ([RouterStep(0)] + RouterSteps(FirstOn(names, names[j], 0) + 1))
  }

  /** Fresh rings, except that peer j has published one frame. */
  ghost predicate OneWaiting(channels: seq<Channel>, names: seq<string>, j: nat, s: System) {
    && |names| == |channels| && j < |names|
    && OnlyPublished(channels, j, s) && s.pc == Idle
    && Coherent(s.link.channels, names)
    && forall i :: 0 <= i < |names| ==> s.link.channels[i].inbound.queue == if names[i] == names[j] then [ZeroFrame()] else []
  }

  /** The logs and outbound rings of a fresh system, except for peer j's one publication. */
  ghost predicate OnlyPublished(channels: seq<Channel>, j: nat, s: System) {
    && Shaped(s) && j < |channels| == |s.link.channels| && s.link.floor == 0
    && (forall i :: 0 <= i < |channels| ==> s.published[i] == (if i == j then [ZeroFrame()] else []))
    && (forall i :: 0 <= i < |channels| ==> s.taken[i] == [] && s.enqueued[i] == [])
    && forall i :: 0 <= i < |channels| ==>
         && s.link.channels[i].peerId == channels[i].peerId
         && !s.link.channels[i].congested && s.link.channels[i].outbound == channels[i].outbound
  }

  /** The publish state: one frame waits. */
  lemma PublishShared(channels: seq<Channel>, names: seq<string>, rules: seq<Rule>, j: nat)
    requires FreshlyBound(channels) && |names| == |channels| && j < |names|
    ensures OneWaiting(channels, names, j, NextShared(Boot(channels), names, rules, Publish(j, ZeroFrame())))
  {
    assert forall i :: 0 <= i < |channels| ==> channels[i] in channels;
    assert Clip(ZeroFrame(), channels[j].inbound.maxPayload) == ZeroFrame();
    assert [] + [ZeroFrame()] == [ZeroFrame()];
  }

  /** The frame of peer j is popped through the first channel on its region and stamped with that channel's id. */
  lemma OneFrameIsStamped(channels: seq<Channel>, names: seq<string>, rules: seq<Rule>, j: nat)
    requires FreshlyBound(channels) && |names| == |channels| && j < |names|
    ensures StampedBy(channels, rules, j, FirstOn(names, names[j], 0), RunShared(Boot(channels), names, rules, OneFrame(names, j)))
  {
    var boot := Boot(channels);
    OneFrameStarts(boot, names, rules, j);
    PublishShared(channels, names, rules, j);
    ScanWaiting(channels, names, rules, j, FirstOn(names, names[j], 0), NextShared(boot, names, rules, Publish(j, ZeroFrame())));
  }

  /** Peer j's frame is in the router's hands, stamped with the id of channel i. */
  ghost predicate StampedBy(channels: seq<Channel>, rules: seq<Rule>, j: nat, i: nat, s: System) {
    && OnlyPublished(channels, j, s) && i < |channels|
    && s.pc.Fanning? && s.pc.src == i && s.pc.frame == Stamp(ZeroFrame(), channels[i].peerId, 0)
    && s.pc.rest == TargetsFor(rules, channels[i].peerId, Topic(s.pc.frame))
  }

  /** The run is the publish, then the scan. */
  lemma OneFrameStarts(s: System, names: seq<string>, rules: seq<Rule>, j: nat)
    requires Shaped(s) && j < |names| == |s.link.channels|
    ensures RunShared(s, names, rules, OneFrame(names, j))
         == RunShared(NextShared(s, names, rules, Publish(j, ZeroFrame())), names, rules,
                      [RouterStep(0)] + RouterSteps(FirstOn(names, names[j], 0) + 1))
  {
    OneStep(s, names, rules, Publish(j, ZeroFrame()), [RouterStep(0)] + RouterSteps(FirstOn(names, names[j], 0) + 1));
  }

  /** The scan: it gets to the first channel on the region and pops the frame there. */
  lemma ScanWaiting(channels: seq<Channel>, names: seq<string>, rules: seq<Rule>, j: nat, i: nat, s: System)
    requires FreshlyBound(channels) && OneWaiting(channels, names, j, s)
    requires i < |names| && names[i] == names[j] && forall k :: 0 <= k < i ==> names[k] != names[j]
    ensures StampedBy(channels, rules, j, i, RunShared(s, names, rules, [RouterStep(0)] + RouterSteps(i + 1)))
  {
    var scanning := s.(pc := Scanning(0, 0));
    ScanStarts(s, names, rules, RouterSteps(i + 1));
    WaitingIsReady(channels, names, j, i, s);
    ScanReaches(scanning, names, rules, i);
    StillOnlyPublished(channels, j, s, RunShared(scanning, names, rules, RouterSteps(i + 1)));
  }

  lemma ScanStarts(s: System, names: seq<string>, rules: seq<Rule>, rest: seq<Event>)
    requires Shaped(s) && |names| == |s.link.channels| && s.pc == Idle
    ensures RunShared(s, names, rules, [RouterStep(0)] + rest) == RunShared(s.(pc := Scanning(0, 0)), names, rules, rest)
  {
    OneStep(s, names, rules, RouterStep(0), rest);
    assert NextShared(s, names, rules, RouterStep(0)) == s.(pc := Scanning(0, 0));
  }

  lemma WaitingIsReady(channels: seq<Channel>, names: seq<string>, j: nat, i: nat, s: System)
    requires FreshlyBound(channels) && OneWaiting(channels, names, j, s) && i < |names| && names[i] == names[j]
    ensures var c := s.link.channels[i];
            c.peerId != ENDPOINT_INVALID && PollChannel(c).Ready? && PollChannel(c).frame == ZeroFrame()
  {
    assert channels[i] in channels;
    assert s.link.channels[i].inbound.queue == [ZeroFrame()];
  }

  lemma StillOnlyPublished(channels: seq<Channel>, j: nat, s: System, s': System)
    requires OnlyPublished(channels, j, s) && Shaped(s') && SamePeers(s, s') && s'.enqueued == s.enqueued
    ensures OnlyPublished(channels, j, s')
  {
  }

  /** Two peers on one name: a frame of the later one is stamped with the id of the earlier one. */
  lemma SharedNameMisattributes(channels: seq<Channel>, names: seq<string>, rules: seq<Rule>, i: nat, j: nat)
    requires FreshlyBound(channels) && |names| == |channels| && i < j < |names| && names[i] == names[j]
    ensures !Attributed(RunShared(Boot(channels), names, rules, OneFrame(names, j)))
  {
    var s := RunShared(Boot(channels), names, rules, OneFrame(names, j));
    var first := FirstOn(names, names[j], 0);
    OneFrameIsStamped(channels, names, rules, j);
    StampSpec(ZeroFrame(), channels[first].peerId, 0);
    forall k | 0 <= k < |s.link.channels| && s.link.channels[k].peerId == s.pc.frame[0] ensures s.published[k] == [] {
      assert channels[k].peerId == channels[first].peerId;
      assert k == first;
    }
  }

  /**
   The delivery promise over names: it holds in every run of freshly bound
   channels if and only if no two of them are on the same region.
   */
  lemma PromiseIffDistinctNames(channels: seq<Channel>, names: seq<string>, rules: seq<Rule>)
    requires FreshlyBound(channels) && |names| == |channels| && DistinctTargets(rules)
    ensures (forall events: seq<Event> :: Promise(RunShared(Boot(channels), names, rules, events), rules))
       <==> DistinctNames(names)
  {
    if DistinctNames(names) {
      forall events: seq<Event> ensures Promise(RunShared(Boot(channels), names, rules, events), rules) {
        DistinctNamesSeparate(Boot(channels), names, rules, events);
        SeparateAttributes(channels, rules, events);
        forall d | 0 <= d < |channels| ensures Delivers(Run(Boot(channels), rules, events), rules, d) {
          SeparateDelivers(channels, rules, events, d);
        }
      }
    } else {
      var i, j :| 0 <= i < j < |names| && names[i] == names[j];
      SharedNameMisattributes(channels, names, rules, i, j);
      assert !Promise(RunShared(Boot(channels), names, rules, OneFrame(names, j)), rules);
    }
  }

  // ----- a repeated name: the same frame twice ------------------------------

  /** A step changes the rings of the channel it touches and of no other. */
  lemma StepTouchesOne(s: System, rules: seq<Rule>, e: Event, j: nat)
    requires Shaped(s) && j < |s.link.channels| && Touched(s, e) != Some(j)
    ensures SameQueues(s.link.channels[j], Next(s, rules, e).link.channels[j])
  {
  }

  ghost predicate SameQueues(c: Channel, c': Channel) { c'.inbound.queue == c.inbound.queue && c'.outbound.queue == c.outbound.queue }

  lemma StepKeepsCoherent(s: System, names: seq<string>, rules: seq<Rule>, e: Event)
    requires Shaped(s) && Coherent(s.link.channels, names)
    ensures Coherent(NextShared(s, names, rules, e).link.channels, names)
  {
    var cs' := Next(s, rules, e).link.channels;
    forall j | 0 <= j < |names| && Touched(s, e) != Some(j) ensures SameQueues(s.link.channels[j], cs'[j]) {
      StepTouchesOne(s, rules, e, j);
    }
    match Touched(s, e)
    case None => UntouchedCoherent(s.link.channels, cs', names);
    case Some(k) => SyncCoherent(s.link.channels, cs', names, k);
  }

  lemma UntouchedCoherent(cs: seq<Channel>, cs': seq<Channel>, names: seq<string>)
    requires Coherent(cs, names) && |cs'| == |cs| && forall j :: 0 <= j < |cs| ==> SameQueues(cs[j], cs'[j])
    ensures Coherent(cs', names)
  {
  }

  lemma SyncCoherent(cs: seq<Channel>, cs': seq<Channel>, names: seq<string>, k: nat)
    requires Coherent(cs, names) && k < |cs'| == |cs| && forall j :: 0 <= j < |cs| && j != k ==> SameQueues(cs[j], cs'[j])
    ensures Coherent(Sync(cs', names, k), names)
  {
  }

  lemma {:induction false} RunKeepsCoherent(s: System, names: seq<string>, rules: seq<Rule>, events: seq<Event>)
    requires Shaped(s) && Coherent(s.link.channels, names)
    ensures Coherent(RunShared(s, names, rules, events).link.channels, names)
    decreases |events|
  {
    if events != [] {
      StepKeepsCoherent(s, names, rules, events[0]);
      RunKeepsCoherent(NextShared(s, names, rules, events[0]), names, rules, events[1..]);
    }
  }

  /** One send of a fan-out, with room: every channel on the region sees the frame appended. */
  lemma SendShared(s: System, names: seq<string>, rules: seq<Rule>, a: nat)
    requires Shaped(s) && Coherent(s.link.channels, names) && s.link.floor == 0 && s.pc.Fanning? && s.pc.rest != []
    requires a == Find(s.link.channels, s.pc.rest[0]) < |names|
    requires !s.link.channels[a].outbound.Full() && FRAME_SIZE <= s.link.channels[a].outbound.maxPayload
    ensures var s' := NextShared(s, names, rules, RouterStep(0));
            && s'.pc == s.pc.(rest := s.pc.rest[1..]) && s'.taken == s.taken && s'.published == s.published && s'.link.floor == 0
            && s'.enqueued == s.enqueued[a := s.enqueued[a] + [Copy(s.pc.frame, s.pc.src, s.pc.pub, s.pc.ts)]]
            && forall j :: 0 <= j < |names| ==>
                 && s'.link.channels[j].peerId == s.link.channels[j].peerId
                 && s'.link.channels[j].outbound == (if names[j] == names[a]
                      then s.link.channels[j].outbound.(queue := s.link.channels[a].outbound.queue + [s.pc.frame])
                      else s.link.channels[j].outbound)
  {
    assert Clip(s.pc.frame, s.link.channels[a].outbound.maxPayload) == s.pc.frame;
  }

  lemma TwoRouterSteps(s: System, names: seq<string>, rules: seq<Rule>)
    requires Shaped(s) && |names| == |s.link.channels|
    ensures RunShared(s, names, rules, RouterSteps(2))
         == NextShared(NextShared(s, names, rules, RouterStep(0)), names, rules, RouterStep(0))
  {
    RouterStepFirst(s, names, rules, 2);
    RouterStepFirst(NextShared(s, names, rules, RouterStep(0)), names, rules, 1);
    assert RouterSteps(0) == [];
  }

  /** Two targets on one region, with room for both: the fan-out puts the frame into that region's ring twice. */
  lemma SharedTargetsDuplicate(s: System, names: seq<string>, rules: seq<Rule>, a: nat, b: nat)
    requires Shaped(s) && Coherent(s.link.channels, names) && s.link.floor == 0 && s.pc.Fanning? && |s.pc.rest| >= 2
    requires a == Find(s.link.channels, s.pc.rest[0]) < |names| && b == Find(s.link.channels, s.pc.rest[1]) < |names|
    requires a != b && names[a] == names[b]
    requires forall k :: k == a || k == b ==>
               && |s.link.channels[k].outbound.queue| + 2 <= s.link.channels[k].outbound.slotCount
               && FRAME_SIZE <= s.link.channels[k].outbound.maxPayload
    ensures var s' := RunShared(s, names, rules, RouterSteps(2));
            && s'.link.channels[a].outbound.queue == s.link.channels[a].outbound.queue + [s.pc.frame, s.pc.frame]
            && s'.taken == s.taken && s'.published == s.published
  {
    var s1 := NextShared(s, names, rules, RouterStep(0));
    TwoRouterSteps(s, names, rules);
    SendShared(s, names, rules, a);
    StepKeepsCoherent(s, names, rules, RouterStep(0));
    FindDependsOnIds(s.link.channels, s1.link.channels, s.pc.rest[1], 0);
    SendShared(s1, names, rules, b);
  }

  lemma TakeShared(s: System, names: seq<string>, rules: seq<Rule>, a: nat)
    requires Shaped(s) && Coherent(s.link.channels, names) && a < |names|
    requires s.link.channels[a].outbound.queue != [] && |s.link.channels[a].outbound.queue[0]| <= FRAME_SIZE
    ensures var q, s' := s.link.channels[a].outbound.queue, NextShared(s, names, rules, Take(a));
            && s'.link.channels[a].outbound.queue == q[1..]
            && s'.taken == s.taken[a := s.taken[a] + [q[0]]] && s'.published == s.published && s'.enqueued == s.enqueued
  {
  }

  /** One publication, then the run in which the router forwards it and the peer of channel a pops twice. */
  function TwiceRun(names: seq<string>, j: nat, a: nat): seq<Event>
    requires j < |names|
  {
    OneFrame(names, j) + (RouterSteps(2) + ([Take(a)] + [Take(a)]))
  }

  /**
   The duplicate: whenever a rule's first two targets are on one region and their
   source is alone on its own, one published frame is popped twice there.
   */
  lemma OnePublicationTwoDeliveries(channels: seq<Channel>, names: seq<string>, rules: seq<Rule>, j: nat, a: nat, b: nat)
    requires FreshlyBound(channels) && |names| == |channels| && j < |names| && FirstOn(names, names[j], 0) == j
    requires a < |names| && b < |names| && a != b && names[a] == names[b]
    requires channels[a].outbound.slotCount >= 2 && channels[b].outbound.slotCount >= 2
    requires var targets := TargetsFor(rules, channels[j].peerId, Topic(Stamp(ZeroFrame(), channels[j].peerId, 0)));
             |targets| >= 2 && targets[0] == channels[a].peerId && targets[1] == channels[b].peerId
    ensures var s := RunShared(Boot(channels), names, rules, TwiceRun(names, j, a));
            var frame := Stamp(ZeroFrame(), channels[j].peerId, 0);
            && s.taken[a] == [frame, frame]
            && s.published[j] == [ZeroFrame()] && forall i :: 0 <= i < |names| && i != j ==> s.published[i] == []
  {
    var boot := Boot(channels);
    var s := RunShared(boot, names, rules, OneFrame(names, j));
    OneFrameIsStamped(channels, names, rules, j);
    assert channels[a] in channels && channels[b] in channels;
    BootCoherent(channels, names);
    RunKeepsCoherent(boot, names, rules, OneFrame(names, j));
    RunSharedAppend(boot, names, rules, OneFrame(names, j), RouterSteps(2) + ([Take(a)] + [Take(a)]));
    FindById(s.link.channels, channels, a);
    FindById(s.link.channels, channels, b);
    ForwardAndTakeTwice(s, names, rules, a, b);
  }

  lemma BootCoherent(channels: seq<Channel>, names: seq<string>)
    requires FreshlyBound(channels) && |names| == |channels|
    ensures Coherent(Boot(channels).link.channels, names)
  {
    assert forall i :: 0 <= i < |channels| ==> channels[i] in channels;
  }

  /** With distinct ids, searching for a channel's id finds that channel. */
  lemma FindById(cs: seq<Channel>, channels: seq<Channel>, k: nat)
    requires DistinctChannels(channels) && |cs| == |channels| && k < |cs|
    requires forall j :: 0 <= j < |cs| ==> cs[j].peerId == channels[j].peerId
    ensures Find(cs, channels[k].peerId) == k
  {
    assert cs[k].peerId == channels[k].peerId;
  }

  lemma ForwardAndTakeTwice(s: System, names: seq<string>, rules: seq<Rule>, a: nat, b: nat)
    requires Shaped(s) && Coherent(s.link.channels, names) && s.link.floor == 0 && s.pc.Fanning? && |s.pc.rest| >= 2
    requires a == Find(s.link.channels, s.pc.rest[0]) < |names| && b == Find(s.link.channels, s.pc.rest[1]) < |names|
    requires a != b && names[a] == names[b] && s.taken[a] == []
    requires forall k :: k == a || k == b ==>
               && s.link.channels[k].outbound.queue == [] && s.link.channels[k].outbound.slotCount >= 2
               && FRAME_SIZE <= s.link.channels[k].outbound.maxPayload
    ensures var s' := RunShared(s, names, rules, RouterSteps(2) + ([Take(a)] + [Take(a)]));
            s'.taken[a] == [s.pc.frame, s.pc.frame] && s'.published == s.published
  {
    RunSharedAppend(s, names, rules, RouterSteps(2), [Take(a)] + [Take(a)]);
    SharedTargetsDuplicate(s, names, rules, a, b);
    RunKeepsCoherent(s, names, rules, RouterSteps(2));
    var s1 := RunShared(s, names, rules, RouterSteps(2));
    assert s1.link.channels[a].outbound.queue == [s.pc.frame, s.pc.frame];
    TakeTwice(s1, names, rules, a, s.pc.frame);
  }

  lemma TakeTwice(s: System, names: seq<string>, rules: seq<Rule>, a: nat, frame: FrameBytes)
    requires Shaped(s) && Coherent(s.link.channels, names) && a < |names|
    requires s.link.channels[a].outbound.queue == [frame, frame] && s.taken[a] == []
    ensures var s' := RunShared(s, names, rules, [Take(a)] + [Take(a)]);
            s'.taken[a] == [frame, frame] && s'.published == s.published
  {
    var s1 := NextShared(s, names, rules, Take(a));
    OneStep(s, names, rules, Take(a), [Take(a)]);
    TakeShared(s, names, rules, a);
    StepKeepsCoherent(s, names, rules, Take(a));
    assert [Take(a)] == [Take(a)] + [];
    OneStep(s1, names, rules, Take(a), []);
    TakeShared(s1, names, rules, a);
  }
}
