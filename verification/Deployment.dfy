/** From an accepted profile to a running SHM router: the channel table, and why the router's theorems apply to it. */
module Deployment {
  import opened Bytes
  import opened BoundedFifo
  import opened Frame
  import opened Routing
  import opened Topology
  import S = ShmRouter
  import R = RouterRuns
  import C = RouterConservation
  import N = SharedRegions
  import D = SharedDelivery
  import L = Loader
  import Region = ShmRegion

  // ----- the SHM channel table of a topology --------------------------------

  const DEFAULT_SLOTS: nat := 256
  const DEFAULT_PAYLOAD: nat := 1024

  /** bind_shm_endpoint: zero means the default size. */
  function RingOf(p: PeerEntry): Fifo {
    Fifo(if p.slotCount != 0 then p.slotCount else DEFAULT_SLOTS,
         if p.maxPayload != 0 then p.maxPayload else DEFAULT_PAYLOAD, [])
  }

  /** The peers on shared memory, in table order. */
  function ShmPeers(peers: seq<PeerEntry>): seq<PeerEntry> {
    if peers == [] then []
    else
      var last := peers[|peers| - 1];
      ShmPeers(peers[..|peers| - 1]) + if last.local.Shm? then [last] else []
  }

  function ChannelOf(p: PeerEntry): S.Channel { S.Channel(p.id, RingOf(p), RingOf(p), false) }

  /** The object shm_open opens for a name: leading slashes do not count. */
  function ShmObject(name: string): string {
    if name != [] && name[0] == '/' then ShmObject(name[1..]) else name
  }

  function RegionName(p: PeerEntry): string { if p.local.Shm? then ShmObject(p.local.name) else "" }

  function ChannelsOf(peers: seq<PeerEntry>): (cs: seq<S.Channel>)
    ensures |cs| == |ShmPeers(peers)|
    ensures forall k :: 0 <= k < |cs| ==> cs[k] == ChannelOf(ShmPeers(peers)[k])
  {
    seq(|ShmPeers(peers)|, k requires 0 <= k < |ShmPeers(peers)| => ChannelOf(ShmPeers(peers)[k]))
  }

  /** The region each channel is bound to; equal names are one region. */
  function NamesOf(peers: seq<PeerEntry>): (names: seq<string>)
    ensures |names| == |ShmPeers(peers)|
    ensures forall k :: 0 <= k < |names| ==> names[k] == RegionName(ShmPeers(peers)[k])
  {
    seq(|ShmPeers(peers)|, k requires 0 <= k < |ShmPeers(peers)| => RegionName(ShmPeers(peers)[k]))
  }

  /** ShmRouterLink::bind_router: one channel per shm peer, in table order, on the region its address names; it throws without any. */
  method BindRouter(peers: seq<PeerEntry>) returns (ok: bool, channels: seq<S.Channel>, names: seq<string>)
    ensures channels == ChannelsOf(peers) && names == NamesOf(peers)
    ensures ok <==> exists p :: p in peers && p.local.Shm?
  {
    channels, names := [], [];
    for i := 0 to |peers|
      invariant channels == ChannelsOf(peers[..i]) && names == NamesOf(peers[..i])
    {
      assert peers[..i + 1][..i] == peers[..i];
      if peers[i].local.Shm? {
        channels := channels + [S.Channel(peers[i].id, RingOf(peers[i]), RingOf(peers[i]), false)];
        names := names + [ShmObject(peers[i].local.name)];
      }
    }
    assert peers[..|peers|] == peers;
    ok := channels != [];
    ShmPeersAreThePeersOnShm(peers);
    assert ok ==> ShmPeers(peers)[0] in ShmPeers(peers);
  }

  lemma {:induction false} ShmPeersAreThePeersOnShm(peers: seq<PeerEntry>)
    ensures forall p :: p in ShmPeers(peers) <==> p in peers && p.local.Shm?
  {
    if peers != [] {
      var front, last := peers[..|peers| - 1], peers[|peers| - 1];
      ShmPeersAreThePeersOnShm(front);
      assert forall p :: p in peers <==> p in front || p == last;
      assert forall p :: p in ShmPeers(peers) <==> p in ShmPeers(front) || (p == last && last.local.Shm?);
    }
  }

  /** Channels are exactly the shm peers, each on the region of its address. */
  lemma ChannelsAreShmPeers(peers: seq<PeerEntry>)
    ensures forall k :: 0 <= k < |ChannelsOf(peers)| ==>
              var p := ShmPeers(peers)[k];
              p in peers && p.local.Shm? && ChannelsOf(peers)[k] == ChannelOf(p) && NamesOf(peers)[k] == RegionName(p)
    ensures forall p :: p in peers && p.local.Shm? ==> C.HasChannel(ChannelsOf(peers), p.id)
  {
    ShmPeersAreThePeersOnShm(peers);
    var shm := ShmPeers(peers);
    forall p | p in peers && p.local.Shm? ensures C.HasChannel(ChannelsOf(peers), p.id) {
      assert p in shm;
      var k :| 0 <= k < |shm| && shm[k] == p;
      assert ChannelsOf(peers)[k].peerId == p.id;
    }
  }

  /** How many shm peers the table lists before entry i: the place of its channel. */
  function ShmBefore(peers: seq<PeerEntry>, i: nat): nat
    requires i <= |peers|
  {
    if i == 0 then 0 else ShmBefore(peers, i - 1) + if peers[i - 1].local.Shm? then 1 else 0
  }

  lemma {:induction false} ShmBeforeFront(front: seq<PeerEntry>, last: PeerEntry, i: nat)
    requires i <= |front|
    ensures ShmBefore(front + [last], i) == ShmBefore(front, i)
  {
    if i > 0 {
      ShmBeforeFront(front, last, i - 1);
    }
  }

  /**
   Channels in table order, entry by entry: the i-th entry, if it is an shm peer, has
   the channel that as many shm peers precede, with the ring sizes it gives or 256
   slots of 1024 bytes.
   */
  lemma {:induction false} ChannelInPlace(peers: seq<PeerEntry>, i: nat)
    requires i < |peers| && peers[i].local.Shm?
    ensures |ChannelsOf(peers)| == ShmBefore(peers, |peers|) && ShmBefore(peers, i) < |ChannelsOf(peers)|
    ensures var c, p := ChannelsOf(peers)[ShmBefore(peers, i)], peers[i];
            && c.peerId == p.id && !c.congested && c.inbound == c.outbound && c.inbound.queue == []
            && c.inbound.slotCount == (if p.slotCount == 0 then 256 else p.slotCount)
            && c.inbound.maxPayload == (if p.maxPayload == 0 then 1024 else p.maxPayload)
  {
    ShmPeerInPlace(peers, i);
  }

  lemma {:induction false} ShmPeerInPlace(peers: seq<PeerEntry>, i: nat)
    requires i < |peers| && peers[i].local.Shm?
    ensures |ShmPeers(peers)| == ShmBefore(peers, |peers|) && ShmBefore(peers, i) < |ShmPeers(peers)|
    ensures ShmPeers(peers)[ShmBefore(peers, i)] == peers[i]
  {
    var n := |peers| - 1;
    var front, last := peers[..n], peers[n];
    assert peers == front + [last];
    ShmPeerCount(front);
    ShmBeforeFront(front, last, n);
    ShmBeforeFront(front, last, i);
    if i < n {
      ShmPeerInPlace(front, i);
    }
  }

  lemma {:induction false} ShmPeerCount(peers: seq<PeerEntry>)
    ensures |ShmPeers(peers)| == ShmBefore(peers, |peers|)
  {
    if peers != [] {
      var n := |peers| - 1;
      assert peers == peers[..n] + [peers[n]];
      ShmPeerCount(peers[..n]);
      ShmBeforeFront(peers[..n], peers[n], n);
    }
  }

  lemma {:induction false} ShmPeersDistinct(peers: seq<PeerEntry>)
    requires DistinctIds(peers)
    ensures DistinctIds(ShmPeers(peers))
  {
    if peers != [] {
      var front, last := peers[..|peers| - 1], peers[|peers| - 1];
      ShmPeersDistinct(front);
      ShmPeersAreThePeersOnShm(front);
      var before := ShmPeers(front);
      forall k | 0 <= k < |before| ensures before[k].id != last.id {
        assert before[k] in before;
        var i :| 0 <= i < |front| && front[i] == before[k];
        assert peers[i] == before[k];
      }
    }
  }

  lemma ChannelsDistinct(peers: seq<PeerEntry>)
    requires DistinctIds(peers)
    ensures R.DistinctChannels(ChannelsOf(peers))
  {
    ShmPeersDistinct(peers);
  }

  /** What an operator can check in the profile: no two shm names are equal once their leading slashes are taken off. */
  ghost predicate DistinctShmNames(peers: seq<PeerEntry>) {
    forall i, j :: 0 <= i < j < |peers| && peers[i].local.Shm? && peers[j].local.Shm? ==> RegionName(peers[i]) != RegionName(peers[j])
  }

  /** No shm peer in `front` is on region `name`. */
  ghost predicate NameUnused(front: seq<PeerEntry>, name: string) {
    forall i :: 0 <= i < |front| && front[i].local.Shm? ==> RegionName(front[i]) != name
  }

  lemma DistinctShmNamesSnoc(peers: seq<PeerEntry>, last: PeerEntry)
    ensures DistinctShmNames(peers + [last])
       <==> DistinctShmNames(peers) && (last.local.Shm? ==> NameUnused(peers, RegionName(last)))
  {
    var all := peers + [last];
    assert forall i :: 0 <= i < |peers| ==> all[i] == peers[i];
    assert all[|peers|] == last;
    if DistinctShmNames(all) {
      forall i, j | 0 <= i < j < |peers| && peers[i].local.Shm? && peers[j].local.Shm?
        ensures RegionName(peers[i]) != RegionName(peers[j])
      {
        assert RegionName(all[i]) != RegionName(all[j]);
      }
    }
  }

  lemma {:induction false} NamesDistinctIff(peers: seq<PeerEntry>)
    ensures N.DistinctNames(NamesOf(peers)) <==> DistinctShmNames(peers)
  {
    if peers != [] {
      var front, last := peers[..|peers| - 1], peers[|peers| - 1];
      NamesDistinctIff(front);
      assert peers == front + [last];
      DistinctShmNamesSnoc(front, last);
      if last.local.Shm? {
        assert NamesOf(peers) == NamesOf(front) + [RegionName(last)];
        LastNameFreshIff(front, RegionName(last));
        NamesSnoc(NamesOf(front), RegionName(last));
      } else {
        assert NamesOf(peers) == NamesOf(front);
      }
    }
  }

  lemma NamesSnoc(names: seq<string>, name: string)
    ensures N.DistinctNames(names + [name]) <==> N.DistinctNames(names) && name !in names
  {
    var all := names + [name];
    assert forall i :: 0 <= i < |names| ==> all[i] == names[i];
    assert all[|names|] == name;
    if N.DistinctNames(all) {
      forall i, j | 0 <= i < j < |names| ensures names[i] != names[j] {
        assert all[i] != all[j];
      }
    }
  }

  lemma LastNameFreshIff(front: seq<PeerEntry>, name: string)
    ensures name !in NamesOf(front) <==> NameUnused(front, name)
  {
    var shm := ShmPeers(front);
    ShmPeersAreThePeersOnShm(front);
    forall i | 0 <= i < |front| && front[i].local.Shm? ensures RegionName(front[i]) in NamesOf(front) {
      assert front[i] in shm;
      var k :| 0 <= k < |shm| && shm[k] == front[i];
      assert NamesOf(front)[k] == RegionName(front[i]);
    }
    if name in NamesOf(front) {
      var k :| 0 <= k < |shm| && NamesOf(front)[k] == name;
      assert shm[k] in shm;
      var i :| 0 <= i < |front| && front[i] == shm[k];
    }
  }

  // ----- what the loader guarantees the routers -----------------------------

  /** Every id a rule mentions is a peer. */
  ghost predicate RulesOverPeers(rules: seq<Rule>, peers: seq<PeerEntry>) {
    forall r, t :: r in rules && t in r.dests ==> PeerById(peers, t).Some?
  }

  lemma PeerIdIsFound(peers: seq<PeerEntry>, id: byte)
    requires L.IsPeerId(peers, id)
    ensures PeerById(peers, id).Some?
  {
  }

  /** Every channel of an accepted profile holds a frame per slot and fits in a mapping below 2^50 bytes. */
  lemma LoadedRingsAreSized(p: L.Profile, peers: seq<PeerEntry>)
    requires L.ValidProfile(p) && peers == L.PeersOf(p.peers)
    ensures forall c :: c in ChannelsOf(peers) ==> SizedFor(c)
  {
    ChannelsAreShmPeers(peers);
    forall c | c in ChannelsOf(peers) ensures SizedFor(c) {
      var k :| 0 <= k < |ChannelsOf(peers)| && ChannelsOf(peers)[k] == c;
      var i :| 0 <= i < |peers| && peers[i] == ShmPeers(peers)[k];
      LoadedRingIsSized(p.peers[i]);
    }
  }

  ghost predicate SizedFor(c: S.Channel) {
    && 1 <= c.peerId <= 254
    && 0 < c.outbound.slotCount && FRAME_SIZE <= c.outbound.maxPayload && c.inbound == c.outbound
    && c.inbound.queue == [] && !c.congested
    && Region.RegionSize(c.outbound.slotCount, c.outbound.maxPayload) < 0x4_0000_0000_0000
  }

  lemma LoadedRingIsSized(t: Option<L.PeerTable>)
    requires L.ValidPeer(t)
    ensures SizedFor(ChannelOf(L.PeerOf(t)))
  {
    var c := ChannelOf(L.PeerOf(t));
    Region.RegionSizeBounded(c.outbound.slotCount, c.outbound.maxPayload);
  }

  /** Every rule of an accepted profile has distinct targets, all of them peers. */
  lemma LoadedRulesAreSafe(p: L.Profile, peers: seq<PeerEntry>, rules: seq<Rule>)
    requires L.ValidProfile(p) && peers == L.PeersOf(p.peers)
    requires |rules| == |p.routes| && forall i :: 0 <= i < |rules| ==> rules[i] == L.RuleOf(p.routes[i], peers)
    ensures R.DistinctTargets(rules) && RulesOverPeers(rules, peers)
  {
    forall r | r in rules ensures R.Distinct(r.dests) && forall t :: t in r.dests ==> PeerById(peers, t).Some? {
      var i :| 0 <= i < |rules| && rules[i] == r;
      LoadedRuleIsSafe(p.routes[i], peers);
    }
  }

  /**
   What the SHM and mixed routers assume about their tables, as far as acceptance
   gives it: distinct ids in 1..254, distinct targets per rule that are all peers,
   a listen for every datagram peer, and ring sizes within bounds. That regions
   have different names is not among the things the loader looks at.
   */
  lemma LoadedTablesAreSafe(p: L.Profile, peers: seq<PeerEntry>, rules: seq<Rule>, topics: seq<TopicEntry>,
                            sidebands: seq<SidebandRegion>, ranges: seq<(nat, nat)>)
    requires L.ValidProfile(p) && L.Denotes(p, peers, rules, topics, sidebands, ranges)
    ensures DistinctIds(peers) && forall q :: q in peers ==> 1 <= q.id <= 254
    ensures N.FreshlyBound(ChannelsOf(peers)) && R.DistinctTargets(rules) && RulesOverPeers(rules, peers)
    ensures forall q :: q in peers ==> L.Serves(p.router.value, TransportOf(q.local))
    ensures forall c :: c in ChannelsOf(peers) ==>
              Region.RegionSize(c.outbound.slotCount, c.outbound.maxPayload) < 0x4_0000_0000_0000
  {
    assert forall i :: 0 <= i < |peers| ==> peers[i] == L.PeerOf(p.peers[i]);
    ChannelsDistinct(peers);
    LoadedRingsAreSized(p, peers);
    LoadedRulesAreSafe(p, peers, rules);
  }

  lemma LoadedRuleIsSafe(t: Option<L.RouteTable>, peers: seq<PeerEntry>)
    requires L.ValidRoute(t, peers)
    ensures var r := L.RuleOf(t, peers);
            R.Distinct(r.dests) && forall id :: id in r.dests ==> PeerById(peers, id).Some?
  {
    var r := L.RuleOf(t, peers);
    forall id | id in r.dests ensures PeerById(peers, id).Some? {
      var k :| 0 <= k < |r.dests| && r.dests[k] == id;
      PeerIdIsFound(peers, id);
    }
  }

  /** Reserved ids have no channel; with all peers on SHM every rule target has one. */
  lemma ShmProfileCloses(peers: seq<PeerEntry>, rules: seq<Rule>)
    requires (forall q :: q in peers ==> q.local.Shm? && 1 <= q.id <= 254) && RulesOverPeers(rules, peers)
    ensures !C.HasChannel(ChannelsOf(peers), ENDPOINT_INVALID) && !C.HasChannel(ChannelsOf(peers), ENDPOINT_SERVER)
    ensures C.Closed(rules, ChannelsOf(peers))
  {
    ChannelsAreShmPeers(peers);
    forall r, t | r in rules && t in r.dests ensures C.HasChannel(ChannelsOf(peers), t) {
      assert PeerById(peers, t).value in peers;
    }
  }

  // ----- what acceptance gives, and what it does not -------------------------

  /**
   For every accepted profile whose peers are all on SHM, in every run, whatever
   names its regions have: ids 0 and 255 are never charged with a drop, drops add
   up and each cell counts its own, and forwarded + dropped + still-to-send is the fan-out of the frames
   received; with different names those are exactly the frames published.
   */
  lemma AcceptedShmProfileConserves(p: L.Profile, peers: seq<PeerEntry>, rules: seq<Rule>, topics: seq<TopicEntry>,
                                    sidebands: seq<SidebandRegion>, ranges: seq<(nat, nat)>, events: seq<R.Event>)
    requires L.ValidProfile(p) && L.Denotes(p, peers, rules, topics, sidebands, ranges)
    requires forall q :: q in peers ==> q.local.Shm?
    ensures var s := N.RunShared(R.Boot(ChannelsOf(peers)), NamesOf(peers), rules, events);
            var m := s.link.metrics;
            && m.Shaped() && m.droppedFull == C.Sum(m.perPeer) == C.Sum(m.byPriority)
            && S.DropsLogged(m, s.drops)
            && m.perPeer[ENDPOINT_INVALID] == m.perPeer[ENDPOINT_SERVER] == 0
            && m.forwarded + m.droppedFull + C.Pending(s.pc) == s.fanout
            && (DistinctShmNames(peers) ==> s.fanout == C.Sum(C.Fanouts(s, rules)))
  {
    LoadedTablesAreSafe(p, peers, rules, topics, sidebands, ranges);
    var channels, names := ChannelsOf(peers), NamesOf(peers);
    ShmProfileCloses(peers, rules);
    N.SharedConservation(channels, names, rules, events);
    C.SameIdsSameChannels(channels, N.RunShared(R.Boot(channels), names, rules, events).link.channels, rules);
    if DistinctShmNames(peers) {
      NamesDistinctIff(peers);
      N.DistinctNamesSeparate(R.Boot(channels), names, rules, events);
      C.BootLaws(channels, rules);
      C.RunKeepsLaws(R.Boot(channels), rules, events);
    }
  }

  /**
   Attribution and delivery for accepted profiles. In every run every frame the
   router takes is stamped with the peer that published it, and every SHM
   subscriber receives whole frames, byte for byte but for source and timestamp,
   addressed to it by the first matching rule, in publication order and at most
   once per publication: if and only if no two shm peers of the profile name the
   same region.
   */
  lemma AcceptedProfileDelivers(p: L.Profile, peers: seq<PeerEntry>, rules: seq<Rule>, topics: seq<TopicEntry>,
                                sidebands: seq<SidebandRegion>, ranges: seq<(nat, nat)>)
    requires L.ValidProfile(p) && L.Denotes(p, peers, rules, topics, sidebands, ranges)
    ensures (forall events: seq<R.Event> ::
               N.Promise(N.RunShared(R.Boot(ChannelsOf(peers)), NamesOf(peers), rules, events), rules))
       <==> DistinctShmNames(peers)
  {
    LoadedTablesAreSafe(p, peers, rules, topics, sidebands, ranges);
    NamesDistinctIff(peers);
    N.PromiseIffDistinctNames(ChannelsOf(peers), NamesOf(peers), rules);
  }

  /**
   Delivery alone, which shared regions need not harm: it holds for every SHM
   subscriber in every run if and only if no route leads from or to a region that
   two shm peers name.
   */
  lemma AcceptedProfileDeliversIff(p: L.Profile, peers: seq<PeerEntry>, rules: seq<Rule>, topics: seq<TopicEntry>,
                                   sidebands: seq<SidebandRegion>, ranges: seq<(nat, nat)>)
    requires L.ValidProfile(p) && L.Denotes(p, peers, rules, topics, sidebands, ranges)
    ensures (forall events: seq<R.Event>, d :: 0 <= d < |ChannelsOf(peers)| ==>
               N.Delivers(N.RunShared(R.Boot(ChannelsOf(peers)), NamesOf(peers), rules, events), rules, d))
       <==> D.SafeSharing(ChannelsOf(peers), NamesOf(peers), rules)
  {
    LoadedTablesAreSafe(p, peers, rules, topics, sidebands, ranges);
    D.DeliversIffSafeSharing(ChannelsOf(peers), NamesOf(peers), rules);
  }

  // ----- an accepted profile that delivers a frame twice ---------------------

  function ShmPeerTable(id: L.int64, name: string): L.PeerTable {
    L.PeerTable(Some(id), Some("peer"), L.Parsed(Shm(name)), None, None, [])
  }

  /** A profile with one route, for any topic, and no topic table. */
  lemma OneRouteIsValid(p: L.Profile, route: L.RouteTable)
    requires L.ValidRouter(p.router) && p.peers != [] && L.ValidPeers(p.peers) && p.routes == [Some(route)] && p.topics == []
    requires forall i :: 0 <= i < |p.peers| ==> L.Serves(p.router.value, TransportOf(p.peers[i].value.local.address))
    requires L.ValidRoute(Some(route), L.PeersOf(p.peers)) && route.topic.None?
    ensures L.ValidProfile(p)
  {
    assert L.ValidTopics(p.topics);
    assert L.TopicDeclared(Some(route), p.topics);
  }

  lemma OneRouteDenotes(p: L.Profile, route: L.RouteTable, peers: seq<PeerEntry>)
    requires L.ValidProfile(p) && peers == L.PeersOf(p.peers) && p.routes == [Some(route)] && p.topics == []
    ensures L.ValidRoute(Some(route), peers)
    ensures L.Denotes(p, peers, [L.RuleOf(Some(route), peers)], [], L.AllRegions(p.peers), L.RangesOf(p.peers))
  {
    assert L.ValidRoute(p.routes[0], peers);
  }

  const UDS_ROUTER: L.RouterTable := L.RouterTable(L.Parsed(Uds("/router")), L.NotGiven, L.NotGiven)

  /** Peers 1 and 2 on one region, peer 3 on its own, and a route from 3 to both. */
  function SharedProfile(): L.Profile {
    L.Profile(Some(UDS_ROUTER),
              [Some(ShmPeerTable(1, "/same")), Some(ShmPeerTable(2, "/same")), Some(ShmPeerTable(3, "/other"))],
              [Some(L.RouteTable(Some(3), [Some(1), Some(2)], None))], [])
  }

  function SharedPeers(): seq<PeerEntry> {
    [PeerEntry(1, "peer", Shm("/same"), 0, 0), PeerEntry(2, "peer", Shm("/same"), 0, 0), PeerEntry(3, "peer", Shm("/other"), 0, 0)]
  }

  lemma SharedPeersAreValid()
    ensures var ts := SharedProfile().peers; L.ValidPeers(ts) && L.PeersOf(ts) == SharedPeers()
  {
    var ts := SharedProfile().peers;
    assert L.ValidPeer(ts[0]) && L.ValidPeer(ts[1]) && L.ValidPeer(ts[2]);
  }

  lemma SharedRouteIsValid()
    ensures var t := Some(L.RouteTable(Some(3), [Some(1), Some(2)], None));
            L.ValidRoute(t, SharedPeers()) && L.RuleOf(t, SharedPeers()) == Rule(3, TOPIC_ANY, [1, 2])
  {
    var peers := SharedPeers();
    assert peers[0] in peers && peers[1] in peers && peers[2] in peers;
  }

  lemma SharedProfileIsAccepted()
    ensures L.ValidProfile(SharedProfile())
    ensures L.Denotes(SharedProfile(), SharedPeers(), [Rule(3, TOPIC_ANY, [1, 2])], [],
                      L.AllRegions(SharedProfile().peers), L.RangesOf(SharedProfile().peers))
  {
    SharedPeersAreValid();
    SharedRouteIsValid();
    OneRouteIsValid(SharedProfile(), L.RouteTable(Some(3), [Some(1), Some(2)], None));
    OneRouteDenotes(SharedProfile(), L.RouteTable(Some(3), [Some(1), Some(2)], None), SharedPeers());
  }

  lemma OneSlash(name: string)
    requires name != [] && name[0] == '/' && (|name| > 1 ==> name[1] != '/')
    ensures ShmObject(name) == name[1..]
  {
  }

  lemma SharedPeersAreOnShm()
    ensures ShmPeers(SharedPeers()) == SharedPeers()
  {
    var peers := SharedPeers();
    assert peers[..2][..1] == [peers[0]] && [peers[0]][..0] == [];
    assert ShmPeers([peers[0]]) == [peers[0]];
    assert ShmPeers(peers[..2]) == [peers[0], peers[1]];
    assert ShmPeers(peers) == peers;
  }

  lemma SharedPeersAreChannels()
    ensures ShmPeers(SharedPeers()) == SharedPeers()
    ensures NamesOf(SharedPeers()) == ["same", "same", "other"]
  {
    SharedPeersAreOnShm();
    OneSlash("/same");
    OneSlash("/other");
    assert "/same"[1..] == "same" && "/other"[1..] == "other";
  }

  lemma SharedChannelsAreFresh()
    ensures N.FreshlyBound(ChannelsOf(SharedPeers()))
    ensures |ChannelsOf(SharedPeers())| == 3
    ensures forall k :: 0 <= k < 3 ==> ChannelsOf(SharedPeers())[k] == ChannelOf(SharedPeers()[k])
  {
    SharedProfileIsAccepted();
    SharedPeersAreChannels();
    LoadedTablesAreSafe(SharedProfile(), SharedPeers(), [Rule(3, TOPIC_ANY, [1, 2])], [],
                        L.AllRegions(SharedProfile().peers), L.RangesOf(SharedProfile().peers));
  }

  /** The accepted profile above, one publication of peer 3, and peer 1 pops it twice. */
  lemma AcceptedProfileMayDuplicate() returns (events: seq<R.Event>)
    ensures L.ValidProfile(SharedProfile()) && !DistinctShmNames(SharedPeers())
    ensures |NamesOf(SharedPeers())| == 3
    ensures var s := N.RunShared(R.Boot(ChannelsOf(SharedPeers())), NamesOf(SharedPeers()), [Rule(3, TOPIC_ANY, [1, 2])], events);
            && |s.published[0]| == |s.published[1]| == 0 && |s.published[2]| == 1
            && |s.taken[0]| == 2 && s.taken[0][0] == s.taken[0][1]
  {
    SharedProfileIsAccepted();
    SharedPeersAreChannels();
    SharedChannelsAreFresh();
    assert RegionName(SharedPeers()[0]) == RegionName(SharedPeers()[1]);
    events := TwiceForPeerOne(ChannelsOf(SharedPeers()), NamesOf(SharedPeers()));
  }

  lemma TwiceForPeerOne(channels: seq<S.Channel>, names: seq<string>) returns (events: seq<R.Event>)
    requires N.FreshlyBound(channels) && |channels| == 3 && names == ["same", "same", "other"]
    requires forall k :: 0 <= k < 3 ==> channels[k].peerId == k + 1 && channels[k].outbound.slotCount >= 2
    ensures var s := N.RunShared(R.Boot(channels), names, [Rule(3, TOPIC_ANY, [1, 2])], events);
            && |s.published[0]| == |s.published[1]| == 0 && |s.published[2]| == 1
            && |s.taken[0]| == 2 && s.taken[0][0] == s.taken[0][1]
  {
    assert names[0] != names[2] && names[1] != names[2];
    events := N.TwiceRun(names, 2, 0);
    N.OnePublicationTwoDeliveries(channels, names, [Rule(3, TOPIC_ANY, [1, 2])], 2, 0, 1);
  }

  // ----- two spellings of one region ------------------------------------------

  /** Peers 1 and 2 on "/same" and "//same", and a route from 1 to 2. */
  function SlashProfile(): L.Profile {
    L.Profile(Some(UDS_ROUTER),
              [Some(ShmPeerTable(1, "/same")), Some(ShmPeerTable(2, "//same"))],
              [Some(L.RouteTable(Some(1), [Some(2)], None))], [])
  }

  function SlashPeers(): seq<PeerEntry> {
    [PeerEntry(1, "peer", Shm("/same"), 0, 0), PeerEntry(2, "peer", Shm("//same"), 0, 0)]
  }

  lemma SlashPeersAreValid()
    ensures var ts := SlashProfile().peers; L.ValidPeers(ts) && L.PeersOf(ts) == SlashPeers()
  {
    var ts := SlashProfile().peers;
    assert L.ValidPeer(ts[0]) && L.ValidPeer(ts[1]);
  }

  lemma SlashRouteIsValid()
    ensures var t := Some(L.RouteTable(Some(1), [Some(2)], None));
            L.ValidRoute(t, SlashPeers()) && L.RuleOf(t, SlashPeers()) == Rule(1, TOPIC_ANY, [2])
  {
    var peers := SlashPeers();
    assert peers[0] in peers && peers[1] in peers;
  }

  lemma SlashProfileIsAccepted()
    ensures L.ValidProfile(SlashProfile())
    ensures L.Denotes(SlashProfile(), SlashPeers(), [Rule(1, TOPIC_ANY, [2])], [],
                      L.AllRegions(SlashProfile().peers), L.RangesOf(SlashProfile().peers))
  {
    SlashPeersAreValid();
    SlashRouteIsValid();
    OneRouteIsValid(SlashProfile(), L.RouteTable(Some(1), [Some(2)], None));
    OneRouteDenotes(SlashProfile(), L.RouteTable(Some(1), [Some(2)], None), SlashPeers());
  }

  lemma SlashNamesAreOne()
    ensures SlashPeers()[0].local != SlashPeers()[1].local && !DistinctShmNames(SlashPeers())
  {
    OneSlash("/same");
    assert "//same"[1..] == "/same";
    assert |"/same"| != |"//same"|;
    assert RegionName(SlashPeers()[0]) == RegionName(SlashPeers()[1]);
  }

  /** An accepted profile whose region names are spelled differently and are one region all the same: the promise fails in some run. */
  lemma SpellingIsNotEnough() returns (events: seq<R.Event>)
    ensures L.ValidProfile(SlashProfile())
    ensures SlashPeers()[0].local != SlashPeers()[1].local && !DistinctShmNames(SlashPeers())
    ensures !N.Promise(N.RunShared(R.Boot(ChannelsOf(SlashPeers())), NamesOf(SlashPeers()), [Rule(1, TOPIC_ANY, [2])], events),
                       [Rule(1, TOPIC_ANY, [2])])
  {
    SlashProfileIsAccepted();
    SlashNamesAreOne();
    events := PromiseBreaks(SlashProfile(), SlashPeers(), [Rule(1, TOPIC_ANY, [2])], [],
                            L.AllRegions(SlashProfile().peers), L.RangesOf(SlashProfile().peers));
  }

  lemma PromiseBreaks(p: L.Profile, peers: seq<PeerEntry>, rules: seq<Rule>, topics: seq<TopicEntry>,
                      sidebands: seq<SidebandRegion>, ranges: seq<(nat, nat)>) returns (events: seq<R.Event>)
    requires L.ValidProfile(p) && L.Denotes(p, peers, rules, topics, sidebands, ranges) && !DistinctShmNames(peers)
    ensures !N.Promise(N.RunShared(R.Boot(ChannelsOf(peers)), NamesOf(peers), rules, events), rules)
  {
    AcceptedProfileDelivers(p, peers, rules, topics, sidebands, ranges);
    events :| !N.Promise(N.RunShared(R.Boot(ChannelsOf(peers)), NamesOf(peers), rules, events), rules);
  }
}
