/**
 MixedRouterServer: one link per transport present, a 256-entry index from peer
 id to transport, and a poll step that may deliver across transports.
 */
module MixedRouter {
  import opened Bytes
  import opened Frame
  import opened Routing
  import opened Topology
  import opened Deployment
  import S = ShmRouter
  import C = RouterConservation
  import D = DatagramLink
  import L = Loader

  ghost predicate Present(peers: seq<PeerEntry>, t: Transport) {
    exists p :: p in peers && TransportOf(p.local) == t
  }

  /** topology_is_mixed: peers on more than one transport. */
  method TopologyIsMixed(peers: seq<PeerEntry>) returns (mixed: bool)
    ensures mixed <==> exists p, q :: p in peers && q in peers && TransportOf(p.local) != TransportOf(q.local)
  {
    var shm, uds, udp := false, false, false;
    for i := 0 to |peers|
      invariant shm <==> exists p :: p in peers[..i] && p.local.Shm?
      invariant uds <==> exists p :: p in peers[..i] && p.local.Uds?
      invariant udp <==> exists p :: p in peers[..i] && p.local.Udp?
    {
      assert forall p :: p in peers[..i + 1] <==> p in peers[..i] || p == peers[i];
      match peers[i].local {
        case Shm(_) => shm := true;
        case Uds(_) => uds := true;
        case Udp(_, _) => udp := true;
      }
    }
    assert peers[..|peers|] == peers;
    mixed := (if shm then 1 else 0) + (if uds then 1 else 0) + (if udp then 1 else 0) > 1;
    if mixed {
      var a :| a in peers && (if shm then a.local.Shm? else a.local.Uds?);
      var b :| b in peers && (if udp then b.local.Udp? else b.local.Uds?);
      assert TransportOf(a.local) != TransportOf(b.local);
    }
  }

  // ----- the index ----------------------------------------------------------

  /** The transport an index filled in table order ends up with: the last peer with the id wins. */
  function LastTransport(peers: seq<PeerEntry>, id: byte): Option<Transport> {
    if peers == [] then None
    else
      var last := peers[|peers| - 1];
      if last.id == id then Some(TransportOf(last.local)) else LastTransport(peers[..|peers| - 1], id)
  }

  function LookupTransport(peers: seq<PeerEntry>, id: byte): Option<Transport> {
    match PeerById(peers, id)
    case None => None
    case Some(p) => Some(TransportOf(p.local))
  }

  /** Entry k is the last one with its id. */
  ghost predicate LastWithId(peers: seq<PeerEntry>, id: byte, k: nat) {
    k < |peers| && peers[k].id == id && forall j :: k < j < |peers| ==> peers[j].id != id
  }

  ghost predicate FirstWithId(peers: seq<PeerEntry>, id: byte, k: nat) {
    k < |peers| && peers[k].id == id && forall j :: 0 <= j < k ==> peers[j].id != id
  }

  lemma {:induction false} LastTransportWitness(peers: seq<PeerEntry>, id: byte) returns (k: nat)
    ensures LastTransport(peers, id).Some? <==> exists p :: p in peers && p.id == id
    ensures LastTransport(peers, id).Some? ==>
              LastWithId(peers, id, k) && LastTransport(peers, id) == Some(TransportOf(peers[k].local))
  {
    k := 0;
    if peers != [] {
      var n := |peers| - 1;
      if peers[n].id == id {
        k := n;
        assert peers[n] in peers;
      } else {
        k := LastTransportWitness(peers[..n], id);
        assert forall p :: p in peers <==> p in peers[..n] || p == peers[n];
      }
    }
  }

  lemma {:induction false} PeerByIdIsFirst(peers: seq<PeerEntry>, id: byte) returns (k: nat)
    ensures PeerById(peers, id).Some? ==> FirstWithId(peers, id, k) && PeerById(peers, id) == Some(peers[k])
  {
    k := 0;
    if peers != [] && peers[0].id != id {
      var j := PeerByIdIsFirst(peers[1..], id);
      k := j + 1;
    }
  }

  /**
   The 256-entry index and the linear search give the same transport for an id
   if and only if the first and the last table entry with that id have it.
   */
  lemma IndexAgreesIff(peers: seq<PeerEntry>, id: byte)
    ensures LastTransport(peers, id) == LookupTransport(peers, id)
       <==> forall j: nat, k: nat :: FirstWithId(peers, id, j) && LastWithId(peers, id, k)
                           ==> TransportOf(peers[j].local) == TransportOf(peers[k].local)
    ensures LastTransport(peers, id).Some? <==> LookupTransport(peers, id).Some?
  {
    var last := LastTransportWitness(peers, id);
    var first := PeerByIdIsFirst(peers, id);
    if PeerById(peers, id).Some? {
      assert FirstWithId(peers, id, first) && LastWithId(peers, id, last);
      forall j: nat, k: nat | FirstWithId(peers, id, j) && LastWithId(peers, id, k) ensures j == first && k == last {
      }
    }
  }

  /** With distinct ids, as the loader guarantees, the first entry is the last. */
  lemma IndexAgreesWithSearch(peers: seq<PeerEntry>, id: byte)
    requires DistinctIds(peers)
    ensures LastTransport(peers, id) == LookupTransport(peers, id)
  {
    IndexAgreesIff(peers, id);
  }

  lemma IndexTabulatesSearch(peers: seq<PeerEntry>)
    requires DistinctIds(peers)
    ensures forall id: byte :: && (LastTransport(peers, id).Some? <==> PeerById(peers, id).Some?)
                               && (LastTransport(peers, id).Some? ==>
                                     LastTransport(peers, id).value == TransportOf(PeerById(peers, id).value.local))
  {
    forall id: byte ensures LastTransport(peers, id) == LookupTransport(peers, id) {
      IndexAgreesWithSearch(peers, id);
    }
  }

  /** A table with a repeated id: searched as shm, indexed as uds. */
  lemma DuplicateIdsSplitTheIndex()
    ensures var peers := [PeerEntry(1, "a", Shm("/a"), 0, 0), PeerEntry(1, "b", Uds("/b"), 0, 0)];
            LookupTransport(peers, 1) != LastTransport(peers, 1)
  {
    var peers := [PeerEntry(1, "a", Shm("/a"), 0, 0), PeerEntry(1, "b", Uds("/b"), 0, 0)];
    assert FirstWithId(peers, 1, 0) && LastWithId(peers, 1, 1);
    IndexAgreesIff(peers, 1);
  }

  // ----- specification of one poll ------------------------------------------

  /** The links that exist, by value. */
  datatype Links = Links(shm: Option<S.Link>, uds: Option<D.Link>, udp: Option<D.Link>) {

    function Forwarded(): nat {
      (if shm.Some? then shm.value.metrics.forwarded else 0)
      + (if uds.Some? then uds.value.metrics.forwarded else 0)
      + (if udp.Some? then udp.value.metrics.forwarded else 0)
    }

    function DroppedFull(): nat {
      if shm.Some? then shm.value.metrics.droppedFull else 0
    }
  }

  /** A link per transport present, and the SHM link has the topology's channels. */
  ghost predicate Fits(ls: Links, peers: seq<PeerEntry>) {
    && (ls.shm.Some? <==> Present(peers, ShmRing))
    && (ls.uds.Some? <==> Present(peers, UdsPath))
    && (ls.udp.Some? <==> Present(peers, UdpEndpoint))
    && (ls.shm.Some? ==> ls.shm.value.Shaped() && C.SameIds(ChannelsOf(peers), ls.shm.value.channels))
  }

  datatype Outcome = Handed | Ignored | Raised

  function FromDatagram(status: D.Status): Outcome {
    match status
    case Delivered => Handed
    case Skipped => Ignored
    case Failed => Raised
  }

  /** send_to_peer: the index picks the link, the link does the rest. */
  function Send(ls: Links, peers: seq<PeerEntry>, dest: byte, payload: seq<byte>, ok: bool): (Links, Outcome)
    requires Fits(ls, peers)
  {
    match LastTransport(peers, dest)
    case None => (ls, Ignored)
    case Some(ShmRing) =>
      if ls.shm.None? then (ls, Ignored)
      else
        var (l, status) := S.SendTo(ls.shm.value, dest, payload);
        (ls.(shm := Some(l)), if status == S.NoChannel then Raised else Handed)
    case Some(UdsPath) =>
      if ls.uds.None? then (ls, Ignored)
      else
        var (l, status) := D.SendTo(ls.uds.value, peers, dest, payload, ok);
        (ls.(uds := Some(l)), FromDatagram(status))
    case Some(UdpEndpoint) =>
      if ls.udp.None? then (ls, Ignored)
      else
        var (l, status) := D.SendTo(ls.udp.value, peers, dest, payload, ok);
        (ls.(udp := Some(l)), FromDatagram(status))
  }

  lemma SendFits(ls: Links, peers: seq<PeerEntry>, dest: byte, payload: seq<byte>, ok: bool)
    requires Fits(ls, peers)
    ensures Fits(Send(ls, peers, dest, payload, ok).0, peers)
  {
  }

  /** The fan-out of one frame; `answers[k]` is the kernel's answer to the k-th send. Returns the targets done. */
  function FanAll(ls: Links, peers: seq<PeerEntry>, targets: seq<byte>, payload: seq<byte>, answers: seq<bool>): (r: (Links, nat))
    requires Fits(ls, peers) && |answers| == |targets|
    ensures r.1 <= |targets| && Fits(r.0, peers)
    decreases |targets|
  {
    if targets == [] then (ls, 0)
    else
      SendFits(ls, peers, targets[0], payload, answers[0]);
      var (ls', o) := Send(ls, peers, targets[0], payload, answers[0]);
      if o == Raised then (ls', 0)
      else
        var (ls'', n) := FanAll(ls', peers, targets[1..], payload, answers[1..]);
        (ls'', n + 1)
  }

  /** One turn of the loop, at position k of the target list. */
  lemma FanAllFrom(ls: Links, peers: seq<PeerEntry>, targets: seq<byte>, payload: seq<byte>, answers: seq<bool>, k: nat)
    requires Fits(ls, peers) && |answers| == |targets| && k < |targets|
    ensures var (ls', o) := Send(ls, peers, targets[k], payload, answers[k]);
            && Fits(ls', peers)
            && FanAll(ls, peers, targets[k..], payload, answers[k..])
               == if o == Raised then (ls', 0)
                  else var (end, n) := FanAll(ls', peers, targets[k + 1..], payload, answers[k + 1..]); (end, n + 1)
  {
    SendFits(ls, peers, targets[k], payload, answers[k]);
    assert targets[k..][1..] == targets[k + 1..] && answers[k..][1..] == answers[k + 1..];
  }

  datatype Reception = Reception(links: Links, source: byte, threw: bool, frame: FrameBytes)

  /** try_receive on the link of transport `which`. */
  function ReceiveOn(ls: Links, peers: seq<PeerEntry>, which: Transport, ts: u64, scratch: FrameBytes,
                     incoming: Option<D.Datagram>): Reception
    requires Fits(ls, peers) && Present(peers, which)
  {
    match which
    case ShmRing =>
      var (l, got, frame) := S.Scan(ls.shm.value, 0, ts, scratch);
      Reception(ls.(shm := Some(l)), if got.Got? then got.source else ENDPOINT_INVALID, got.Threw?, frame)
    case UdsPath =>
      if incoming.None? then Reception(ls, ENDPOINT_INVALID, false, scratch)
      else
        var (l, source, frame) := D.Accept(ls.uds.value, peers, incoming.value, ts, scratch);
        Reception(ls.(uds := Some(l)), source, false, frame)
    case UdpEndpoint =>
      if incoming.None? then Reception(ls, ENDPOINT_INVALID, false, scratch)
      else
        var (l, source, frame) := D.Accept(ls.udp.value, peers, incoming.value, ts, scratch);
        Reception(ls.(udp := Some(l)), source, false, frame)
  }

  lemma {:induction false} ScanFacts(l: S.Link, i: nat, ts: u64, scratch: FrameBytes)
    requires i <= |l.channels|
    ensures var l' := S.Scan(l, i, ts, scratch).0;
            && C.SameIds(l.channels, l'.channels)
            && l'.metrics.forwarded == l.metrics.forwarded && l'.metrics.droppedFull == l.metrics.droppedFull
    decreases |l.channels| - i
  {
    if i < |l.channels| {
      match S.PollChannel(l.channels[i])
      case NotReady => ScanFacts(l, i + 1, ts, scratch);
      case Short(rest, bytes) => ScanFacts(S.SkipShort(l, i, rest), i + 1, ts, bytes + scratch[|bytes|..]);
      case _ =>
    }
  }

  /** Receiving moves no frame between links and counts nothing as forwarded or dropped. */
  lemma ReceiveFacts(ls: Links, peers: seq<PeerEntry>, which: Transport, ts: u64, scratch: FrameBytes,
                     incoming: Option<D.Datagram>)
    requires Fits(ls, peers) && Present(peers, which)
    ensures var r := ReceiveOn(ls, peers, which, ts, scratch, incoming);
            && Fits(r.links, peers)
            && r.links.Forwarded() == ls.Forwarded() && r.links.DroppedFull() == ls.DroppedFull()
  {
    if which == ShmRing {
      ScanFacts(ls.shm.value, 0, ts, scratch);
    }
  }

  datatype Polled = Polled(links: Links, source: byte, targets: seq<byte>, done: nat, frame: FrameBytes, raised: bool)

  /** poll_link. */
  function Poll(ls: Links, peers: seq<PeerEntry>, rules: seq<Rule>, which: Transport, ts: u64, scratch: FrameBytes,
                incoming: Option<D.Datagram>, kernel: nat -> bool): Polled
    requires Fits(ls, peers) && Present(peers, which)
  {
    ReceiveFacts(ls, peers, which, ts, scratch, incoming);
    var r := ReceiveOn(ls, peers, which, ts, scratch, incoming);
    if r.threw || r.source == ENDPOINT_INVALID then Polled(r.links, ENDPOINT_INVALID, [], 0, r.frame, r.threw)
    else
      var targets := TargetsFor(rules, r.source, Topic(r.frame));
      var (ls', n) := FanAll(r.links, peers, targets, r.frame, D.Answered(kernel, |targets|));
      Polled(ls', r.source, targets, n, r.frame, n < |targets|)
  }

  // ----- what a poll achieves -----------------------------------------------

  lemma LastTransportIsPresent(peers: seq<PeerEntry>, id: byte)
    ensures LastTransport(peers, id).Some? ==> Present(peers, LastTransport(peers, id).value)
  {
    var k := LastTransportWitness(peers, id);
  }

  /** The SHM link has a channel for every shm peer. */
  lemma ShmChannelExists(l: S.Link, peers: seq<PeerEntry>, dest: byte)
    requires C.SameIds(ChannelsOf(peers), l.channels)
    requires PeerById(peers, dest).Some? && PeerById(peers, dest).value.local.Shm?
    ensures S.Find(l.channels, dest) < |l.channels|
  {
    ChannelsAreShmPeers(peers);
    var k :| 0 <= k < |ChannelsOf(peers)| && ChannelsOf(peers)[k].peerId == dest;
    assert l.channels[k].peerId == dest;
  }

  /**
   With distinct ids, a send to a peer reaches exactly the one link that owns the
   peer's transport: an shm peer's own channel, or one datagram to the peer's own
   address; the "no channel" throw and the silent skip cannot happen, and the
   call is counted once unless the kernel refuses the datagram.
   */
  lemma SendReachesItsPeer(ls: Links, peers: seq<PeerEntry>, dest: byte, payload: seq<byte>, ok: bool)
    requires Fits(ls, peers) && DistinctIds(peers) && PeerById(peers, dest).Some?
    ensures var p := PeerById(peers, dest).value;
            var (ls', o) := Send(ls, peers, dest, payload, ok);
            && Fits(ls', peers)
            && o == (if p.local.Shm? || ok then Handed else Raised)
            && ls'.Forwarded() + ls'.DroppedFull() == ls.Forwarded() + ls.DroppedFull() + (if o == Handed then 1 else 0)
            && match p.local
               case Shm(_) =>
                 && ls'.uds == ls.uds && ls'.udp == ls.udp
                 && var k := S.Find(ls.shm.value.channels, dest);
                 && k < |ls.shm.value.channels|
                 && ls'.shm.value.channels == ls.shm.value.channels[k := S.AfterSend(ls.shm.value.channels[k], ls.shm.value.floor, payload)]
               case Uds(_) =>
                 && ls'.shm == ls.shm && ls'.udp == ls.udp
                 && ls'.uds.value.wire == ls.uds.value.wire + (if ok then [D.Sent(p.local, payload)] else [])
               case Udp(_, _) =>
                 && ls'.shm == ls.shm && ls'.uds == ls.uds
                 && ls'.udp.value.wire == ls.udp.value.wire + (if ok then [D.Sent(p.local, payload)] else [])
  {
    IndexAgreesWithSearch(peers, dest);
    LastTransportIsPresent(peers, dest);
    SendFits(ls, peers, dest, payload, ok);
    if PeerById(peers, dest).value.local.Shm? {
      ShmChannelExists(ls.shm.value, peers, dest);
    }
  }

  ghost predicate AllPeers(peers: seq<PeerEntry>, targets: seq<byte>) {
    forall k :: 0 <= k < |targets| ==> PeerById(peers, targets[k]).Some?
  }

  lemma OtherTargetsArePeers(peers: seq<PeerEntry>, targets: seq<byte>)
    requires AllPeers(peers, targets) && targets != []
    ensures AllPeers(peers, targets[1..])
  {
    forall k | 0 <= k < |targets[1..]| ensures PeerById(peers, targets[1..][k]).Some? {
      assert targets[1..][k] == targets[k + 1];
    }
  }

  lemma {:induction false} FanAllCounts(ls: Links, peers: seq<PeerEntry>, targets: seq<byte>, payload: seq<byte>, answers: seq<bool>)
    requires Fits(ls, peers) && |answers| == |targets| && DistinctIds(peers) && AllPeers(peers, targets)
    ensures var (ls', n) := FanAll(ls, peers, targets, payload, answers);
            && ls'.Forwarded() + ls'.DroppedFull() == ls.Forwarded() + ls.DroppedFull() + n
            && (n < |targets| ==> !PeerById(peers, targets[n]).value.local.Shm? && !answers[n])
    decreases |targets|
  {
    if targets != [] {
      SendReachesItsPeer(ls, peers, targets[0], payload, answers[0]);
      var ls' := Send(ls, peers, targets[0], payload, answers[0]).0;
      OtherTargetsArePeers(peers, targets);
      FanAllCounts(ls', peers, targets[1..], payload, answers[1..]);
    }
  }

  lemma {:induction false} TargetsArePeers(rules: seq<Rule>, peers: seq<PeerEntry>, source: byte, topic: u16)
    requires RulesOverPeers(rules, peers)
    ensures AllPeers(peers, TargetsFor(rules, source, topic))
  {
    if rules != [] {
      if Matches(rules[0], source, topic) {
        assert rules[0] in rules;
        forall k | 0 <= k < |rules[0].dests| ensures PeerById(peers, rules[0].dests[k]).Some? {
          assert rules[0].dests[k] in rules[0].dests;
        }
      } else {
        TargetsArePeers(rules[1..], peers, source, topic);
      }
    }
  }

  /**
   Over a loader-accepted topology no egress is lost silently: every target a
   poll got to is counted as forwarded or dropped, and it stops short only where
   the kernel refused a datagram.
   */
  lemma PollLosesNothing(ls: Links, peers: seq<PeerEntry>, rules: seq<Rule>, which: Transport, ts: u64,
                         scratch: FrameBytes, incoming: Option<D.Datagram>, kernel: nat -> bool)
    requires Fits(ls, peers) && Present(peers, which) && DistinctIds(peers) && RulesOverPeers(rules, peers)
    ensures var r := Poll(ls, peers, rules, which, ts, scratch, incoming, kernel);
            && Fits(r.links, peers)
            && r.links.Forwarded() + r.links.DroppedFull() == ls.Forwarded() + ls.DroppedFull() + r.done
            && (r.done < |r.targets| ==>
                  && PeerById(peers, r.targets[r.done]).Some?
                  && !PeerById(peers, r.targets[r.done]).value.local.Shm? && !kernel(r.done))
  {
    ReceiveFacts(ls, peers, which, ts, scratch, incoming);
    var r := ReceiveOn(ls, peers, which, ts, scratch, incoming);
    if !r.threw && r.source != ENDPOINT_INVALID {
      var targets := TargetsFor(rules, r.source, Topic(r.frame));
      TargetsArePeers(rules, peers, r.source, Topic(r.frame));
      FanAllCounts(r.links, peers, targets, r.frame, D.Answered(kernel, |targets|));
    }
  }

  /** The scan of these channels stops at a record that is longer than a frame. */
  ghost predicate StopsTooLong(cs: seq<S.Channel>) {
    exists k :: && 0 <= k < |cs| && cs[k].inbound.queue != [] && |cs[k].inbound.queue[0]| > 64
                && forall j :: 0 <= j < k ==> S.Passes(cs[j])
  }

  lemma ScanThrowsIff(l: S.Link, ts: u64, scratch: FrameBytes)
    ensures S.Scan(l, 0, ts, scratch).1.Threw? <==> StopsTooLong(l.channels)
  {
    var k := S.ScanDecides(l, 0, ts, scratch);
    if n :| && 0 <= n < |l.channels| && l.channels[n].inbound.queue != [] && |l.channels[n].inbound.queue[0]| > 64
            && forall j :: 0 <= j < n ==> S.Passes(l.channels[j]) {
      assert !S.Passes(l.channels[n]);
    }
  }

  /** A poll raises exactly when the SHM scan runs into a record that is too long, or a target it was getting to refused. */
  lemma PollRaisesIff(ls: Links, peers: seq<PeerEntry>, rules: seq<Rule>, which: Transport, ts: u64,
                      scratch: FrameBytes, incoming: Option<D.Datagram>, kernel: nat -> bool)
    requires Fits(ls, peers) && Present(peers, which)
    ensures var r := Poll(ls, peers, rules, which, ts, scratch, incoming, kernel);
            && (r.raised <==> (which == ShmRing && StopsTooLong(ls.shm.value.channels)) || r.done < |r.targets|)
            && (which == ShmRing && StopsTooLong(ls.shm.value.channels) ==> r.source == 0 && r.targets == [])
  {
    if which == ShmRing {
      ScanThrowsIff(ls.shm.value, ts, scratch);
    }
  }

  /** A poll routes by the topic in bytes 2..3. */
  lemma PollTargets(ls: Links, peers: seq<PeerEntry>, rules: seq<Rule>, which: Transport, ts: u64,
                    scratch: FrameBytes, incoming: Option<D.Datagram>, kernel: nat -> bool)
    requires Fits(ls, peers) && Present(peers, which)
    ensures var r := Poll(ls, peers, rules, which, ts, scratch, incoming, kernel);
            r.targets == if r.source == 0 then [] else TargetsFor(rules, r.source, Le2(r.frame[2], r.frame[3]))
  {
    TopicSeqPriority(Poll(ls, peers, rules, which, ts, scratch, incoming, kernel).frame);
  }

  /** Is there a link for this transport? */
  predicate Linked(ls: Links, t: Transport) {
    match t
    case ShmRing => ls.shm.Some?
    case UdsPath => ls.uds.Some?
    case UdpEndpoint => ls.udp.Some?
  }

  // ----- the server ---------------------------------------------------------

  class MixedRouterServer {
    const peers: seq<PeerEntry>
    const known: array<bool>
    const transport: array<Transport>
    const shm: S.ShmRouterLink?
    const uds: D.DatagramRouterLink?
    const udp: D.DatagramRouterLink?

    ghost predicate IndexOk()
      reads known, transport
    {
      && known.Length == 256 && transport.Length == 256
      && forall id: byte :: && (known[id] <==> LastTransport(peers, id).Some?)
                            && (known[id] ==> Some(transport[id]) == LastTransport(peers, id))
    }

    ghost function State(): Links
      reads shm, uds, udp
    {
      Links(if shm == null then None else Some(shm.Snapshot()),
            if uds == null then None else Some(uds.Snapshot()),
            if udp == null then None else Some(udp.Snapshot()))
    }

    /** Constructed: the index and a link per transport present; the SHM link has no channels before it is bound. */
    ghost predicate Wired()
      reads known, transport, shm, uds, udp
    {
      && IndexOk()
      && (shm != null <==> Present(peers, ShmRing))
      && (uds != null <==> Present(peers, UdsPath))
      && (udp != null <==> Present(peers, UdpEndpoint))
      && (shm != null ==> shm.metrics.Shaped())
      && (uds != null ==> uds.peers == peers)
      && (udp != null ==> udp.peers == peers)
      && (uds != null && udp != null ==> uds != udp)
    }

    ghost predicate Valid()
      reads known, transport, shm, uds, udp
    {
      Wired() && Fits(State(), peers)
    }

    /** The constructor. With distinct ids the index is peer_by_id, tabulated for all 256 ids. */
    constructor (peers: seq<PeerEntry>)
      ensures Wired() && this.peers == peers && fresh(known) && fresh(transport)
      ensures (shm != null ==> fresh(shm)) && (uds != null ==> fresh(uds)) && (udp != null ==> fresh(udp))
      ensures shm != null ==> shm.Snapshot() == S.Link([], S.ZeroMetrics(), 0)
      ensures uds != null ==> uds.Snapshot() == D.Link(D.Metrics(0, 0, 0), [])
      ensures udp != null ==> udp.Snapshot() == D.Link(D.Metrics(0, 0, 0), [])
      ensures State().Forwarded() == 0 && State().DroppedFull() == 0
      ensures DistinctIds(peers) ==>
                forall id: byte :: && (known[id] <==> PeerById(peers, id).Some?)
                                   && (known[id] ==> transport[id] == TransportOf(PeerById(peers, id).value.local))
    {
      var k := new bool[256](_ => false);
      var t := new Transport[256](_ => ShmRing);
      var hasShm, hasUds, hasUdp := FillIndex(peers, k, t);
      var s, u, v := MakeLinks(peers, hasShm, hasUds, hasUdp);
      this.peers, known, transport, shm, uds, udp := peers, k, t, s, u, v;
      new;
      if DistinctIds(peers) {
        IndexTabulatesSearch(peers);
      }
    }

    /**
     bind_router: SHM regions by name from the table; a datagram link needs its
     listen endpoint and throws (false) without one.
     */
    method Bind(listenUds: Option<Address>, listenUdp: Option<Address>) returns (ok: bool)
      requires Wired()
      modifies shm
      ensures Wired()
      ensures ok <==> (Present(peers, UdsPath) ==> listenUds.Some?) && (Present(peers, UdpEndpoint) ==> listenUdp.Some?)
      ensures ok ==> Valid()
      ensures shm != null ==> shm.Snapshot() == old(shm.Snapshot()).(channels := ChannelsOf(peers))
    {
      if shm != null {
        var bound, channels, names := BindRouter(peers);
        assert bound;
        shm.Attach(channels);
      }
      if uds != null && listenUds.None? {
        return false;
      }
      if udp != null && listenUdp.None? {
        return false;
      }
      return true;
    }

    method SendToPeer(dest: byte, payload: seq<byte>, ok: bool) returns (o: Outcome)
      requires Valid()
      modifies shm, uds, udp
      ensures Valid()
      ensures (State(), o) == Send(old(State()), peers, dest, payload, ok)
    {
      SendFits(State(), peers, dest, payload, ok);
      if !known[dest] {
        return Ignored;
      }
      match transport[dest] {
        case ShmRing =>
          if shm != null {
            var status := shm.SendToPeer(dest, payload);
            return if status == S.NoChannel then Raised else Handed;
          }
        case UdsPath =>
          if uds != null {
            var status := uds.SendToPeer(dest, payload, ok);
            return FromDatagram(status);
          }
        case UdpEndpoint =>
          if udp != null {
            var status := udp.SendToPeer(dest, payload, ok);
            return FromDatagram(status);
          }
      }
      return Ignored;
    }

    method Receive(which: Transport, frame: RouterFrame, ts: u64, incoming: Option<D.Datagram>)
      returns (source: byte, threw: bool)
      requires Valid() && Present(peers, which) && frame.Valid()
      modifies shm, uds, udp, frame.bytes
      ensures Valid()
      ensures Reception(State(), source, threw, frame.bytes[..])
           == ReceiveOn(old(State()), peers, which, ts, old(frame.bytes[..]), incoming)
    {
      ReceiveFacts(State(), peers, which, ts, frame.bytes[..], incoming);
      source, threw := ENDPOINT_INVALID, false;
      match which {
        case ShmRing =>
          var got := shm.TryReceive(frame, ts);
          if got.Threw? {
            threw := true;
          } else if got.Got? {
            source := got.source;
          }
        case UdsPath => source := uds.TryReceive(frame, ts, incoming);
        case UdpEndpoint => source := udp.TryReceive(frame, ts, incoming);
      }
    }

    /** poll_link: receive on one link, fan out over all of them. */
    method PollLink(which: Transport, frame: RouterFrame, ts: u64, rules: seq<Rule>,
                    incoming: Option<D.Datagram>, kernel: nat -> bool)
      returns (source: byte, targets: seq<byte>, done: nat, raised: bool)
      requires Valid() && Present(peers, which) && frame.Valid()
      modifies shm, uds, udp, frame.bytes
      ensures Valid()
      ensures Polled(State(), source, targets, done, frame.bytes[..], raised)
           == Poll(old(State()), peers, rules, which, ts, old(frame.bytes[..]), incoming, kernel)
      ensures targets == if source == 0 then [] else TargetsFor(rules, source, Le2(frame.bytes[2], frame.bytes[3]))
    {
      PollTargets(State(), peers, rules, which, ts, frame.bytes[..], incoming, kernel);
      targets, done := [], 0;
      source, raised := Receive(which, frame, ts, incoming);
      if raised || source == ENDPOINT_INVALID {
        source := ENDPOINT_INVALID;
        return;
      }
      var payload: FrameBytes := frame.bytes[..];
      targets := RouteTargetsFor(rules, source, Topic(payload));
      done := SendAll(targets, payload, kernel);
      assert frame.bytes[..] == payload;
      raised := done < |targets|;
    }

    /** After k turns, what is left to do leads to `outcome`. */
    ghost predicate Underway(targets: seq<byte>, payload: seq<byte>, answers: seq<bool>, k: nat, outcome: (Links, nat))
      requires Valid()
      reads known, transport, shm, uds, udp
    {
      && k <= |targets| == |answers|
      && FanAll(State(), peers, targets[k..], payload, answers[k..]) == (outcome.0, outcome.1 - k)
    }

    /** One turn of the fan-out loop. */
    method SendTurn(targets: seq<byte>, payload: seq<byte>, k: nat, ok: bool,
                    ghost answers: seq<bool>, ghost outcome: (Links, nat)) returns (raised: bool)
      requires Valid() && Underway(targets, payload, answers, k, outcome) && k < |targets| && ok == answers[k]
      modifies shm, uds, udp
      ensures Valid()
      ensures raised ==> (State(), k) == outcome
      ensures !raised ==> Underway(targets, payload, answers, k + 1, outcome)
    {
      FanAllFrom(State(), peers, targets, payload, answers, k);
      var o := SendToPeer(targets[k], payload, ok);
      return o == Raised;
    }

    /** The fan-out loop of poll_link, stopping where a send throws. */
    method SendAll(targets: seq<byte>, payload: seq<byte>, kernel: nat -> bool) returns (done: nat)
      requires Valid()
      modifies shm, uds, udp
      ensures Valid()
      ensures (State(), done) == FanAll(old(State()), peers, targets, payload, D.Answered(kernel, |targets|))
    {
      ghost var answers := D.Answered(kernel, |targets|);
      ghost var outcome := FanAll(State(), peers, targets, payload, answers);
      assert targets[0..] == targets && answers[0..] == answers;
      done := 0;
      for k := 0 to |targets|
        invariant Valid() && done == k
        invariant Underway(targets, payload, answers, k, outcome)
      {
        var raised := SendTurn(targets, payload, k, kernel(k), answers, outcome);
        if raised {
          return;
        }
        done := k + 1;
      }
    }
  }

  method MakeLinks(peers: seq<PeerEntry>, hasShm: bool, hasUds: bool, hasUdp: bool)
    returns (shm: S.ShmRouterLink?, uds: D.DatagramRouterLink?, udp: D.DatagramRouterLink?)
    ensures (shm != null <==> hasShm) && (uds != null <==> hasUds) && (udp != null <==> hasUdp)
    ensures shm != null ==> fresh(shm) && shm.Snapshot() == S.Link([], S.ZeroMetrics(), 0)
    ensures uds != null ==> fresh(uds) && uds.peers == peers && uds.Snapshot() == D.Link(D.Metrics(0, 0, 0), [])
    ensures udp != null ==> fresh(udp) && udp.peers == peers && udp.Snapshot() == D.Link(D.Metrics(0, 0, 0), [])
    ensures uds != null && udp != null ==> uds != udp
  {
    shm, uds, udp := null, null, null;
    if hasShm {
      shm := new S.ShmRouterLink([]);
    }
    if hasUds {
      uds := new D.DatagramRouterLink(peers);
    }
    if hasUdp {
      udp := new D.DatagramRouterLink(peers);
    }
  }

  /** bind_router cannot throw for want of a listen on an accepted profile. */
  lemma AcceptedProfileBinds(p: L.Profile, peers: seq<PeerEntry>, rules: seq<Rule>, topics: seq<TopicEntry>,
                             sidebands: seq<SidebandRegion>, ranges: seq<(nat, nat)>)
    requires L.ValidProfile(p) && L.Denotes(p, peers, rules, topics, sidebands, ranges)
    ensures Present(peers, UdsPath) ==> L.ListenFor(p.router.value, UdsPath).Some?
    ensures Present(peers, UdpEndpoint) ==> L.ListenFor(p.router.value, UdpEndpoint).Some?
  {
    LoadedTablesAreSafe(p, peers, rules, topics, sidebands, ranges);
  }

  /** The constructor's loop: later entries overwrite earlier ones, and each sets its transport's flag. */
  method FillIndex(peers: seq<PeerEntry>, known: array<bool>, transport: array<Transport>)
    returns (hasShm: bool, hasUds: bool, hasUdp: bool)
    requires known.Length == 256 && transport.Length == 256
    requires forall id :: 0 <= id < 256 ==> !known[id]
    modifies known, transport
    ensures forall id: byte :: && (known[id] <==> LastTransport(peers, id).Some?)
                               && (known[id] ==> Some(transport[id]) == LastTransport(peers, id))
    ensures hasShm <==> Present(peers, ShmRing)
    ensures hasUds <==> Present(peers, UdsPath)
    ensures hasUdp <==> Present(peers, UdpEndpoint)
  {
    hasShm, hasUds, hasUdp := false, false, false;
    for i := 0 to |peers|
      invariant forall id: byte :: && (known[id] <==> LastTransport(peers[..i], id).Some?)
                                   && (known[id] ==> Some(transport[id]) == LastTransport(peers[..i], id))
      invariant hasShm <==> Present(peers[..i], ShmRing)
      invariant hasUds <==> Present(peers[..i], UdsPath)
      invariant hasUdp <==> Present(peers[..i], UdpEndpoint)
    {
      var p := peers[i];
      assert peers[..i + 1][..i] == peers[..i];
      assert forall q :: q in peers[..i + 1] <==> q in peers[..i] || q == p;
      known[p.id] := true;
      transport[p.id] := TransportOf(p.local);
      match p.local {
        case Shm(_) => hasShm := true;
        case Uds(_) => hasUds := true;
        case Udp(_, _) => hasUdp := true;
      }
    }
    assert peers[..|peers|] == peers;
  }
}
