/**
 What the mixed router hands to the kernel, address by address. The loader does
 not compare datagram addresses, so two peers may be reached at one address;
 whether what arrives there is one peer's stream is decided by the routes.
 */
module NetDelivery {
  import opened Bytes
  import opened Frame
  import opened Routing
  import opened Topology
  import opened Deployment
  import opened MixedRuns
  import M = MixedRouter
  import B = BoundedFifo
  import S = ShmRouter
  import D = DatagramLink
  import N = SharedRegions
  import R = RouterRuns
  import L = Loader

  // ----- the log is the wire ------------------------------------------------

  /** The datagrams of a log that leave through one transport, with the frames they carry. */
  function OnWire(sent: seq<Sending>, receipts: seq<Receipt>, via: Transport): seq<D.Sent> {
    if sent == [] then []
    else
      var n := |sent| - 1;
      OnWire(sent[..n], receipts, via)
      + if TransportOf(sent[n].to) == via && sent[n].receipt < |receipts| then [D.Sent(sent[n].to, receipts[sent[n].receipt].frame)] else []
  }

  function WireOf(l: Option<D.Link>): seq<D.Sent> { if l.None? then [] else l.value.wire }

  /** The links have sent exactly the logged datagrams, in the logged order. */
  ghost predicate LogIsWire(s: System) {
    && WireOf(s.links.uds) == OnWire(s.sent, s.receipts, UdsPath)
    && WireOf(s.links.udp) == OnWire(s.sent, s.receipts, UdpEndpoint)
  }

  ghost predicate KnownReceipts(sent: seq<Sending>, n: nat) { forall k :: 0 <= k < |sent| ==> sent[k].receipt < n }

  lemma {:induction false} WireKept(sent: seq<Sending>, a: seq<Receipt>, b: seq<Receipt>, via: Transport)
    requires a <= b && KnownReceipts(sent, |a|)
    ensures OnWire(sent, a, via) == OnWire(sent, b, via)
  {
    if sent != [] {
      WireKept(sent[..|sent| - 1], a, b, via);
    }
  }

  lemma WireSnoc(sent: seq<Sending>, x: Sending, receipts: seq<Receipt>, via: Transport)
    requires x.receipt < |receipts|
    ensures OnWire(sent + [x], receipts, via)
         == OnWire(sent, receipts, via) + if TransportOf(x.to) == via then [D.Sent(x.to, receipts[x.receipt].frame)] else []
  {
    assert (sent + [x])[..|sent|] == sent;
  }

  // ----- the invariant ------------------------------------------------------

  /** A datagram goes to the address of the peer it is for, which the first matching rule named. */
  ghost predicate WellSent(s: System, peers: seq<PeerEntry>, rules: seq<Rule>, x: Sending) {
    && AddressedTo(s, rules, x.receipt, x.dest)
    && PeerById(peers, x.dest).Some? && PeerById(peers, x.dest).value.local == x.to && !x.to.Shm?
  }

  ghost predicate AllWellSent(s: System, peers: seq<PeerEntry>, rules: seq<Rule>) {
    forall k :: 0 <= k < |s.sent| ==> WellSent(s, peers, rules, s.sent[k])
  }

  ghost predicate AllGenuine(peers: seq<PeerEntry>, receipts: seq<Receipt>) {
    forall n :: 0 <= n < |receipts| ==> Genuine(peers, receipts[n])
  }

  /** Per target, newer datagrams carry newer receipts. */
  ghost predicate Ascending(sent: seq<Sending>) {
    forall j, k :: 0 <= j < k < |sent| && sent[j].dest == sent[k].dest ==> sent[j].receipt < sent[k].receipt
  }

  /** The newest receipt has not been sent to any target it still has to go to. */
  ghost predicate HandOk(s: System, rules: seq<Rule>) {
    s.pc.Fanning? ==>
      && s.receipts != [] && R.Distinct(s.pc.rest)
      && (forall t :: t in s.pc.rest ==> AddressedTo(s, rules, |s.receipts| - 1, t))
      && forall k :: 0 <= k < |s.sent| && s.sent[k].dest in s.pc.rest ==> s.sent[k].receipt < |s.receipts| - 1
  }

  ghost predicate NetInv(s: System, peers: seq<PeerEntry>, rules: seq<Rule>) {
    && Shaped(s, peers)
    && AllGenuine(peers, s.receipts) && AllWellSent(s, peers, rules)
    && Ascending(s.sent) && HandOk(s, rules) && LogIsWire(s)
  }

  // ----- the kinds of step --------------------------------------------------

  ghost predicate SameWires(s: System, s': System) {
    WireOf(s'.links.uds) == WireOf(s.links.uds) && WireOf(s'.links.udp) == WireOf(s.links.udp)
  }

  ghost predicate Quiet(s: System, s': System) {
    SameWires(s, s') && s'.receipts == s.receipts && s'.sent == s.sent && (s'.pc == s.pc || !s'.pc.Fanning?)
  }

  ghost predicate Took(s: System, s': System, peers: seq<PeerEntry>, rules: seq<Rule>) {
    && SameWires(s, s') && s'.sent == s.sent
    && |s'.receipts| == |s.receipts| + 1 && s.receipts <= s'.receipts
    && var r := s'.receipts[|s.receipts|];
    && Genuine(peers, r) && s'.pc == Fanning(TargetsFor(rules, r.source, Topic(r.frame)))
  }

  ghost predicate Sends(s: System, s': System, peers: seq<PeerEntry>, ok: bool) {
    && s.pc.Fanning? && s.pc.rest != [] && s.receipts != [] && s'.receipts == s.receipts
    && var to := LeavesByNet(peers, s.pc.rest[0], ok);
    && s'.sent == Logged(s.sent, to, s.pc.rest[0], |s.receipts| - 1)
    && (s'.pc == Fanning(s.pc.rest[1..]) || (s'.pc == Idle && !ok))
    && WireOf(s'.links.uds) == WireOf(s.links.uds) + Handed(to, UdsPath, InHand(s))
    && WireOf(s'.links.udp) == WireOf(s.links.udp) + Handed(to, UdpEndpoint, InHand(s))
  }

  function Handed(to: Option<Address>, via: Transport, frame: FrameBytes): seq<D.Sent> {
    if to.Some? && TransportOf(to.value) == via then [D.Sent(to.value, frame)] else []
  }

  lemma ArriveIsTaken(s: System, peers: seq<PeerEntry>, rules: seq<Rule>, which: Transport, ts: u64, d: D.Datagram)
    requires Shaped(s, peers)
    ensures var s' := DoArrive(s, peers, rules, which, ts, d); Quiet(s, s') || Took(s, s', peers, rules)
  {
    if s.pc == Idle && which != ShmRing && M.Linked(s.links, which) && |d.bytes| >= FRAME_SIZE {
      assert D.Landed(N.ZeroFrame(), d.bytes) == d.bytes[..FRAME_SIZE];
    }
  }

  lemma PollIsTaken(s: System, peers: seq<PeerEntry>, rules: seq<Rule>)
    requires Shaped(s, peers) && DistinctIds(peers) && s.pc.Polling? && s.pc.i < |Channels(s.links)|
    ensures var s' := DoPoll(s, peers, rules); Quiet(s, s') || Took(s, s', peers, rules)
  {
    match S.PollChannel(Channels(s.links)[s.pc.i])
    case Ready(rest, frame) => PopIsTaken(s, peers, rules, rest, frame);
    case _ =>
  }

  lemma PopIsTaken(s: System, peers: seq<PeerEntry>, rules: seq<Rule>, rest: B.Fifo, frame: FrameBytes)
    requires Shaped(s, peers) && DistinctIds(peers) && s.pc.Polling? && s.pc.i < |Channels(s.links)|
    requires S.PollChannel(Channels(s.links)[s.pc.i]) == S.Ready(rest, frame)
    ensures var s' := DoPoll(s, peers, rules);
            if Channels(s.links)[s.pc.i].peerId == ENDPOINT_INVALID then Quiet(s, s') else Took(s, s', peers, rules)
  {
    IdsOfChannels(s, peers);
  }

  /** The links after one send: at most one datagram, through the link of its address. */
  lemma SendOnWire(ls: M.Links, peers: seq<PeerEntry>, dest: byte, frame: FrameBytes, ok: bool)
    requires M.Fits(ls, peers) && DistinctIds(peers)
    ensures var (ls', o) := M.Send(ls, peers, dest, frame, ok);
            var to := LeavesByNet(peers, dest, ok);
            && WireOf(ls'.uds) == WireOf(ls.uds) + Handed(to, UdsPath, frame)
            && WireOf(ls'.udp) == WireOf(ls.udp) + Handed(to, UdpEndpoint, frame)
            && (o == M.Raised ==> !ok && to.None?)
  {
    M.IndexAgreesIff(peers, dest);
    M.IndexAgreesWithSearch(peers, dest);
    if PeerById(peers, dest).Some? {
      M.SendReachesItsPeer(ls, peers, dest, frame, ok);
    }
  }

  lemma SendIsLogged(s: System, peers: seq<PeerEntry>, ok: bool)
    requires Shaped(s, peers) && DistinctIds(peers) && s.pc.Fanning? && s.pc.rest != []
    ensures Sends(s, DoSend(s, peers, ok), peers, ok)
  {
    SendOnWire(s.links, peers, s.pc.rest[0], InHand(s), ok);
    SendLogs(s, peers, ok);
  }

  /** What a send does besides the links. */
  lemma SendLogs(s: System, peers: seq<PeerEntry>, ok: bool)
    requires Shaped(s, peers) && s.pc.Fanning? && s.pc.rest != []
    ensures var s' := DoSend(s, peers, ok);
            var (ls, o) := M.Send(s.links, peers, s.pc.rest[0], InHand(s), ok);
            && s'.receipts == s.receipts && s'.links.uds == ls.uds && s'.links.udp == ls.udp
            && s'.pc == (if o == M.Raised then Idle else Fanning(s.pc.rest[1..]))
            && s'.sent == if o == M.Raised then s.sent else Logged(s.sent, LeavesByNet(peers, s.pc.rest[0], ok), s.pc.rest[0], |s.receipts| - 1)
  {
  }

  // ----- preservation -------------------------------------------------------

  lemma WellSentKept(s: System, s': System, peers: seq<PeerEntry>, rules: seq<Rule>)
    requires s.receipts <= s'.receipts && s'.sent == s.sent
    requires AllWellSent(s, peers, rules)
    ensures AllWellSent(s', peers, rules)
    ensures KnownReceipts(s.sent, |s.receipts|)
  {
    forall k | 0 <= k < |s.sent| ensures WellSent(s', peers, rules, s.sent[k]) && s.sent[k].receipt < |s.receipts| {
      assert WellSent(s, peers, rules, s.sent[k]);
    }
  }

  lemma QuietKeepsHand(s: System, s': System, rules: seq<Rule>)
    requires Quiet(s, s') && HandOk(s, rules)
    ensures HandOk(s', rules)
  {
    if s'.pc.Fanning? {
      forall t | t in s'.pc.rest ensures AddressedTo(s', rules, |s'.receipts| - 1, t) {
        assert AddressedTo(s, rules, |s.receipts| - 1, t);
      }
    }
  }

  lemma QuietKeepsInv(s: System, s': System, peers: seq<PeerEntry>, rules: seq<Rule>)
    requires NetInv(s, peers, rules) && Shaped(s', peers) && Quiet(s, s')
    ensures NetInv(s', peers, rules)
  {
    WellSentKept(s, s', peers, rules);
    QuietKeepsHand(s, s', rules);
    LogKept(s, s');
  }

  /** A frame just accepted has gone nowhere yet. */
  lemma TakingKeepsHand(s: System, s': System, peers: seq<PeerEntry>, rules: seq<Rule>)
    requires Took(s, s', peers, rules) && R.DistinctTargets(rules) && KnownReceipts(s.sent, |s.receipts|)
    ensures HandOk(s', rules)
  {
    var r := s'.receipts[|s.receipts|];
    R.TargetsDistinct(rules, r.source, Topic(r.frame));
  }

  lemma TakingKeepsInv(s: System, s': System, peers: seq<PeerEntry>, rules: seq<Rule>)
    requires NetInv(s, peers, rules) && Shaped(s', peers) && Took(s, s', peers, rules) && R.DistinctTargets(rules)
    ensures NetInv(s', peers, rules)
  {
    WellSentKept(s, s', peers, rules);
    TakingKeepsHand(s, s', peers, rules);
    LogKept(s, s');
    GenuineKept(peers, s.receipts, s'.receipts);
  }

  lemma GenuineKept(peers: seq<PeerEntry>, a: seq<Receipt>, b: seq<Receipt>)
    requires a <= b && |b| == |a| + 1 && Genuine(peers, b[|a|]) && AllGenuine(peers, a)
    ensures AllGenuine(peers, b)
  {
    forall n | 0 <= n < |b| ensures Genuine(peers, b[n]) {
      if n < |a| { assert b[n] == a[n]; }
    }
  }

  lemma LogKept(s: System, s': System)
    requires LogIsWire(s) && SameWires(s, s') && s'.sent == s.sent && s.receipts <= s'.receipts && KnownReceipts(s.sent, |s.receipts|)
    ensures LogIsWire(s')
  {
    WireKept(s.sent, s.receipts, s'.receipts, UdsPath);
    WireKept(s.sent, s.receipts, s'.receipts, UdpEndpoint);
  }

  lemma SendKeepsWire(s: System, s': System, peers: seq<PeerEntry>, ok: bool)
    requires LogIsWire(s) && Sends(s, s', peers, ok)
    ensures LogIsWire(s')
  {
    var dest, to := s.pc.rest[0], LeavesByNet(peers, s.pc.rest[0], ok);
    if to.Some? {
      WireSnoc(s.sent, Sending(to.value, dest, |s.receipts| - 1), s.receipts, UdsPath);
      WireSnoc(s.sent, Sending(to.value, dest, |s.receipts| - 1), s.receipts, UdpEndpoint);
    }
  }

  lemma SendKeepsWell(s: System, s': System, peers: seq<PeerEntry>, rules: seq<Rule>, ok: bool)
    requires Sends(s, s', peers, ok) && AddressedTo(s, rules, |s.receipts| - 1, s.pc.rest[0])
    requires AllWellSent(s, peers, rules)
    ensures AllWellSent(s', peers, rules)
  {
    forall k | 0 <= k < |s'.sent| ensures WellSent(s', peers, rules, s'.sent[k]) {
      if k < |s.sent| { assert WellSent(s, peers, rules, s.sent[k]); }
    }
  }

  lemma SendKeepsAscending(s: System, s': System, peers: seq<PeerEntry>, rules: seq<Rule>, ok: bool)
    requires HandOk(s, rules) && Ascending(s.sent) && Sends(s, s', peers, ok)
    ensures Ascending(s'.sent)
  {
    assert s.pc.rest[0] in s.pc.rest;
  }

  /** The frame in hand is addressed to the target it goes to next. */
  lemma NextIsAddressed(s: System, rules: seq<Rule>)
    requires HandOk(s, rules) && s.pc.Fanning? && s.pc.rest != []
    ensures AddressedTo(s, rules, |s.receipts| - 1, s.pc.rest[0])
  {
    assert s.pc.rest[0] in s.pc.rest;
  }

  lemma SendKeepsHand(s: System, s': System, peers: seq<PeerEntry>, rules: seq<Rule>, ok: bool)
    requires HandOk(s, rules) && Sends(s, s', peers, ok)
    ensures HandOk(s', rules)
  {
    var rest, n := s.pc.rest, |s.receipts| - 1;
    if s'.pc.Fanning? {
      forall t | t in s'.pc.rest ensures AddressedTo(s', rules, n, t) && t in rest && t != rest[0] {
        assert t in rest && AddressedTo(s, rules, n, t);
        var j :| 0 <= j < |rest[1..]| && rest[1..][j] == t;
        assert rest[0] != rest[j + 1];
      }
      forall k | 0 <= k < |s'.sent| && s'.sent[k].dest in s'.pc.rest ensures s'.sent[k].receipt < n {
        assert k < |s.sent| && s.sent[k].dest in rest;
      }
    }
  }

  lemma SendingKeepsInv(s: System, s': System, peers: seq<PeerEntry>, rules: seq<Rule>, ok: bool)
    requires NetInv(s, peers, rules) && Shaped(s', peers) && Sends(s, s', peers, ok)
    ensures NetInv(s', peers, rules)
  {
    NextIsAddressed(s, rules);
    SendKeepsWire(s, s', peers, ok);
    SendKeepsWell(s, s', peers, rules, ok);
    SendKeepsAscending(s, s', peers, rules, ok);
    SendKeepsHand(s, s', peers, rules, ok);
  }

  lemma SendingStep(s: System, peers: seq<PeerEntry>, rules: seq<Rule>, ok: bool)
    requires Shaped(s, peers) && DistinctIds(peers) && s.pc.Fanning? && s.pc.rest != []
    ensures Sends(s, Next(s, peers, rules, SendNext(ok)), peers, ok)
  {
    SendIsLogged(s, peers, ok);
  }

  lemma NetStep(s: System, peers: seq<PeerEntry>, rules: seq<Rule>, e: Event)
    requires NetInv(s, peers, rules) && DistinctIds(peers) && R.DistinctTargets(rules)
    ensures NetInv(Next(s, peers, rules, e), peers, rules)
  {
    var s' := Next(s, peers, rules, e);
    if e.SendNext? && s.pc.Fanning? && s.pc.rest != [] {
      SendingStep(s, peers, rules, e.ok);
      SendingKeepsInv(s, s', peers, rules, e.ok);
    } else {
      OtherStep(s, peers, rules, e);
      if Quiet(s, s') { QuietKeepsInv(s, s', peers, rules); } else { TakingKeepsInv(s, s', peers, rules); }
    }
  }

  lemma OtherStep(s: System, peers: seq<PeerEntry>, rules: seq<Rule>, e: Event)
    requires Shaped(s, peers) && DistinctIds(peers) && !(e.SendNext? && s.pc.Fanning? && s.pc.rest != [])
    ensures var s' := Next(s, peers, rules, e); Quiet(s, s') || Took(s, s', peers, rules)
  {
    match e
    case Arrive(which, ts, d) => ArriveIsTaken(s, peers, rules, which, ts, d);
    case PollNext => if s.pc.Polling? && s.pc.i < |Channels(s.links)| { PollIsTaken(s, peers, rules); }
    case _ =>
  }

  lemma {:induction false} NetRun(s: System, peers: seq<PeerEntry>, rules: seq<Rule>, events: seq<Event>)
    requires NetInv(s, peers, rules) && DistinctIds(peers) && R.DistinctTargets(rules)
    ensures NetInv(Run(s, peers, rules, events), peers, rules)
    decreases |events|
  {
    if events != [] {
      NetStep(s, peers, rules, events[0]);
      NetRun(Next(s, peers, rules, events[0]), peers, rules, events[1..]);
    }
  }

  // ----- what an address receives -------------------------------------------

  /**
   Everything handed to the kernel for an address that reaches p was accepted by
   the router, addressed to p by the first matching rule, and goes out in the
   order accepted and at most once. `same` says which addresses are one to the
   kernel.
   */
  ghost predicate NetDelivers(s: System, peers: seq<PeerEntry>, rules: seq<Rule>, p: PeerEntry, same: (Address, Address) -> bool) {
    && LogIsWire(s)
    && (forall k :: 0 <= k < |s.sent| && same(s.sent[k].to, p.local) ==>
          AddressedTo(s, rules, s.sent[k].receipt, p.id) && Genuine(peers, s.receipts[s.sent[k].receipt]))
    && forall j, k :: 0 <= j < k < |s.sent| && same(s.sent[j].to, p.local) && same(s.sent[k].to, p.local) ==>
         s.sent[j].receipt < s.sent[k].receipt
  }

  /** The router can accept a frame in the name of peer x. */
  ghost predicate Receivable(peers: seq<PeerEntry>, x: PeerEntry) {
    x in peers && (x.local.Shm? || D.Resolve(peers, D.SenderOf(x)) == x.id)
  }

  /** Some frame the router can accept goes to q. */
  ghost predicate Fed(peers: seq<PeerEntry>, rules: seq<Rule>, q: PeerEntry) {
    exists x, t: u16 :: Receivable(peers, x) && q.id in TargetsFor(rules, x.id, t)
  }

  /** Another datagram peer at p's address that some frame goes to. */
  ghost predicate Rival(peers: seq<PeerEntry>, rules: seq<Rule>, p: PeerEntry, q: PeerEntry, same: (Address, Address) -> bool) {
    q in peers && q.id != p.id && !q.local.Shm? && same(q.local, p.local) && Fed(peers, rules, q)
  }

  lemma {:induction false} ResolvedPeer(peers: seq<PeerEntry>, sender: D.Sender) returns (x: PeerEntry)
    requires D.Resolve(peers, sender) != ENDPOINT_INVALID
    ensures x in peers && x.id == D.Resolve(peers, sender) && !x.local.Shm? && D.SenderOf(x) == sender
  {
    if D.Answers(peers[0], sender) { x := peers[0]; } else { x := ResolvedPeer(peers[1..], sender); }
  }

  lemma GenuineIsReceivable(peers: seq<PeerEntry>, r: Receipt) returns (x: PeerEntry)
    requires Genuine(peers, r)
    ensures Receivable(peers, x) && x.id == r.source
  {
    match r.origin
    case FromNet(d) => x := ResolvedPeer(peers, d.sender);
    case FromRing(c, _) =>
      x := ShmPeers(peers)[c];
      ShmPeersAreThePeersOnShm(peers);
  }

  lemma NoRivalDelivers(s: System, peers: seq<PeerEntry>, rules: seq<Rule>, p: PeerEntry, same: (Address, Address) -> bool)
    requires NetInv(s, peers, rules) && DistinctIds(peers) && !exists q :: Rival(peers, rules, p, q, same)
    ensures NetDelivers(s, peers, rules, p, same)
  {
    forall k | 0 <= k < |s.sent| && same(s.sent[k].to, p.local)
      ensures s.sent[k].dest == p.id && WellSent(s, peers, rules, s.sent[k])
    {
      var x := s.sent[k];
      assert WellSent(s, peers, rules, x);
      var r := s.receipts[x.receipt];
      var source := GenuineIsReceivable(peers, r);
      var q := PeerById(peers, x.dest).value;
      assert q.id in TargetsFor(rules, source.id, Topic(r.frame));
      assert Fed(peers, rules, q);
      assert !Rival(peers, rules, p, q, same);
    }
  }

  // ----- a rival breaks it --------------------------------------------------

  /** A router that has accepted nothing yet, its rings as the bind left them. */
  ghost predicate Untouched(s: System, peers: seq<PeerEntry>) {
    && Shaped(s, peers) && s.receipts == [] && s.sent == []
    && (s.links.shm.Some? ==> s.links.shm.value.channels == ChannelsOf(peers))
  }

  /** A scan over empty rings gets as far as one likes. */
  lemma {:induction false} ScanFrom(s: System, peers: seq<PeerEntry>, rules: seq<Rule>, i: nat) returns (events: seq<Event>)
    requires Untouched(s, peers) && s.links.shm.Some? && s.pc.Polling? && s.pc.i <= i <= |Channels(s.links)|
    requires forall c :: c in ChannelsOf(peers) ==> c.inbound.queue == []
    ensures Run(s, peers, rules, events) == s.(pc := Polling(i, s.pc.ts))
    decreases i - s.pc.i
  {
    if i == s.pc.i {
      events := [];
    } else {
      var next := s.(pc := Polling(s.pc.i + 1, s.pc.ts));
      EmptyRingIsPassed(s, peers, rules);
      var more := ScanFrom(next, peers, rules, i);
      events := [PollNext] + more;
      RunFirst(s, peers, rules, PollNext, more);
    }
  }

  lemma ScanTo(s: System, peers: seq<PeerEntry>, rules: seq<Rule>, i: nat) returns (events: seq<Event>)
    requires Untouched(s, peers) && s.links.shm.Some? && s.pc == Idle && i <= |Channels(s.links)|
    requires forall c :: c in ChannelsOf(peers) ==> c.inbound.queue == []
    ensures Run(s, peers, rules, events) == s.(pc := Polling(i, 0))
  {
    var more := ScanFrom(s.(pc := Polling(0, 0)), peers, rules, i);
    events := [StartScan(0)] + more;
    RunFirst(s, peers, rules, StartScan(0), more);
  }

  lemma EmptyRingIsPassed(s: System, peers: seq<PeerEntry>, rules: seq<Rule>)
    requires Untouched(s, peers) && s.pc.Polling? && s.pc.i < |Channels(s.links)|
    requires forall c :: c in ChannelsOf(peers) ==> c.inbound.queue == []
    ensures Next(s, peers, rules, PollNext) == s.(pc := Polling(s.pc.i + 1, s.pc.ts))
  {
    assert Channels(s.links)[s.pc.i] in ChannelsOf(peers);
  }

  /** One frame on topic t is in the router's hands, from source x. */
  ghost predicate Holding(s: System, peers: seq<PeerEntry>, rules: seq<Rule>, x: PeerEntry, t: u16) {
    && Shaped(s, peers) && s.sent == [] && |s.receipts| == 1
    && s.receipts[0].source == x.id && Topic(s.receipts[0].frame) == t
    && s.pc == Fanning(TargetsFor(rules, x.id, t))
  }

  /** Publishing into an empty ring makes its channel ready. */
  lemma PublishMakesReady(s: System, peers: seq<PeerEntry>, rules: seq<Rule>, i: nat, t: u16)
    requires Untouched(s, peers) && i < |Channels(s.links)| && N.FreshlyBound(ChannelsOf(peers))
    ensures var s' := Next(s, peers, rules, Publish(i, N.FrameOn(t)));
            && s'.receipts == s.receipts && s'.sent == s.sent && s'.pc == s.pc && |Channels(s'.links)| == |Channels(s.links)|
            && var c := Channels(s'.links)[i];
            && c.peerId == ShmPeers(peers)[i].id != ENDPOINT_INVALID
            && S.PollChannel(c).Ready? && S.PollChannel(c).frame == N.FrameOn(t)
  {
    var c := Channels(s.links)[i];
    assert c in ChannelsOf(peers);
    var c' := Channels(DoPublish(s, peers, i, N.FrameOn(t)).links)[i];
    assert B.Clip(N.FrameOn(t), c.inbound.maxPayload) == N.FrameOn(t);
    assert [] + [N.FrameOn(t)] == [N.FrameOn(t)];
    assert c'.inbound.queue == [N.FrameOn(t)];
  }

  lemma ReadyIsHeld(s: System, peers: seq<PeerEntry>, rules: seq<Rule>, i: nat, x: PeerEntry, t: u16)
    requires Shaped(s, peers) && s.receipts == [] && s.sent == [] && s.pc == Polling(i, 0) && i < |Channels(s.links)|
    requires Channels(s.links)[i].peerId == x.id != ENDPOINT_INVALID
    requires S.PollChannel(Channels(s.links)[i]).Ready? && S.PollChannel(Channels(s.links)[i]).frame == N.FrameOn(t)
    ensures Holding(Next(s, peers, rules, PollNext), peers, rules, x, t)
  {
    N.FrameOnTopic(t, x.id, 0);
    PollAccepts(s, peers, rules, N.FrameOn(t));
  }

  lemma PollAccepts(s: System, peers: seq<PeerEntry>, rules: seq<Rule>, frame: FrameBytes)
    requires Shaped(s, peers) && s.pc.Polling? && s.pc.i < |Channels(s.links)|
    requires var c := Channels(s.links)[s.pc.i]; c.peerId != ENDPOINT_INVALID && S.PollChannel(c).Ready? && S.PollChannel(c).frame == frame
    ensures var s', id := Next(s, peers, rules, PollNext), Channels(s.links)[s.pc.i].peerId;
            var r := Receipt(FromRing(s.pc.i, frame), id, s.pc.ts, Stamp(frame, id, s.pc.ts));
            && s'.receipts == s.receipts + [r] && s'.sent == s.sent
            && s'.pc == Fanning(TargetsFor(rules, id, Topic(r.frame)))
  {
  }

  lemma HeldFromRing(s: System, peers: seq<PeerEntry>, rules: seq<Rule>, i: nat, t: u16)
    requires Untouched(s, peers) && s.pc == Polling(i, 0) && i < |Channels(s.links)| && N.FreshlyBound(ChannelsOf(peers))
    ensures Holding(Run(s, peers, rules, [Publish(i, N.FrameOn(t))] + [PollNext]), peers, rules, ShmPeers(peers)[i], t)
  {
    RunTwo(s, peers, rules, Publish(i, N.FrameOn(t)), PollNext);
    PublishMakesReady(s, peers, rules, i, t);
    var s1 := Next(s, peers, rules, Publish(i, N.FrameOn(t)));
    ReadyIsHeld(s1, peers, rules, i, ShmPeers(peers)[i], t);
  }

  lemma RunTwo(s: System, peers: seq<PeerEntry>, rules: seq<Rule>, a: Event, b: Event)
    requires Shaped(s, peers)
    ensures Run(s, peers, rules, [a] + [b]) == Next(Next(s, peers, rules, a), peers, rules, b)
  {
    RunFirst(s, peers, rules, a, [b]);
    assert [b] == [b] + [];
    RunFirst(Next(s, peers, rules, a), peers, rules, b, []);
  }

  lemma HoldFromRing(s: System, peers: seq<PeerEntry>, rules: seq<Rule>, i: nat, t: u16) returns (events: seq<Event>)
    requires Untouched(s, peers) && s.pc == Idle && i < |Channels(s.links)| && N.FreshlyBound(ChannelsOf(peers))
    ensures Holding(Run(s, peers, rules, events), peers, rules, ShmPeers(peers)[i], t)
  {
    var scan := ScanTo(s, peers, rules, i);
    events := scan + ([Publish(i, N.FrameOn(t))] + [PollNext]);
    RunAppend(s, peers, rules, scan, [Publish(i, N.FrameOn(t))] + [PollNext]);
    HeldFromRing(s.(pc := Polling(i, 0)), peers, rules, i, t);
  }

  lemma HeldFromNet(s: System, peers: seq<PeerEntry>, rules: seq<Rule>, x: PeerEntry, t: u16)
    requires Untouched(s, peers) && s.pc == Idle && Receivable(peers, x) && !x.local.Shm? && x.id != ENDPOINT_INVALID
    ensures Holding(Next(s, peers, rules, Arrive(TransportOf(x.local), 0, D.Datagram(N.FrameOn(t), D.SenderOf(x)))), peers, rules, x, t)
  {
    assert D.Landed(N.ZeroFrame(), N.FrameOn(t)) == N.FrameOn(t);
    N.FrameOnTopic(t, x.id, 0);
  }

  lemma Hold(s: System, peers: seq<PeerEntry>, rules: seq<Rule>, x: PeerEntry, t: u16) returns (events: seq<Event>)
    requires Untouched(s, peers) && s.pc == Idle && Receivable(peers, x) && x.id != ENDPOINT_INVALID
    requires N.FreshlyBound(ChannelsOf(peers))
    ensures Holding(Run(s, peers, rules, events), peers, rules, x, t)
  {
    if x.local.Shm? {
      ShmPeersAreThePeersOnShm(peers);
      var i :| 0 <= i < |ShmPeers(peers)| && ShmPeers(peers)[i] == x;
      events := HoldFromRing(s, peers, rules, i, t);
    } else {
      events := [Arrive(TransportOf(x.local), 0, D.Datagram(N.FrameOn(t), D.SenderOf(x)))];
      HeldFromNet(s, peers, rules, x, t);
    }
  }

  /** Every datagram peer among `targets` has got the newest receipt. */
  ghost predicate Served(s: System, peers: seq<PeerEntry>, targets: seq<byte>) {
    s.receipts != [] && forall q :: q in peers && !q.local.Shm? && q.id in targets ==> Sending(q.local, q.id, |s.receipts| - 1) in s.sent
  }

  lemma ServedWithFirst(s: System, next: System, later: System, peers: seq<PeerEntry>)
    requires DistinctIds(peers) && Sends(s, next, peers, true) && later.receipts == s.receipts && next.sent <= later.sent
    requires Served(later, peers, s.pc.rest[1..])
    ensures s.sent <= later.sent && Served(later, peers, s.pc.rest)
  {
    var rest, n := s.pc.rest, |s.receipts| - 1;
    forall q | q in peers && !q.local.Shm? && q.id in rest ensures Sending(q.local, q.id, n) in later.sent {
      if q.id == rest[0] {
        LeavesForPeer(peers, q);
        assert later.sent[|s.sent|] == next.sent[|s.sent|] == Sending(q.local, q.id, n);
      } else {
        assert q.id in rest[1..];
      }
    }
  }

  /** A kernel that takes everything: every datagram peer among the targets gets its datagram. */
  lemma {:induction false} FanOutReaches(s: System, peers: seq<PeerEntry>, rules: seq<Rule>) returns (events: seq<Event>)
    requires Shaped(s, peers) && DistinctIds(peers) && s.pc.Fanning?
    ensures var s' := Run(s, peers, rules, events);
            s'.receipts == s.receipts && s.sent <= s'.sent && Served(s', peers, s.pc.rest)
    decreases |s.pc.rest|
  {
    events := [];
    if s.pc.rest != [] {
      var next := Next(s, peers, rules, SendNext(true));
      SendingStep(s, peers, rules, true);
      var more := FanOutReaches(next, peers, rules);
      events := [SendNext(true)] + more;
      RunFirst(s, peers, rules, SendNext(true), more);
      ServedWithFirst(s, next, Run(next, peers, rules, more), peers);
    }
  }

  lemma LeavesForPeer(peers: seq<PeerEntry>, q: PeerEntry)
    requires DistinctIds(peers) && q in peers && !q.local.Shm?
    ensures LeavesByNet(peers, q.id, true) == Some(q.local)
  {
    M.IndexAgreesWithSearch(peers, q.id);
  }

  lemma RivalBreaks(s0: System, peers: seq<PeerEntry>, rules: seq<Rule>, p: PeerEntry, q: PeerEntry, same: (Address, Address) -> bool)
    returns (events: seq<Event>)
    requires Untouched(s0, peers) && s0.pc == Idle && N.FreshlyBound(ChannelsOf(peers)) && DistinctIds(peers)
    requires forall x :: x in peers ==> x.id != ENDPOINT_INVALID
    requires p in peers && !p.local.Shm? && same(p.local, p.local) && Rival(peers, rules, p, q, same)
    ensures !NetDelivers(Run(s0, peers, rules, events), peers, rules, p, same)
  {
    var x, t: u16 :| Receivable(peers, x) && q.id in TargetsFor(rules, x.id, t);
    var first := Hold(s0, peers, rules, x, t);
    var s1 := Run(s0, peers, rules, first);
    var more := FanOutReaches(s1, peers, rules);
    events := first + more;
    RunAppend(s0, peers, rules, first, more);
    var s := Run(s1, peers, rules, more);
    BrokenFor(s, peers, rules, p, q, same);
  }

  lemma BrokenFor(s: System, peers: seq<PeerEntry>, rules: seq<Rule>, p: PeerEntry, q: PeerEntry, same: (Address, Address) -> bool)
    requires q.id != p.id && same(p.local, p.local) && same(q.local, p.local) && |s.receipts| == 1
    requires Sending(q.local, q.id, 0) in s.sent
    requires AddressedTo(s, rules, 0, p.id) ==> Sending(p.local, p.id, 0) in s.sent
    ensures !NetDelivers(s, peers, rules, p, same)
  {
    var k :| 0 <= k < |s.sent| && s.sent[k] == Sending(q.local, q.id, 0);
    if AddressedTo(s, rules, 0, p.id) {
      var j :| 0 <= j < |s.sent| && s.sent[j] == Sending(p.local, p.id, 0);
      assert j < k || k < j;
    }
  }

  /**
   Delivery per address, exactly. What the router hands to the kernel for a
   datagram peer's address is, in every run, p's own stream, in order and without
   duplicates, if and only if no other datagram peer at that address can be sent
   anything.
   */
  lemma NetDeliveryIff(s0: System, peers: seq<PeerEntry>, rules: seq<Rule>, p: PeerEntry, same: (Address, Address) -> bool)
    requires Booted(s0, peers) && N.FreshlyBound(ChannelsOf(peers)) && DistinctIds(peers) && R.DistinctTargets(rules)
    requires forall x :: x in peers ==> x.id != ENDPOINT_INVALID
    requires p in peers && !p.local.Shm? && same(p.local, p.local)
    ensures (forall events: seq<Event> :: NetDelivers(Run(s0, peers, rules, events), peers, rules, p, same))
       <==> !exists q :: Rival(peers, rules, p, q, same)
  {
    if q :| Rival(peers, rules, p, q, same) {
      var events := RivalBreaks(s0, peers, rules, p, q, same);
      assert !NetDelivers(Run(s0, peers, rules, events), peers, rules, p, same);
    } else {
      forall events: seq<Event> ensures NetDelivers(Run(s0, peers, rules, events), peers, rules, p, same) {
        NetRun(s0, peers, rules, events);
        NoRivalDelivers(Run(s0, peers, rules, events), peers, rules, p, same);
      }
    }
  }

  /** The same for the tables of an accepted profile. */
  lemma AcceptedProfileByNet(p: L.Profile, peers: seq<PeerEntry>, rules: seq<Rule>, topics: seq<TopicEntry>,
                             sidebands: seq<SidebandRegion>, ranges: seq<(nat, nat)>, s0: System, peer: PeerEntry,
                             same: (Address, Address) -> bool)
    requires L.ValidProfile(p) && L.Denotes(p, peers, rules, topics, sidebands, ranges) && Booted(s0, peers)
    requires peer in peers && !peer.local.Shm? && same(peer.local, peer.local)
    ensures (forall events: seq<Event> :: NetDelivers(Run(s0, peers, rules, events), peers, rules, peer, same))
       <==> !exists q :: Rival(peers, rules, peer, q, same)
  {
    LoadedTablesAreSafe(p, peers, rules, topics, sidebands, ranges);
    NetDeliveryIff(s0, peers, rules, peer, same);
  }

  // ----- an accepted profile with two peers at one address -------------------

  function UdsPeerTable(id: L.int64, path: string): L.PeerTable {
    L.PeerTable(Some(id), Some("peer"), L.Parsed(Uds(path)), None, None, [])
  }

  /** Peer 1 on its own path, peers 2 and 3 on one path, and a route from 1 to both. */
  function OnePathProfile(): L.Profile {
    L.Profile(Some(UDS_ROUTER),
              [Some(UdsPeerTable(1, "/a")), Some(UdsPeerTable(2, "/b")), Some(UdsPeerTable(3, "/b"))],
              [Some(L.RouteTable(Some(1), [Some(2), Some(3)], None))], [])
  }

  function OnePathPeers(): seq<PeerEntry> {
    [PeerEntry(1, "peer", Uds("/a"), 0, 0), PeerEntry(2, "peer", Uds("/b"), 0, 0), PeerEntry(3, "peer", Uds("/b"), 0, 0)]
  }

  lemma OnePathPeersAreValid()
    ensures var ts := OnePathProfile().peers; L.ValidPeers(ts) && L.PeersOf(ts) == OnePathPeers()
  {
    var ts := OnePathProfile().peers;
    assert L.ValidPeer(ts[0]) && L.ValidPeer(ts[1]) && L.ValidPeer(ts[2]);
  }

  lemma OnePathRouteIsValid()
    ensures var t := Some(L.RouteTable(Some(1), [Some(2), Some(3)], None));
            L.ValidRoute(t, OnePathPeers()) && L.RuleOf(t, OnePathPeers()) == Rule(1, TOPIC_ANY, [2, 3])
  {
    var peers := OnePathPeers();
    assert peers[0] in peers && peers[1] in peers && peers[2] in peers;
  }

  lemma OnePathProfileIsAccepted()
    ensures L.ValidProfile(OnePathProfile())
    ensures L.Denotes(OnePathProfile(), OnePathPeers(), [Rule(1, TOPIC_ANY, [2, 3])], [],
                      L.AllRegions(OnePathProfile().peers), L.RangesOf(OnePathProfile().peers))
  {
    OnePathPeersAreValid();
    OnePathRouteIsValid();
    OneRouteIsValid(OnePathProfile(), L.RouteTable(Some(1), [Some(2), Some(3)], None));
    OneRouteDenotes(OnePathProfile(), L.RouteTable(Some(1), [Some(2), Some(3)], None), OnePathPeers());
  }

  lemma OnePathRival(same: (Address, Address) -> bool)
    requires same(Uds("/b"), Uds("/b"))
    ensures var peers := OnePathPeers(); Rival(peers, [Rule(1, TOPIC_ANY, [2, 3])], peers[1], peers[2], same)
  {
    var peers, rules := OnePathPeers(), [Rule(1, TOPIC_ANY, [2, 3])];
    assert peers[0] in peers && peers[2] in peers;
    assert Receivable(peers, peers[0]);
    assert TargetsFor(rules, 1, 0) == [2, 3];
  }

  /** The accepted profile above: some run breaks the stream of peer 2, because peer 3 is sent to the same path. */
  lemma OnePathBreaks(s0: System) returns (events: seq<Event>)
    requires Booted(s0, OnePathPeers())
    ensures !NetDelivers(Run(s0, OnePathPeers(), [Rule(1, TOPIC_ANY, [2, 3])], events), OnePathPeers(), [Rule(1, TOPIC_ANY, [2, 3])],
                         OnePathPeers()[1], (a, b) => a == b)
  {
    var peers, rules, same := OnePathPeers(), [Rule(1, TOPIC_ANY, [2, 3])], (a: Address, b: Address) => a == b;
    OnePathProfileIsAccepted();
    LoadedTablesAreSafe(OnePathProfile(), peers, rules, [], L.AllRegions(OnePathProfile().peers), L.RangesOf(OnePathProfile().peers));
    assert peers[1] in peers;
    OnePathRival(same);
    events := RivalBreaks(s0, peers, rules, peers[1], peers[2], same);
  }
}
