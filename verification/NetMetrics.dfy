/**
 What the mixed router's datagram links count. Every datagram that comes in is
 counted as truncated, counted as of unknown source, or accepted; every datagram
 that goes out is counted as forwarded.
 */
module NetMetrics {
  import opened Bytes
  import opened Frame
  import opened Routing
  import opened Topology
  import opened Deployment
  import opened MixedRuns
  import M = MixedRouter
  import S = ShmRouter
  import D = DatagramLink
  import N = SharedRegions
  import L = Loader

  // ----- what the counters should be, from the log alone ---------------------

  /** Datagrams below 64 bytes that came in on one transport. */
  function ShortHeard(heard: seq<Heard>, via: Transport): nat {
    if heard == [] then 0
    else
      var last := heard[|heard| - 1];
      ShortHeard(heard[..|heard| - 1], via) + if last.via == via && |last.datagram.bytes| < 64 then 1 else 0
  }

  /** Some peer answers to the sender. */
  ghost predicate Known(peers: seq<PeerEntry>, sender: D.Sender) { exists p :: p in peers && D.Answers(p, sender) }

  /** Whole frames from nobody in the table. */
  ghost function StrangersHeard(heard: seq<Heard>, via: Transport, peers: seq<PeerEntry>): nat {
    if heard == [] then 0
    else
      var last := heard[|heard| - 1];
      StrangersHeard(heard[..|heard| - 1], via, peers)
      + if last.via == via && |last.datagram.bytes| >= 64 && !Known(peers, last.datagram.sender) then 1 else 0
  }

  /** Whole frames from a peer, in the order they came. */
  ghost function FramesHeard(heard: seq<Heard>, peers: seq<PeerEntry>): seq<D.Datagram> {
    if heard == [] then []
    else
      var last := heard[|heard| - 1];
      FramesHeard(heard[..|heard| - 1], peers)
      + if |last.datagram.bytes| >= 64 && Known(peers, last.datagram.sender) then [last.datagram] else []
  }

  /** The datagrams among the accepted frames. */
  function FromTheNet(receipts: seq<Receipt>): seq<D.Datagram> {
    if receipts == [] then []
    else
      var last := receipts[|receipts| - 1];
      FromTheNet(receipts[..|receipts| - 1]) + if last.origin.FromNet? then [last.origin.datagram] else []
  }

  ghost predicate LinkCounted(l: Option<D.Link>, heard: seq<Heard>, via: Transport, peers: seq<PeerEntry>) {
    l.Some? ==>
      && l.value.metrics.recvTruncated == ShortHeard(heard, via)
      && l.value.metrics.recvUnknownSource == StrangersHeard(heard, via, peers)
      && l.value.metrics.forwarded == |l.value.wire|
  }

  ghost predicate NetCounted(s: System, peers: seq<PeerEntry>) {
    && LinkCounted(s.links.uds, s.heard, UdsPath, peers)
    && LinkCounted(s.links.udp, s.heard, UdpEndpoint, peers)
    && FromTheNet(s.receipts) == FramesHeard(s.heard, peers)
  }

  // ----- steps ----------------------------------------------------------------

  lemma {:induction false} KnownIsResolved(peers: seq<PeerEntry>, sender: D.Sender)
    requires forall p :: p in peers ==> p.id != ENDPOINT_INVALID
    ensures Known(peers, sender) <==> D.Resolve(peers, sender) != ENDPOINT_INVALID
  {
    if peers != [] {
      assert forall p :: p in peers <==> p == peers[0] || p in peers[1..];
      KnownIsResolved(peers[1..], sender);
      if D.Answers(peers[0], sender) {
        assert peers[0] in peers;
      } else if Known(peers, sender) {
        var p :| p in peers && D.Answers(p, sender);
        assert p in peers[1..];
      }
    }
  }

  lemma HeardSnoc(heard: seq<Heard>, x: Heard, via: Transport, peers: seq<PeerEntry>)
    ensures var h := heard + [x];
            && ShortHeard(h, via) == ShortHeard(heard, via) + (if x.via == via && |x.datagram.bytes| < 64 then 1 else 0)
            && StrangersHeard(h, via, peers)
               == StrangersHeard(heard, via, peers)
                + (if x.via == via && |x.datagram.bytes| >= 64 && !Known(peers, x.datagram.sender) then 1 else 0)
            && FramesHeard(h, peers)
               == FramesHeard(heard, peers)
                + if |x.datagram.bytes| >= 64 && Known(peers, x.datagram.sender) then [x.datagram] else []
  {
    assert (heard + [x])[..|heard|] == heard;
  }

  lemma ReceiptSnoc(receipts: seq<Receipt>, r: Receipt)
    ensures FromTheNet(receipts + [r]) == FromTheNet(receipts) + if r.origin.FromNet? then [r.origin.datagram] else []
  {
    assert (receipts + [r])[..|receipts|] == receipts;
  }

  lemma ArriveCounts(s: System, peers: seq<PeerEntry>, rules: seq<Rule>, which: Transport, ts: u64, d: D.Datagram)
    requires Shaped(s, peers) && NetCounted(s, peers) && forall p :: p in peers ==> p.id != ENDPOINT_INVALID
    ensures NetCounted(DoArrive(s, peers, rules, which, ts, d), peers)
  {
    if s.pc == Idle && which != ShmRing && M.Linked(s.links, which) {
      var x, got := Heard(which, d), M.ReceiveOn(s.links, peers, which, ts, N.ZeroFrame(), Some(d));
      LinkHears(s.links.uds, s.heard, UdsPath, peers, x, ts);
      LinkHears(s.links.udp, s.heard, UdpEndpoint, peers, x, ts);
      HeardSnoc(s.heard, x, which, peers);
      KnownIsResolved(peers, d.sender);
      if got.source != ENDPOINT_INVALID {
        ReceiptSnoc(s.receipts, Receipt(FromNet(d), got.source, ts, got.frame));
      }
    }
  }

  /** One more datagram, seen by one link: counted if it is this link's. */
  lemma LinkHears(l: Option<D.Link>, heard: seq<Heard>, via: Transport, peers: seq<PeerEntry>, x: Heard, ts: u64)
    requires LinkCounted(l, heard, via, peers) && forall p :: p in peers ==> p.id != ENDPOINT_INVALID
    ensures l.Some? ==>
              LinkCounted(Some(if x.via == via then D.Accept(l.value, peers, x.datagram, ts, N.ZeroFrame()).0 else l.value),
                          heard + [x], via, peers)
  {
    HeardSnoc(heard, x, via, peers);
    KnownIsResolved(peers, x.datagram.sender);
  }

  /** The datagram links' counters are as before, or one more datagram went out and was counted. */
  ghost predicate Outward(l: Option<D.Link>, l': Option<D.Link>) {
    && l'.Some? == l.Some?
    && (l.Some? ==>
          && l'.value.metrics.recvTruncated == l.value.metrics.recvTruncated
          && l'.value.metrics.recvUnknownSource == l.value.metrics.recvUnknownSource
          && l'.value.metrics.forwarded - |l'.value.wire| == l.value.metrics.forwarded - |l.value.wire|)
  }

  ghost predicate HearsNothing(s: System, s': System) {
    && Outward(s.links.uds, s'.links.uds) && Outward(s.links.udp, s'.links.udp) && s'.heard == s.heard
    && (s'.receipts == s.receipts
        || (|s'.receipts| == |s.receipts| + 1 && s.receipts <= s'.receipts && s'.receipts[|s.receipts|].origin.FromRing?))
  }

  lemma HearingNothingCounts(s: System, s': System, peers: seq<PeerEntry>)
    requires NetCounted(s, peers) && HearsNothing(s, s')
    ensures NetCounted(s', peers)
  {
    if s'.receipts != s.receipts {
      ReceiptSnoc(s.receipts, s'.receipts[|s.receipts|]);
      assert s'.receipts == s.receipts + [s'.receipts[|s.receipts|]];
    }
  }

  lemma SendHearsNothing(s: System, peers: seq<PeerEntry>, ok: bool)
    requires Shaped(s, peers) && s.pc.Fanning? && s.pc.rest != []
    ensures HearsNothing(s, DoSend(s, peers, ok))
  {
    SendOutward(s.links, peers, s.pc.rest[0], InHand(s), ok);
    SendKeepsReceipts(s, peers, ok);
  }

  lemma SendOutward(ls: M.Links, peers: seq<PeerEntry>, dest: byte, frame: FrameBytes, ok: bool)
    requires M.Fits(ls, peers)
    ensures var ls' := M.Send(ls, peers, dest, frame, ok).0; Outward(ls.uds, ls'.uds) && Outward(ls.udp, ls'.udp)
  {
  }

  lemma SendKeepsReceipts(s: System, peers: seq<PeerEntry>, ok: bool)
    requires Shaped(s, peers) && s.pc.Fanning? && s.pc.rest != []
    ensures var ls, s' := M.Send(s.links, peers, s.pc.rest[0], InHand(s), ok).0, DoSend(s, peers, ok);
            s'.links.uds == ls.uds && s'.links.udp == ls.udp && s'.heard == s.heard && s'.receipts == s.receipts
  {
  }

  lemma PollHearsNothing(s: System, peers: seq<PeerEntry>, rules: seq<Rule>)
    requires Shaped(s, peers) && s.pc.Polling? && s.pc.i < |Channels(s.links)|
    ensures HearsNothing(s, DoPoll(s, peers, rules))
  {
  }

  lemma OtherStepHearsNothing(s: System, peers: seq<PeerEntry>, rules: seq<Rule>, e: Event)
    requires Shaped(s, peers) && !e.Arrive?
    ensures HearsNothing(s, Next(s, peers, rules, e))
  {
    if e.SendNext? && s.pc.Fanning? && s.pc.rest != [] {
      SendHearsNothing(s, peers, e.ok);
    } else if e.PollNext? && s.pc.Polling? && s.pc.i < |Channels(s.links)| {
      PollHearsNothing(s, peers, rules);
    }
  }

  /**
   The datagram counters in every mixed run: recv_truncated counts the datagrams
   below 64 bytes that link heard, recv_unknown_source the whole ones no peer
   answers to, and the rest are exactly the datagrams accepted, in the order they
   came; forwarded counts the datagrams that went out.
   */
  lemma {:induction false} NetCounters(s: System, peers: seq<PeerEntry>, rules: seq<Rule>, events: seq<Event>)
    requires Shaped(s, peers) && NetCounted(s, peers) && forall p :: p in peers ==> p.id != ENDPOINT_INVALID
    ensures NetCounted(Run(s, peers, rules, events), peers)
    decreases |events|
  {
    if events != [] {
      var next := Next(s, peers, rules, events[0]);
      if events[0].Arrive? {
        ArriveCounts(s, peers, rules, events[0].which, events[0].ts, events[0].datagram);
      } else {
        OtherStepHearsNothing(s, peers, rules, events[0]);
        HearingNothingCounts(s, next, peers);
      }
      NetCounters(next, peers, rules, events[1..]);
    }
  }

  /** From acceptance: the same in every run after the bind. */
  lemma AcceptedNetCounters(p: L.Profile, peers: seq<PeerEntry>, rules: seq<Rule>, topics: seq<TopicEntry>,
                            sidebands: seq<SidebandRegion>, ranges: seq<(nat, nat)>, s0: System, events: seq<Event>)
    requires L.ValidProfile(p) && L.Denotes(p, peers, rules, topics, sidebands, ranges) && Booted(s0, peers)
    ensures NetCounted(Run(s0, peers, rules, events), peers)
  {
    LoadedTablesAreSafe(p, peers, rules, topics, sidebands, ranges);
    NetCounters(s0, peers, rules, events);
  }
}
