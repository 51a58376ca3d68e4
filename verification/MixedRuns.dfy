/**
 Whole runs of the mixed router, one ring operation or datagram at a time: SHM
 peers act between any two operations of a poll, and datagrams may arrive on
 any link. Every frame the router accepts, from a ring or from a socket, gets a
 receipt; the logs say which receipts were put into which SHM ring.
 */
module MixedRuns {
  import opened Bytes
  import opened BoundedFifo
  import opened Frame
  import opened Routing
  import opened Topology
  import opened Deployment
  import M = MixedRouter
  import S = ShmRouter
  import C = RouterConservation
  import D = DatagramLink
  import N = SharedRegions
  import R = RouterRuns
  import L = Loader

  datatype Origin = FromRing(channel: nat, record: Record) | FromNet(datagram: D.Datagram)

  datatype Receipt = Receipt(origin: Origin, source: byte, ts: u64, frame: FrameBytes)

  datatype Pc =
    | Idle
    | Polling(i: nat, ts: u64)
    | Fanning(rest: seq<byte>)           // the newest receipt is being fanned out

  /** A datagram: its address, the target it was for and the receipt it carried. */
  datatype Sending = Sending(to: Address, dest: byte, receipt: nat)

  datatype Heard = Heard(via: Transport, datagram: D.Datagram)

  datatype System = System(
    links: M.Links,
    pc: Pc,
    receipts: seq<Receipt>,
    copies: seq<seq<nat>>,               // per SHM channel: receipts put into its outbound ring
    taken: seq<seq<Record>>,             // per SHM channel: records its peer popped
    sent: seq<Sending>,                  // datagrams the kernel took, in order
    heard: seq<Heard>,                   // datagrams that came in, in order
    drops: seq<S.Drop<nat>>,             // copies an SHM ring refused, with their receipts, in order
    asked: nat,                          // sum over receipts of the number of targets
    refused: nat                         // targets given up because the kernel refused a datagram
  )

  datatype Event =
    | Arrive(which: Transport, ts: u64, datagram: D.Datagram)
    | StartScan(ts: u64)
    | PollNext
    | SendNext(ok: bool)
    | Publish(k: nat, payload: seq<byte>)
    | Take(k: nat)
    | SetFloor(floor: byte)

  function Channels(ls: M.Links): seq<S.Channel> { if ls.shm.None? then [] else ls.shm.value.channels }

  ghost predicate Shaped(s: System, peers: seq<PeerEntry>) {
    && M.Fits(s.links, peers)
    && |s.copies| == |s.taken| == |Channels(s.links)|
    && (s.pc.Polling? ==> s.links.shm.Some? && s.pc.i <= |Channels(s.links)|)
    && (s.pc.Fanning? ==> s.receipts != [])
  }

  // ----- transitions --------------------------------------------------------

  /** One channel's rings have changed: everything on its region sees it. */
  function Settle(ls: M.Links, peers: seq<PeerEntry>, k: nat, c: S.Channel): (r: M.Links)
    requires M.Fits(ls, peers) && k < |Channels(ls)| && c.peerId == Channels(ls)[k].peerId
    ensures M.Fits(r, peers) && |Channels(r)| == |Channels(ls)| && r.shm.Some? == ls.shm.Some?
    ensures r.Forwarded() == ls.Forwarded() && r.DroppedFull() == ls.DroppedFull()
    ensures r.uds == ls.uds && r.udp == ls.udp && r.shm.value.metrics == ls.shm.value.metrics
    ensures forall j :: 0 <= j < |Channels(ls)| ==> Channels(r)[j].peerId == Channels(ls)[j].peerId
  {
    var cs := ls.shm.value.channels[k := c];
    ls.(shm := Some(ls.shm.value.(channels := N.Sync(cs, NamesOf(peers), k))))
  }

  function Accepted(s: System, rules: seq<Rule>, r: Receipt): System {
    var targets := TargetsFor(rules, r.source, Topic(r.frame));
    s.(receipts := s.receipts + [r], pc := Fanning(targets), asked := s.asked + |targets|)
  }

  function DoArrive(s: System, peers: seq<PeerEntry>, rules: seq<Rule>, which: Transport, ts: u64, d: D.Datagram): (r: System)
    requires Shaped(s, peers)
    ensures Shaped(r, peers)
  {
    if s.pc != Idle || which == ShmRing || !M.Linked(s.links, which) then s
    else
      M.ReceiveFacts(s.links, peers, which, ts, N.ZeroFrame(), Some(d));
      var got := M.ReceiveOn(s.links, peers, which, ts, N.ZeroFrame(), Some(d));
      var s' := s.(links := got.links, heard := s.heard + [Heard(which, d)]);
      if got.source == ENDPOINT_INVALID then s' else Accepted(s', rules, Receipt(FromNet(d), got.source, ts, got.frame))
  }

  function DoPoll(s: System, peers: seq<PeerEntry>, rules: seq<Rule>): (r: System)
    requires Shaped(s, peers) && s.pc.Polling? && s.pc.i < |Channels(s.links)|
    ensures Shaped(r, peers)
  {
    var Polling(i, ts) := s.pc;
    var c := Channels(s.links)[i];
    match S.PollChannel(c)
    case NotReady => s.(pc := Polling(i + 1, ts))
    case TooLong => s.(pc := Idle)
    case Short(rest, _) =>
      var ls := Settle(s.links, peers, i, c.(inbound := rest));
      s.(links := CountTruncated(ls), pc := Polling(i + 1, ts))
    case Ready(rest, frame) =>
      var s' := s.(links := Settle(s.links, peers, i, c.(inbound := rest)), pc := Idle);
      if c.peerId == ENDPOINT_INVALID then s'
      else Accepted(s', rules, Receipt(FromRing(i, frame), c.peerId, ts, Stamp(frame, c.peerId, ts)))
  }

  function CountTruncated(ls: M.Links): M.Links {
    if ls.shm.None? then ls
    else ls.(shm := Some(ls.shm.value.(metrics := ls.shm.value.metrics.(recvTruncated := ls.shm.value.metrics.recvTruncated + 1))))
  }

  /** The SHM channel a send to `dest` would put the frame into, if it is admitted. */
  function EntersRing(ls: M.Links, peers: seq<PeerEntry>, dest: byte, frame: FrameBytes): (r: Option<nat>)
    requires M.Fits(ls, peers)
    ensures r.Some? ==> r.value < |Channels(ls)| && r.value == S.Find(Channels(ls), dest)
  {
    if M.LastTransport(peers, dest) != Some(ShmRing) || ls.shm.None? then None
    else if S.SendTo(ls.shm.value, dest, frame).1 != S.Enqueued then None
    else Some(S.Find(ls.shm.value.channels, dest))
  }

  /** A send to `dest` is shed or finds its ring full. */
  predicate Refuses(ls: M.Links, peers: seq<PeerEntry>, dest: byte, frame: FrameBytes)
    requires M.Fits(ls, peers)
  {
    M.LastTransport(peers, dest) == Some(ShmRing) && ls.shm.Some? && S.SendTo(ls.shm.value, dest, frame).1 == S.Dropped
  }

  /** The address a send to `dest` puts a datagram on the wire for, if the kernel takes it. */
  function LeavesByNet(peers: seq<PeerEntry>, dest: byte, ok: bool): Option<Address> {
    if !ok || M.LastTransport(peers, dest) == Some(ShmRing) then None
    else match PeerById(peers, dest)
      case None => None
      case Some(p) => if p.local.Shm? then None else Some(p.local)
  }

  function Logged(sent: seq<Sending>, to: Option<Address>, dest: byte, n: nat): seq<Sending> {
    if to.None? then sent else sent + [Sending(to.value, dest, n)]
  }

  function DoSend(s: System, peers: seq<PeerEntry>, ok: bool): (r: System)
    requires Shaped(s, peers) && s.pc.Fanning? && s.pc.rest != []
    ensures Shaped(r, peers)
  {
    var dest, n := s.pc.rest[0], |s.receipts| - 1;
    var frame := s.receipts[n].frame;
    M.SendFits(s.links, peers, dest, frame, ok);
    var (ls, o) := M.Send(s.links, peers, dest, frame, ok);
    if o == M.Raised then s.(links := ls, pc := Idle, refused := s.refused + |s.pc.rest|)
    else
      var next := s.(pc := Fanning(s.pc.rest[1..]), sent := Logged(s.sent, LeavesByNet(peers, dest, ok), dest, n),
                      drops := AfterRefusal(s.links, peers, s.drops, dest, frame, n));
      match EntersRing(s.links, peers, dest, frame)
      case None => next.(links := ls)
      case Some(k) => next.(links := Settle(ls, peers, k, Channels(ls)[k]), copies := s.copies[k := s.copies[k] + [n]])
  }

  function DoPublish(s: System, peers: seq<PeerEntry>, k: nat, payload: seq<byte>): (r: System)
    requires Shaped(s, peers) && k < |Channels(s.links)|
    ensures Shaped(r, peers)
  {
    var c := Channels(s.links)[k];
    s.(links := Settle(s.links, peers, k, c.(inbound := Push(c.inbound, payload))))
  }

  function DoTake(s: System, peers: seq<PeerEntry>, k: nat): (r: System)
    requires Shaped(s, peers) && k < |Channels(s.links)|
    ensures Shaped(r, peers)
  {
    var c := Channels(s.links)[k];
    match Pop(c.outbound, FRAME_SIZE)
    case Popped(record, rest) =>
      s.(links := Settle(s.links, peers, k, c.(outbound := rest)), taken := s.taken[k := s.taken[k] + [record]])
    case _ => s
  }

  function Next(s: System, peers: seq<PeerEntry>, rules: seq<Rule>, e: Event): (r: System)
    requires Shaped(s, peers)
    ensures Shaped(r, peers)
  {
    match e
    case Arrive(which, ts, d) => DoArrive(s, peers, rules, which, ts, d)
    case StartScan(ts) => if s.pc == Idle && s.links.shm.Some? then s.(pc := Polling(0, ts)) else s
    case PollNext =>
      if !s.pc.Polling? then s
      else if s.pc.i == |Channels(s.links)| then s.(pc := Idle) else DoPoll(s, peers, rules)
    case SendNext(ok) =>
      if !s.pc.Fanning? then s else if s.pc.rest == [] then s.(pc := Idle) else DoSend(s, peers, ok)
    case Publish(k, payload) => if k < |Channels(s.links)| then DoPublish(s, peers, k, payload) else s
    case Take(k) => if k < |Channels(s.links)| then DoTake(s, peers, k) else s
    case SetFloor(f) => if s.links.shm.None? then s else s.(links := s.links.(shm := Some(s.links.shm.value.(floor := f))))
  }

  function Run(s: System, peers: seq<PeerEntry>, rules: seq<Rule>, events: seq<Event>): (r: System)
    requires Shaped(s, peers)
    ensures Shaped(r, peers)
    decreases |events|
  {
    if events == [] then s else Run(Next(s, peers, rules, events[0]), peers, rules, events[1..])
  }

  // ----- conservation over any run ------------------------------------------

  function Pending(pc: Pc): nat { if pc.Fanning? then |pc.rest| else 0 }

  /** Every target asked for is forwarded, dropped on a full ring, refused by the kernel or still to be sent. */
  ghost predicate Balanced(s: System) {
    s.links.Forwarded() + s.links.DroppedFull() + s.refused + Pending(s.pc) == s.asked
  }

  ghost predicate RestArePeers(s: System, peers: seq<PeerEntry>) { s.pc.Fanning? ==> M.AllPeers(peers, s.pc.rest) }

  lemma ArriveBalances(s: System, peers: seq<PeerEntry>, rules: seq<Rule>, which: Transport, ts: u64, d: D.Datagram)
    requires Shaped(s, peers) && RulesOverPeers(rules, peers) && Balanced(s) && RestArePeers(s, peers)
    ensures var s' := DoArrive(s, peers, rules, which, ts, d); Balanced(s') && RestArePeers(s', peers) && s'.refused == s.refused
  {
    if s.pc == Idle && which != ShmRing && M.Linked(s.links, which) {
      M.ReceiveFacts(s.links, peers, which, ts, N.ZeroFrame(), Some(d));
      var got := M.ReceiveOn(s.links, peers, which, ts, N.ZeroFrame(), Some(d));
      AcceptBalances(s.(links := got.links, heard := s.heard + [Heard(which, d)]), peers, rules, Receipt(FromNet(d), got.source, ts, got.frame));
    }
  }

  lemma AcceptBalances(s: System, peers: seq<PeerEntry>, rules: seq<Rule>, r: Receipt)
    requires RulesOverPeers(rules, peers) && Balanced(s) && s.pc == Idle
    ensures var s' := Accepted(s, rules, r); Balanced(s') && RestArePeers(s', peers) && s'.refused == s.refused
  {
    M.TargetsArePeers(rules, peers, r.source, Topic(r.frame));
  }

  lemma PollBalances(s: System, peers: seq<PeerEntry>, rules: seq<Rule>)
    requires Shaped(s, peers) && RulesOverPeers(rules, peers) && Balanced(s)
    requires s.pc.Polling? && s.pc.i < |Channels(s.links)|
    ensures var s' := DoPoll(s, peers, rules); Balanced(s') && RestArePeers(s', peers) && s'.refused == s.refused
  {
    match S.PollChannel(Channels(s.links)[s.pc.i])
    case Ready(rest, frame) => PopBalances(s, peers, rules, rest, frame);
    case _ =>
  }

  lemma PopBalances(s: System, peers: seq<PeerEntry>, rules: seq<Rule>, rest: Fifo, frame: FrameBytes)
    requires Shaped(s, peers) && RulesOverPeers(rules, peers) && Balanced(s)
    requires s.pc.Polling? && s.pc.i < |Channels(s.links)| && S.PollChannel(Channels(s.links)[s.pc.i]) == S.Ready(rest, frame)
    ensures var s' := DoPoll(s, peers, rules); Balanced(s') && RestArePeers(s', peers) && s'.refused == s.refused
  {
    var Polling(i, ts) := s.pc;
    var c := Channels(s.links)[i];
    var s' := s.(links := Settle(s.links, peers, i, c.(inbound := rest)), pc := Idle);
    AcceptBalances(s', peers, rules, Receipt(FromRing(i, frame), c.peerId, ts, Stamp(frame, c.peerId, ts)));
  }

  lemma SendBalances(s: System, peers: seq<PeerEntry>, ok: bool)
    requires Shaped(s, peers) && DistinctIds(peers) && Balanced(s) && RestArePeers(s, peers)
    requires s.pc.Fanning? && s.pc.rest != []
    ensures var s' := DoSend(s, peers, ok); Balanced(s') && RestArePeers(s', peers) && (ok ==> s'.refused == s.refused)
  {
    M.SendReachesItsPeer(s.links, peers, s.pc.rest[0], s.receipts[|s.receipts| - 1].frame, ok);
    M.OtherTargetsArePeers(peers, s.pc.rest);
    SendCounts(s, peers, ok);
  }

  /** A send is the links' send as far as the counters go. */
  lemma SendCounts(s: System, peers: seq<PeerEntry>, ok: bool)
    requires Shaped(s, peers) && s.pc.Fanning? && s.pc.rest != []
    ensures var s', (ls, o) := DoSend(s, peers, ok), M.Send(s.links, peers, s.pc.rest[0], s.receipts[|s.receipts| - 1].frame, ok);
            && s'.links.Forwarded() == ls.Forwarded() && s'.links.DroppedFull() == ls.DroppedFull() && s'.asked == s.asked
            && s'.pc == (if o == M.Raised then Idle else Fanning(s.pc.rest[1..]))
            && s'.refused == s.refused + if o == M.Raised then |s.pc.rest| else 0
  {
  }

  /** The kernel takes the datagram of this event. */
  predicate Willing(e: Event) { e.SendNext? ==> e.ok }

  lemma StepBalances(s: System, peers: seq<PeerEntry>, rules: seq<Rule>, e: Event)
    requires Shaped(s, peers) && DistinctIds(peers) && RulesOverPeers(rules, peers) && Balanced(s) && RestArePeers(s, peers)
    ensures var s' := Next(s, peers, rules, e);
            Balanced(s') && RestArePeers(s', peers) && (Willing(e) ==> s'.refused == s.refused)
  {
    match e
    case Arrive(which, ts, d) => ArriveBalances(s, peers, rules, which, ts, d);
    case PollNext => if s.pc.Polling? && s.pc.i < |Channels(s.links)| { PollBalances(s, peers, rules); }
    case SendNext(ok) => if s.pc.Fanning? && s.pc.rest != [] { SendBalances(s, peers, ok); }
    case StartScan(_) =>
    case SetFloor(_) =>
    case Publish(k, payload) => if k < |Channels(s.links)| { PublishCounts(s, peers, k, payload); }
    case Take(k) => if k < |Channels(s.links)| { TakeCounts(s, peers, k); }
  }

  ghost predicate SameTotals(s: System, s': System) {
    && s'.links.Forwarded() == s.links.Forwarded() && s'.links.DroppedFull() == s.links.DroppedFull()
    && s'.asked == s.asked && s'.refused == s.refused && s'.pc == s.pc
  }

  lemma PublishCounts(s: System, peers: seq<PeerEntry>, k: nat, payload: seq<byte>)
    requires Shaped(s, peers) && k < |Channels(s.links)|
    ensures SameTotals(s, DoPublish(s, peers, k, payload))
  {
  }

  lemma TakeCounts(s: System, peers: seq<PeerEntry>, k: nat)
    requires Shaped(s, peers) && k < |Channels(s.links)|
    ensures SameTotals(s, DoTake(s, peers, k))
  {
  }

  /**
   Conservation in every mixed run, whatever the peers do between the router's
   steps and whatever regions they share: across all links, forwarded +
   dropped_full + refused + still-to-send is exactly the egress the accepted
   frames asked for, and a kernel that takes every datagram refuses nothing.
   */
  lemma {:induction false} MixedConservation(s: System, peers: seq<PeerEntry>, rules: seq<Rule>, events: seq<Event>)
    requires Shaped(s, peers) && DistinctIds(peers) && RulesOverPeers(rules, peers) && Balanced(s) && RestArePeers(s, peers)
    ensures var s' := Run(s, peers, rules, events);
            && Balanced(s') && RestArePeers(s', peers)
            && ((forall e :: e in events ==> Willing(e)) ==> s'.refused == s.refused)
    decreases |events|
  {
    if events != [] {
      StepBalances(s, peers, rules, events[0]);
      MixedConservation(Next(s, peers, rules, events[0]), peers, rules, events[1..]);
      if forall e :: e in events ==> Willing(e) {
        assert Willing(events[0]);
      }
    }
  }

  // ----- the SHM drop counters ----------------------------------------------

  /** dropped_full of the SHM link is the sum of both its splits, and each of their cells counts its own refused copies. */
  ghost predicate DropsSplit(s: System) {
    s.links.shm.Some? ==>
      && C.DropsOk(s.links.shm.value.metrics, s.links.shm.value.channels)
      && S.DropsLogged(s.links.shm.value.metrics, s.drops)
  }

  /** Links that differ in no drop counter and no channel id. */
  ghost predicate SameCounts(ls: M.Links, ls': M.Links) {
    ls'.shm.Some? ==>
      && ls.shm.Some? && C.SameIds(ls.shm.value.channels, ls'.shm.value.channels)
      && var m, m' := ls.shm.value.metrics, ls'.shm.value.metrics;
      && m'.droppedFull == m.droppedFull && m'.perPeer == m.perPeer && m'.byPriority == m.byPriority
  }

  lemma SameDrops(s: System, s': System)
    requires DropsSplit(s) && SameCounts(s.links, s'.links) && s'.drops == s.drops
    ensures DropsSplit(s')
  {
    if s'.links.shm.Some? {
      C.SameIdsSameChannels(s.links.shm.value.channels, s'.links.shm.value.channels, []);
    }
  }

  /** A send through the links keeps the split; what the other channels on the region see afterwards counts nothing. */
  lemma SendLinksKeepSplit(ls: M.Links, peers: seq<PeerEntry>, dest: byte, frame: FrameBytes, ok: bool)
    requires M.Fits(ls, peers) && ls.shm.Some? && C.DropsOk(ls.shm.value.metrics, ls.shm.value.channels)
    ensures var ls' := M.Send(ls, peers, dest, frame, ok).0;
            ls'.shm.Some? && C.DropsOk(ls'.shm.value.metrics, ls'.shm.value.channels)
  {
    C.SendKeepsDrops(ls.shm.value, dest, frame);
  }

  /** The refused copies after one more send. */
  function AfterRefusal(ls: M.Links, peers: seq<PeerEntry>, drops: seq<S.Drop<nat>>, dest: byte, frame: FrameBytes, n: nat): seq<S.Drop<nat>>
    requires M.Fits(ls, peers)
  {
    if Refuses(ls, peers, dest, frame) then drops + [S.Drop(dest, frame, n)] else drops
  }

  lemma SendLinksKeepLog(ls: M.Links, peers: seq<PeerEntry>, drops: seq<S.Drop<nat>>, dest: byte, frame: FrameBytes, n: nat, ok: bool)
    requires M.Fits(ls, peers) && ls.shm.Some? && S.DropsLogged(ls.shm.value.metrics, drops)
    ensures S.DropsLogged(M.Send(ls, peers, dest, frame, ok).0.shm.value.metrics, AfterRefusal(ls, peers, drops, dest, frame, n))
  {
    S.SendCounts(ls.shm.value, dest, frame);
    if Refuses(ls, peers, dest, frame) {
      S.ChargeKeepsLog(ls.shm.value.metrics, S.SendTo(ls.shm.value, dest, frame).0.metrics, drops, S.Drop(dest, frame, n));
    }
  }

  lemma SendCountsOnce(s: System, peers: seq<PeerEntry>, ok: bool)
    requires Shaped(s, peers) && s.pc.Fanning? && s.pc.rest != []
    ensures var ls, s' := M.Send(s.links, peers, s.pc.rest[0], s.receipts[|s.receipts| - 1].frame, ok).0, DoSend(s, peers, ok);
            SameCounts(ls, s'.links) && s'.links.shm.Some? == s.links.shm.Some?
  {
    M.SendFits(s.links, peers, s.pc.rest[0], s.receipts[|s.receipts| - 1].frame, ok);
  }

  lemma SendLogsDrop(s: System, peers: seq<PeerEntry>, ok: bool)
    requires Shaped(s, peers) && s.pc.Fanning? && s.pc.rest != []
    ensures var dest, n := s.pc.rest[0], |s.receipts| - 1;
            DoSend(s, peers, ok).drops == AfterRefusal(s.links, peers, s.drops, dest, s.receipts[n].frame, n)
  {
  }

  lemma SendKeepsSplit(s: System, peers: seq<PeerEntry>, ok: bool)
    requires Shaped(s, peers) && DropsSplit(s) && s.pc.Fanning? && s.pc.rest != []
    ensures DropsSplit(DoSend(s, peers, ok))
  {
    var dest, n := s.pc.rest[0], |s.receipts| - 1;
    var frame := s.receipts[n].frame;
    var ls, s' := M.Send(s.links, peers, dest, frame, ok).0, DoSend(s, peers, ok);
    SendCountsOnce(s, peers, ok);
    SendLogsDrop(s, peers, ok);
    if s.links.shm.Some? {
      SendLinksKeepSplit(s.links, peers, dest, frame, ok);
      SendLinksKeepLog(s.links, peers, s.drops, dest, frame, n, ok);
      SameDrops(s.(links := ls, drops := s'.drops), s');
    }
  }

  lemma StepKeepsSplit(s: System, peers: seq<PeerEntry>, rules: seq<Rule>, e: Event)
    requires Shaped(s, peers) && DropsSplit(s)
    ensures DropsSplit(Next(s, peers, rules, e))
  {
    if e.SendNext? && s.pc.Fanning? && s.pc.rest != [] {
      SendKeepsSplit(s, peers, e.ok);
    } else {
      OtherStepDropsNothing(s, peers, rules, e);
      SameDrops(s, Next(s, peers, rules, e));
    }
  }

  lemma OtherStepDropsNothing(s: System, peers: seq<PeerEntry>, rules: seq<Rule>, e: Event)
    requires Shaped(s, peers) && !(e.SendNext? && s.pc.Fanning? && s.pc.rest != [])
    ensures SameCounts(s.links, Next(s, peers, rules, e).links) && Next(s, peers, rules, e).drops == s.drops
  {
    if e.PollNext? && s.pc.Polling? && s.pc.i < |Channels(s.links)| {
      PollDropsNothing(s, peers, rules);
    }
  }

  lemma PollDropsNothing(s: System, peers: seq<PeerEntry>, rules: seq<Rule>)
    requires Shaped(s, peers) && s.pc.Polling? && s.pc.i < |Channels(s.links)|
    ensures SameCounts(s.links, DoPoll(s, peers, rules).links)
  {
  }

  /** In every mixed run the drops add up per peer and per priority, and no id without a channel is charged. */
  lemma {:induction false} MixedDropsSplit(s: System, peers: seq<PeerEntry>, rules: seq<Rule>, events: seq<Event>)
    requires Shaped(s, peers) && DropsSplit(s)
    ensures DropsSplit(Run(s, peers, rules, events))
    decreases |events|
  {
    if events != [] {
      StepKeepsSplit(s, peers, rules, events[0]);
      MixedDropsSplit(Next(s, peers, rules, events[0]), peers, rules, events[1..]);
    }
  }

  // ----- delivery across transports -----------------------------------------

  /** An accepted frame is what its sender sent, stamped with the id its ring or address stands for. */
  ghost predicate Genuine(peers: seq<PeerEntry>, r: Receipt) {
    && r.source != ENDPOINT_INVALID
    && match r.origin
       case FromNet(d) =>
         |d.bytes| >= FRAME_SIZE && r.source == D.Resolve(peers, d.sender) && r.frame == Stamp(d.bytes[..FRAME_SIZE], r.source, r.ts)
       case FromRing(c, record) =>
         c < |ShmPeers(peers)| && r.source == ShmPeers(peers)[c].id && |record| == FRAME_SIZE && r.frame == Stamp(record, r.source, r.ts)
  }

  ghost predicate Increasing(ns: seq<nat>) { forall j, k :: 0 <= j < k < |ns| ==> ns[j] < ns[k] }

  /** Receipt `n` is addressed to peer `id` by the first matching rule. */
  ghost predicate AddressedTo(s: System, rules: seq<Rule>, n: nat, id: byte) {
    n < |s.receipts| && id in TargetsFor(rules, s.receipts[n].source, Topic(s.receipts[n].frame))
  }

  ghost predicate OutOk(s: System, peers: seq<PeerEntry>, rules: seq<Rule>, d: nat)
    requires Shaped(s, peers) && d < |Channels(s.links)|
  {
    var c := Channels(s.links)[d];
    var records := s.taken[d] + c.outbound.queue;
    && c.outbound.maxPayload == ChannelsOf(peers)[d].outbound.maxPayload
    && |s.copies[d]| == |records| && Increasing(s.copies[d])
    && forall k :: 0 <= k < |records| ==>
         && AddressedTo(s, rules, s.copies[d][k], c.peerId)
         && records[k] == Clip(s.receipts[s.copies[d][k]].frame, c.outbound.maxPayload)
  }

  /** The newest receipt has not reached any ring it still has to be sent to. */
  ghost predicate PcOk(s: System, peers: seq<PeerEntry>, rules: seq<Rule>)
    requires Shaped(s, peers)
  {
    s.pc.Fanning? ==>
      && R.Distinct(s.pc.rest)
      && (forall t :: t in s.pc.rest ==> AddressedTo(s, rules, |s.receipts| - 1, t))
      && forall d :: 0 <= d < |s.copies| && Channels(s.links)[d].peerId in s.pc.rest ==> AllBelow(s.copies[d], |s.receipts| - 1)
  }

  ghost predicate AllBelow(ns: seq<nat>, n: int) { forall k :: 0 <= k < |ns| ==> ns[k] < n }

  ghost predicate Inv(s: System, peers: seq<PeerEntry>, rules: seq<Rule>) {
    && Shaped(s, peers)
    && (forall n :: 0 <= n < |s.receipts| ==> Genuine(peers, s.receipts[n]))
    && (forall d :: 0 <= d < |Channels(s.links)| ==> OutOk(s, peers, rules, d))
    && PcOk(s, peers, rules)
  }

  /** What the delivery theorem asks of the tables: the loader checks all of it but the region names. */
  ghost predicate Tables(peers: seq<PeerEntry>, rules: seq<Rule>) {
    DistinctIds(peers) && R.DistinctTargets(rules) && DistinctShmNames(peers)
  }

  lemma IdsOfChannels(s: System, peers: seq<PeerEntry>)
    requires Shaped(s, peers) && DistinctIds(peers)
    ensures |Channels(s.links)| == |ShmPeers(peers)| || s.links.shm.None?
    ensures forall d :: 0 <= d < |Channels(s.links)| ==> d < |ShmPeers(peers)| && Channels(s.links)[d].peerId == ShmPeers(peers)[d].id
    ensures R.DistinctChannels(Channels(s.links))
  {
    ShmPeersDistinct(peers);
  }

  /** With different names, an operation on one channel is an operation on that channel alone. */
  lemma SettleIsLocal(ls: M.Links, peers: seq<PeerEntry>, k: nat, c: S.Channel)
    requires M.Fits(ls, peers) && k < |Channels(ls)| && c.peerId == Channels(ls)[k].peerId && DistinctShmNames(peers)
    ensures Settle(ls, peers, k, c) == ls.(shm := Some(ls.shm.value.(channels := ls.shm.value.channels[k := c])))
  {
    NamesDistinctIff(peers);
    N.SyncIsIdentity(ls.shm.value.channels[k := c], NamesOf(peers), k);
  }

  /** Nothing on channel d's outbound side has moved. */
  ghost predicate SameOut(s: System, s': System, d: nat) {
    && d < |Channels(s.links)| == |Channels(s'.links)| && d < |s.copies| == |s'.copies| && d < |s.taken| == |s'.taken|
    && s.receipts <= s'.receipts && s'.copies[d] == s.copies[d] && s'.taken[d] == s.taken[d]
    && Channels(s'.links)[d].peerId == Channels(s.links)[d].peerId
    && Channels(s'.links)[d].outbound == Channels(s.links)[d].outbound
  }

  lemma OutKept(s: System, s': System, peers: seq<PeerEntry>, rules: seq<Rule>, d: nat)
    requires Shaped(s, peers) && Shaped(s', peers) && SameOut(s, s', d) && OutOk(s, peers, rules, d)
    ensures OutOk(s', peers, rules, d)
  {
    var records := s.taken[d] + Channels(s.links)[d].outbound.queue;
    forall k | 0 <= k < |records| ensures AddressedTo(s', rules, s'.copies[d][k], Channels(s'.links)[d].peerId)
                                  ensures records[k] == Clip(s'.receipts[s'.copies[d][k]].frame, Channels(s'.links)[d].outbound.maxPayload)
    {
      assert AddressedTo(s, rules, s.copies[d][k], Channels(s.links)[d].peerId);
    }
  }

  /** Accepting a frame: a new receipt, addressed and sent nowhere yet. */
  lemma AcceptKeepsInv(s: System, peers: seq<PeerEntry>, rules: seq<Rule>, r: Receipt)
    requires Inv(s, peers, rules) && R.DistinctTargets(rules) && s.pc == Idle && Genuine(peers, r)
    ensures Inv(Accepted(s, rules, r), peers, rules)
  {
    var s' := Accepted(s, rules, r);
    R.TargetsDistinct(rules, r.source, Topic(r.frame));
    forall d | 0 <= d < |Channels(s.links)| ensures OutOk(s', peers, rules, d) {
      OutKept(s, s', peers, rules, d);
    }
    forall d | 0 <= d < |s'.copies| ensures AllBelow(s'.copies[d], |s'.receipts| - 1) {
      assert OutOk(s, peers, rules, d);
      forall k | 0 <= k < |s.copies[d]| ensures s.copies[d][k] < |s.receipts| {
        assert AddressedTo(s, rules, s.copies[d][k], Channels(s.links)[d].peerId);
      }
    }
  }

  lemma PcKept(s: System, s': System, peers: seq<PeerEntry>, rules: seq<Rule>)
    requires Shaped(s, peers) && Shaped(s', peers) && PcOk(s, peers, rules)
    requires s'.receipts == s.receipts && s'.copies == s.copies && (s'.pc == s.pc || !s'.pc.Fanning?)
    requires |Channels(s'.links)| == |Channels(s.links)|
    requires forall d :: 0 <= d < |Channels(s.links)| ==> Channels(s'.links)[d].peerId == Channels(s.links)[d].peerId
    ensures PcOk(s', peers, rules)
  {
    if s'.pc.Fanning? {
      forall t | t in s'.pc.rest ensures AddressedTo(s', rules, |s'.receipts| - 1, t) {
        assert AddressedTo(s, rules, |s.receipts| - 1, t);
      }
    }
  }

  /** A step without effect on outbound rings, logs or the fan-out in progress. */
  lemma InboundStepKeepsInv(s: System, s': System, peers: seq<PeerEntry>, rules: seq<Rule>)
    requires Inv(s, peers, rules) && Shaped(s', peers)
    requires s'.receipts == s.receipts && s'.copies == s.copies && (s'.pc == s.pc || !s'.pc.Fanning?)
    requires forall d :: 0 <= d < |Channels(s.links)| ==> SameOut(s, s', d)
    requires |Channels(s'.links)| == |Channels(s.links)|
    ensures Inv(s', peers, rules)
  {
    PcKept(s, s', peers, rules);
    forall d | 0 <= d < |Channels(s.links)| ensures OutOk(s', peers, rules, d) {
      OutKept(s, s', peers, rules, d);
    }
  }

  lemma ArriveKeepsInv(s: System, peers: seq<PeerEntry>, rules: seq<Rule>, which: Transport, ts: u64, d: D.Datagram)
    requires Inv(s, peers, rules) && R.DistinctTargets(rules)
    ensures Inv(DoArrive(s, peers, rules, which, ts, d), peers, rules)
  {
    if s.pc == Idle && which != ShmRing && M.Linked(s.links, which) {
      M.ReceiveFacts(s.links, peers, which, ts, N.ZeroFrame(), Some(d));
      var got := M.ReceiveOn(s.links, peers, which, ts, N.ZeroFrame(), Some(d));
      var s' := s.(links := got.links, heard := s.heard + [Heard(which, d)]);
      InboundStepKeepsInv(s, s', peers, rules);
      if got.source != ENDPOINT_INVALID {
        assert D.Landed(N.ZeroFrame(), d.bytes) == d.bytes[..FRAME_SIZE];
        AcceptKeepsInv(s', peers, rules, Receipt(FromNet(d), got.source, ts, got.frame));
      }
    }
  }

  lemma PollKeepsInv(s: System, peers: seq<PeerEntry>, rules: seq<Rule>)
    requires Inv(s, peers, rules) && Tables(peers, rules) && s.pc.Polling? && s.pc.i < |Channels(s.links)|
    ensures Inv(DoPoll(s, peers, rules), peers, rules)
  {
    var Polling(i, ts) := s.pc;
    var c := Channels(s.links)[i];
    match S.PollChannel(c)
    case NotReady => InboundStepKeepsInv(s, DoPoll(s, peers, rules), peers, rules);
    case TooLong => InboundStepKeepsInv(s, DoPoll(s, peers, rules), peers, rules);
    case Short(rest, _) =>
      SettleIsLocal(s.links, peers, i, c.(inbound := rest));
      InboundStepKeepsInv(s, DoPoll(s, peers, rules), peers, rules);
    case Ready(rest, frame) => PopKeepsInv(s, peers, rules, rest, frame);
  }

  lemma PopKeepsInv(s: System, peers: seq<PeerEntry>, rules: seq<Rule>, rest: Fifo, frame: FrameBytes)
    requires Inv(s, peers, rules) && Tables(peers, rules) && s.pc.Polling? && s.pc.i < |Channels(s.links)|
    requires S.PollChannel(Channels(s.links)[s.pc.i]) == S.Ready(rest, frame)
    ensures Inv(DoPoll(s, peers, rules), peers, rules)
  {
    var Polling(i, ts) := s.pc;
    var c := Channels(s.links)[i];
    SettleIsLocal(s.links, peers, i, c.(inbound := rest));
    var s' := s.(links := Settle(s.links, peers, i, c.(inbound := rest)), pc := Idle);
    InboundStepKeepsInv(s, s', peers, rules);
    if c.peerId != ENDPOINT_INVALID {
      IdsOfChannels(s, peers);
      AcceptKeepsInv(s', peers, rules, Receipt(FromRing(i, frame), c.peerId, ts, Stamp(frame, c.peerId, ts)));
    }
  }

  lemma TakeMovesRecord(s: System, peers: seq<PeerEntry>, rules: seq<Rule>, i: nat)
    requires Shaped(s, peers) && DistinctShmNames(peers) && i < |Channels(s.links)| && OutOk(s, peers, rules, i)
    ensures OutOk(DoTake(s, peers, i), peers, rules, i)
  {
    var c, s' := Channels(s.links)[i], DoTake(s, peers, i);
    if Pop(c.outbound, FRAME_SIZE).Popped? {
      SettleIsLocal(s.links, peers, i, c.(outbound := Pop(c.outbound, FRAME_SIZE).rest));
      assert s'.taken[i] + Channels(s'.links)[i].outbound.queue == s.taken[i] + c.outbound.queue;
      forall k | 0 <= k < |s.copies[i]| ensures AddressedTo(s', rules, s'.copies[i][k], c.peerId) {
        assert AddressedTo(s, rules, s.copies[i][k], c.peerId);
      }
    }
  }

  lemma TakeLeavesOthers(s: System, peers: seq<PeerEntry>, i: nat)
    requires Shaped(s, peers) && DistinctShmNames(peers) && i < |Channels(s.links)|
    ensures var s' := DoTake(s, peers, i);
            && |Channels(s'.links)| == |Channels(s.links)| && s'.receipts == s.receipts && s'.copies == s.copies && s'.pc == s.pc
            && Channels(s'.links)[i].peerId == Channels(s.links)[i].peerId
            && forall d :: 0 <= d < |Channels(s.links)| && d != i ==> SameOut(s, s', d)
  {
    var c := Channels(s.links)[i];
    if Pop(c.outbound, FRAME_SIZE).Popped? {
      SettleIsLocal(s.links, peers, i, c.(outbound := Pop(c.outbound, FRAME_SIZE).rest));
    }
  }

  lemma TakeKeepsInv(s: System, peers: seq<PeerEntry>, rules: seq<Rule>, i: nat)
    requires Inv(s, peers, rules) && Tables(peers, rules) && i < |Channels(s.links)|
    ensures Inv(DoTake(s, peers, i), peers, rules)
  {
    var s' := DoTake(s, peers, i);
    TakeLeavesOthers(s, peers, i);
    TakeMovesRecord(s, peers, rules, i);
    PcKept(s, s', peers, rules);
    forall d | 0 <= d < |Channels(s.links)| && d != i ensures OutOk(s', peers, rules, d) {
      OutKept(s, s', peers, rules, d);
    }
  }

  /** The effect of a send on the SHM channels: the frame is appended to the one ring it enters, if any. */
  lemma SendOnChannels(ls: M.Links, peers: seq<PeerEntry>, dest: byte, frame: FrameBytes, ok: bool)
    requires M.Fits(ls, peers)
    ensures var cs, cs' := Channels(ls), Channels(M.Send(ls, peers, dest, frame, ok).0);
            && |cs'| == |cs|
            && forall d :: 0 <= d < |cs| ==>
                 && cs'[d].peerId == cs[d].peerId
                 && cs'[d].outbound == if EntersRing(ls, peers, dest, frame) == Some(d) then Push(cs[d].outbound, frame) else cs[d].outbound
    ensures forall d :: EntersRing(ls, peers, dest, frame) == Some(d) ==> !Channels(ls)[d].outbound.Full()
    ensures EntersRing(ls, peers, dest, frame).Some? ==> M.Send(ls, peers, dest, frame, ok).1 != M.Raised
  {
    if M.LastTransport(peers, dest) == Some(ShmRing) && ls.shm.Some? {
      SendToOnChannels(ls.shm.value, dest, frame);
      assert M.Send(ls, peers, dest, frame, ok).0.shm == Some(S.SendTo(ls.shm.value, dest, frame).0);
    } else {
      assert M.Send(ls, peers, dest, frame, ok).0.shm == ls.shm;
    }
  }

  lemma SendToOnChannels(l: S.Link, dest: byte, frame: FrameBytes)
    requires l.Shaped()
    ensures var (l', status) := S.SendTo(l, dest, frame);
            && |l'.channels| == |l.channels|
            && (status == S.Enqueued ==> S.Find(l.channels, dest) < |l.channels| && !l.channels[S.Find(l.channels, dest)].outbound.Full())
            && forall d :: 0 <= d < |l.channels| ==>
                 && l'.channels[d].peerId == l.channels[d].peerId
                 && l'.channels[d].outbound
                    == if status == S.Enqueued && d == S.Find(l.channels, dest) then Push(l.channels[d].outbound, frame) else l.channels[d].outbound
  {
  }

  /** The frame being fanned out. */
  function InHand(s: System): FrameBytes
    requires s.receipts != []
  {
    s.receipts[|s.receipts| - 1].frame
  }

  lemma SendEffect(s: System, peers: seq<PeerEntry>, ok: bool)
    requires Shaped(s, peers) && DistinctShmNames(peers) && s.pc.Fanning? && s.pc.rest != []
    ensures var s' := DoSend(s, peers, ok);
            && s'.receipts == s.receipts && s'.taken == s.taken
            && s'.pc == (if M.Send(s.links, peers, s.pc.rest[0], InHand(s), ok).1 == M.Raised then Idle else Fanning(s.pc.rest[1..]))
            && s'.links == M.Send(s.links, peers, s.pc.rest[0], InHand(s), ok).0
            && s'.copies == (match EntersRing(s.links, peers, s.pc.rest[0], InHand(s))
                             case None => s.copies
                             case Some(k) => s.copies[k := s.copies[k] + [|s.receipts| - 1]])
  {
    var dest, frame := s.pc.rest[0], InHand(s);
    SendOnChannels(s.links, peers, dest, frame, ok);
    M.SendFits(s.links, peers, dest, frame, ok);
    var ls := M.Send(s.links, peers, dest, frame, ok).0;
    if k :| EntersRing(s.links, peers, dest, frame) == Some(k) {
      SettleIsLocal(ls, peers, k, Channels(ls)[k]);
      assert Channels(ls)[k := Channels(ls)[k]] == Channels(ls);
    }
  }

  /** One more record on an outbound side, of a receipt newer than all before it. */
  lemma AppendKeepsOut(s: System, s': System, peers: seq<PeerEntry>, rules: seq<Rule>, d: nat, n: nat)
    requires Shaped(s, peers) && Shaped(s', peers) && d < |Channels(s.links)| == |Channels(s'.links)| && OutOk(s, peers, rules, d)
    requires s'.receipts == s.receipts && s'.taken[d] == s.taken[d] && s'.copies[d] == s.copies[d] + [n]
    requires AllBelow(s.copies[d], n) && AddressedTo(s, rules, n, Channels(s.links)[d].peerId)
    requires var c, c' := Channels(s.links)[d], Channels(s'.links)[d];
             c'.peerId == c.peerId
             && c'.outbound == c.outbound.(queue := c.outbound.queue + [Clip(s.receipts[n].frame, c.outbound.maxPayload)])
    ensures OutOk(s', peers, rules, d)
  {
    var c := Channels(s.links)[d];
    var before, after := s.taken[d] + c.outbound.queue, s'.taken[d] + Channels(s'.links)[d].outbound.queue;
    assert after == before + [Clip(s.receipts[n].frame, c.outbound.maxPayload)];
    forall k | 0 <= k < |after|
      ensures AddressedTo(s', rules, s'.copies[d][k], c.peerId)
      ensures after[k] == Clip(s'.receipts[s'.copies[d][k]].frame, c.outbound.maxPayload)
    {
      if k < |before| { assert AddressedTo(s, rules, s.copies[d][k], c.peerId); }
    }
  }

  /** `s'` is `s` after the frame in hand went to the first target: into ring `entered`, or into none. */
  ghost predicate Sent(s: System, s': System, entered: Option<nat>) {
    var cs, cs' := Channels(s.links), Channels(s'.links);
    && s.receipts != [] && s.pc.Fanning? && s.pc.rest != []
    && s'.receipts == s.receipts && s'.taken == s.taken
    && (s'.pc == Idle || s'.pc == Fanning(s.pc.rest[1..]))
    && |cs'| == |cs| == |s.copies| == |s'.copies| == |s.taken|
    && (entered.Some? ==> entered.value < |cs| && cs[entered.value].peerId == s.pc.rest[0])
    && forall d :: 0 <= d < |cs| ==>
         && cs'[d].peerId == cs[d].peerId
         && if entered == Some(d) then
              && cs'[d].outbound == cs[d].outbound.(queue := cs[d].outbound.queue + [Clip(InHand(s), cs[d].outbound.maxPayload)])
              && s'.copies[d] == s.copies[d] + [|s.receipts| - 1]
            else cs'[d].outbound == cs[d].outbound && s'.copies[d] == s.copies[d]
  }

  lemma SendIsSent(s: System, peers: seq<PeerEntry>, ok: bool)
    requires Shaped(s, peers) && DistinctShmNames(peers) && s.pc.Fanning? && s.pc.rest != []
    ensures Sent(s, DoSend(s, peers, ok), EntersRing(s.links, peers, s.pc.rest[0], InHand(s)))
  {
    SendEffect(s, peers, ok);
    SendOnChannels(s.links, peers, s.pc.rest[0], InHand(s), ok);
  }

  lemma SentKeepsOut(s: System, s': System, peers: seq<PeerEntry>, rules: seq<Rule>, entered: Option<nat>, d: nat)
    requires Inv(s, peers, rules) && Shaped(s', peers) && Sent(s, s', entered) && d < |Channels(s.links)|
    ensures OutOk(s', peers, rules, d)
  {
    var n, c := |s.receipts| - 1, Channels(s.links)[d];
    assert OutOk(s, peers, rules, d);
    if entered == Some(d) {
      assert c.peerId in s.pc.rest;
      assert AddressedTo(s, rules, n, c.peerId) && AllBelow(s.copies[d], n);
      AppendKeepsOut(s, s', peers, rules, d, n);
    } else {
      OutKept(s, s', peers, rules, d);
    }
  }

  lemma SentKeepsPc(s: System, s': System, peers: seq<PeerEntry>, rules: seq<Rule>, entered: Option<nat>)
    requires Inv(s, peers, rules) && Shaped(s', peers) && Sent(s, s', entered)
    ensures PcOk(s', peers, rules)
  {
    var rest := s.pc.rest;
    if s'.pc.Fanning? {
      forall d | 0 <= d < |s'.copies| && Channels(s'.links)[d].peerId in s'.pc.rest
        ensures AllBelow(s'.copies[d], |s'.receipts| - 1)
      {
        var j :| 0 <= j < |rest[1..]| && rest[1..][j] == Channels(s.links)[d].peerId;
        assert rest[0] != rest[j + 1];
        assert Channels(s.links)[d].peerId in rest;
      }
      forall t | t in s'.pc.rest ensures AddressedTo(s', rules, |s'.receipts| - 1, t) {
        assert t in rest;
        assert AddressedTo(s, rules, |s.receipts| - 1, t);
      }
    }
  }

  lemma SentKeepsInv(s: System, s': System, peers: seq<PeerEntry>, rules: seq<Rule>, entered: Option<nat>)
    requires Inv(s, peers, rules) && Shaped(s', peers) && Sent(s, s', entered)
    ensures Inv(s', peers, rules)
  {
    SentKeepsPc(s, s', peers, rules, entered);
    forall d | 0 <= d < |Channels(s'.links)| ensures OutOk(s', peers, rules, d) {
      SentKeepsOut(s, s', peers, rules, entered, d);
    }
  }

  lemma PublishKeepsInv(s: System, peers: seq<PeerEntry>, rules: seq<Rule>, k: nat, payload: seq<byte>)
    requires Inv(s, peers, rules) && Tables(peers, rules) && k < |Channels(s.links)|
    ensures Inv(DoPublish(s, peers, k, payload), peers, rules)
  {
    var c := Channels(s.links)[k];
    SettleIsLocal(s.links, peers, k, c.(inbound := Push(c.inbound, payload)));
    InboundStepKeepsInv(s, DoPublish(s, peers, k, payload), peers, rules);
  }

  lemma StepKeepsInv(s: System, peers: seq<PeerEntry>, rules: seq<Rule>, e: Event)
    requires Inv(s, peers, rules) && Tables(peers, rules)
    ensures Inv(Next(s, peers, rules, e), peers, rules)
  {
    if e.Arrive? {
      ArriveKeepsInv(s, peers, rules, e.which, e.ts, e.datagram);
    } else if e.PollNext? && s.pc.Polling? && s.pc.i < |Channels(s.links)| {
      PollKeepsInv(s, peers, rules);
    } else if e.SendNext? && s.pc.Fanning? && s.pc.rest != [] {
      SendKeepsInv(s, peers, rules, e.ok);
    } else if e.Publish? && e.k < |Channels(s.links)| {
      PublishKeepsInv(s, peers, rules, e.k, e.payload);
    } else if e.Take? && e.k < |Channels(s.links)| {
      TakeKeepsInv(s, peers, rules, e.k);
    } else {
      QuietStep(s, peers, rules, e);
      InboundStepKeepsInv(s, Next(s, peers, rules, e), peers, rules);
    }
  }

  lemma SendKeepsInv(s: System, peers: seq<PeerEntry>, rules: seq<Rule>, ok: bool)
    requires Inv(s, peers, rules) && Tables(peers, rules) && s.pc.Fanning? && s.pc.rest != []
    ensures Inv(DoSend(s, peers, ok), peers, rules)
  {
    SendIsSent(s, peers, ok);
    SentKeepsInv(s, DoSend(s, peers, ok), peers, rules, EntersRing(s.links, peers, s.pc.rest[0], InHand(s)));
  }

  /** The steps that operate on no ring. */
  lemma QuietStep(s: System, peers: seq<PeerEntry>, rules: seq<Rule>, e: Event)
    requires Shaped(s, peers) && !e.Arrive?
    requires e.PollNext? ==> !(s.pc.Polling? && s.pc.i < |Channels(s.links)|)
    requires e.SendNext? ==> !(s.pc.Fanning? && s.pc.rest != [])
    requires (e.Publish? ==> e.k >= |Channels(s.links)|) && (e.Take? ==> e.k >= |Channels(s.links)|)
    ensures var s' := Next(s, peers, rules, e);
            && s'.receipts == s.receipts && s'.copies == s.copies && (s'.pc == s.pc || !s'.pc.Fanning?)
            && |Channels(s'.links)| == |Channels(s.links)|
            && forall d :: 0 <= d < |Channels(s.links)| ==> SameOut(s, s', d)
  {
  }

  lemma {:induction false} RunKeepsInv(s: System, peers: seq<PeerEntry>, rules: seq<Rule>, events: seq<Event>)
    requires Inv(s, peers, rules) && Tables(peers, rules)
    ensures Inv(Run(s, peers, rules, events), peers, rules)
    decreases |events|
  {
    if events != [] {
      StepKeepsInv(s, peers, rules, events[0]);
      RunKeepsInv(Next(s, peers, rules, events[0]), peers, rules, events[1..]);
    }
  }

  /** The router right after bind_router, with the links its peers need. */
  ghost predicate Booted(s: System, peers: seq<PeerEntry>) {
    && Shaped(s, peers) && s.pc == Idle && s.receipts == [] && s.asked == 0 && s.refused == 0
    && (s.links.shm.Some? ==> s.links.shm.value.channels == ChannelsOf(peers))
    && s.links.Forwarded() == s.links.DroppedFull() == 0
    && (s.links.shm.Some? ==> s.links.shm.value.metrics == S.ZeroMetrics())
    && (s.links.uds.Some? ==> s.links.uds.value == D.Link(D.Metrics(0, 0, 0), []))
    && (s.links.udp.Some? ==> s.links.udp.value == D.Link(D.Metrics(0, 0, 0), []))
    && s.sent == [] && s.heard == [] && s.drops == []
    && (forall d :: 0 <= d < |s.copies| ==> s.copies[d] == [] && s.taken[d] == [])
  }

  /** What the peer of SHM channel d has popped. */
  ghost predicate DeliveredTo(s: System, peers: seq<PeerEntry>, rules: seq<Rule>, d: nat)
    requires Shaped(s, peers) && d < |Channels(s.links)|
  {
    && |s.taken[d]| <= |s.copies[d]|
    && Increasing(s.copies[d])
    && forall k :: 0 <= k < |s.taken[d]| ==>
         && AddressedTo(s, rules, s.copies[d][k], Channels(s.links)[d].peerId)
         && Genuine(peers, s.receipts[s.copies[d][k]])
         && s.taken[d][k] == Clip(s.receipts[s.copies[d][k]].frame, ChannelsOf(peers)[d].outbound.maxPayload)
  }

  /**
   Delivery across transports. In every run of a mixed router over tables with
   distinct ids, targets and region names, what an SHM subscriber has popped is
   an in-order selection, without duplicates, of the frames the router accepted
   on any of its links: each one is the datagram or record its sender sent, but
   for the stamp with the id the sender's address or ring stands for, and was
   addressed to the subscriber by the first matching rule.
   */
  lemma MixedDelivery(s0: System, peers: seq<PeerEntry>, rules: seq<Rule>, events: seq<Event>, d: nat)
    requires Booted(s0, peers) && Tables(peers, rules) && d < |Channels(s0.links)|
    ensures var s := Run(s0, peers, rules, events);
            d < |Channels(s.links)| && DeliveredTo(s, peers, rules, d)
  {
    assert Inv(s0, peers, rules);
    RunKeepsInv(s0, peers, rules, events);
    RunKeepsChannels(s0, peers, rules, events);
    var s := Run(s0, peers, rules, events);
    assert OutOk(s, peers, rules, d);
    var records := s.taken[d] + Channels(s.links)[d].outbound.queue;
    forall k | 0 <= k < |s.taken[d]| ensures s.taken[d][k] == records[k] {
    }
  }

  lemma {:induction false} RunKeepsChannels(s: System, peers: seq<PeerEntry>, rules: seq<Rule>, events: seq<Event>)
    requires Shaped(s, peers)
    ensures |Channels(Run(s, peers, rules, events).links)| == |Channels(s.links)|
    decreases |events|
  {
    if events != [] {
      RunKeepsChannels(Next(s, peers, rules, events[0]), peers, rules, events[1..]);
    }
  }

  /**
   From an accepted profile: the counters balance in every run; and if no two shm
   peers name the same region, every SHM subscriber gets whole frames, in order,
   once, from whatever link they came.
   */
  lemma AcceptedMixedProfile(p: L.Profile, peers: seq<PeerEntry>, rules: seq<Rule>, topics: seq<TopicEntry>,
                             sidebands: seq<SidebandRegion>, ranges: seq<(nat, nat)>, s0: System, events: seq<Event>)
    requires L.ValidProfile(p) && L.Denotes(p, peers, rules, topics, sidebands, ranges) && Booted(s0, peers)
    ensures var s := Run(s0, peers, rules, events);
            && Balanced(s) && DropsSplit(s)
            && (DistinctShmNames(peers) ==>
                  forall d :: 0 <= d < |Channels(s.links)| ==> DeliveredTo(s, peers, rules, d) && WholeFrames(s.taken[d]))
  {
    LoadedTablesAreSafe(p, peers, rules, topics, sidebands, ranges);
    MixedConservation(s0, peers, rules, events);
    BootSplit(s0, peers);
    MixedDropsSplit(s0, peers, rules, events);
    if DistinctShmNames(peers) {
      MixedWholeFrames(s0, peers, rules, events);
    }
  }

  /** With a frame's room per slot, every SHM subscriber of a mixed router pops whole frames. */
  lemma MixedWholeFrames(s0: System, peers: seq<PeerEntry>, rules: seq<Rule>, events: seq<Event>)
    requires Booted(s0, peers) && Tables(peers, rules) && N.FreshlyBound(ChannelsOf(peers))
    ensures var s := Run(s0, peers, rules, events);
            forall d :: 0 <= d < |Channels(s.links)| ==> DeliveredTo(s, peers, rules, d) && WholeFrames(s.taken[d])
  {
    RunKeepsChannels(s0, peers, rules, events);
    forall d | 0 <= d < |Channels(s0.links)|
      ensures var s := Run(s0, peers, rules, events); DeliveredTo(s, peers, rules, d) && WholeFrames(s.taken[d])
    {
      MixedDelivery(s0, peers, rules, events, d);
      assert ChannelsOf(peers)[d] in ChannelsOf(peers);
    }
  }

  lemma BootSplit(s: System, peers: seq<PeerEntry>)
    requires Booted(s, peers)
    ensures DropsSplit(s)
  {
    C.SumZeros(S.ZeroMetrics().perPeer);
    C.SumZeros(S.ZeroMetrics().byPriority);
  }

  ghost predicate WholeFrames(records: seq<Record>) { forall k :: 0 <= k < |records| ==> |records[k]| == FRAME_SIZE }

  // ----- poll_link is a run -------------------------------------------------

  lemma {:induction false} RunAppend(s: System, peers: seq<PeerEntry>, rules: seq<Rule>, a: seq<Event>, b: seq<Event>)
    requires Shaped(s, peers)
    ensures Run(s, peers, rules, a + b) == Run(Run(s, peers, rules, a), peers, rules, b)
    decreases |a|
  {
    if a == [] {
      assert a + b == b;
    } else {
      assert (a + b)[1..] == a[1..] + b;
      RunAppend(Next(s, peers, rules, a[0]), peers, rules, a[1..], b);
    }
  }

  lemma RunFirst(s: System, peers: seq<PeerEntry>, rules: seq<Rule>, e: Event, rest: seq<Event>)
    requires Shaped(s, peers)
    ensures Run(s, peers, rules, [e] + rest) == Run(Next(s, peers, rules, e), peers, rules, rest)
  {
    assert ([e] + rest)[1..] == rest;
  }

  /** Putting one send in front of a fan-out. */
  lemma FanGlue(ls: M.Links, next: M.Links, peers: seq<PeerEntry>, targets: seq<byte>, payload: seq<byte>, answers: seq<bool>)
    requires M.Fits(ls, peers) && M.Fits(next, peers) && |answers| == |targets| && targets != []
    requires next == M.Send(ls, peers, targets[0], payload, answers[0]).0
    ensures M.FanAll(ls, peers, targets, payload, answers).0
            == if M.Send(ls, peers, targets[0], payload, answers[0]).1 == M.Raised then next
               else M.FanAll(next, peers, targets[1..], payload, answers[1..]).0
  {
  }

  /** One send, and what is left of the fan-out. */
  lemma FanStep(s: System, peers: seq<PeerEntry>, rules: seq<Rule>, answers: seq<bool>)
    requires Shaped(s, peers) && DistinctShmNames(peers) && s.pc.Fanning? && |answers| == |s.pc.rest| && s.pc.rest != []
    ensures var next := Next(s, peers, rules, SendNext(answers[0]));
            && (next.pc == Idle || (next.pc.Fanning? && |next.pc.rest| == |s.pc.rest| - 1))
            && M.FanAll(s.links, peers, s.pc.rest, InHand(s), answers).0
               == if next.pc == Idle then next.links else M.FanAll(next.links, peers, next.pc.rest, InHand(next), answers[1..]).0
  {
    FanNext(s, peers, rules, answers[0]);
    FanRest(s, Next(s, peers, rules, SendNext(answers[0])), peers, answers);
  }

  lemma FanRest(s: System, next: System, peers: seq<PeerEntry>, answers: seq<bool>)
    requires Shaped(s, peers) && Shaped(next, peers) && s.pc.Fanning? && |answers| == |s.pc.rest| && s.pc.rest != []
    requires next.receipts == s.receipts
    requires var (ls, o) := M.Send(s.links, peers, s.pc.rest[0], InHand(s), answers[0]);
             next.links == ls && next.pc == if o == M.Raised then Idle else Fanning(s.pc.rest[1..])
    ensures M.FanAll(s.links, peers, s.pc.rest, InHand(s), answers).0
         == if next.pc == Idle then next.links else M.FanAll(next.links, peers, next.pc.rest, InHand(next), answers[1..]).0
  {
    FanGlue(s.links, next.links, peers, s.pc.rest, InHand(s), answers);
  }

  lemma FanNext(s: System, peers: seq<PeerEntry>, rules: seq<Rule>, ok: bool)
    requires Shaped(s, peers) && DistinctShmNames(peers) && s.pc.Fanning? && s.pc.rest != []
    ensures var next, (ls, o) := Next(s, peers, rules, SendNext(ok)), M.Send(s.links, peers, s.pc.rest[0], InHand(s), ok);
            && next.links == ls && next.receipts == s.receipts
            && next.pc == if o == M.Raised then Idle else Fanning(s.pc.rest[1..])
  {
    SendEffect(s, peers, ok);
  }

  lemma {:induction false} FanIsARun(s: System, peers: seq<PeerEntry>, rules: seq<Rule>, answers: seq<bool>) returns (events: seq<Event>)
    requires Shaped(s, peers) && DistinctShmNames(peers) && s.pc.Fanning? && |answers| == |s.pc.rest|
    ensures var s' := Run(s, peers, rules, events);
            s'.pc == Idle && s'.links == M.FanAll(s.links, peers, s.pc.rest, InHand(s), answers).0
    decreases |s.pc.rest|
  {
    if s.pc.rest == [] {
      events := [SendNext(true)] + [];
      RunFirst(s, peers, rules, SendNext(true), []);
    } else {
      var next := Next(s, peers, rules, SendNext(answers[0]));
      FanStep(s, peers, rules, answers);
      var more := [];
      if next.pc.Fanning? {
        more := FanIsARun(next, peers, rules, answers[1..]);
      }
      events := [SendNext(answers[0])] + more;
      RunFirst(s, peers, rules, SendNext(answers[0]), more);
    }
  }

  /** The state a receive leaves: idle, or fanning out the frame it returned. */
  ghost predicate After(s: System, rules: seq<Rule>, links: M.Links, source: byte, frame: FrameBytes) {
    && s.links == links
    && if source == ENDPOINT_INVALID then s.pc == Idle
       else s.receipts != [] && InHand(s) == frame && s.pc == Fanning(TargetsFor(rules, source, Topic(frame)))
  }

  /** What the scan of the SHM link returns. */
  ghost predicate AfterScan(s: System, rules: seq<Rule>, links: M.Links, scanned: (S.Link, S.Reception, FrameBytes)) {
    var (l, got, frame) := scanned;
    After(s, rules, links.(shm := Some(l)), if got.Got? then got.source else ENDPOINT_INVALID, frame)
  }

  /** The SHM link after popping channel i. */
  lemma PopIsLocal(s: System, peers: seq<PeerEntry>, i: nat, rest: Fifo)
    requires Shaped(s, peers) && DistinctShmNames(peers) && i < |Channels(s.links)|
    ensures var l, c := s.links.shm.value, Channels(s.links)[i];
            Settle(s.links, peers, i, c.(inbound := rest)) == s.links.(shm := Some(l.(channels := l.channels[i := c.(inbound := rest)])))
  {
    SettleIsLocal(s.links, peers, i, Channels(s.links)[i].(inbound := rest));
  }

  /** A poll that moves on to the next channel is one turn of the scan. */
  lemma PollMovesOn(s: System, peers: seq<PeerEntry>, rules: seq<Rule>, scratch: FrameBytes)
    requires Shaped(s, peers) && DistinctShmNames(peers) && s.pc.Polling?
    requires Next(s, peers, rules, PollNext).pc.Polling?
    ensures var next := Next(s, peers, rules, PollNext);
            && next.pc == s.pc.(i := s.pc.i + 1) && s.pc.i < |Channels(s.links)| == |Channels(next.links)|
            && next.links == s.links.(shm := next.links.shm)
            && S.Scan(s.links.shm.value, s.pc.i, s.pc.ts, scratch)
               == S.Scan(next.links.shm.value, next.pc.i, s.pc.ts, C.NextScratch(Channels(s.links)[s.pc.i], scratch))
  {
    var c := Channels(s.links)[s.pc.i];
    var polled := S.PollChannel(c);
    if polled.Short? {
      PopIsLocal(s, peers, s.pc.i, polled.rest);
      assert CountTruncated(Settle(s.links, peers, s.pc.i, c.(inbound := polled.rest))).shm
          == Some(S.SkipShort(s.links.shm.value, s.pc.i, polled.rest));
    }
  }

  /** A poll that does not is its end. */
  lemma PollEnds(s: System, peers: seq<PeerEntry>, rules: seq<Rule>, scratch: FrameBytes)
    requires Shaped(s, peers) && DistinctShmNames(peers) && s.pc.Polling?
    requires !Next(s, peers, rules, PollNext).pc.Polling?
    ensures AfterScan(Next(s, peers, rules, PollNext), rules, s.links, S.Scan(s.links.shm.value, s.pc.i, s.pc.ts, scratch))
  {
    if s.pc.i < |Channels(s.links)| {
      var polled := S.PollChannel(Channels(s.links)[s.pc.i]);
      if polled.Ready? {
        PopIsLocal(s, peers, s.pc.i, polled.rest);
      }
    }
  }

  lemma {:induction false} ScanIsARun(s: System, peers: seq<PeerEntry>, rules: seq<Rule>, scratch: FrameBytes) returns (events: seq<Event>)
    requires Shaped(s, peers) && DistinctShmNames(peers) && s.pc.Polling?
    ensures AfterScan(Run(s, peers, rules, events), rules, s.links, S.Scan(s.links.shm.value, s.pc.i, s.pc.ts, scratch))
    decreases |Channels(s.links)| - s.pc.i
  {
    var next := Next(s, peers, rules, PollNext);
    var more := [];
    if !next.pc.Polling? {
      PollEnds(s, peers, rules, scratch);
    } else {
      PollMovesOn(s, peers, rules, scratch);
      more := ScanIsARun(next, peers, rules, C.NextScratch(Channels(s.links)[s.pc.i], scratch));
    }
    events := [PollNext] + more;
    RunFirst(s, peers, rules, PollNext, more);
  }

  lemma ShmReceiveIsARun(s: System, peers: seq<PeerEntry>, rules: seq<Rule>, ts: u64, scratch: FrameBytes) returns (events: seq<Event>)
    requires Shaped(s, peers) && DistinctShmNames(peers) && s.pc == Idle && s.links.shm.Some?
    ensures AfterScan(Run(s, peers, rules, events), rules, s.links, S.Scan(s.links.shm.value, 0, ts, scratch))
  {
    var scanning := s.(pc := Polling(0, ts));
    var more := ScanIsARun(scanning, peers, rules, scratch);
    events := [StartScan(ts)] + more;
    RunFirst(s, peers, rules, StartScan(ts), more);
    assert Next(s, peers, rules, StartScan(ts)) == scanning;
  }

  lemma NetReceiveIsARun(s: System, peers: seq<PeerEntry>, rules: seq<Rule>, which: Transport, ts: u64, scratch: FrameBytes,
                         d: D.Datagram) returns (events: seq<Event>)
    requires Shaped(s, peers) && s.pc == Idle && M.Present(peers, which) && which != ShmRing
    ensures var r := M.ReceiveOn(s.links, peers, which, ts, scratch, Some(d));
            After(Run(s, peers, rules, events), rules, r.links, r.source, r.frame)
  {
    events := [Arrive(which, ts, d)] + [];
    RunFirst(s, peers, rules, Arrive(which, ts, d), []);
    if |d.bytes| >= FRAME_SIZE {
      assert D.Landed(scratch, d.bytes) == d.bytes[..FRAME_SIZE] == D.Landed(N.ZeroFrame(), d.bytes);
    }
  }

  lemma ReceiveIsARun(s: System, peers: seq<PeerEntry>, rules: seq<Rule>, which: Transport, ts: u64, scratch: FrameBytes,
                      incoming: Option<D.Datagram>) returns (events: seq<Event>)
    requires Shaped(s, peers) && DistinctShmNames(peers) && s.pc == Idle && M.Present(peers, which)
    ensures var r := M.ReceiveOn(s.links, peers, which, ts, scratch, incoming);
            After(Run(s, peers, rules, events), rules, r.links, r.source, r.frame)
  {
    if which == ShmRing {
      events := ShmReceiveIsARun(s, peers, rules, ts, scratch);
    } else if incoming.Some? {
      events := NetReceiveIsARun(s, peers, rules, which, ts, scratch, incoming.value);
    } else {
      events := [];
    }
  }

  /** One poll_link call, on regions of different names, is a run of these steps with nobody else moving. */
  lemma PollIsARun(s: System, peers: seq<PeerEntry>, rules: seq<Rule>, which: Transport, ts: u64, scratch: FrameBytes,
                   incoming: Option<D.Datagram>, kernel: nat -> bool) returns (events: seq<Event>)
    requires Shaped(s, peers) && DistinctShmNames(peers) && s.pc == Idle && M.Present(peers, which)
    ensures var s' := Run(s, peers, rules, events);
            s'.pc == Idle && s'.links == M.Poll(s.links, peers, rules, which, ts, scratch, incoming, kernel).links
  {
    M.ReceiveFacts(s.links, peers, which, ts, scratch, incoming);
    var r := M.ReceiveOn(s.links, peers, which, ts, scratch, incoming);
    var first := ReceiveIsARun(s, peers, rules, which, ts, scratch, incoming);
    var s1 := Run(s, peers, rules, first);
    if r.threw || r.source == ENDPOINT_INVALID {
      events := first;
    } else {
      var more := FanIsARun(s1, peers, rules, D.Answered(kernel, |s1.pc.rest|));
      events := first + more;
      RunAppend(s, peers, rules, first, more);
    }
  }
}
