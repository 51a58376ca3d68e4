/**
 DatagramRouterLink with the socket abstracted: a receive is a supplied datagram,
 a send succeeds or throws as the environment decides.
 */
module DatagramLink {
  import opened Bytes
  import opened Frame
  import opened Routing
  import opened Topology

  datatype Sender = FromPath(path: string) | FromPort(port: u16)

  datatype Datagram = Datagram(bytes: seq<byte>, sender: Sender)

  datatype Metrics = Metrics(forwarded: nat, recvTruncated: nat, recvUnknownSource: nat)

  /** A datagram handed to the kernel. */
  datatype Sent = Sent(to: Address, payload: seq<byte>)

  datatype Link = Link(metrics: Metrics, wire: seq<Sent>)

  // ----- who sent it --------------------------------------------------------

  predicate Answers(p: PeerEntry, sender: Sender) {
    match sender
    case FromPath(path) => p.local.Uds? && p.local.path == path
    case FromPort(port) => p.local.Udp? && p.local.port == port
  }

  /** peer_id_from_recv: the first peer whose address answers to the sender; UDP compares the port alone. */
  function Resolve(peers: seq<PeerEntry>, sender: Sender): byte {
    if peers == [] then ENDPOINT_INVALID
    else if Answers(peers[0], sender) then peers[0].id
    else Resolve(peers[1..], sender)
  }

  /** The sender a peer bound to its own local address shows. */
  function SenderOf(p: PeerEntry): Sender
    requires !p.local.Shm?
  {
    if p.local.Uds? then FromPath(p.local.path) else FromPort(p.local.port)
  }

  /**
   A peer's datagrams are attributed to it exactly when no peer listed before it
   answers to the same sender: for UDP, the same port on any host.
   */
  lemma {:induction false} ResolvedIff(peers: seq<PeerEntry>, k: nat)
    requires DistinctIds(peers) && k < |peers| && !peers[k].local.Shm?
    requires forall p :: p in peers ==> p.id != ENDPOINT_INVALID
    ensures Resolve(peers, SenderOf(peers[k])) == peers[k].id
       <==> forall j :: 0 <= j < k ==> !Answers(peers[j], SenderOf(peers[k]))
  {
    var sender := SenderOf(peers[k]);
    if k > 0 {
      var rest := peers[1..];
      assert rest[k - 1] == peers[k];
      assert forall p :: p in rest ==> p in peers;
      if Answers(peers[0], sender) {
        assert peers[0].id != peers[k].id;
      } else {
        ResolvedIff(rest, k - 1);
        assert forall j :: 0 <= j < k - 1 ==> rest[j] == peers[j + 1];
        assert (forall j :: 0 <= j < k ==> !Answers(peers[j], sender))
            <==> (forall j :: 0 <= j < k - 1 ==> !Answers(rest[j], sender)) by {
          if forall j :: 0 <= j < k - 1 ==> !Answers(rest[j], sender) {
            forall j | 0 <= j < k ensures !Answers(peers[j], sender) {
              if j > 0 { assert !Answers(rest[j - 1], sender); }
            }
          }
        }
      }
    }
  }

  // ----- egress -------------------------------------------------------------

  datatype Status = Delivered | Skipped | Failed

  /** send_to_peer: unknown ids are skipped; an shm address or a failing sendto throws. */
  function SendTo(l: Link, peers: seq<PeerEntry>, dest: byte, payload: seq<byte>, ok: bool): (Link, Status) {
    match PeerById(peers, dest)
    case None => (l, Skipped)
    case Some(p) =>
      if p.local.Shm? || !ok then (l, Failed)
      else (l.(wire := l.wire + [Sent(p.local, payload)],
               metrics := l.metrics.(forwarded := l.metrics.forwarded + 1)), Delivered)
  }

  /** The fan-out loop: `oracle[k]` says whether the kernel takes the k-th send. Returns how many targets were done. */
  function FanOut(l: Link, peers: seq<PeerEntry>, targets: seq<byte>, payload: seq<byte>, oracle: seq<bool>): (r: (Link, nat))
    requires |oracle| == |targets|
    ensures r.1 <= |targets|
    decreases |targets|
  {
    if targets == [] then (l, 0)
    else
      var (l', status) := SendTo(l, peers, targets[0], payload, oracle[0]);
      if status == Failed then (l', 0)
      else
        var (l'', n) := FanOut(l', peers, targets[1..], payload, oracle[1..]);
        (l'', n + 1)
  }

  /** The kernel's answers to the first n sends. */
  function Answered(kernel: nat -> bool, n: nat): (r: seq<bool>)
    ensures |r| == n && forall k :: 0 <= k < n ==> r[k] == kernel(k)
  {
    seq(n, k requires 0 <= k < n => kernel(k))
  }

  /** What the wire should show for a list of targets: one datagram per known peer, in order. */
  function Deliveries(peers: seq<PeerEntry>, targets: seq<byte>, payload: seq<byte>): seq<Sent> {
    if targets == [] then []
    else
      (match PeerById(peers, targets[0]) case Some(p) => [Sent(p.local, payload)] case None => [])
      + Deliveries(peers, targets[1..], payload)
  }

  lemma DeliveriesPrepend(peers: seq<PeerEntry>, targets: seq<byte>, n: nat, payload: seq<byte>)
    requires n < |targets|
    ensures Deliveries(peers, targets[..n + 1], payload)
            == Deliveries(peers, targets[..1], payload) + Deliveries(peers, targets[1..][..n], payload)
  {
    assert targets[..n + 1][1..] == targets[1..][..n];
    assert targets[..1][1..] == [];
  }

  predicate Throws(peers: seq<PeerEntry>, dest: byte, ok: bool) {
    PeerById(peers, dest).Some? && (PeerById(peers, dest).value.local.Shm? || !ok)
  }

  /**
   A send that throws at target n leaves exactly the first n targets delivered
   and counted; n is the first throwing target, or all of them.
   */
  lemma {:induction false} FanOutIsAPrefix(l: Link, peers: seq<PeerEntry>, targets: seq<byte>, payload: seq<byte>, oracle: seq<bool>)
    requires |oracle| == |targets|
    ensures var (l', n) := FanOut(l, peers, targets, payload, oracle);
            var done := Deliveries(peers, targets[..n], payload);
            && l'.wire == l.wire + done
            && l'.metrics == l.metrics.(forwarded := l.metrics.forwarded + |done|)
            && (n < |targets| ==> Throws(peers, targets[n], oracle[n]))
            && forall j :: 0 <= j < n ==> !Throws(peers, targets[j], oracle[j])
    decreases |targets|
  {
    if targets != [] {
      var (l1, status) := SendTo(l, peers, targets[0], payload, oracle[0]);
      if status != Failed {
        FanOutIsAPrefix(l1, peers, targets[1..], payload, oracle[1..]);
        var n := FanOut(l1, peers, targets[1..], payload, oracle[1..]).1;
        DeliveriesPrepend(peers, targets, n, payload);
        forall j | 0 <= j < n + 1 ensures !Throws(peers, targets[j], oracle[j]) {
          if j > 0 { assert targets[j] == targets[1..][j - 1] && oracle[j] == oracle[1..][j - 1]; }
        }
      }
    }
  }

  // ----- ingress ------------------------------------------------------------

  /** What lands in the frame buffer: at most one frame's worth, over whatever was there. */
  function Landed(scratch: FrameBytes, bytes: seq<byte>): FrameBytes {
    var n := Min(|bytes|, FRAME_SIZE);
    bytes[..n] + scratch[n..]
  }

  /** try_receive on one datagram: link, resolved source (0 if none) and frame bytes. */
  function Accept(l: Link, peers: seq<PeerEntry>, d: Datagram, ts: u64, scratch: FrameBytes): (Link, byte, FrameBytes) {
    var frame := Landed(scratch, d.bytes);
    if |d.bytes| < FRAME_SIZE then
      (l.(metrics := l.metrics.(recvTruncated := l.metrics.recvTruncated + 1)), ENDPOINT_INVALID, frame)
    else
      var source := Resolve(peers, d.sender);
      if source == ENDPOINT_INVALID then
        (l.(metrics := l.metrics.(recvUnknownSource := l.metrics.recvUnknownSource + 1)), ENDPOINT_INVALID, frame)
      else (l, source, Stamp(frame, source, ts))
  }

  // ----- the code -----------------------------------------------------------

  class DatagramRouterLink {
    const peers: seq<PeerEntry>
    var metrics: Metrics
    var wire: seq<Sent>

    ghost function Snapshot(): Link
      reads this
    {
      Link(metrics, wire)
    }

    constructor (peers: seq<PeerEntry>)
      ensures this.peers == peers && Snapshot() == Link(Metrics(0, 0, 0), [])
    {
      this.peers, metrics, wire := peers, Metrics(0, 0, 0), [];
    }

    method ResolveSender(sender: Sender) returns (id: byte)
      ensures id == Resolve(peers, sender)
    {
      for i := 0 to |peers|
        invariant Resolve(peers, sender) == Resolve(peers[i..], sender)
      {
        assert peers[i..][1..] == peers[i + 1..];
        if Answers(peers[i], sender) {
          return peers[i].id;
        }
      }
      return ENDPOINT_INVALID;
    }

    method TryReceive(frame: RouterFrame, ts: u64, incoming: Option<Datagram>) returns (source: byte)
      requires frame.Valid()
      modifies this, frame.bytes
      ensures incoming.None? ==> source == ENDPOINT_INVALID && Snapshot() == old(Snapshot()) && frame.bytes[..] == old(frame.bytes[..])
      ensures incoming.Some? ==>
                (Snapshot(), source, frame.bytes[..]) == Accept(old(Snapshot()), peers, incoming.value, ts, old(frame.bytes[..]))
    {
      if incoming.None? {
        return ENDPOINT_INVALID;
      }
      var d := incoming.value;
      var n := if |d.bytes| < FRAME_SIZE then |d.bytes| else FRAME_SIZE;
      ghost var was := frame.bytes[..];
      frame.CopyAt(0, d.bytes[..n]);
      assert frame.bytes[..] == Landed(was, d.bytes);
      if n < FRAME_SIZE {
        metrics := metrics.(recvTruncated := metrics.recvTruncated + 1);
        return ENDPOINT_INVALID;
      }
      source := ResolveSender(d.sender);
      if source == ENDPOINT_INVALID {
        metrics := metrics.(recvUnknownSource := metrics.recvUnknownSource + 1);
        return;
      }
      frame.SetField(Source, source);
      frame.SetField(TimestampNs, ts);
    }

    method SendToPeer(dest: byte, payload: seq<byte>, ok: bool) returns (status: Status)
      modifies this
      ensures (Snapshot(), status) == SendTo(old(Snapshot()), peers, dest, payload, ok)
    {
      var k := FindPeer(peers, dest);
      if k == |peers| {
        return Skipped;
      }
      if peers[k].local.Shm? || !ok {
        return Failed;
      }
      wire := wire + [Sent(peers[k].local, payload)];
      metrics := metrics.(forwarded := metrics.forwarded + 1);
      return Delivered;
    }

    /** forward() once a datagram is in: the whole single-transport iteration. */
    method ForwardOne(frame: RouterFrame, ts: u64, rules: seq<Rule>, d: Datagram, kernel: nat -> bool)
      returns (source: byte, targets: seq<byte>, done: nat)
      requires frame.Valid()
      modifies this, frame.bytes
      ensures var (l, s, f) := Accept(old(Snapshot()), peers, d, ts, old(frame.bytes[..]));
              && source == s && frame.bytes[..] == f
              && targets == (if s == ENDPOINT_INVALID then [] else TargetsFor(rules, s, Topic(f)))
              && (Snapshot(), done) == FanOut(l, peers, targets, f, Answered(kernel, |targets|))
    {
      targets, done := [], 0;
      source := TryReceive(frame, ts, Some(d));
      if source == ENDPOINT_INVALID {
        return;
      }
      var payload: FrameBytes := frame.bytes[..];
      targets := RouteTargetsFor(rules, source, Topic(payload));
      done := SendAll(targets, payload, kernel);
    }

    /** The fan-out loop; an exception from a send leaves it at once. */
    method SendAll(targets: seq<byte>, payload: seq<byte>, kernel: nat -> bool) returns (done: nat)
      modifies this
      ensures (Snapshot(), done) == FanOut(old(Snapshot()), peers, targets, payload, Answered(kernel, |targets|))
    {
      ghost var oracle := Answered(kernel, |targets|);
      ghost var outcome := FanOut(Snapshot(), peers, targets, payload, oracle);
      done := 0;
      for k := 0 to |targets|
        invariant done == k
        invariant FanOut(Snapshot(), peers, targets[k..], payload, oracle[k..]) == (outcome.0, outcome.1 - k)
      {
        assert targets[k..][0] == targets[k] && oracle[k..][0] == kernel(k);
        assert targets[k..][1..] == targets[k + 1..] && oracle[k..][1..] == oracle[k + 1..];
        var status := SendToPeer(targets[k], payload, kernel(k));
        if status == Failed {
          return;
        }
        done := k + 1;
      }
    }
  }
}
