/**
 ShmRouterLink on the server side: poll the per-peer rings, stamp, route, fan out
 with drop-on-full and the priority admission floor, and count. The functions
 are the specification; class ShmRouterLink is the code's loops proved against it.
 */
module ShmRouter {
  import opened Bytes
  import opened BoundedFifo
  import opened Frame
  import opened Routing

  const PEER_SLOTS: nat := 256
  const PRIORITIES: nat := 8

  /** One peer's region as the router sees it: requests come in, replies go out. */
  datatype Channel = Channel(peerId: byte, inbound: Fifo, outbound: Fifo, congested: bool)

  datatype Metrics = Metrics(forwarded: nat, droppedFull: nat, recvEmpty: nat, recvTruncated: nat,
                             perPeer: seq<nat>, byPriority: seq<nat>) {
    ghost predicate Shaped() { |perPeer| == PEER_SLOTS && |byPriority| == PRIORITIES }
  }

  function Zeros(n: nat): (r: seq<nat>)
    ensures |r| == n && forall i :: 0 <= i < n ==> r[i] == 0
  {
    if n == 0 then [] else Zeros(n - 1) + [0]
  }

  function ZeroMetrics(): Metrics { Metrics(0, 0, 0, 0, Zeros(PEER_SLOTS), Zeros(PRIORITIES)) }

  datatype Link = Link(channels: seq<Channel>, metrics: Metrics, floor: byte) {
    ghost predicate Shaped() { metrics.Shaped() }
  }

  // ----- egress -------------------------------------------------------------

  /** priority_from_frame: bits 4..6 of the flags byte, 0 for anything shorter than a frame. */
  function PriorityOf(payload: seq<byte>): (p: nat)
    ensures p < PRIORITIES
  {
    if |payload| < FRAME_SIZE then 0 else Priority(payload[..FRAME_SIZE])
  }

  /** Index of the first channel at or after `i` with this peer id; |cs| if there is none. */
  function FindFrom(cs: seq<Channel>, dest: byte, i: nat): (k: nat)
    requires i <= |cs|
    ensures i <= k <= |cs|
    ensures k < |cs| ==> cs[k].peerId == dest
    ensures forall j :: i <= j < k ==> cs[j].peerId != dest
    decreases |cs| - i
  {
    if i == |cs| || cs[i].peerId == dest then i else FindFrom(cs, dest, i + 1)
  }

  function Find(cs: seq<Channel>, dest: byte): nat { FindFrom(cs, dest, 0) }

  /** Searching looks at ids only. */
  lemma {:induction false} FindDependsOnIds(a: seq<Channel>, b: seq<Channel>, dest: byte, i: nat)
    requires |a| == |b| && i <= |a|
    requires forall j :: 0 <= j < |a| ==> a[j].peerId == b[j].peerId
    ensures FindFrom(a, dest, i) == FindFrom(b, dest, i)
    decreases |a| - i
  {
    if i < |a| && a[i].peerId != dest {
      FindDependsOnIds(a, b, dest, i + 1);
    }
  }

  function RecordDrop(m: Metrics, dest: byte, prio: nat): (r: Metrics)
    requires m.Shaped() && prio < PRIORITIES
    ensures r.Shaped()
  {
    m.(droppedFull := m.droppedFull + 1,
       perPeer := m.perPeer[dest := m.perPeer[dest] + 1],
       byPriority := m.byPriority[prio := m.byPriority[prio] + 1])
  }

  /** A drop moves three counters by one: the total, the cell of its destination and the cell of its priority. */
  ghost predicate Charged(m: Metrics, m': Metrics, dest: byte, prio: nat) {
    && m'.droppedFull == m.droppedFull + 1
    && m'.forwarded == m.forwarded && m'.recvEmpty == m.recvEmpty && m'.recvTruncated == m.recvTruncated
    && |m'.perPeer| == |m.perPeer| == 256 && |m'.byPriority| == |m.byPriority| == 8
    && (forall id :: 0 <= id < 256 ==> m'.perPeer[id] == m.perPeer[id] + if id == dest then 1 else 0)
    && (forall p :: 0 <= p < 8 ==> m'.byPriority[p] == m.byPriority[p] + if p == prio then 1 else 0)
  }

  /** The priority a payload is charged to: bits 4..6 of its second byte if it is a whole frame. */
  ghost function ChargedPriority(payload: seq<byte>): int {
    if |payload| >= 64 then payload[1] / 0x10 % 8 else 0
  }

  /** A frame that was refused, whom it was for, and where it came from. */
  datatype Drop<T> = Drop(dest: byte, frame: FrameBytes, origin: T)

  /** How many of these drops were of priority p: bits 4..6 of the frame's second byte. */
  function DropsAt<T>(drops: seq<Drop<T>>, p: int): nat {
    if drops == [] then 0
    else DropsAt(drops[..|drops| - 1], p) + if drops[|drops| - 1].frame[1] / 0x10 % 8 == p then 1 else 0
  }

  /** How many of them were for peer `id`. */
  function DropsFor<T>(drops: seq<Drop<T>>, id: int): nat {
    if drops == [] then 0
    else DropsFor(drops[..|drops| - 1], id) + if drops[|drops| - 1].dest == id then 1 else 0
  }

  /** Every counter of drops counts its own: all of them, those of its priority, those for its peer. */
  ghost predicate DropsLogged<T>(m: Metrics, drops: seq<Drop<T>>) {
    && m.Shaped() && m.droppedFull == |drops|
    && (forall p :: 0 <= p < 8 ==> m.byPriority[p] == DropsAt(drops, p))
    && forall id :: 0 <= id < 256 ==> m.perPeer[id] == DropsFor(drops, id)
  }

  /** A send that drops is logged once and charged to the cells of that drop. */
  lemma ChargeKeepsLog<T>(m: Metrics, m': Metrics, drops: seq<Drop<T>>, d: Drop<T>)
    requires DropsLogged(m, drops) && Charged(m, m', d.dest, ChargedPriority(d.frame))
    ensures DropsLogged(m', drops + [d])
  {
    assert (drops + [d])[..|drops|] == drops;
  }

  datatype SendStatus = Enqueued | Dropped | NoChannel

  /** While its ring is backed up, a channel sheds frames below the floor before trying the ring. */
  predicate Sheds(c: Channel, floor: byte, prio: nat) {
    floor > 0 && c.congested && prio < floor
  }

  predicate Admits(c: Channel, floor: byte, prio: nat) {
    !Sheds(c, floor, prio) && !c.outbound.Full()
  }

  function AfterSend(c: Channel, floor: byte, payload: seq<byte>): Channel {
    if Sheds(c, floor, PriorityOf(payload)) then c
    else c.(outbound := Push(c.outbound, payload), congested := c.outbound.Full())
  }

  function SendTo(l: Link, dest: byte, payload: seq<byte>): (r: (Link, SendStatus))
    requires l.Shaped()
    ensures r.0.Shaped()
  {
    var k := Find(l.channels, dest);
    if k == |l.channels| then (l, NoChannel)
    else
      var c := l.channels[k];
      var prio := PriorityOf(payload);
      var channels := l.channels[k := AfterSend(c, l.floor, payload)];
      if Admits(c, l.floor, prio) then
        (l.(channels := channels, metrics := l.metrics.(forwarded := l.metrics.forwarded + 1)), Enqueued)
      else
        (l.(channels := channels, metrics := RecordDrop(l.metrics, dest, prio)), Dropped)
  }

  /** What one send counts: a forward, or a drop charged to its destination and its priority, or nothing without a channel. */
  lemma SendCounts(l: Link, dest: byte, payload: seq<byte>)
    requires l.Shaped()
    ensures var (l', status) := SendTo(l, dest, payload);
            && l'.floor == l.floor
            && match status
               case Enqueued => l'.metrics == l.metrics.(forwarded := l.metrics.forwarded + 1)
               case Dropped => Charged(l.metrics, l'.metrics, dest, ChargedPriority(payload))
               case NoChannel => l' == l
  {
  }

  /** Sends to each target in turn; a destination without a channel throws and ends the loop. */
  function FanOut(l: Link, targets: seq<byte>, payload: seq<byte>): (r: (Link, bool))
    requires l.Shaped()
    ensures r.0.Shaped()
    decreases |targets|
  {
    if targets == [] then (l, true)
    else
      var (l', status) := SendTo(l, targets[0], payload);
      if status == NoChannel then (l', false) else FanOut(l', targets[1..], payload)
  }

  // ----- ingress ------------------------------------------------------------

  datatype Polled =
    | NotReady
    | TooLong                                  // the receive buffer is one frame: try_recv throws
    | Short(rest: Fifo, bytes: Record)         // discarded and counted
    | Ready(rest: Fifo, frame: FrameBytes)

  function PollChannel(c: Channel): Polled {
    match Pop(c.inbound, FRAME_SIZE)
    case Empty => NotReady
    case TooSmall => TooLong
    case Popped(record, rest) => if |record| < FRAME_SIZE then Short(rest, record) else Ready(rest, record)
  }

  datatype Reception = Nothing | Threw | Got(source: byte)

  function SkipShort(l: Link, i: nat, rest: Fifo): Link
    requires i < |l.channels|
  {
    l.(channels := l.channels[i := l.channels[i].(inbound := rest)],
       metrics := l.metrics.(recvTruncated := l.metrics.recvTruncated + 1))
  }

  /** try_receive from channel `i` on: link, outcome and the scratch frame's bytes. */
  function Scan(l: Link, i: nat, ts: u64, scratch: FrameBytes): (r: (Link, Reception, FrameBytes))
    requires i <= |l.channels|
    ensures l.Shaped() ==> r.0.Shaped()
    decreases |l.channels| - i
  {
    if i == |l.channels| then (l, Nothing, scratch)
    else match PollChannel(l.channels[i])
      case NotReady => Scan(l, i + 1, ts, scratch)
      case TooLong => (l, Threw, scratch)
      case Short(rest, bytes) => Scan(SkipShort(l, i, rest), i + 1, ts, bytes + scratch[|bytes|..])
      case Ready(rest, frame) =>
        var c := l.channels[i];
        (l.(channels := l.channels[i := c.(inbound := rest)]), Got(c.peerId), Stamp(frame, c.peerId, ts))
  }

  datatype Forwarded = Forwarded(link: Link, source: byte, targets: seq<byte>, frame: FrameBytes, threw: bool)

  function Forward(l: Link, rules: seq<Rule>, ts: u64, scratch: FrameBytes): (r: Forwarded)
    requires l.Shaped()
    ensures r.link.Shaped()
  {
    var (l1, got, frame) := Scan(l, 0, ts, scratch);
    match got
    case Threw => Forwarded(l1, ENDPOINT_INVALID, [], frame, true)
    case Nothing => Forwarded(CountEmpty(l1), ENDPOINT_INVALID, [], frame, false)
    case Got(source) =>
      // An id equal to kEndpointInvalid would read as "nothing received".
      if source == ENDPOINT_INVALID then Forwarded(CountEmpty(l1), ENDPOINT_INVALID, [], frame, false)
      else
        var targets := TargetsFor(rules, source, Topic(frame));
        var (l2, ok) := FanOut(l1, targets, frame);
        Forwarded(l2, source, targets, frame, !ok)
  }

  function CountEmpty(l: Link): Link {
    l.(metrics := l.metrics.(recvEmpty := l.metrics.recvEmpty + 1))
  }

  lemma {:induction false} FanOutReceivesNothing(l: Link, targets: seq<byte>, payload: seq<byte>)
    requires l.Shaped()
    ensures var m, m' := l.metrics, FanOut(l, targets, payload).0.metrics;
            m'.recvEmpty == m.recvEmpty && m'.recvTruncated == m.recvTruncated
    decreases |targets|
  {
    if targets != [] {
      SendCounts(l, targets[0], payload);
      var (l', status) := SendTo(l, targets[0], payload);
      if status != NoChannel {
        FanOutReceivesNothing(l', targets[1..], payload);
      }
    }
  }

  lemma {:induction false} ScanFacts(l: Link, i: nat, ts: u64, scratch: FrameBytes)
    requires i <= |l.channels|
    ensures var (l', got, frame) := Scan(l, i, ts, scratch);
            && l'.metrics == l.metrics.(recvTruncated := l'.metrics.recvTruncated)
            && (got.Got? ==> frame[0] == got.source && Le8(frame[8], frame[9], frame[10], frame[11], frame[12], frame[13], frame[14], frame[15]) == ts)
    decreases |l.channels| - i
  {
    if i < |l.channels| {
      var c := l.channels[i];
      match PollChannel(c)
      case NotReady => ScanFacts(l, i + 1, ts, scratch);
      case TooLong =>
      case Short(rest, bytes) => ScanFacts(SkipShort(l, i, rest), i + 1, ts, bytes + scratch[|bytes|..]);
      case Ready(_, frame) =>
        StampSpec(frame, c.peerId, ts);
        StampTime(frame, c.peerId, ts);
    }
  }

  /** A scan passes a channel whose ring is empty or starts with a record below 64 bytes. */
  ghost predicate Passes(c: Channel) { c.inbound.queue == [] || |c.inbound.queue[0]| < 64 }

  /** The channel after the scan passed it: a short record is gone. */
  ghost function Passed(c: Channel): Channel {
    if c.inbound.queue == [] then c else c.(inbound := c.inbound.(queue := c.inbound.queue[1..]))
  }

  /**
   The scan, without its loop: it stops at the first channel k it cannot pass. There
   it throws and leaves a record of more than 64 bytes where it is, or hands over the
   record of 64 bytes, stamped; it finds nothing iff it passes every channel.
   */
  lemma {:induction false} ScanDecides(l: Link, i: nat, ts: u64, scratch: FrameBytes) returns (k: nat)
    requires i <= |l.channels|
    ensures i <= k <= |l.channels| && forall j :: i <= j < k ==> Passes(l.channels[j])
    ensures k < |l.channels| ==> !Passes(l.channels[k])
    ensures var (l', got, frame) := Scan(l, i, ts, scratch);
            && |l'.channels| == |l.channels|
            && (forall j :: 0 <= j < |l.channels| && j != k ==>
                  l'.channels[j] == if i <= j < k then Passed(l.channels[j]) else l.channels[j])
            && (k == |l.channels| ==> got == Nothing)
            && (k < |l.channels| ==>
                  var c := l.channels[k];
                  if |c.inbound.queue[0]| > 64 then got == Threw && l'.channels[k] == c
                  else && got == Got(c.peerId) && frame == Stamp(c.inbound.queue[0], c.peerId, ts)
                       && l'.channels[k] == c.(inbound := c.inbound.(queue := c.inbound.queue[1..])))
    decreases |l.channels| - i
  {
    k := i;
    if i < |l.channels| && Passes(l.channels[i]) {
      match PollChannel(l.channels[i]) {
        case NotReady => k := ScanDecides(l, i + 1, ts, scratch);
        case Short(rest, bytes) =>
          var next := SkipShort(l, i, rest);
          assert forall j :: 0 <= j < |l.channels| && j != i ==> next.channels[j] == l.channels[j];
          k := ScanDecides(next, i + 1, ts, bytes + scratch[|bytes|..]);
          forall j | i <= j < k ensures Passes(l.channels[j]) {
            assert j > i ==> Passes(next.channels[j]);
          }
      }
    }
  }

  /**
   One forward(), read off the frame's bytes: the targets are those of the topic in
   bytes 2..3, byte 0 and bytes 8..15 hold the source and the time, and recv_empty
   moves exactly when nothing was received and nothing was thrown.
   */
  lemma ForwardFacts(l: Link, rules: seq<Rule>, ts: u64, scratch: FrameBytes)
    requires l.Shaped()
    ensures var r := Forward(l, rules, ts, scratch);
            && r.targets == (if r.source == 0 then [] else TargetsFor(rules, r.source, Le2(r.frame[2], r.frame[3])))
            && (r.source != 0 ==>
                  && r.frame[0] == r.source
                  && Le8(r.frame[8], r.frame[9], r.frame[10], r.frame[11], r.frame[12], r.frame[13], r.frame[14], r.frame[15]) == ts)
            && r.link.metrics.recvEmpty == l.metrics.recvEmpty + if r.source == 0 && !r.threw then 1 else 0
  {
    var (l1, got, frame) := Scan(l, 0, ts, scratch);
    ScanFacts(l, 0, ts, scratch);
    if got.Got? && got.source != ENDPOINT_INVALID {
      TopicSeqPriority(frame);
      FanOutReceivesNothing(l1, TargetsFor(rules, got.source, Topic(frame)), frame);
    }
  }

  // ----- the code -----------------------------------------------------------

  class ShmRouterLink {
    var channels: seq<Channel>
    var metrics: Metrics
    var floor: byte

    ghost function Snapshot(): Link
      reads this
    {
      Link(channels, metrics, floor)
    }

    constructor (channels: seq<Channel>)
      ensures Snapshot() == Link(channels, ZeroMetrics(), 0)
    {
      this.channels, this.metrics, this.floor := channels, ZeroMetrics(), 0;
    }

    /** The channel table that bind_router builds. */
    method Attach(channels: seq<Channel>)
      modifies this
      ensures Snapshot() == old(Snapshot()).(channels := channels)
    {
      this.channels := channels;
    }

    method SetPriorityDropFloor(f: byte)
      modifies this
      ensures Snapshot() == old(Snapshot()).(floor := f)
    {
      floor := f;
    }

    method CountDrop(dest: byte, prio: nat)
      requires metrics.Shaped() && prio < PRIORITIES
      modifies this`metrics
      ensures metrics == RecordDrop(old(metrics), dest, prio)
      ensures Charged(old(metrics), metrics, dest, prio)
    {
      metrics := metrics.(droppedFull := metrics.droppedFull + 1);
      metrics := metrics.(perPeer := metrics.perPeer[dest := metrics.perPeer[dest] + 1]);
      metrics := metrics.(byPriority := metrics.byPriority[prio := metrics.byPriority[prio] + 1]);
    }

    /** send_to_peer; a throw is the status NoChannel. */
    method SendToPeer(dest: byte, payload: seq<byte>) returns (status: SendStatus)
      requires metrics.Shaped()
      modifies this
      ensures (Snapshot(), status) == SendTo(old(Snapshot()), dest, payload)
      ensures status == Dropped ==> Charged(old(metrics), metrics, dest, ChargedPriority(payload))
      ensures status == Enqueued ==> metrics == old(metrics).(forwarded := old(metrics).forwarded + 1)
      ensures status == NoChannel ==> Snapshot() == old(Snapshot())
    {
      SendCounts(Snapshot(), dest, payload);
      for i := 0 to |channels|
        invariant Snapshot() == old(Snapshot())
        invariant Find(channels, dest) == FindFrom(channels, dest, i)
      {
        if channels[i].peerId == dest {
          var channel := channels[i];
          var prio := PriorityOf(payload);
          if floor > 0 && channel.congested && prio < floor {
            assert channels == channels[i := channel];
            CountDrop(dest, prio);
            return Dropped;
          }
          if |channel.outbound.queue| < channel.outbound.slotCount {
            var ring := Push(channel.outbound, payload);
            channels := channels[i := channel.(outbound := ring, congested := false)];
            metrics := metrics.(forwarded := metrics.forwarded + 1);
            return Enqueued;
          }
          channels := channels[i := channel.(congested := true)];
          CountDrop(dest, prio);
          return Dropped;
        }
      }
      return NoChannel;
    }

    /** try_receive: the first channel with a full frame, stamped into the caller's frame. */
    method TryReceive(frame: RouterFrame, ts: u64) returns (got: Reception)
      requires metrics.Shaped() && frame.Valid()
      modifies this, frame.bytes
      ensures (Snapshot(), got, frame.bytes[..]) == Scan(old(Snapshot()), 0, ts, old(frame.bytes[..]))
    {
      ghost var result := Scan(Snapshot(), 0, ts, frame.bytes[..]);
      for i := 0 to |channels|
        invariant metrics.Shaped() && |channels| == |old(channels)|
        invariant Scan(Snapshot(), i, ts, frame.bytes[..]) == result
      {
        match PollChannel(channels[i]) {
          case NotReady =>
          case TooLong =>
            return Threw;
          case Short(rest, bytes) =>
            ghost var was := frame.bytes[..];
            frame.CopyAt(0, bytes);
            assert frame.bytes[..] == bytes + was[|bytes|..];
            channels := channels[i := channels[i].(inbound := rest)];
            metrics := metrics.(recvTruncated := metrics.recvTruncated + 1);
          case Ready(rest, received) =>
            var source := channels[i].peerId;
            channels := channels[i := channels[i].(inbound := rest)];
            frame.CopyAt(0, received);
            assert frame.bytes[..] == received;
            frame.SetField(Source, source);
            frame.SetField(TimestampNs, ts);
            return Got(source);
        }
      }
      return Nothing;
    }

    /** forward: one iteration of the single-transport router. */
    method ForwardOne(frame: RouterFrame, ts: u64, rules: seq<Rule>)
      returns (source: byte, targets: seq<byte>, threw: bool)
      requires metrics.Shaped() && frame.Valid()
      modifies this, frame.bytes
      ensures Forwarded(Snapshot(), source, targets, frame.bytes[..], threw)
           == Forward(old(Snapshot()), rules, ts, old(frame.bytes[..]))
      ensures source != 0 ==> targets == TargetsFor(rules, source, Le2(frame.bytes[2], frame.bytes[3])) && frame.bytes[0] == source
      ensures source == 0 ==> targets == []
      ensures metrics.recvEmpty == old(metrics).recvEmpty + if source == 0 && !threw then 1 else 0
    {
      ForwardFacts(Snapshot(), rules, ts, frame.bytes[..]);
      source, targets, threw := ENDPOINT_INVALID, [], false;
      var got := TryReceive(frame, ts);
      if got == Threw {
        threw := true;
        return;
      }
      if got == Nothing || got.source == ENDPOINT_INVALID {
        metrics := metrics.(recvEmpty := metrics.recvEmpty + 1);
        return;
      }
      source := got.source;
      var payload: FrameBytes := frame.bytes[..];
      targets := RouteTargetsFor(rules, source, Topic(payload));
      ghost var outcome := FanOut(Snapshot(), targets, payload);
      for k := 0 to |targets|
        invariant metrics.Shaped()
        invariant frame.bytes[..] == payload
        invariant FanOut(Snapshot(), targets[k..], payload) == outcome
      {
        var status := SendToPeer(targets[k], payload);
        assert targets[k..][1..] == targets[k + 1..];
        if status == NoChannel {
          threw := true;
          return;
        }
      }
    }
  }
}
