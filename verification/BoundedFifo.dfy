/**
 The atomic view of one direction of a shared-memory ring: a bounded queue of
 records. SpscProtocol and ShmRegion show that the ring implements it; the
 router model is built on it.
 */
module BoundedFifo {
  import opened Bytes

  type Record = seq<byte>

  datatype Fifo = Fifo(slotCount: nat, maxPayload: nat, queue: seq<Record>) {

    ghost predicate Valid() {
      && |queue| <= slotCount
      && forall r :: r in queue ==> |r| <= maxPayload
    }

    predicate Full() { |queue| >= slotCount }
  }

  datatype PopOutcome =
    | Empty
    | TooSmall                          // the receive buffer cannot hold the record; nothing is removed
    | Popped(record: Record, rest: Fifo)

  /** A payload longer than a slot is cut to the slot. */
  function Clip(payload: seq<byte>, maxPayload: nat): (r: Record) {
    payload[..Min(|payload|, maxPayload)]
  }

  /** The ring after one try-push; a full ring is returned unchanged. */
  function Push(f: Fifo, payload: seq<byte>): Fifo {
    if f.Full() then f else f.(queue := f.queue + [Clip(payload, f.maxPayload)])
  }

  function Pop(f: Fifo, capacity: nat): PopOutcome {
    if f.queue == [] then Empty
    else if |f.queue[0]| > capacity then TooSmall
    else Popped(f.queue[0], f.(queue := f.queue[1..]))
  }

  /** What a linearised ring operation did. */
  datatype RingEvent =
    | Silent
    | Pushed(payload: seq<byte>)
    | SawFull
    | Took(capacity: nat, record: Record)
    | SawEmpty
    | Refused(capacity: nat)            // the pop threw: buffer too small

  /** The queue after `e`, or None when the atomic ring could not have produced `e`. */
  function Apply(f: Fifo, e: RingEvent): Option<Fifo> {
    match e
    case Silent => Some(f)
    case Pushed(payload) => if f.Full() then None else Some(Push(f, payload))
    case SawFull => if f.Full() then Some(f) else None
    case SawEmpty => if f.queue == [] then Some(f) else None
    case Took(capacity, record) =>
      var out := Pop(f, capacity);
      if out.Popped? && out.record == record then Some(out.rest) else None
    case Refused(capacity) => if Pop(f, capacity) == TooSmall then Some(f) else None
  }

  function Replay(f: Fifo, trace: seq<RingEvent>): Option<Fifo>
    decreases |trace|
  {
    if trace == [] then Some(f)
    else match Apply(f, trace[0])
      case None => None
      case Some(g) => Replay(g, trace[1..])
  }

  function PushedRecords(trace: seq<RingEvent>, maxPayload: nat): seq<Record> {
    if trace == [] then []
    else AddedBy(trace[0], maxPayload) + PushedRecords(trace[1..], maxPayload)
  }

  function TakenRecords(trace: seq<RingEvent>): seq<Record> {
    if trace == [] then []
    else RemovedBy(trace[0]) + TakenRecords(trace[1..])
  }

  function AddedBy(e: RingEvent, maxPayload: nat): seq<Record> {
    if e.Pushed? then [Clip(e.payload, maxPayload)] else []
  }

  function RemovedBy(e: RingEvent): seq<Record> {
    if e.Took? then [e.record] else []
  }

  lemma ApplyConserves(f: Fifo, e: RingEvent)
    requires f.Valid() && Apply(f, e).Some?
    ensures var g := Apply(f, e).value;
            && g.Valid() && g.slotCount == f.slotCount && g.maxPayload == f.maxPayload
            && f.queue + AddedBy(e, f.maxPayload) == RemovedBy(e) + g.queue
  {
    if e.Took? {
      assert f.queue == [f.queue[0]] + f.queue[1..];
    }
  }

  lemma AppendAssoc(a: seq<Record>, b: seq<Record>, c: seq<Record>)
    ensures (a + b) + c == a + (b + c)
  {
  }

  /** Every replayable trace conserves records, in order: pushed = popped ++ queued. */
  lemma {:induction false} ReplayConserves(f: Fifo, trace: seq<RingEvent>)
    requires f.Valid() && Replay(f, trace).Some?
    ensures var g := Replay(f, trace).value;
            && g.Valid() && g.slotCount == f.slotCount && g.maxPayload == f.maxPayload
            && f.queue + PushedRecords(trace, f.maxPayload) == TakenRecords(trace) + g.queue
    decreases |trace|
  {
    if trace != [] {
      var e, rest := trace[0], trace[1..];
      var g, end := Apply(f, e).value, Replay(f, trace).value;
      ApplyConserves(f, e);
      ReplayConserves(g, rest);
      AppendAssoc(f.queue, AddedBy(e, f.maxPayload), PushedRecords(rest, f.maxPayload));
      AppendAssoc(RemovedBy(e), g.queue, PushedRecords(rest, f.maxPayload));
      AppendAssoc(RemovedBy(e), TakenRecords(rest), end.queue);
    }
  }
}
