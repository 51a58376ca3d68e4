/** A subscriber that feeds the sequence numbers it receives from one peer to a tracker slot. */
module RouterTracker {
  import opened Bytes
  import opened BoundedFifo
  import opened Frame
  import opened Routing
  import opened ShmRouter
  import opened RouterRuns
  import T = SeqTracker

  /** The numbers of the full-size frames in `records` whose source byte is `id`, in order. */
  function NumbersFrom(records: seq<Record>, id: byte): seq<u32> {
    if records == [] then []
    else
      var r := records[0];
      (if |r| == FRAME_SIZE && r[0] == id then [SeqOf(r)] else []) + NumbersFrom(records[1..], id)
  }

  /** The integers a publisher assigned to the copies that came from channel `src`, in order. */
  function AssignedTo(copies: seq<Copy>, src: nat, ns: seq<int>): seq<int> {
    if copies == [] then []
    else (if copies[0].src == src && copies[0].pub < |ns| then [ns[copies[0].pub]] else []) + AssignedTo(copies[1..], src, ns)
  }

  ghost predicate Increasing(xs: seq<int>) {
    forall j, k :: 0 <= j < k < |xs| ==> xs[j] < xs[k]
  }

  /** Consecutive entries are less than 2^31 apart. */
  ghost predicate CloseTogether(xs: seq<int>) {
    forall k :: 0 <= k < |xs| - 1 ==> xs[k + 1] - xs[k] < T.WINDOW
  }

  /** Copies in publication order carry increasing numbers if the numbering increases. */
  lemma {:induction false} AssignedAbove(copies: seq<Copy>, src: nat, ns: seq<int>, low: int)
    requires InOrder(copies)
    requires forall k :: 0 <= k < |copies| && copies[k].src == src ==> copies[k].pub < |ns| && low < ns[copies[k].pub]
    requires forall j, k :: 0 <= j < k < |copies| && copies[j].src == src && copies[k].src == src
               ==> ns[copies[j].pub] < ns[copies[k].pub]
    ensures Increasing(AssignedTo(copies, src, ns))
    ensures forall x :: x in AssignedTo(copies, src, ns) ==> low < x
  {
    if copies != [] {
      var rest := copies[1..];
      assert InOrder(rest);
      if copies[0].src == src {
        var x := ns[copies[0].pub];
        forall k | 0 <= k < |rest| && rest[k].src == src ensures rest[k].pub < |ns| && x < ns[rest[k].pub] {
          assert rest[k] == copies[k + 1];
        }
        AssignedAbove(rest, src, ns, x);
        var xs := AssignedTo(rest, src, ns);
        forall k | 0 <= k < |xs| ensures x < xs[k] {
          assert xs[k] in xs;
        }
      } else {
        AssignedAbove(rest, src, ns, low);
      }
    }
  }

  /** Full-size records show `ns`, modulo 2^32, in their sequence field, and `ns` increases over them; short records do not matter. */
  ghost predicate NumberedBy(records: seq<Record>, ns: seq<int>) {
    && |ns| == |records|
    && (forall i :: 0 <= i < |records| && |records[i]| == FRAME_SIZE ==> SeqOf(records[i]) == T.Wrap(ns[i]))
    && forall i, j :: 0 <= i < j < |records| && |records[i]| == FRAME_SIZE && |records[j]| == FRAME_SIZE ==> ns[i] < ns[j]
  }

  /** Consecutive numbering of the full-size records from `base`. */
  function Consecutive(records: seq<Record>, base: int): (ns: seq<int>)
    ensures |ns| == |records|
  {
    if records == [] then []
    else [base] + Consecutive(records[1..], if |records[0]| == FRAME_SIZE then base + 1 else base)
  }

  lemma {:induction false} ConsecutiveIncreases(records: seq<Record>, base: int)
    ensures forall i :: 0 <= i < |records| ==> base <= Consecutive(records, base)[i]
    ensures forall i, j :: 0 <= i < j < |records| && |records[i]| == FRAME_SIZE
              ==> Consecutive(records, base)[i] < Consecutive(records, base)[j]
  {
    if records != [] {
      var next, tail := if |records[0]| == FRAME_SIZE then base + 1 else base, records[1..];
      ConsecutiveIncreases(tail, next);
      var ns, rest := Consecutive(records, base), Consecutive(tail, next);
      assert ns == [base] + rest;
      assert forall i :: 0 <= i < |rest| ==> next <= rest[i];
      forall i, j | 0 <= i < j < |records| && |records[i]| == FRAME_SIZE ensures ns[i] < ns[j] {
        if i > 0 {
          assert tail[i - 1] == records[i];
        }
      }
    }
  }

  /** A genuine copy shows its source in byte 0 and its publication's number in the sequence field. */
  lemma CopyShowsItsOrigin(s: System, c: Copy, src: nat, ns: seq<int>)
    requires Shaped(s) && DistinctChannels(s.link.channels) && src < |s.link.channels|
    requires Genuine(s, c) && NumberedBy(s.published[src], ns)
    ensures c.frame[0] == s.link.channels[src].peerId <==> c.src == src
    ensures c.src == src ==> c.pub < |ns| && SeqOf(c.frame) == T.Wrap(ns[c.pub])
  {
    StampSpec(s.published[c.src][c.pub], s.link.channels[c.src].peerId, c.ts);
  }

  lemma {:induction false} NumbersAreWrapped(copies: seq<Copy>, records: seq<Record>, src: nat, id: byte, ns: seq<int>)
    requires |copies| == |records|
    requires forall k :: 0 <= k < |copies| ==> records[k] == copies[k].frame
    requires forall k :: 0 <= k < |copies| ==> (copies[k].frame[0] == id <==> copies[k].src == src)
    requires forall k :: 0 <= k < |copies| && copies[k].src == src
               ==> copies[k].pub < |ns| && SeqOf(copies[k].frame) == T.Wrap(ns[copies[k].pub])
    ensures NumbersFrom(records, id) == T.WrapAll(AssignedTo(copies, src, ns))
    decreases |copies|
  {
    if copies != [] {
      NumbersAreWrapped(copies[1..], records[1..], src, id, ns);
      assert records[0] == copies[0].frame;
      var rest := AssignedTo(copies[1..], src, ns);
      if copies[0].src == src {
        var x := ns[copies[0].pub];
        assert NumbersFrom(records, id) == [T.Wrap(x)] + NumbersFrom(records[1..], id);
        assert AssignedTo(copies, src, ns) == [x] + rest;
        assert ([x] + rest)[1..] == rest;
      } else {
        assert NumbersFrom(records, id) == NumbersFrom(records[1..], id);
        assert AssignedTo(copies, src, ns) == rest;
      }
    }
  }

  lemma {:induction false} ShortRecordsCarryNothing(records: seq<Record>, id: byte)
    requires forall k :: 0 <= k < |records| ==> |records[k]| < FRAME_SIZE
    ensures NumbersFrom(records, id) == []
  {
    if records != [] {
      ShortRecordsCarryNothing(records[1..], id);
    }
  }

  // ----- an increasing stream through the tracker ---------------------------

  lemma DropFirst(m: int, xs: seq<int>)
    requires xs != [] && Increasing([m] + xs) && CloseTogether([m] + xs)
    ensures m < xs[0] < m + T.WINDOW
    ensures [xs[0]] + xs[1..] == xs
    ensures Increasing(xs) && CloseTogether(xs)
  {
    var all := [m] + xs;
    assert all[0] < all[1] && all[1] - all[0] < T.WINDOW;
    assert xs == all[1..];
    forall k | 0 <= k < |xs| - 1 ensures xs[k + 1] - xs[k] < T.WINDOW {
      assert all[k + 1 + 1] - all[k + 1] < T.WINDOW;
    }
  }

  lemma {:induction false} IncreasingStream(slot: T.Slot, m: int, xs: seq<int>)
    requires slot.valid && slot.lastSeq == T.Wrap(m)
    requires Increasing([m] + xs) && CloseTogether([m] + xs)
    ensures T.AllReadable(m, xs)
    ensures var end := T.Track(slot, T.WrapAll(xs));
            end.duplicates == slot.duplicates && end.outOfOrder == slot.outOfOrder
    ensures forall o :: o in T.Observations(slot, T.WrapAll(xs)) ==> o == T.InOrder || o == T.Gap
    ensures T.MaxFrom(m, xs) == ([m] + xs)[|xs|]
    decreases |xs|
  {
    if xs != [] {
      DropFirst(m, xs);
      T.ObserveExactIff(slot, m, xs[0]);
      var next := T.Observe(slot, T.Wrap(xs[0])).0;
      assert T.WrapAll(xs)[1..] == T.WrapAll(xs[1..]);
      IncreasingStream(next, xs[0], xs[1..]);
    }
  }

  /** What the tracker of a subscriber should say about a source whose delivered numbers are `xs`. */
  ghost predicate CleanStream(numbers: seq<u32>, xs: seq<int>) {
    var end := T.Track(T.BLANK, numbers);
    && end.duplicates == 0 && end.outOfOrder == 0
    && (forall o :: o in T.Observations(T.BLANK, numbers) ==> o == T.First || o == T.InOrder || o == T.Gap)
    && (xs != [] ==> |numbers| == |xs| == end.samples && end.samples + end.gaps == 1 + xs[|xs| - 1] - xs[0])
  }

  /**
   Router and tracker together. In every run, if the peer on channel `src` gives
   its full-size publications increasing numbers (modulo 2^32) and consecutive
   deliveries to the subscriber on channel d are less than 2^31 apart, the
   subscriber's tracker never reports Duplicate or OutOfOrder for that peer, and
   samples + gaps is exactly the span from the first to the last delivered
   number, whatever was dropped or routed elsewhere in between.
   */
  lemma TrackedDeliveries(channels: seq<Channel>, rules: seq<Rule>, events: seq<Event>, d: nat, src: nat, ns: seq<int>)
    requires Bootable(channels) && DistinctTargets(rules) && d < |channels| && src < |channels|
    requires NumberedBy(Run(Boot(channels), rules, events).published[src], ns)
    requires var s := Run(Boot(channels), rules, events);
             |s.taken[d]| <= |s.enqueued[d]| ==> CloseTogether(AssignedTo(s.enqueued[d][..|s.taken[d]|], src, ns))
    ensures var s := Run(Boot(channels), rules, events);
            var numbers := NumbersFrom(s.taken[d], s.link.channels[src].peerId);
            && |s.taken[d]| <= |s.enqueued[d]|
            && CleanStream(numbers, if channels[d].outbound.maxPayload < FRAME_SIZE then []
                                    else AssignedTo(s.enqueued[d][..|s.taken[d]|], src, ns))
  {
    var s := ReachableInv(channels, rules, events);
    assert OutboundOk(s, rules, d);
    RunKeepsSlotSize(Boot(channels), rules, events, d);
    NumbersReceived(s, rules, d, src, ns);
    var origins := s.enqueued[d][..|s.taken[d]|];
    OriginsIncrease(s, rules, d, src, ns, origins);
    if channels[d].outbound.maxPayload >= FRAME_SIZE {
      TrackWrapped(AssignedTo(origins, src, ns));
    }
  }

  lemma OriginsIncrease(s: System, rules: seq<Rule>, d: nat, src: nat, ns: seq<int>, origins: seq<Copy>)
    requires Shaped(s) && d < |s.link.channels| && src < |s.link.channels|
    requires OutboundOk(s, rules, d) && NumberedBy(s.published[src], ns) && origins <= s.enqueued[d]
    ensures Increasing(AssignedTo(origins, src, ns))
  {
    forall k | 0 <= k < |origins| ensures Genuine(s, origins[k]) {
      assert RoutedTo(s, rules, d, s.enqueued[d][k]);
    }
    var low := Least(ns);
    AssignedAbove(origins, src, ns, low);
  }

  /** A bound below every entry. */
  function Least(ns: seq<int>): (low: int)
    ensures forall i :: 0 <= i < |ns| ==> low < ns[i]
  {
    if ns == [] then 0 else var rest := Least(ns[1..]); if ns[0] <= rest then ns[0] - 1 else rest
  }

  /**
   The usual publisher: its full-size frames are numbered consecutively from
   `base`, so samples + gaps counts the frames it published between the first and
   the last delivery, both included.
   */
  lemma ConsecutivePublisher(channels: seq<Channel>, rules: seq<Rule>, events: seq<Event>, d: nat, src: nat, base: int)
    requires Bootable(channels) && DistinctTargets(rules) && d < |channels| && src < |channels|
    requires channels[d].outbound.maxPayload >= FRAME_SIZE
    requires var s := Run(Boot(channels), rules, events);
             var ns := Consecutive(s.published[src], base);
             && (forall i :: 0 <= i < |ns| && |s.published[src][i]| == FRAME_SIZE ==> SeqOf(s.published[src][i]) == T.Wrap(ns[i]))
             && (|s.taken[d]| <= |s.enqueued[d]| ==> CloseTogether(AssignedTo(s.enqueued[d][..|s.taken[d]|], src, ns)))
    ensures var s := Run(Boot(channels), rules, events);
            && |s.taken[d]| <= |s.enqueued[d]|
            && CleanStream(NumbersFrom(s.taken[d], s.link.channels[src].peerId),
                           AssignedTo(s.enqueued[d][..|s.taken[d]|], src, Consecutive(s.published[src], base)))
  {
    var sent := Run(Boot(channels), rules, events).published[src];
    ConsecutiveIncreases(sent, base);
    TrackedDeliveries(channels, rules, events, d, src, Consecutive(sent, base));
  }

  /** The numbers a subscriber sees from `src` are its delivered publications' numbers (none if frames are cut short). */
  lemma NumbersReceived(s: System, rules: seq<Rule>, d: nat, src: nat, ns: seq<int>)
    requires Shaped(s) && DistinctChannels(s.link.channels) && d < |s.link.channels| && src < |s.link.channels|
    requires OutboundOk(s, rules, d) && NumberedBy(s.published[src], ns)
    ensures |s.taken[d]| <= |s.enqueued[d]|
    ensures NumbersFrom(s.taken[d], s.link.channels[src].peerId) ==
            if s.link.channels[d].outbound.maxPayload < FRAME_SIZE then []
            else T.WrapAll(AssignedTo(s.enqueued[d][..|s.taken[d]|], src, ns))
  {
    var id := s.link.channels[src].peerId;
    var m := s.link.channels[d].outbound.maxPayload;
    var clipped := Clipped(s.enqueued[d], m);
    assert |clipped| == |s.taken[d] + s.link.channels[d].outbound.queue|;
    var origins := s.enqueued[d][..|s.taken[d]|];
    forall k | 0 <= k < |origins| ensures s.taken[d][k] == Clip(origins[k].frame, m) {
      assert clipped[k] == s.taken[d][k];
    }
    if m < FRAME_SIZE {
      ShortRecordsCarryNothing(s.taken[d], id);
    } else {
      forall k | 0 <= k < |origins|
        ensures s.taken[d][k] == origins[k].frame
        ensures origins[k].frame[0] == id <==> origins[k].src == src
        ensures origins[k].src == src ==> origins[k].pub < |ns| && SeqOf(origins[k].frame) == T.Wrap(ns[origins[k].pub])
      {
        assert RoutedTo(s, rules, d, s.enqueued[d][k]);
        assert Clip(origins[k].frame, m) == origins[k].frame;
        CopyShowsItsOrigin(s, origins[k], src, ns);
      }
      NumbersAreWrapped(origins, s.taken[d], src, id, ns);
    }
  }

  lemma TrackWrapped(xs: seq<int>)
    requires Increasing(xs) && CloseTogether(xs)
    ensures CleanStream(T.WrapAll(xs), xs)
  {
    if xs != [] {
      assert xs == [xs[0]] + xs[1..];
      BlankStep(xs[0], xs[1..]);
      IncreasingStream(T.Observe(T.BLANK, T.Wrap(xs[0])).0, xs[0], xs[1..]);
      T.TrackFromBlank(xs[0], xs[1..]);
    }
  }

  lemma BlankStep(x: int, xs: seq<int>)
    ensures var first := T.Observe(T.BLANK, T.Wrap(x)).0;
            var numbers := T.WrapAll([x] + xs);
            && first.valid && first.lastSeq == T.Wrap(x) && first.duplicates == 0 && first.outOfOrder == 0
            && T.Track(T.BLANK, numbers) == T.Track(first, T.WrapAll(xs))
            && T.Observations(T.BLANK, numbers) == [T.First] + T.Observations(first, T.WrapAll(xs))
  {
    var numbers := T.WrapAll([x] + xs);
    assert numbers[0] == T.Wrap(x) && numbers[1..] == T.WrapAll(xs);
  }
}
