/**
 The priority floors compared with each other on one outbound ring, over every
 history of arrivals and drains.
 */
module FloorOrder {
  import opened Bytes
  import opened BoundedFifo
  import opened Frame
  import opened Routing
  import opened ShmRouter
  import opened RouterRuns

  /** One outbound ring under arrivals and drains. */
  datatype Happening = Arrive(payload: seq<byte>) | Drain

  function React(c: Channel, floor: byte, h: Happening): Channel {
    match h
    case Arrive(payload) => AfterSend(c, floor, payload)
    case Drain => if c.outbound.queue == [] then c else c.(outbound := c.outbound.(queue := c.outbound.queue[1..]))
  }

  function ReactAll(c: Channel, floor: byte, hs: seq<Happening>): Channel
    decreases |hs|
  {
    if hs == [] then c else ReactAll(React(c, floor, hs[0]), floor, hs[1..])
  }

  /** For the arrivals that got as far as the ring (were not shed), oldest first: was there room? */
  function Attempts(c: Channel, floor: byte, hs: seq<Happening>): seq<bool>
    decreases |hs|
  {
    if hs == [] then []
    else
      (if hs[0].Arrive? && !Sheds(c, floor, PriorityOf(hs[0].payload)) then [!c.outbound.Full()] else [])
      + Attempts(React(c, floor, hs[0]), floor, hs[1..])
  }

  /** The sticky bit over any history: a ring is congested iff the last attempt to send on it found it full. */
  lemma {:induction false} CongestedIffLastAttemptRefused(c: Channel, floor: byte, hs: seq<Happening>)
    ensures var tries := Attempts(c, floor, hs);
            ReactAll(c, floor, hs).congested <==> if tries == [] then c.congested else !tries[|tries| - 1]
    decreases |hs|
  {
    if hs != [] {
      CongestedIffLastAttemptRefused(React(c, floor, hs[0]), floor, hs[1..]);
    }
  }

  /** A ring with plain drop-on-full and no priorities at all. */
  function PlainAll(q: Fifo, hs: seq<Happening>): Fifo
    decreases |hs|
  {
    if hs == [] then q
    else
      var q' := match hs[0]
        case Arrive(payload) => Push(q, payload)
        case Drain => if q.queue == [] then q else q.(queue := q.queue[1..]);
      PlainAll(q', hs[1..])
  }

  /**
   A floor is without effect on a history, compared with plain drop-on-full, when
   it is 0 or when no arrival is below it: nothing is shed and the ring holds the
   same records throughout.
   */
  lemma {:induction false} IdleFloorIsPlainDropOnFull(c: Channel, floor: byte, hs: seq<Happening>)
    requires floor == 0 || forall k :: 0 <= k < |hs| && hs[k].Arrive? ==> PriorityOf(hs[k].payload) >= floor
    ensures ReactAll(c, floor, hs).outbound == PlainAll(c.outbound, hs)
    decreases |hs|
  {
    if hs != [] {
      IdleFloorIsPlainDropOnFull(React(c, floor, hs[0]), floor, hs[1..]);
    }
  }

  lemma {:induction false} ReactAppend(c: Channel, floor: byte, a: seq<Happening>, b: seq<Happening>)
    ensures ReactAll(c, floor, a + b) == ReactAll(ReactAll(c, floor, a), floor, b)
    decreases |a|
  {
    if a == [] {
      assert a + b == b;
    } else {
      assert (a + b)[1..] == a[1..] + b;
      ReactAppend(React(c, floor, a[0]), floor, a[1..], b);
    }
  }

  // ----- what matters of a ring: how full it is and the sticky bit ----------

  datatype Gauge = Gauge(slots: nat, held: nat, congested: bool)

  function GaugeOf(c: Channel): Gauge { Gauge(c.outbound.slotCount, |c.outbound.queue|, c.congested) }

  /** An arrival of priority `prio`. */
  function Admit(g: Gauge, floor: byte, prio: nat): Gauge {
    if floor > 0 && g.congested && prio < floor then g
    else if g.held >= g.slots then g.(congested := true)
    else Gauge(g.slots, g.held + 1, false)
  }

  function Release(g: Gauge): Gauge { if g.held == 0 then g else g.(held := g.held - 1) }

  function Move(g: Gauge, floor: byte, h: Happening): Gauge {
    if h.Arrive? then Admit(g, floor, PriorityOf(h.payload)) else Release(g)
  }

  lemma ReactMovesGauge(c: Channel, floor: byte, h: Happening)
    ensures GaugeOf(React(c, floor, h)) == Move(GaugeOf(c), floor, h)
  {
  }

  // ----- floors that dominate -----------------------------------------------

  /** `a` is no fuller; and either nothing has separated the two rings yet, or `a` cannot take anything any more. */
  ghost predicate Below(f: byte, g: byte, a: Gauge, b: Gauge) {
    && a.slots == b.slots && a.held <= b.held
    && (f == 0 || a == b || (g >= PRIORITIES && a.congested))
  }

  ghost predicate Ordered(f: byte, g: byte) { f == 0 || f == g || g >= PRIORITIES }

  lemma MoveKeepsBelow(f: byte, g: byte, a: Gauge, b: Gauge, h: Happening)
    requires Ordered(f, g) && Below(f, g, a, b)
    ensures Below(f, g, Move(a, g, h), Move(b, f, h))
  {
  }

  lemma {:induction false} OrderedStaysBelow(f: byte, g: byte, a: Channel, b: Channel, hs: seq<Happening>)
    requires Ordered(f, g) && Below(f, g, GaugeOf(a), GaugeOf(b))
    ensures Below(f, g, GaugeOf(ReactAll(a, g, hs)), GaugeOf(ReactAll(b, f, hs)))
    decreases |hs|
  {
    if hs != [] {
      ReactMovesGauge(a, g, hs[0]);
      ReactMovesGauge(b, f, hs[0]);
      MoveKeepsBelow(f, g, GaugeOf(a), GaugeOf(b), hs[0]);
      OrderedStaysBelow(f, g, React(a, g, hs[0]), React(b, f, hs[0]), hs[1..]);
    }
  }

  // ----- and floors that do not ---------------------------------------------

  function Flagged(p: nat): FrameBytes
    requires p < PRIORITIES
  {
    var flags: byte := 16 * p;
    seq(FRAME_SIZE, k => if k == 1 then flags else 0)
  }

  lemma FlaggedPriority(p: nat)
    requires p < PRIORITIES
    ensures PriorityOf(Flagged(p)) == p
  {
    assert Flagged(p)[..FRAME_SIZE] == Flagged(p);
  }

  function Arrival(p: nat): Happening
    requires p < PRIORITIES
  {
    Arrive(Flagged(p))
  }

  function Copies(n: nat): seq<Happening> { seq(n, _ => Arrival(7)) }

  lemma {:induction false} FillUp(c: Channel, floor: byte, n: nat)
    requires !c.congested && |c.outbound.queue| + n <= c.outbound.slotCount
    ensures GaugeOf(ReactAll(c, floor, Copies(n))) == Gauge(c.outbound.slotCount, |c.outbound.queue| + n, false)
    decreases n
  {
    if n > 0 {
      FlaggedPriority(7);
      assert Copies(n)[1..] == Copies(n - 1);
      ReactMovesGauge(c, floor, Arrival(7));
      FillUp(React(c, floor, Arrival(7)), floor, n - 1);
    }
  }

  /** A ring of any size, filled, refused once and drained by one. */
  function Jam(slots: nat): seq<Happening> { Copies(slots) + [Arrival(7), Drain] }

  lemma Jammed(c: Channel, floor: byte)
    requires !c.congested && c.outbound.queue == [] && c.outbound.slotCount > 0
    ensures var n := c.outbound.slotCount;
            GaugeOf(ReactAll(c, floor, Jam(n))) == Gauge(n, n - 1, true)
  {
    var n := c.outbound.slotCount;
    var full := ReactAll(c, floor, Copies(n));
    FillUp(c, floor, n);
    FlaggedPriority(7);
    ReactAppend(c, floor, Copies(n), [Arrival(7), Drain]);
    TwoMore(full, floor, Arrival(7), Drain);
  }

  lemma TwoMore(c: Channel, floor: byte, h1: Happening, h2: Happening)
    ensures GaugeOf(ReactAll(c, floor, [h1, h2])) == Move(Move(GaugeOf(c), floor, h1), floor, h2)
  {
    ReactMovesGauge(c, floor, h1);
    ReactMovesGauge(React(c, floor, h1), floor, h2);
    assert [h1, h2][1..] == [h2] && [h2][1..] == [];
    var first := React(c, floor, h1);
    assert ReactAll(c, floor, [h1, h2]) == ReactAll(first, floor, [h2]);
    assert ReactAll(first, floor, [h2]) == ReactAll(React(first, floor, h2), floor, []);
  }

  /** After the jam, one arrival between the two floors separates a lower floor that takes it from a higher one that sheds it. */
  lemma LowerFloorFuller(c: Channel, low: byte, high: byte)
    requires !c.congested && c.outbound.queue == [] && c.outbound.slotCount > 0
    requires low < high && low < PRIORITIES
    ensures var hs := Jam(c.outbound.slotCount) + [Arrival(low)];
            |ReactAll(c, low, hs).outbound.queue| == c.outbound.slotCount
            && |ReactAll(c, high, hs).outbound.queue| == c.outbound.slotCount - 1
  {
    FlaggedPriority(low);
    var jam := Jam(c.outbound.slotCount);
    forall floor: byte ensures GaugeOf(ReactAll(c, floor, jam + [Arrival(low)])) ==
                               Admit(Gauge(c.outbound.slotCount, c.outbound.slotCount - 1, true), floor, low)
    {
      Jammed(c, floor);
      ReactAppend(c, floor, jam, [Arrival(low)]);
      var jammed := ReactAll(c, floor, jam);
      ReactMovesGauge(jammed, floor, Arrival(low));
      assert [Arrival(low)][1..] == [];
      assert ReactAll(jammed, floor, [Arrival(low)]) == React(jammed, floor, Arrival(low));
    }
    assert GaugeOf(ReactAll(c, low, jam + [Arrival(low)])).held == c.outbound.slotCount;
    assert GaugeOf(ReactAll(c, high, jam + [Arrival(low)])).held == c.outbound.slotCount - 1;
  }

  /** The history that leaves the higher of two non-zero floors fuller. */
  function Overtake(slots: nat, low: nat): seq<Happening>
    requires low < PRIORITIES
  {
    Jam(slots) + [Arrival(low), Arrival(7)] + [Drain, Arrival(0)]
  }

  lemma HigherFloorFuller(c: Channel, low: byte, high: byte)
    requires !c.congested && c.outbound.queue == [] && c.outbound.slotCount > 0
    requires 0 < low < high < PRIORITIES
    ensures var hs := Overtake(c.outbound.slotCount, low);
            |ReactAll(c, low, hs).outbound.queue| == c.outbound.slotCount - 1
            && |ReactAll(c, high, hs).outbound.queue| == c.outbound.slotCount
  {
    var n := c.outbound.slotCount;
    OvertakeOn(c, low, low);
    OvertakeOn(c, high, low);
    FlaggedPriority(low);
    FlaggedPriority(7);
    FlaggedPriority(0);
    assert GaugeOf(ReactAll(c, low, Overtake(n, low))).held == n - 1;
    assert GaugeOf(ReactAll(c, high, Overtake(n, low))).held == n;
  }

  lemma OvertakeOn(c: Channel, floor: byte, low: nat)
    requires !c.congested && c.outbound.queue == [] && c.outbound.slotCount > 0 && low < PRIORITIES
    ensures var n := c.outbound.slotCount;
            GaugeOf(ReactAll(c, floor, Overtake(n, low)))
            == Move(Release(Move(Move(Gauge(n, n - 1, true), floor, Arrival(low)), floor, Arrival(7))), floor, Arrival(0))
  {
    var jam := Jam(c.outbound.slotCount);
    Jammed(c, floor);
    ReactAppend(c, floor, jam, [Arrival(low), Arrival(7)]);
    TwoMore(ReactAll(c, floor, jam), floor, Arrival(low), Arrival(7));
    ReactAppend(c, floor, jam + [Arrival(low), Arrival(7)], [Drain, Arrival(0)]);
    TwoMore(ReactAll(c, floor, jam + [Arrival(low), Arrival(7)]), floor, Drain, Arrival(0));
  }

  /** Whatever happens to a ring that starts out as `c`, floor g never leaves it fuller than floor f. */
  ghost predicate NeverFuller(c: Channel, g: byte, f: byte) {
    forall hs: seq<Happening> :: |ReactAll(c, g, hs).outbound.queue| <= |ReactAll(c, f, hs).outbound.queue|
  }

  /**
   The order of the floors, for a fresh ring of any size: floor g dominates floor
   f over all histories if and only if f is 0, the two are equal, or g is above
   every priority. Raising a floor within 1..7 helps some histories and hurts others.
   */
  lemma FloorOrderIff(c: Channel, f: byte, g: byte)
    requires !c.congested && c.outbound.queue == [] && c.outbound.slotCount > 0
    ensures NeverFuller(c, g, f) <==> f == 0 || f == g || g >= PRIORITIES
  {
    if Ordered(f, g) {
      forall hs: seq<Happening> ensures |ReactAll(c, g, hs).outbound.queue| <= |ReactAll(c, f, hs).outbound.queue| {
        OrderedStaysBelow(f, g, c, c, hs);
      }
    } else if f < g {
      HigherFloorFuller(c, f, g);
      var hs := Overtake(c.outbound.slotCount, f);
      assert |ReactAll(c, g, hs).outbound.queue| > |ReactAll(c, f, hs).outbound.queue|;
    } else {
      LowerFloorFuller(c, g, f);
      var hs := Jam(c.outbound.slotCount) + [Arrival(g)];
      assert |ReactAll(c, g, hs).outbound.queue| > |ReactAll(c, f, hs).outbound.queue|;
    }
  }

  // ----- a floor above every priority shuts a ring down ----------------------

  function Drains(hs: seq<Happening>): nat {
    if hs == [] then 0 else (if hs[0].Drain? then 1 else 0) + Drains(hs[1..])
  }

  /** Once congested under a floor of 8 or more, a ring only drains: nothing is ever tried on it again. */
  lemma {:induction false} ShutDown(c: Channel, floor: byte, hs: seq<Happening>)
    requires floor >= PRIORITIES && c.congested
    ensures ReactAll(c, floor, hs)
            == c.(outbound := c.outbound.(queue := c.outbound.queue[Min(Drains(hs), |c.outbound.queue|)..]))
    decreases |hs|
  {
    if hs != [] {
      ShutDown(React(c, floor, hs[0]), floor, hs[1..]);
    }
  }

  function DrainAll(n: nat): seq<Happening> { seq(n, _ => Drain) }

  lemma {:induction false} Drained(c: Channel, floor: byte, n: nat)
    requires n == |c.outbound.queue|
    ensures ReactAll(c, floor, DrainAll(n)) == c.(outbound := c.outbound.(queue := []))
    decreases n
  {
    if n > 0 {
      assert DrainAll(n)[1..] == DrainAll(n - 1);
      Drained(React(c, floor, Drain), floor, n - 1);
    }
  }

  /** A congested ring can recover under some history if and only if the floor is at most 7. */
  lemma RecoveryIff(c: Channel, floor: byte)
    requires c.congested && c.outbound.slotCount > 0
    ensures (exists hs: seq<Happening> :: !ReactAll(c, floor, hs).congested) <==> floor < PRIORITIES
  {
    if floor < PRIORITIES {
      var n := |c.outbound.queue|;
      var empty := c.(outbound := c.outbound.(queue := []));
      Drained(c, floor, n);
      ReactAppend(c, floor, DrainAll(n), [Arrival(7)]);
      FlaggedPriority(7);
      assert [Arrival(7)][1..] == [];
      assert ReactAll(empty, floor, [Arrival(7)]) == React(empty, floor, Arrival(7));
      assert !ReactAll(c, floor, DrainAll(n) + [Arrival(7)]).congested;
    } else {
      forall hs: seq<Happening> ensures ReactAll(c, floor, hs).congested {
        ShutDown(c, floor, hs);
      }
    }
  }

  /** The same in whole runs of the router: a congested peer under such a floor gets no further frame. */
  lemma {:induction false} ShutDownInRuns(s: System, rules: seq<Rule>, events: seq<Event>, d: nat)
    requires Shaped(s) && d < |s.link.channels| && s.link.floor >= PRIORITIES && s.link.channels[d].congested
    requires forall e :: e in events && e.SetFloor? ==> e.floor >= PRIORITIES
    ensures var s' := Run(s, rules, events); s'.enqueued[d] == s.enqueued[d] && s'.link.channels[d].congested
    decreases |events|
  {
    if events != [] {
      assert events[0] in events;
      ShutStep(s, rules, events[0], d);
      ShutDownInRuns(Next(s, rules, events[0]), rules, events[1..], d);
    }
  }

  lemma ShutStep(s: System, rules: seq<Rule>, e: Event, d: nat)
    requires Shaped(s) && d < |s.link.channels| && s.link.floor >= PRIORITIES && s.link.channels[d].congested
    requires e.SetFloor? ==> e.floor >= PRIORITIES
    ensures var s' := Next(s, rules, e);
            s'.enqueued[d] == s.enqueued[d] && s'.link.channels[d].congested && s'.link.floor >= PRIORITIES
  {
  }
}
