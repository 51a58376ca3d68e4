/**
 Head-of-line blocking in the SHM router. A record longer than a frame is never
 consumed: the receive throws, the run loop catches it and scans again from the
 first channel. This module says exactly which channels can still be served.
 */
module Starvation {
  import opened Bytes
  import opened BoundedFifo
  import opened Frame
  import opened Routing
  import opened ShmRouter
  import opened RouterRuns

  /**
   How many polls of a channel with queue `q` it takes until n scans have gone on
   to the next channel: a frame ends the scan, a short record or an empty ring
   lets it pass, and a record that is too long ends every scan from then on.
   */
  function PollsFor(q: seq<Record>, n: nat): (r: Option<nat>)
    ensures r.Some? ==> r.value >= n
  {
    if n == 0 then Some(0)
    else if q == [] then Some(n)
    else if |q[0]| > FRAME_SIZE then None
    else match PollsFor(q[1..], if |q[0]| == FRAME_SIZE then n else n - 1)
      case None => None
      case Some(x) => Some(x + 1)
  }

  /** How many polls of channel i it takes until channel k has been polled n times. */
  function ScansFor(cs: seq<Channel>, k: nat, i: nat, n: nat): (r: Option<nat>)
    requires i <= k <= |cs|
    ensures r.Some? ==> r.value >= n
    decreases k - i
  {
    if k == i then Some(n)
    else match PollsFor(cs[k - 1].inbound.queue, n)
      case None => None
      case Some(x) => ScansFor(cs, k - 1, i, x)
  }

  /** How many more scans must be started until channel j is polled; None if it never will be. */
  function Wait(s: System, j: nat): Option<nat>
    requires Shaped(s) && j < |s.link.channels|
  {
    var cs := s.link.channels;
    if s.pc.Scanning? && s.pc.i <= j then
      match ScansFor(cs, j, s.pc.i, 1)
      case None => None
      case Some(m) => ScansFor(cs, s.pc.i, 0, m - 1)
    else ScansFor(cs, j, 0, 1)
  }

  predicate TooLongInFront(c: Channel) { c.inbound.queue != [] && |c.inbound.queue[0]| > FRAME_SIZE }

  /** Channel j will never be served again. */
  predicate Stuck(s: System, j: nat)
    requires Shaped(s) && j < |s.link.channels|
  {
    Wait(s, j) == None || TooLongInFront(s.link.channels[j])
  }

  // ----- composing and comparing waits --------------------------------------

  function Then(cs: seq<Channel>, m: Option<nat>, i: nat): Option<nat>
    requires i <= |cs|
  {
    match m case None => None case Some(x) => ScansFor(cs, i, 0, x)
  }

  lemma {:induction false} ScansCompose(cs: seq<Channel>, k: nat, i: nat, n: nat)
    requires i <= k <= |cs|
    ensures ScansFor(cs, k, 0, n) == Then(cs, ScansFor(cs, k, i, n), i)
    decreases k - i
  {
    if k > i {
      match PollsFor(cs[k - 1].inbound.queue, n) {
        case None =>
        case Some(x) => ScansCompose(cs, k - 1, i, x);
      }
    }
  }

  lemma {:induction false} ScansForNone(cs: seq<Channel>, k: nat)
    requires k <= |cs|
    ensures ScansFor(cs, k, 0, 0) == Some(0)
  {
    if k > 0 {
      ScansForNone(cs, k - 1);
    }
  }

  function AtBottom(q: seq<Record>, m: Option<nat>): Option<nat> {
    match m case None => None case Some(x) => PollsFor(q, x)
  }

  /** The same, one channel further down. */
  lemma {:induction false} BottomStep(cs: seq<Channel>, k: nat, i: nat, n: nat)
    requires i < k <= |cs|
    ensures ScansFor(cs, k, i, n) == AtBottom(cs[i].inbound.queue, ScansFor(cs, k, i + 1, n))
    decreases k - i
  {
    match PollsFor(cs[k - 1].inbound.queue, n) {
      case None =>
      case Some(x) =>
        if k - 1 > i {
          BottomStep(cs, k - 1, i, x);
        } else {
          assert ScansFor(cs, i, i, x) == Some(x);
        }
    }
  }

  lemma {:induction false} ScansDependOnQueues(cs: seq<Channel>, cs': seq<Channel>, k: nat, i: nat, n: nat)
    requires i <= k <= |cs| == |cs'|
    requires forall l :: i <= l < k ==> cs'[l].inbound.queue == cs[l].inbound.queue
    ensures ScansFor(cs', k, i, n) == ScansFor(cs, k, i, n)
    decreases k - i
  {
    if k > i {
      match PollsFor(cs[k - 1].inbound.queue, n) {
        case None =>
        case Some(x) => ScansDependOnQueues(cs, cs', k - 1, i, x);
      }
    }
  }

  /** `b` is no shorter a wait than `a`. */
  predicate NoSooner(a: Option<nat>, b: Option<nat>) { b == None || (a.Some? && a.value <= b.value) }

  lemma {:induction false} PollsMonotone(q: seq<Record>, q': seq<Record>, n: nat, n': nat)
    requires q <= q' && n <= n'
    ensures NoSooner(PollsFor(q, n), PollsFor(q', n'))
    decreases |q'|
  {
    if n > 0 && q != [] {
      PollsMonotone(q[1..], q'[1..], if |q[0]| == FRAME_SIZE then n else n - 1, if |q[0]| == FRAME_SIZE then n' else n' - 1);
    }
  }

  /** Longer queues and more passes never shorten a wait. */
  lemma {:induction false} ScansMonotone(cs: seq<Channel>, cs': seq<Channel>, k: nat, i: nat, n: nat, n': nat)
    requires i <= k <= |cs| == |cs'| && n <= n'
    requires forall l :: i <= l < k ==> cs[l].inbound.queue <= cs'[l].inbound.queue
    ensures NoSooner(ScansFor(cs, k, i, n), ScansFor(cs', k, i, n'))
    decreases k - i
  {
    if k > i {
      PollsMonotone(cs[k - 1].inbound.queue, cs'[k - 1].inbound.queue, n, n');
      var a, b := PollsFor(cs[k - 1].inbound.queue, n), PollsFor(cs'[k - 1].inbound.queue, n');
      if b.Some? {
        ScansMonotone(cs, cs', k - 1, i, a.value, b.value);
      }
    }
  }

  // ----- what a step does to a wait -----------------------------------------

  /** Steps other than a poll of a channel up to j: the queues up to j are as they were or longer, the scan is where it was. */
  lemma WaitGrows(s: System, s': System, j: nat)
    requires Shaped(s) && Shaped(s') && j < |s.link.channels| == |s'.link.channels|
    requires forall l :: 0 <= l < j ==> s.link.channels[l].inbound.queue <= s'.link.channels[l].inbound.queue
    requires (s.pc.Scanning? && s.pc.i <= j) || (s'.pc.Scanning? && s'.pc.i <= j) ==> s'.pc == s.pc
    ensures NoSooner(Wait(s, j), Wait(s', j))
  {
    var cs, cs' := s.link.channels, s'.link.channels;
    if s.pc.Scanning? && s.pc.i <= j {
      var i := s.pc.i;
      ScansMonotone(cs, cs', j, i, 1, 1);
      var a, b := ScansFor(cs, j, i, 1), ScansFor(cs', j, i, 1);
      if b.Some? {
        ScansMonotone(cs, cs', i, 0, a.value - 1, b.value - 1);
      }
    } else {
      ScansMonotone(cs, cs', j, 0, 1, 1);
    }
  }

  /** Starting a scan uses one up. */
  lemma StartUsesOne(s: System, ts: u64, j: nat)
    requires Shaped(s) && s.pc == Idle && j < |s.link.channels|
    ensures var s' := s.(pc := Scanning(0, ts));
            Wait(s', j) == match Wait(s, j) case None => None case Some(w) => Some(w - 1)
  {
  }

  /** A poll of a channel before j does not change how many more scans it takes. */
  lemma PollKeepsWait(s: System, rules: seq<Rule>, j: nat)
    requires Shaped(s) && s.pc.Scanning? && s.pc.i < j < |s.link.channels|
    ensures Wait(DoPoll(s, rules), j) == Wait(s, j)
  {
    var s' := DoPoll(s, rules);
    PollEffect(s, rules);
    if s'.pc.Scanning? {
      PassKeepsWait(s.link.channels, s'.link.channels, j, s.pc.i);
    } else {
      StopKeepsWait(s.link.channels, s'.link.channels, j, s.pc.i);
    }
  }

  /** A scan that ends at channel i, with a frame or on a record that is too long. */
  lemma StopKeepsWait(cs: seq<Channel>, cs': seq<Channel>, j: nat, i: nat)
    requires i < j < |cs| == |cs'|
    requires forall l :: 0 <= l < |cs| && l != i ==> cs'[l].inbound.queue == cs[l].inbound.queue
    requires var q, q' := cs[i].inbound.queue, cs'[i].inbound.queue;
             q != [] && if |q[0]| > FRAME_SIZE then q' == q else |q[0]| == FRAME_SIZE && q' == q[1..]
    ensures ScansFor(cs', j, 0, 1)
         == match ScansFor(cs, j, i, 1) case None => None case Some(n) => ScansFor(cs, i, 0, n - 1)
  {
    var above := ScansFor(cs, j, i + 1, 1);
    BottomStep(cs, j, i, 1);
    ScansDependOnQueues(cs, cs', j, i + 1, 1);
    ScansCompose(cs', j, i, 1);
    BottomStep(cs', j, i, 1);
    if above.Some? && PollsFor(cs'[i].inbound.queue, above.value).Some? {
      ScansDependOnQueues(cs, cs', i, 0, PollsFor(cs'[i].inbound.queue, above.value).value);
    }
  }

  /** What polling channel i does to the queues. */
  lemma PollEffect(s: System, rules: seq<Rule>)
    requires Shaped(s) && s.pc.Scanning? && s.pc.i < |s.link.channels|
    ensures var s', i := DoPoll(s, rules), s.pc.i;
            var q, q' := s.link.channels[i].inbound.queue, s'.link.channels[i].inbound.queue;
            && (forall l :: 0 <= l < |s.link.channels| && l != i ==> s'.link.channels[l].inbound.queue == s.link.channels[l].inbound.queue)
            && (if q == [] then s'.pc == Scanning(i + 1, s.pc.ts) && q' == q
                else if |q[0]| > FRAME_SIZE then s'.pc == Idle && q' == q
                else q' == q[1..] && if |q[0]| < FRAME_SIZE then s'.pc == Scanning(i + 1, s.pc.ts) else !s'.pc.Scanning?)
  {
  }

  /** A scan that goes on from channel i to channel i + 1. */
  lemma PassKeepsWait(cs: seq<Channel>, cs': seq<Channel>, j: nat, i: nat)
    requires i < j < |cs| == |cs'|
    requires forall l :: 0 <= l < |cs| && l != i ==> cs'[l].inbound.queue == cs[l].inbound.queue
    requires Passes(cs[i].inbound.queue, cs'[i].inbound.queue)
    ensures (match ScansFor(cs', j, i + 1, 1) case None => None case Some(n) => ScansFor(cs', i + 1, 0, n - 1))
         == (match ScansFor(cs, j, i, 1) case None => None case Some(n) => ScansFor(cs, i, 0, n - 1))
  {
    BottomStep(cs, j, i, 1);
    ScansDependOnQueues(cs, cs', j, i + 1, 1);
    var above := ScansFor(cs, j, i + 1, 1);
    if above.Some? {
      OnePassLess(cs[i].inbound.queue, cs'[i].inbound.queue, above.value);
      var passed := PollsFor(cs'[i].inbound.queue, above.value - 1);
      if passed.Some? {
        ScansDependOnQueues(cs, cs', i, 0, passed.value);
      }
    }
  }

  /** A poll that finds the ring empty or pops a short record. */
  predicate Passes(q: seq<Record>, q': seq<Record>) {
    (q == [] && q' == []) || (q != [] && |q[0]| < FRAME_SIZE && q' == q[1..])
  }

  lemma OnePassLess(q: seq<Record>, q': seq<Record>, n: nat)
    requires Passes(q, q') && n > 0
    ensures PollsFor(q, n) == match PollsFor(q', n - 1) case None => None case Some(x) => Some(x + 1)
  {
  }

  // ----- never served -------------------------------------------------------

  /** A channel that is stuck stays stuck and loses no record. */
  lemma StuckStep(s: System, rules: seq<Rule>, e: Event, j: nat)
    requires Shaped(s) && j < |s.link.channels| && Stuck(s, j)
    ensures var s' := Next(s, rules, e);
            Stuck(s', j) && s.link.channels[j].inbound.queue <= s'.link.channels[j].inbound.queue
  {
    var s' := Next(s, rules, e);
    if e.RouterStep? && s.pc.Scanning? && s.pc.i < |s.link.channels| {
      PollEffect(s, rules);
      if s.pc.i < j {
        PollKeepsWait(s, rules, j);
      } else if s.pc.i > j {
        WaitGrows(s, s', j);
      } else {
        ScansForNone(s.link.channels, j);
      }
    } else if e.RouterStep? && s.pc == Idle {
      StartUsesOne(s, e.ts, j);
    } else {
      OtherSteps(s, rules, e, j);
      WaitGrows(s, s', j);
    }
  }

  lemma OtherSteps(s: System, rules: seq<Rule>, e: Event, j: nat)
    requires Shaped(s) && j < |s.link.channels|
    requires !(e.RouterStep? && (s.pc == Idle || (s.pc.Scanning? && s.pc.i < |s.link.channels|)))
    ensures var s' := Next(s, rules, e);
            && (forall l :: 0 <= l < |s.link.channels| ==> s.link.channels[l].inbound.queue <= s'.link.channels[l].inbound.queue)
            && ((s.pc.Scanning? && s.pc.i <= j) || (s'.pc.Scanning? && s'.pc.i <= j) ==> s'.pc == s.pc)
  {
  }

  /** In every run, whatever the peers do, no record of a stuck channel is ever popped. */
  lemma {:induction false} StuckForEver(s: System, rules: seq<Rule>, events: seq<Event>, j: nat)
    requires Shaped(s) && j < |s.link.channels| && Stuck(s, j)
    ensures var s' := Run(s, rules, events);
            Stuck(s', j) && s.link.channels[j].inbound.queue <= s'.link.channels[j].inbound.queue
    decreases |events|
  {
    if events != [] {
      StuckStep(s, rules, events[0], j);
      StuckForEver(Next(s, rules, events[0]), rules, events[1..], j);
    }
  }

  // ----- served in the end --------------------------------------------------

  lemma WaitSame(s: System, s': System, j: nat)
    requires Shaped(s) && Shaped(s') && j < |s.link.channels| == |s'.link.channels|
    requires forall l :: 0 <= l < j ==> s.link.channels[l].inbound.queue == s'.link.channels[l].inbound.queue
    requires !(s.pc.Scanning? && s.pc.i <= j) && !(s'.pc.Scanning? && s'.pc.i <= j)
    ensures Wait(s', j) == Wait(s, j)
  {
    ScansDependOnQueues(s.link.channels, s'.link.channels, j, 0, 1);
  }

  /** How far the router is from starting its next scan. */
  function Stage(pc: Pc, j: nat): nat {
    match pc
    case Idle => 0
    case Fanning(_, _, _, _, _) => 1
    case Scanning(i, _) => if i <= j then 3 else 2
  }

  function Left(s: System): nat
    requires Shaped(s)
  {
    match s.pc
    case Idle => 0
    case Fanning(_, _, _, _, rest) => |rest|
    case Scanning(i, _) => |s.link.channels| - i
  }

  ghost predicate Nearer(s: System, s': System, j: nat)
    requires Shaped(s) && Shaped(s') && j < |s.link.channels| == |s'.link.channels|
    requires Wait(s, j).Some? && Wait(s', j).Some?
  {
    || Wait(s', j).value < Wait(s, j).value
    || (Wait(s', j).value == Wait(s, j).value && Stage(s'.pc, j) < Stage(s.pc, j))
    || (Wait(s', j).value == Wait(s, j).value && Stage(s'.pc, j) == Stage(s.pc, j) && Left(s') < Left(s))
  }

  /** A router step that is not the poll of j itself brings that poll nearer and leaves j's ring alone. */
  lemma StepNearer(s: System, rules: seq<Rule>, j: nat)
    requires Shaped(s) && j < |s.link.channels| && Wait(s, j).Some? && !(s.pc.Scanning? && s.pc.i == j)
    ensures var s' := Next(s, rules, RouterStep(0));
            && s'.link.channels[j].inbound == s.link.channels[j].inbound && s'.published == s.published
            && Wait(s', j).Some? && Nearer(s, s', j)
  {
    var s' := Next(s, rules, RouterStep(0));
    if s.pc == Idle {
      StartUsesOne(s, 0, j);
    } else if s.pc.Scanning? && s.pc.i < |s.link.channels| {
      PollNearer(s, rules, j);
    } else {
      WaitSame(s, s', j);
    }
  }

  lemma PollNearer(s: System, rules: seq<Rule>, j: nat)
    requires Shaped(s) && j < |s.link.channels| && Wait(s, j).Some? && s.pc.Scanning? && s.pc.i < |s.link.channels| && s.pc.i != j
    ensures var s' := DoPoll(s, rules);
            && s'.link.channels[j].inbound == s.link.channels[j].inbound && s'.published == s.published
            && Wait(s', j).Some? && Nearer(s, s', j)
  {
    PollEffect(s, rules);
    if s.pc.i < j {
      PollKeepsWait(s, rules, j);
    } else {
      WaitSame(s, DoPoll(s, rules), j);
    }
  }

  lemma RunStep(s: System, rules: seq<Rule>, e: Event, rest: seq<Event>)
    requires Shaped(s)
    ensures Run(s, rules, [e] + rest) == Run(Next(s, rules, e), rules, rest)
  {
    assert ([e] + rest)[1..] == rest;
  }

  /** The poll of j that pops its oldest record. */
  lemma PollServes(s: System, rules: seq<Rule>, j: nat)
    requires Shaped(s) && j < |s.link.channels| && s.pc.Scanning? && s.pc.i == j
    requires s.link.channels[j].inbound.queue != [] && !TooLongInFront(s.link.channels[j])
    ensures var s' := Next(s, rules, RouterStep(0));
            s'.link.channels[j].inbound.queue == s.link.channels[j].inbound.queue[1..] && s'.published == s.published
  {
    PollEffect(s, rules);
  }

  /** Left to itself, the router gets to a channel that is not stuck and pops its oldest record. */
  lemma {:induction false} ServedInTheEnd(s: System, rules: seq<Rule>, j: nat) returns (events: seq<Event>)
    requires Shaped(s) && j < |s.link.channels| && !Stuck(s, j) && s.link.channels[j].inbound.queue != []
    ensures var s' := Run(s, rules, events);
            s'.link.channels[j].inbound.queue == s.link.channels[j].inbound.queue[1..] && s'.published == s.published
    decreases Wait(s, j).value, Stage(s.pc, j), Left(s)
  {
    var next := Next(s, rules, RouterStep(0));
    var more := [];
    if s.pc.Scanning? && s.pc.i == j {
      PollServes(s, rules, j);
    } else {
      StepNearer(s, rules, j);
      more := ServedInTheEnd(next, rules, j);
    }
    events := [RouterStep(0)] + more;
    RunStep(s, rules, RouterStep(0), more);
  }

  // ----- exactly when -------------------------------------------------------

  /** Records of channel j that have left its ring. */
  function PoppedCount(s: System, j: nat): int
    requires Shaped(s) && j < |s.link.channels|
  {
    |s.published[j]| - |s.link.channels[j].inbound.queue|
  }

  lemma StuckCountStep(s: System, rules: seq<Rule>, e: Event, j: nat)
    requires Shaped(s) && j < |s.link.channels| && Stuck(s, j)
    ensures PoppedCount(Next(s, rules, e), j) == PoppedCount(s, j)
  {
    if e.RouterStep? && s.pc.Scanning? && s.pc.i < |s.link.channels| {
      PollEffect(s, rules);
      if s.pc.i == j {
        ScansForNone(s.link.channels, j);
      }
    }
  }

  lemma {:induction false} StuckCount(s: System, rules: seq<Rule>, events: seq<Event>, j: nat)
    requires Shaped(s) && j < |s.link.channels| && Stuck(s, j)
    ensures PoppedCount(Run(s, rules, events), j) == PoppedCount(s, j)
    decreases |events|
  {
    if events != [] {
      StuckStep(s, rules, events[0], j);
      StuckCountStep(s, rules, events[0], j);
      StuckCount(Next(s, rules, events[0]), rules, events[1..], j);
    }
  }

  /** Publishing an empty record into an empty ring, which does not touch the wait. */
  lemma PublishFirst(s: System, rules: seq<Rule>, j: nat)
    requires Shaped(s) && j < |s.link.channels| && s.link.channels[j].inbound.queue == [] && 0 < s.link.channels[j].inbound.slotCount
    ensures var s' := Next(s, rules, Publish(j, []));
            && s'.link.channels[j].inbound.queue == [[]] && s'.pc == s.pc
            && PoppedCount(s', j) == PoppedCount(s, j) && Wait(s', j) == Wait(s, j)
  {
    var s' := Next(s, rules, Publish(j, []));
    var cs, cs' := s.link.channels, s'.link.channels;
    if s.pc.Scanning? && s.pc.i <= j {
      ScansDependOnQueues(cs, cs', j, s.pc.i, 1);
      if ScansFor(cs, j, s.pc.i, 1).Some? {
        ScansDependOnQueues(cs, cs', s.pc.i, 0, ScansFor(cs, j, s.pc.i, 1).value - 1);
      }
    } else {
      ScansDependOnQueues(cs, cs', j, 0, 1);
    }
  }

  lemma Servable(s: System, rules: seq<Rule>, j: nat) returns (events: seq<Event>)
    requires Shaped(s) && j < |s.link.channels| && 0 < s.link.channels[j].inbound.slotCount && !Stuck(s, j)
    ensures PoppedCount(Run(s, rules, events), j) > PoppedCount(s, j)
  {
    if s.link.channels[j].inbound.queue != [] {
      events := ServedInTheEnd(s, rules, j);
    } else {
      PublishFirst(s, rules, j);
      var more := ServedInTheEnd(Next(s, rules, Publish(j, [])), rules, j);
      events := [Publish(j, [])] + more;
      RunStep(s, rules, Publish(j, []), more);
    }
  }

  /**
   Channel j can still be served, in some run, if and only if it is not stuck: no
   record that is too long at its own front, and none that the scans needed to get
   past the channels before it would run into.
   */
  lemma ServedIff(s: System, rules: seq<Rule>, j: nat)
    requires Shaped(s) && j < |s.link.channels| && 0 < s.link.channels[j].inbound.slotCount
    ensures (exists events: seq<Event> :: PoppedCount(Run(s, rules, events), j) > PoppedCount(s, j)) <==> !Stuck(s, j)
  {
    if Stuck(s, j) {
      forall events: seq<Event> ensures PoppedCount(Run(s, rules, events), j) == PoppedCount(s, j) {
        StuckCount(s, rules, events, j);
      }
    } else {
      var events := Servable(s, rules, j);
    }
  }

  /** A record that is too long at the front of channel i, with no scan past i, shuts off i and every later channel for good. */
  lemma FrontBlocksTheRest(s: System, i: nat, j: nat)
    requires Shaped(s) && i <= j < |s.link.channels| && TooLongInFront(s.link.channels[i])
    requires s.pc.Scanning? ==> s.pc.i <= i
    ensures Stuck(s, j)
  {
    if i < j {
      var from := if s.pc.Scanning? then s.pc.i else 0;
      BlockedAt(s.link.channels, j, i, from, 1);
    }
  }

  lemma {:induction false} BlockedAt(cs: seq<Channel>, k: nat, i: nat, from: nat, n: nat)
    requires from <= i < k <= |cs| && n > 0 && TooLongInFront(cs[i])
    ensures ScansFor(cs, k, from, n) == None
    decreases k
  {
    if k - 1 > i {
      match PollsFor(cs[k - 1].inbound.queue, n) {
        case None =>
        case Some(x) => BlockedAt(cs, k - 1, i, from, x);
      }
    }
  }

  /** Fronts alone do not decide it: behind a frame at the front of channel 0, a record that is too long shuts off channel 1. */
  lemma FrontsAreNotEnough(s: System, j: nat)
    requires Shaped(s) && s.pc == Idle && 0 < j < |s.link.channels|
    requires var q := s.link.channels[0].inbound.queue; |q| >= 2 && |q[0]| == FRAME_SIZE && |q[1]| > FRAME_SIZE
    ensures Stuck(s, j) && !TooLongInFront(s.link.channels[0])
  {
    ScansCompose(s.link.channels, j, 1, 1);
    var m := ScansFor(s.link.channels, j, 1, 1);
    if m.Some? {
      var q := s.link.channels[0].inbound.queue;
      assert PollsFor(q[1..], m.value) == None;
      assert PollsFor(q, m.value) == None;
    }
  }
}
