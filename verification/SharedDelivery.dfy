/**
 Delivery on shared regions, decided by names and rules together: a region that
 two peers share does no harm to any subscriber as long as nothing is routed
 from it or into it.
 */
module SharedDelivery {
  import opened Bytes
  import opened BoundedFifo
  import opened Frame
  import opened Routing
  import opened ShmRouter
  import opened RouterRuns
  import opened SharedRegions

  /** Channel k has its region to itself. */
  ghost predicate Alone(names: seq<string>, k: nat) {
    k < |names| && forall j :: 0 <= j < |names| && names[j] == names[k] ==> j == k
  }

  /** The targets a fan-out gets to: those before the first without a channel, which throws. */
  function Reach(cs: seq<Channel>, targets: seq<byte>): (r: seq<byte>)
    ensures |r| <= |targets| && r == targets[..|r|]
  {
    if targets == [] || Find(cs, targets[0]) == |cs| then [] else [targets[0]] + Reach(cs, targets[1..])
  }

  /** Channel i's frames on topic t go nowhere, or they and all their targets have regions to themselves. */
  ghost predicate SafeFrom(cs: seq<Channel>, names: seq<string>, rules: seq<Rule>, i: nat, t: u16)
    requires i < |cs|
  {
    var reach := Reach(cs, TargetsFor(rules, cs[i].peerId, t));
    reach != [] ==> Alone(names, i) && forall d :: 0 <= d < |cs| && cs[d].peerId in reach ==> Alone(names, d)
  }

  /** No route leads from or to a region that two channels share. */
  ghost predicate SafeSharing(cs: seq<Channel>, names: seq<string>, rules: seq<Rule>) {
    forall i, t: u16 :: 0 <= i < |cs| ==> SafeFrom(cs, names, rules, i, t)
  }

  lemma {:induction false} ReachDependsOnIds(a: seq<Channel>, b: seq<Channel>, targets: seq<byte>)
    requires |a| == |b| && forall j :: 0 <= j < |a| ==> a[j].peerId == b[j].peerId
    ensures Reach(a, targets) == Reach(b, targets)
  {
    if targets != [] {
      FindDependsOnIds(a, b, targets[0], 0);
      ReachDependsOnIds(a, b, targets[1..]);
    }
  }

  // ----- the system without the shared regions ------------------------------

  function Emptied(c: Channel): Channel {
    c.(inbound := c.inbound.(queue := []), outbound := c.outbound.(queue := []))
  }

  ghost function Kept<T>(logs: seq<seq<T>>, names: seq<string>): (r: seq<seq<T>>)
    requires |logs| == |names|
    ensures |r| == |logs| && forall k :: 0 <= k < |r| ==> r[k] == if Alone(names, k) then logs[k] else []
  {
    seq(|logs|, k requires 0 <= k < |logs| => if Alone(names, k) then logs[k] else [])
  }

  ghost function KeptChannels(cs: seq<Channel>, names: seq<string>): (r: seq<Channel>)
    requires |cs| == |names|
    ensures |r| == |cs| && forall k :: 0 <= k < |r| ==> r[k] == if Alone(names, k) then cs[k] else Emptied(cs[k])
  {
    seq(|cs|, k requires 0 <= k < |cs| => if Alone(names, k) then cs[k] else Emptied(cs[k]))
  }

  ghost function KeptPc(pc: Pc, names: seq<string>): Pc { if pc.Fanning? && !Alone(names, pc.src) then Idle else pc }

  /** The part of a system that lives on unshared regions. */
  ghost function Apart(s: System, names: seq<string>): (r: System)
    requires Shaped(s) && |names| == |s.link.channels|
    ensures Shaped(r)
  {
    s.(link := s.link.(channels := KeptChannels(s.link.channels, names)), pc := KeptPc(s.pc, names),
       published := Kept(s.published, names), enqueued := Kept(s.enqueued, names), taken := Kept(s.taken, names))
  }

  lemma KeptUpdate<T>(logs: seq<seq<T>>, names: seq<string>, k: nat, log: seq<T>)
    requires |logs| == |names| && k < |names|
    ensures Kept(logs[k := log], names) == if Alone(names, k) then Kept(logs, names)[k := log] else Kept(logs, names)
  {
  }

  lemma KeptChannelsUpdate(cs: seq<Channel>, names: seq<string>, k: nat, c: Channel)
    requires |cs| == |names| && Alone(names, k)
    ensures KeptChannels(cs[k := c], names) == KeptChannels(cs, names)[k := c]
  {
  }

  lemma SyncAlone(cs: seq<Channel>, names: seq<string>, k: nat)
    requires |names| == |cs| && Alone(names, k)
    ensures Sync(cs, names, k) == cs
  {
  }

  /** What happens on a shared region is not seen outside it. */
  lemma SyncShared(cs: seq<Channel>, names: seq<string>, k: nat, c: Channel)
    requires |names| == |cs| && k < |cs| && !Alone(names, k) && Emptied(c) == Emptied(cs[k])
    ensures KeptChannels(Sync(cs[k := c], names, k), names) == KeptChannels(cs, names)
  {
    var cs' := Sync(cs[k := c], names, k);
    forall j | 0 <= j < |cs| ensures KeptChannels(cs', names)[j] == KeptChannels(cs, names)[j] {
      if Alone(names, j) { assert names[j] != names[k]; }
    }
  }

  // ----- the invariant ------------------------------------------------------

  /** Shared channels never had anything routed to them. */
  ghost predicate NothingShared(s: System, names: seq<string>)
    requires Shaped(s) && |names| == |s.link.channels|
  {
    forall k :: 0 <= k < |names| && !Alone(names, k) ==> s.link.channels[k].outbound.queue == [] && s.enqueued[k] == [] && s.taken[k] == []
  }

  /** The fan-out in progress reaches no more than its frame's targets. */
  ghost predicate Reaching(s: System, rules: seq<Rule>)
    requires Shaped(s)
  {
    s.pc.Fanning? ==>
      && forall t :: t in Reach(s.link.channels, s.pc.rest) ==>
           t in Reach(s.link.channels, TargetsFor(rules, s.link.channels[s.pc.src].peerId, Topic(s.pc.frame)))
  }

  ghost predicate SameSizes(a: seq<Channel>, b: seq<Channel>) {
    && |a| == |b|
    && forall j :: 0 <= j < |a| ==> a[j].peerId == b[j].peerId && a[j].outbound.maxPayload == b[j].outbound.maxPayload
  }

  ghost predicate ApartInv(s: System, names: seq<string>, rules: seq<Rule>) {
    && Shaped(s) && |names| == |s.link.channels|
    && Inv(Apart(s, names), rules) && NothingShared(s, names) && Reaching(s, rules)
    && SafeSharing(s.link.channels, names, rules)
  }

  // ----- steps --------------------------------------------------------------

  /** A step that leaves the unshared part as it was, or ends a fan-out. */
  lemma OutsideStep(s: System, s': System, names: seq<string>, rules: seq<Rule>)
    requires Shaped(s) && Shaped(s') && |names| == |s.link.channels| == |s'.link.channels| && Inv(Apart(s, names), rules)
    requires KeptChannels(s'.link.channels, names) == KeptChannels(s.link.channels, names)
    requires Kept(s'.published, names) == Kept(s.published, names) && Kept(s'.enqueued, names) == Kept(s.enqueued, names)
    requires Kept(s'.taken, names) == Kept(s.taken, names)
    requires KeptPc(s'.pc, names) == KeptPc(s.pc, names) || !KeptPc(s'.pc, names).Fanning?
    ensures Inv(Apart(s', names), rules)
  {
    IdleStepKeepsInv(Apart(s, names), Apart(s', names), rules);
  }

  lemma PublishAlone(s: System, names: seq<string>, rules: seq<Rule>, k: nat, payload: seq<byte>)
    requires Shaped(s) && |names| == |s.link.channels| && Alone(names, k)
    ensures Apart(NextShared(s, names, rules, Publish(k, payload)), names) == DoPublish(Apart(s, names), k, payload)
  {
    var c := s.link.channels[k];
    SyncAlone(DoPublish(s, k, payload).link.channels, names, k);
    KeptChannelsUpdate(s.link.channels, names, k, c.(inbound := Push(c.inbound, payload)));
    KeptUpdate(s.published, names, k, s.published[k] + [Clip(payload, c.inbound.maxPayload)]);
  }

  lemma PublishApart(s: System, names: seq<string>, rules: seq<Rule>, k: nat, payload: seq<byte>)
    requires Shaped(s) && |names| == |s.link.channels| && Inv(Apart(s, names), rules) && k < |names|
    ensures Inv(Apart(NextShared(s, names, rules, Publish(k, payload)), names), rules)
  {
    if Alone(names, k) {
      PublishAlone(s, names, rules, k, payload);
      PublishKeepsInv(Apart(s, names), rules, k, payload);
    } else {
      var s' := NextShared(s, names, rules, Publish(k, payload));
      SyncShared(s.link.channels, names, k, DoPublish(s, k, payload).link.channels[k]);
      KeptUpdate(s.published, names, k, s'.published[k]);
      OutsideStep(s, s', names, rules);
    }
  }

  lemma TakeAlone(s: System, names: seq<string>, rules: seq<Rule>, k: nat)
    requires Shaped(s) && |names| == |s.link.channels| && Alone(names, k)
    ensures Apart(NextShared(s, names, rules, Take(k)), names) == DoTake(Apart(s, names), k)
  {
    var s1 := DoTake(s, k);
    SyncAlone(s1.link.channels, names, k);
    KeptChannelsUpdate(s.link.channels, names, k, s1.link.channels[k]);
    KeptUpdate(s.taken, names, k, s1.taken[k]);
  }

  lemma TakeApart(s: System, names: seq<string>, rules: seq<Rule>, k: nat)
    requires Shaped(s) && |names| == |s.link.channels| && Inv(Apart(s, names), rules) && k < |names|
    ensures Inv(Apart(NextShared(s, names, rules, Take(k)), names), rules)
  {
    if Alone(names, k) {
      TakeAlone(s, names, rules, k);
      TakeKeepsInv(Apart(s, names), rules, k);
    } else {
      TakeOutside(s, names, rules, k);
      OutsideStep(s, NextShared(s, names, rules, Take(k)), names, rules);
    }
  }

  lemma TakeOutside(s: System, names: seq<string>, rules: seq<Rule>, k: nat)
    requires Shaped(s) && k < |names| == |s.link.channels| && !Alone(names, k)
    ensures var s' := NextShared(s, names, rules, Take(k));
            && KeptChannels(s'.link.channels, names) == KeptChannels(s.link.channels, names) && Kept(s'.taken, names) == Kept(s.taken, names)
            && s'.published == s.published && s'.enqueued == s.enqueued && s'.pc == s.pc
  {
    SyncShared(s.link.channels, names, k, DoTake(s, k).link.channels[k]);
    KeptUpdate(s.taken, names, k, DoTake(s, k).taken[k]);
  }

  lemma PollAlone(s: System, names: seq<string>, rules: seq<Rule>, ts: u64)
    requires Shaped(s) && |names| == |s.link.channels| && s.pc.Scanning? && Alone(names, s.pc.i)
    ensures NextShared(s, names, rules, RouterStep(ts)) == DoPoll(s, rules)
  {
    SyncAlone(DoPoll(s, rules).link.channels, names, s.pc.i);
  }

  lemma PolledApart(s: System, names: seq<string>, rules: seq<Rule>)
    requires Shaped(s) && |names| == |s.link.channels| && s.pc.Scanning? && Alone(names, s.pc.i)
    ensures Apart(DoPoll(s, rules), names) == DoPoll(Apart(s, names), rules)
  {
    var s1, s2 := DoPoll(s, rules), DoPoll(Apart(s, names), rules);
    KeptChannelsUpdate(s.link.channels, names, s.pc.i, s1.link.channels[s.pc.i]);
    assert Apart(s1, names).link == s2.link;
  }

  lemma PollApart(s: System, names: seq<string>, rules: seq<Rule>, ts: u64)
    requires Shaped(s) && |names| == |s.link.channels| && Inv(Apart(s, names), rules) && DistinctTargets(rules)
    requires s.pc.Scanning? && s.pc.i < |names|
    ensures Inv(Apart(NextShared(s, names, rules, RouterStep(ts)), names), rules)
  {
    if Alone(names, s.pc.i) {
      PollAlone(s, names, rules, ts);
      PolledApart(s, names, rules);
      PollKeepsInv(Apart(s, names), rules);
    } else {
      PollOutside(s, names, rules, ts);
      OutsideStep(s, NextShared(s, names, rules, RouterStep(ts)), names, rules);
    }
  }

  lemma PollOutside(s: System, names: seq<string>, rules: seq<Rule>, ts: u64)
    requires Shaped(s) && |names| == |s.link.channels| && s.pc.Scanning? && s.pc.i < |names| && !Alone(names, s.pc.i)
    ensures var s' := NextShared(s, names, rules, RouterStep(ts));
            && KeptChannels(s'.link.channels, names) == KeptChannels(s.link.channels, names)
            && s'.published == s.published && s'.enqueued == s.enqueued && s'.taken == s.taken && !KeptPc(s'.pc, names).Fanning?
  {
    SyncShared(s.link.channels, names, s.pc.i, DoPoll(s, rules).link.channels[s.pc.i]);
  }

  /** A target that has a channel is reached. */
  lemma FirstIsReached(s: System, names: seq<string>, rules: seq<Rule>)
    requires Shaped(s) && |names| == |s.link.channels| && SafeSharing(s.link.channels, names, rules) && Reaching(s, rules)
    requires s.pc.Fanning? && s.pc.rest != [] && Find(s.link.channels, s.pc.rest[0]) < |names|
    ensures Alone(names, s.pc.src) && Alone(names, Find(s.link.channels, s.pc.rest[0]))
  {
    var cs := s.link.channels;
    var d := Find(cs, s.pc.rest[0]);
    assert Reach(cs, s.pc.rest)[0] == s.pc.rest[0];
    assert cs[d].peerId in Reach(cs, s.pc.rest);
    assert SafeFrom(cs, names, rules, s.pc.src, Topic(s.pc.frame));
  }

  lemma SendAlone(s: System, names: seq<string>, rules: seq<Rule>, ts: u64)
    requires Shaped(s) && |names| == |s.link.channels| && s.pc.Fanning? && s.pc.rest != []
    requires Alone(names, Find(s.link.channels, s.pc.rest[0]))
    ensures NextShared(s, names, rules, RouterStep(ts)) == DoSend(s)
  {
    SyncAlone(DoSend(s).link.channels, names, Find(s.link.channels, s.pc.rest[0]));
  }

  lemma SendApart(s: System, names: seq<string>)
    requires Shaped(s) && |names| == |s.link.channels| && s.pc.Fanning? && s.pc.rest != [] && Alone(names, s.pc.src)
    requires Alone(names, Find(s.link.channels, s.pc.rest[0]))
    ensures Apart(DoSend(s), names) == DoSend(Apart(s, names))
  {
    var d, s1, s2 := Find(s.link.channels, s.pc.rest[0]), DoSend(s), DoSend(Apart(s, names));
    FindDependsOnIds(s.link.channels, Apart(s, names).link.channels, s.pc.rest[0], 0);
    KeptChannelsUpdate(s.link.channels, names, d, s1.link.channels[d]);
    KeptUpdate(s.enqueued, names, d, s1.enqueued[d]);
    assert Apart(s1, names).link == s2.link;
    assert Apart(s1, names).enqueued == s2.enqueued;
  }

  /** Every step keeps what the unshared part satisfies. */
  lemma StepApart(s: System, names: seq<string>, rules: seq<Rule>, e: Event)
    requires ApartInv(s, names, rules) && DistinctTargets(rules)
    ensures Inv(Apart(NextShared(s, names, rules, e), names), rules)
  {
    match e
    case Publish(k, payload) => if k < |names| { PublishApart(s, names, rules, k, payload); }
    case Take(k) => if k < |names| { TakeApart(s, names, rules, k); }
    case SetFloor(_) => OutsideStep(s, NextShared(s, names, rules, e), names, rules);
    case RouterStep(ts) => RouterApart(s, names, rules, ts);
  }

  lemma RouterApart(s: System, names: seq<string>, rules: seq<Rule>, ts: u64)
    requires ApartInv(s, names, rules) && DistinctTargets(rules)
    ensures Inv(Apart(NextShared(s, names, rules, RouterStep(ts)), names), rules)
  {
    if s.pc.Scanning? && s.pc.i < |names| {
      PollApart(s, names, rules, ts);
    } else if s.pc.Fanning? && s.pc.rest != [] && Find(s.link.channels, s.pc.rest[0]) < |names| {
      FirstIsReached(s, names, rules);
      SendAlone(s, names, rules, ts);
      SendApart(s, names);
      SendKeepsInv(Apart(s, names), rules);
    } else {
      OutsideStep(s, NextShared(s, names, rules, RouterStep(ts)), names, rules);
    }
  }

  lemma NextKeepsSizes(s: System, rules: seq<Rule>, e: Event)
    requires Shaped(s)
    ensures SameSizes(s.link.channels, Next(s, rules, e).link.channels)
  {
  }

  lemma StepKeepsSizes(s: System, names: seq<string>, rules: seq<Rule>, e: Event)
    requires Shaped(s) && |names| == |s.link.channels|
    ensures SameSizes(s.link.channels, NextShared(s, names, rules, e).link.channels)
  {
    NextKeepsSizes(s, rules, e);
  }

  lemma SafeDependsOnIds(a: seq<Channel>, b: seq<Channel>, names: seq<string>, rules: seq<Rule>)
    requires SameSizes(a, b) && SafeSharing(a, names, rules)
    ensures SafeSharing(b, names, rules)
  {
    forall i, t: u16 | 0 <= i < |b| ensures SafeFrom(b, names, rules, i, t) {
      assert SafeFrom(a, names, rules, i, t);
      ReachDependsOnIds(a, b, TargetsFor(rules, a[i].peerId, t));
    }
  }

  /** Where a fan-out comes from: it goes on, has just begun, or has done one target. */
  lemma FanningAfter(s: System, rules: seq<Rule>, e: Event)
    requires Shaped(s)
    ensures var cs, pc, pc' := s.link.channels, s.pc, Next(s, rules, e).pc;
            pc'.Fanning? ==>
              || pc' == pc
              || (pc'.src < |cs| && pc'.rest == TargetsFor(rules, cs[pc'.src].peerId, Topic(pc'.frame)))
              || (pc.Fanning? && pc.rest != [] && Find(cs, pc.rest[0]) < |cs| && pc' == pc.(rest := pc.rest[1..]))
  {
  }

  lemma StepKeepsReaching(s: System, names: seq<string>, rules: seq<Rule>, e: Event)
    requires Shaped(s) && |names| == |s.link.channels| && Reaching(s, rules)
    ensures Reaching(NextShared(s, names, rules, e), rules)
  {
    var s' := NextShared(s, names, rules, e);
    FanningAfter(s, rules, e);
    StepKeepsSizes(s, names, rules, e);
    assert s'.pc == Next(s, rules, e).pc;
    ReachingKept(s, s', rules);
  }

  lemma ReachingKept(s: System, s': System, rules: seq<Rule>)
    requires Shaped(s) && Shaped(s') && Reaching(s, rules) && SameSizes(s.link.channels, s'.link.channels)
    requires var cs, pc, pc' := s.link.channels, s.pc, s'.pc;
             pc'.Fanning? ==>
               || pc' == pc
               || (pc'.src < |cs| && pc'.rest == TargetsFor(rules, cs[pc'.src].peerId, Topic(pc'.frame)))
               || (pc.Fanning? && pc.rest != [] && Find(cs, pc.rest[0]) < |cs| && pc' == pc.(rest := pc.rest[1..]))
    ensures Reaching(s', rules)
  {
    if s'.pc.Fanning? {
      ReachDependsOnIds(s.link.channels, s'.link.channels, s'.pc.rest);
      ReachDependsOnIds(s.link.channels, s'.link.channels, TargetsFor(rules, s.link.channels[s'.pc.src].peerId, Topic(s'.pc.frame)));
    }
  }

  lemma SyncSharesNothing(s: System, names: seq<string>, k: nat)
    requires Shaped(s) && k < |names| == |s.link.channels| && NothingShared(s, names)
    ensures NothingShared(s.(link := s.link.(channels := Sync(s.link.channels, names, k))), names)
  {
    forall j | 0 <= j < |names| && !Alone(names, j) ensures Sync(s.link.channels, names, k)[j].outbound.queue == [] {
      if names[j] == names[k] {
        assert !Alone(names, k);
      }
    }
  }

  lemma NextSharesNothing(s: System, names: seq<string>, rules: seq<Rule>, e: Event)
    requires ApartInv(s, names, rules)
    ensures NothingShared(Next(s, rules, e), names)
  {
    if e.RouterStep? && s.pc.Fanning? && s.pc.rest != [] && Find(s.link.channels, s.pc.rest[0]) < |names| {
      FirstIsReached(s, names, rules);
      SendSharesNothing(s, names);
    } else {
      OtherStepSharesNothing(s, names, rules, e);
    }
  }

  lemma SendSharesNothing(s: System, names: seq<string>)
    requires Shaped(s) && |names| == |s.link.channels| && NothingShared(s, names)
    requires s.pc.Fanning? && s.pc.rest != [] && Alone(names, Find(s.link.channels, s.pc.rest[0]))
    ensures NothingShared(DoSend(s), names)
  {
  }

  lemma OtherStepSharesNothing(s: System, names: seq<string>, rules: seq<Rule>, e: Event)
    requires Shaped(s) && |names| == |s.link.channels| && NothingShared(s, names)
    requires e.RouterStep? && s.pc.Fanning? && s.pc.rest != [] ==> Find(s.link.channels, s.pc.rest[0]) == |names|
    ensures NothingShared(Next(s, rules, e), names)
  {
  }

  lemma StepSharesNothing(s: System, names: seq<string>, rules: seq<Rule>, e: Event)
    requires ApartInv(s, names, rules)
    ensures NothingShared(NextShared(s, names, rules, e), names)
  {
    NextSharesNothing(s, names, rules, e);
    if k :| Touched(s, e) == Some(k) {
      SyncSharesNothing(Next(s, rules, e), names, k);
    }
  }

  lemma {:induction false} RunApart(s: System, names: seq<string>, rules: seq<Rule>, events: seq<Event>)
    requires ApartInv(s, names, rules) && DistinctTargets(rules)
    ensures var s' := RunShared(s, names, rules, events);
            ApartInv(s', names, rules) && SameSizes(s.link.channels, s'.link.channels)
    decreases |events|
  {
    if events != [] {
      var next := NextShared(s, names, rules, events[0]);
      StepApart(s, names, rules, events[0]);
      StepKeepsReaching(s, names, rules, events[0]);
      StepSharesNothing(s, names, rules, events[0]);
      StepKeepsSizes(s, names, rules, events[0]);
      SafeDependsOnIds(s.link.channels, next.link.channels, names, rules);
      RunApart(next, names, rules, events[1..]);
    }
  }

  // ----- safe sharing delivers ----------------------------------------------

  /** What the unshared part delivers, the whole system delivers. */
  lemma ApartDelivers(s: System, names: seq<string>, rules: seq<Rule>, d: nat)
    requires Shaped(s) && |names| == |s.link.channels| && Alone(names, d) && Delivers(Apart(s, names), rules, d)
    ensures Delivers(s, rules, d)
  {
    var a := Apart(s, names);
    forall k | 0 <= k < |s.taken[d]| ensures |s.taken[d][k]| == FRAME_SIZE && Delivered(s, rules, d, s.taken[d][k], s.enqueued[d][k]) {
      assert Delivered(a, rules, d, a.taken[d][k], a.enqueued[d][k]);
      assert Alone(names, s.enqueued[d][k].src);
    }
  }

  lemma SafeSharingDelivers(channels: seq<Channel>, names: seq<string>, rules: seq<Rule>, events: seq<Event>, d: nat)
    requires FreshlyBound(channels) && |names| == |channels| && DistinctTargets(rules) && d < |channels|
    requires SafeSharing(channels, names, rules)
    ensures Delivers(RunShared(Boot(channels), names, rules, events), rules, d)
  {
    var boot := Boot(channels);
    BootApart(channels, names, rules);
    RunApart(boot, names, rules, events);
    var s := RunShared(boot, names, rules, events);
    assert channels[d] in channels;
    if Alone(names, d) {
      InvDelivers(Apart(s, names), rules, d);
      ApartDelivers(s, names, rules, d);
    }
  }

  lemma BootApart(channels: seq<Channel>, names: seq<string>, rules: seq<Rule>)
    requires FreshlyBound(channels) && |names| == |channels| && SafeSharing(channels, names, rules)
    ensures ApartInv(Boot(channels), names, rules)
  {
    assert forall k :: 0 <= k < |channels| ==> channels[k] in channels;
    assert Apart(Boot(channels), names) == Boot(channels);
    BootInv(channels, rules);
  }

  // ----- unsafe sharing does not --------------------------------------------

  lemma {:induction false} PassEmpty(s: System, names: seq<string>, rules: seq<Rule>, n: nat)
    requires Shaped(s) && Coherent(s.link.channels, names) && s.pc.Scanning? && s.pc.i + n <= |names|
    requires forall k :: 0 <= k < |names| ==> s.link.channels[k].inbound.queue == []
    ensures RunShared(s, names, rules, RouterSteps(n)) == s.(pc := Scanning(s.pc.i + n, s.pc.ts))
    decreases n
  {
    if n == 0 {
      assert RouterSteps(0) == [];
    } else {
      RouterStepFirst(s, names, rules, n);
      var next := s.(pc := Scanning(s.pc.i + 1, s.pc.ts));
      EmptyPoll(s, names, rules);
      PassEmpty(next, names, rules, n - 1);
    }
  }

  /** Nothing has been routed yet, and peer j alone has published one frame on topic t. */
  ghost predicate OnePublished(s: System, channels: seq<Channel>, j: nat, t: u16) {
    && Shaped(s) && j < |channels| == |s.link.channels| && s.link.floor == 0
    && forall k :: 0 <= k < |channels| ==>
         && s.published[k] == (if k == j then [FrameOn(t)] else []) && s.taken[k] == [] && s.enqueued[k] == []
         && s.link.channels[k].peerId == channels[k].peerId && s.link.channels[k].outbound == channels[k].outbound
  }

  /** The router holds a frame on topic t that peer j published and that it popped through channel i. */
  ghost predicate HeldFor(s: System, channels: seq<Channel>, names: seq<string>, rules: seq<Rule>, i: nat, j: nat, t: u16) {
    && OnePublished(s, channels, j, t) && i < |channels| && Coherent(s.link.channels, names)
    && s.pc.Fanning? && s.pc.src == i && s.pc.rest == TargetsFor(rules, channels[i].peerId, t)
  }

  lemma PublishLate(channels: seq<Channel>, names: seq<string>, rules: seq<Rule>, i: nat, j: nat, t: u16)
    requires FreshlyBound(channels) && |names| == |channels| && i < |names| && j < |names| && names[i] == names[j]
    ensures var s := NextShared(Boot(channels).(pc := Scanning(i, 0)), names, rules, Publish(j, FrameOn(t)));
            && OnePublished(s, channels, j, t) && s.pc == Scanning(i, 0) && s.link.channels[i].inbound.queue == [FrameOn(t)]
  {
    assert forall k :: 0 <= k < |channels| ==> channels[k] in channels;
    assert Clip(FrameOn(t), channels[j].inbound.maxPayload) == FrameOn(t);
    assert [] + [FrameOn(t)] == [FrameOn(t)];
  }

  lemma LateIsHeld(s: System, channels: seq<Channel>, names: seq<string>, rules: seq<Rule>, i: nat, j: nat, t: u16)
    requires FreshlyBound(channels) && OnePublished(s, channels, j, t) && Coherent(s.link.channels, names)
    requires i < |channels| && s.pc == Scanning(i, 0) && s.link.channels[i].inbound.queue == [FrameOn(t)]
    ensures HeldFor(NextShared(s, names, rules, RouterStep(0)), channels, names, rules, i, j, t)
  {
    assert channels[i] in channels;
    ReadyPoll(s, names, rules);
    FrameOnTopic(t, channels[i].peerId, 0);
    StepKeepsCoherent(s, names, rules, RouterStep(0));
  }

  /** The scan gets to channel i, then peer j publishes on i's region, then the router polls. */
  function HoldRun(i: nat, j: nat, t: u16): seq<Event> {
    [RouterStep(0)] + (RouterSteps(i) + ([Publish(j, FrameOn(t))] + [RouterStep(0)]))
  }

  lemma TwoSteps(s: System, names: seq<string>, rules: seq<Rule>, a: Event, b: Event)
    requires Shaped(s) && |names| == |s.link.channels|
    ensures RunShared(s, names, rules, [a] + [b]) == NextShared(NextShared(s, names, rules, a), names, rules, b)
  {
    OneStep(s, names, rules, a, [b]);
    assert [b] == [b] + [];
    OneStep(NextShared(s, names, rules, a), names, rules, b, []);
  }

  lemma ScanToChannel(channels: seq<Channel>, names: seq<string>, rules: seq<Rule>, i: nat, last: seq<Event>)
    requires FreshlyBound(channels) && |names| == |channels| && i < |names|
    ensures RunShared(Boot(channels), names, rules, [RouterStep(0)] + (RouterSteps(i) + last))
         == RunShared(Boot(channels).(pc := Scanning(i, 0)), names, rules, last)
  {
    var boot := Boot(channels);
    BootCoherent(channels, names);
    OneStep(boot, names, rules, RouterStep(0), RouterSteps(i) + last);
    RunSharedAppend(boot.(pc := Scanning(0, 0)), names, rules, RouterSteps(i), last);
    assert forall k :: 0 <= k < |names| ==> channels[k] in channels;
    PassEmpty(boot.(pc := Scanning(0, 0)), names, rules, i);
  }

  lemma HoldIsARun(channels: seq<Channel>, names: seq<string>, rules: seq<Rule>, i: nat, j: nat, t: u16)
    requires FreshlyBound(channels) && |names| == |channels| && i < |names| && j < |names| && names[i] == names[j]
    ensures HeldFor(RunShared(Boot(channels), names, rules, HoldRun(i, j, t)), channels, names, rules, i, j, t)
  {
    var scanning := Boot(channels).(pc := Scanning(i, 0));
    ScanToChannel(channels, names, rules, i, [Publish(j, FrameOn(t))] + [RouterStep(0)]);
    TwoSteps(scanning, names, rules, Publish(j, FrameOn(t)), RouterStep(0));
    BootCoherent(channels, names);
    PublishLate(channels, names, rules, i, j, t);
    StepKeepsCoherent(scanning, names, rules, Publish(j, FrameOn(t)));
    LateIsHeld(NextShared(scanning, names, rules, Publish(j, FrameOn(t))), channels, names, rules, i, j, t);
  }

  /** One send with room, then a pop by any peer on the target's region. */
  lemma SendThenTake(s: System, names: seq<string>, rules: seq<Rule>, d: nat, e: nat)
    requires Shaped(s) && Coherent(s.link.channels, names) && s.link.floor == 0 && s.pc.Fanning? && s.pc.rest != []
    requires d == Find(s.link.channels, s.pc.rest[0]) < |names| && e < |names| && names[e] == names[d]
    requires var out := s.link.channels[d].outbound; out.queue == [] && 0 < out.slotCount && FRAME_SIZE <= out.maxPayload
    requires s.taken[e] == []
    ensures var s' := RunShared(s, names, rules, [RouterStep(0)] + [Take(e)]);
            && s'.taken[e] == [s.pc.frame] && s'.published == s.published && SameSizes(s.link.channels, s'.link.channels)
            && s'.enqueued == s.enqueued[d := s.enqueued[d] + [Copy(s.pc.frame, s.pc.src, s.pc.pub, s.pc.ts)]]
  {
    var s1 := NextShared(s, names, rules, RouterStep(0));
    TwoSteps(s, names, rules, RouterStep(0), Take(e));
    SendShared(s, names, rules, d);
    StepKeepsCoherent(s, names, rules, RouterStep(0));
    TakeShared(s1, names, rules, e);
    StepKeepsSizes(s, names, rules, RouterStep(0));
    StepKeepsSizes(s1, names, rules, Take(e));
  }

  /** Channels that are none of these targets have not been touched. */
  ghost predicate OthersKept(s: System, s': System, targets: seq<byte>)
    requires Shaped(s) && Shaped(s')
  {
    && s'.taken == s.taken && s'.published == s.published && s'.link.floor == s.link.floor
    && SameSizes(s.link.channels, s'.link.channels)
    && forall c :: 0 <= c < |s.link.channels| && s.link.channels[c].peerId !in targets ==>
         s'.link.channels[c] == s.link.channels[c] && s'.enqueued[c] == s.enqueued[c]
  }

  lemma AloneSend(s: System, names: seq<string>, rules: seq<Rule>)
    requires Shaped(s) && |names| == |s.link.channels| && s.pc.Fanning? && s.pc.rest != []
    requires Alone(names, Find(s.link.channels, s.pc.rest[0]))
    ensures var s' := NextShared(s, names, rules, RouterStep(0));
            s'.pc == s.pc.(rest := s.pc.rest[1..]) && OthersKept(s, s', [s.pc.rest[0]])
  {
    SendAlone(s, names, rules, 0);
  }

  lemma {:induction false} PassAlone(s: System, names: seq<string>, rules: seq<Rule>, n: nat)
    requires Shaped(s) && |names| == |s.link.channels| && s.pc.Fanning? && n <= |s.pc.rest|
    requires forall k :: 0 <= k < n ==> Alone(names, Find(s.link.channels, s.pc.rest[k]))
    ensures var s' := RunShared(s, names, rules, RouterSteps(n));
            s'.pc == s.pc.(rest := s.pc.rest[n..]) && OthersKept(s, s', s.pc.rest[..n])
    decreases n
  {
    if n == 0 {
      assert RouterSteps(0) == [];
    } else {
      var next, rest := NextShared(s, names, rules, RouterStep(0)), s.pc.rest;
      RouterStepFirst(s, names, rules, n);
      AloneSend(s, names, rules);
      RestAlone(s.link.channels, next.link.channels, names, rest, n);
      PassAlone(next, names, rules, n - 1);
      OthersCompose(s, next, RunShared(next, names, rules, RouterSteps(n - 1)), rest, n);
      assert rest[1..][n - 1..] == rest[n..];
    }
  }

  lemma RestAlone(a: seq<Channel>, b: seq<Channel>, names: seq<string>, rest: seq<byte>, n: nat)
    requires SameSizes(a, b) && 0 < n <= |rest| && forall k :: 0 <= k < n ==> Alone(names, Find(a, rest[k]))
    ensures forall k :: 0 <= k < n - 1 ==> Alone(names, Find(b, rest[1..][k]))
  {
    forall k | 0 <= k < n - 1 ensures Alone(names, Find(b, rest[1..][k])) {
      FindDependsOnIds(a, b, rest[k + 1], 0);
    }
  }

  lemma OthersCompose(s: System, next: System, s': System, rest: seq<byte>, n: nat)
    requires Shaped(s) && Shaped(next) && Shaped(s') && 0 < n <= |rest|
    requires OthersKept(s, next, [rest[0]]) && OthersKept(next, s', rest[1..][..n - 1])
    ensures OthersKept(s, s', rest[..n])
  {
    assert rest[..n] == [rest[0]] + rest[1..][..n - 1];
  }

  /** The first target on a shared region. */
  lemma {:induction false} FirstShared(cs: seq<Channel>, names: seq<string>, targets: seq<byte>, d: nat) returns (m: nat)
    requires |names| == |cs| && DistinctChannels(cs) && d < |cs| && cs[d].peerId in Reach(cs, targets) && !Alone(names, d)
    ensures m < |targets| && Find(cs, targets[m]) < |cs| && !Alone(names, Find(cs, targets[m]))
    ensures forall k :: 0 <= k < m ==> Alone(names, Find(cs, targets[k]))
    decreases |targets|
  {
    if !Alone(names, Find(cs, targets[0])) {
      m := 0;
    } else {
      assert cs[d].peerId in Reach(cs, targets[1..]);
      var later := FirstShared(cs, names, targets[1..], d);
      m := later + 1;
    }
  }

  /** A source on a shared region: what is delivered in its name was not published by it. */
  lemma SharedSourceBreaks(channels: seq<Channel>, names: seq<string>, rules: seq<Rule>, i: nat, j: nat, t: u16) returns (events: seq<Event>, d: nat)
    requires FreshlyBound(channels) && |names| == |channels| && i < |names| && j < |names| && names[i] == names[j] && i != j
    requires Reach(channels, TargetsFor(rules, channels[i].peerId, t)) != []
    ensures d < |channels| && !Delivers(RunShared(Boot(channels), names, rules, events), rules, d)
  {
    var s := RunShared(Boot(channels), names, rules, HoldRun(i, j, t));
    HoldIsARun(channels, names, rules, i, j, t);
    d := Find(channels, s.pc.rest[0]);
    FindDependsOnIds(channels, s.link.channels, s.pc.rest[0], 0);
    assert channels[d] in channels;
    events := HoldRun(i, j, t) + ([RouterStep(0)] + [Take(d)]);
    RunSharedAppend(Boot(channels), names, rules, HoldRun(i, j, t), [RouterStep(0)] + [Take(d)]);
    SendThenTake(s, names, rules, d, d);
    var s' := RunShared(s, names, rules, [RouterStep(0)] + [Take(d)]);
    assert !Delivered(s', rules, d, s'.taken[d][0], s'.enqueued[d][0]);
  }

  /** A target on a shared region: another peer pops what was sent to it. */
  lemma SharedTargetBreaks(channels: seq<Channel>, names: seq<string>, rules: seq<Rule>, i: nat, t: u16, d: nat)
    returns (events: seq<Event>, e: nat)
    requires FreshlyBound(channels) && |names| == |channels| && i < |names| && DistinctTargets(rules)
    requires d < |channels| && !Alone(names, d) && channels[d].peerId in Reach(channels, TargetsFor(rules, channels[i].peerId, t))
    ensures e < |channels| && !Delivers(RunShared(Boot(channels), names, rules, events), rules, e)
  {
    var targets := TargetsFor(rules, channels[i].peerId, t);
    var m := FirstShared(channels, names, targets, d);
    var first := Find(channels, targets[m]);
    e :| 0 <= e < |names| && names[e] == names[first] && e != first;
    TargetsDistinct(rules, channels[i].peerId, t);
    HoldIsARun(channels, names, rules, i, i, t);
    var s := RunShared(Boot(channels), names, rules, HoldRun(i, i, t));
    var more := RouterSteps(m) + ([RouterStep(0)] + [Take(e)]);
    events := HoldRun(i, i, t) + more;
    RunSharedAppend(Boot(channels), names, rules, HoldRun(i, i, t), more);
    TakenByAnother(s, channels, names, rules, i, t, m, first, e);
  }

  lemma TakenByAnother(s: System, channels: seq<Channel>, names: seq<string>, rules: seq<Rule>, i: nat, t: u16, m: nat, d: nat, e: nat)
    requires FreshlyBound(channels) && |names| == |channels| && HeldFor(s, channels, names, rules, i, i, t)
    requires Distinct(s.pc.rest) && m < |s.pc.rest| && d == Find(channels, s.pc.rest[m]) < |channels| && !Alone(names, d)
    requires forall k :: 0 <= k < m ==> Alone(names, Find(channels, s.pc.rest[k]))
    requires e < |names| && e != d && names[e] == names[d]
    ensures !Delivers(RunShared(s, names, rules, RouterSteps(m) + ([RouterStep(0)] + [Take(e)])), rules, e)
  {
    var rest := s.pc.rest;
    forall k | 0 <= k <= m ensures Find(s.link.channels, rest[k]) == Find(channels, rest[k]) {
      FindDependsOnIds(channels, s.link.channels, rest[k], 0);
    }
    var s1 := RunShared(s, names, rules, RouterSteps(m));
    PassAlone(s, names, rules, m);
    RunKeepsCoherent(s, names, rules, RouterSteps(m));
    RunSharedAppend(s, names, rules, RouterSteps(m), [RouterStep(0)] + [Take(e)]);
    FindDependsOnIds(channels, s1.link.channels, rest[m], 0);
    assert channels[d] in channels;
    SharedNotPassed(channels, names, rest, m, d);
    SharedNotPassed(channels, names, rest, m, e);
    SendThenTake(s1, names, rules, d, e);
  }

  /** A channel on a shared region is not among targets that have regions to themselves. */
  lemma SharedNotPassed(channels: seq<Channel>, names: seq<string>, rest: seq<byte>, m: nat, c: nat)
    requires DistinctChannels(channels) && |names| == |channels| && m <= |rest| && c < |names| && !Alone(names, c)
    requires forall k :: 0 <= k < m ==> Alone(names, Find(channels, rest[k]))
    ensures channels[c].peerId !in rest[..m]
  {
    FindById(channels, channels, c);
    forall k | 0 <= k < m ensures rest[k] != channels[c].peerId {
      assert Alone(names, Find(channels, rest[k]));
    }
  }

  /**
   Delivery over names and rules, exactly. Every subscriber receives, in every
   run, whole routed frames of the peers they name, in order and once, if and only
   if no route leads from or to a region that two channels share.
   */
  lemma DeliversIffSafeSharing(channels: seq<Channel>, names: seq<string>, rules: seq<Rule>)
    requires FreshlyBound(channels) && |names| == |channels| && DistinctTargets(rules)
    ensures (forall events: seq<Event>, d :: 0 <= d < |channels| ==> Delivers(RunShared(Boot(channels), names, rules, events), rules, d))
       <==> SafeSharing(channels, names, rules)
  {
    if SafeSharing(channels, names, rules) {
      forall events: seq<Event>, d | 0 <= d < |channels| ensures Delivers(RunShared(Boot(channels), names, rules, events), rules, d) {
        SafeSharingDelivers(channels, names, rules, events, d);
      }
    } else {
      var events, e := UnsafeSharingBreaks(channels, names, rules);
    }
  }

  lemma UnsafeSharingBreaks(channels: seq<Channel>, names: seq<string>, rules: seq<Rule>) returns (events: seq<Event>, e: nat)
    requires FreshlyBound(channels) && |names| == |channels| && DistinctTargets(rules) && !SafeSharing(channels, names, rules)
    ensures e < |channels| && !Delivers(RunShared(Boot(channels), names, rules, events), rules, e)
  {
    var i, t: u16 :| 0 <= i < |channels| && !SafeFrom(channels, names, rules, i, t);
    if Alone(names, i) {
      var reach := Reach(channels, TargetsFor(rules, channels[i].peerId, t));
      var d :| 0 <= d < |channels| && channels[d].peerId in reach && !Alone(names, d);
      events, e := SharedTargetBreaks(channels, names, rules, i, t, d);
    } else {
      var j :| 0 <= j < |names| && names[j] == names[i] && j != i;
      events, e := SharedSourceBreaks(channels, names, rules, i, j, t);
    }
  }
}
