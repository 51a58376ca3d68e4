/** The fan-out table: first rule whose source and topic selector match wins. */
module Routing {
  import opened Bytes

  const MAX_DESTS: nat := 8
  const TOPIC_ANY: u16 := 0xFFFF

  datatype Rule = Rule(source: byte, topic: u16, dests: seq<byte>)

  predicate Matches(r: Rule, source: byte, topic: u16) {
    r.source == source && (r.topic == TOPIC_ANY || r.topic == topic)
  }

  /** The destinations of the first matching rule, or none. */
  function TargetsFor(rules: seq<Rule>, source: byte, topic: u16): seq<byte> {
    if rules == [] then []
    else if Matches(rules[0], source, topic) then rules[0].dests
    else TargetsFor(rules[1..], source, topic)
  }

  /** route_targets_for: the two nested loops. */
  method RouteTargetsFor(rules: seq<Rule>, source: byte, topic: u16) returns (targets: seq<byte>)
    ensures targets == TargetsFor(rules, source, topic)
  {
    for i := 0 to |rules|
      invariant TargetsFor(rules, source, topic) == TargetsFor(rules[i..], source, topic)
    {
      assert rules[i..][1..] == rules[i + 1..];
      if rules[i].source != source {
        continue;
      }
      if rules[i].topic != TOPIC_ANY && rules[i].topic != topic {
        continue;
      }
      targets := [];
      for k := 0 to |rules[i].dests|
        invariant targets == rules[i].dests[..k]
      {
        targets := targets + [rules[i].dests[k]];
      }
      return;
    }
    return [];
  }

  /** First match, without naming the lookup: rule k has this source and topic, or topic 0xFFFF, and no earlier rule does. */
  ghost predicate FirstMatch(rules: seq<Rule>, k: nat, source: byte, topic: u16) {
    && k < |rules| && rules[k].source == source && (rules[k].topic == 0xFFFF || rules[k].topic == topic)
    && forall j :: 0 <= j < k ==> rules[j].source != source || (rules[j].topic != 0xFFFF && rules[j].topic != topic)
  }

  lemma {:induction false} TargetsAreFirstMatch(rules: seq<Rule>, source: byte, topic: u16)
    ensures forall k: nat :: FirstMatch(rules, k, source, topic) ==> TargetsFor(rules, source, topic) == rules[k].dests
    ensures (forall k: nat :: !FirstMatch(rules, k, source, topic)) ==> TargetsFor(rules, source, topic) == []
  {
    if rules != [] {
      if Matches(rules[0], source, topic) {
        assert FirstMatch(rules, 0, source, topic);
      } else {
        TargetsAreFirstMatch(rules[1..], source, topic);
        forall k: nat ensures FirstMatch(rules, k + 1, source, topic) <==> FirstMatch(rules[1..], k, source, topic) {
          LaterMatch(rules, k, source, topic);
        }
        forall k: nat | FirstMatch(rules, k, source, topic) ensures TargetsFor(rules, source, topic) == rules[k].dests {
          assert FirstMatch(rules[1..], k - 1, source, topic);
        }
      }
    }
  }

  lemma LaterMatch(rules: seq<Rule>, k: nat, source: byte, topic: u16)
    requires rules != [] && !Matches(rules[0], source, topic)
    ensures FirstMatch(rules, k + 1, source, topic) <==> FirstMatch(rules[1..], k, source, topic)
  {
    var rest := rules[1..];
    assert forall j :: 0 <= j < |rest| ==> rest[j] == rules[j + 1];
    if FirstMatch(rest, k, source, topic) {
      forall j | 0 <= j < k + 1 ensures rules[j].source != source || (rules[j].topic != 0xFFFF && rules[j].topic != topic) {
        if j > 0 { assert rest[j - 1] == rules[j]; }
      }
    }
    if FirstMatch(rules, k + 1, source, topic) {
      forall j | 0 <= j < k ensures rest[j].source != source || (rest[j].topic != 0xFFFF && rest[j].topic != topic) {
        assert rest[j] == rules[j + 1];
      }
    }
  }

  // ----- rewriting a table --------------------------------------------------

  /** The check an operator can make: same source, and the earlier selector is as wide. */
  predicate Covers(earlier: Rule, later: Rule) {
    earlier.source == later.source && (earlier.topic == TOPIC_ANY || earlier.topic == later.topic)
  }

  /** The check is exact: it holds iff every frame the later rule matches, the earlier one matches. */
  lemma CoversIsExact(earlier: Rule, later: Rule)
    ensures Covers(earlier, later) <==>
            forall source: byte, topic: u16 :: Matches(later, source, topic) ==> Matches(earlier, source, topic)
  {
    if !Covers(earlier, later) {
      assert Matches(later, later.source, later.topic);
      if later.topic == TOPIC_ANY {
        var t: u16 := if earlier.topic == 0 then 1 else 0;
        assert Matches(later, later.source, t) && !Matches(earlier, later.source, t);
      }
    }
  }

  predicate Overlap(a: Rule, b: Rule) { Covers(a, b) || Covers(b, a) }

  lemma OverlapIsExact(a: Rule, b: Rule)
    ensures Overlap(a, b) <==> exists source: byte, topic: u16 :: Matches(a, source, topic) && Matches(b, source, topic)
  {
    if Overlap(a, b) {
      var t := if a.topic == TOPIC_ANY then b.topic else a.topic;
      assert Matches(a, a.source, t) && Matches(b, a.source, t);
    }
  }

  lemma {:induction false} TargetsSplit(front: seq<Rule>, back: seq<Rule>, source: byte, topic: u16)
    ensures TargetsFor(front + back, source, topic) ==
            if exists r :: r in front && Matches(r, source, topic) then TargetsFor(front, source, topic)
            else TargetsFor(back, source, topic)
  {
    if front == [] {
      assert front + back == back;
    } else {
      assert (front + back)[1..] == front[1..] + back;
      assert forall r :: r in front <==> r == front[0] || r in front[1..];
      TargetsSplit(front[1..], back, source, topic);
    }
  }

  /** Deleting a rule some earlier rule covers never changes a lookup, the 0xFFFF default included. */
  lemma DeleteCovered(front: seq<Rule>, rule: Rule, back: seq<Rule>, source: byte, topic: u16)
    requires exists r :: r in front && Covers(r, rule)
    ensures TargetsFor(front + [rule] + back, source, topic) == TargetsFor(front + back, source, topic)
  {
    assert front + [rule] + back == front + ([rule] + back);
    TargetsSplit(front, [rule] + back, source, topic);
    TargetsSplit(front, back, source, topic);
    assert ([rule] + back)[1..] == back;
  }

  /** A rule that matches exactly what both overlapping rules match. */
  function Meet(a: Rule, b: Rule): Rule { if a.topic == TOPIC_ANY then b else a }

  lemma MeetIsExact(a: Rule, b: Rule, source: byte, topic: u16)
    requires Overlap(a, b)
    ensures Matches(Meet(a, b), source, topic) <==> Matches(a, source, topic) && Matches(b, source, topic)
  {
  }

  /** What an operator can check before swapping neighbours `a` and `b` behind `front`. */
  ghost predicate MaySwap(front: seq<Rule>, a: Rule, b: Rule) {
    !Overlap(a, b) || a.dests == b.dests || exists r :: r in front && Covers(r, Meet(a, b))
  }

  lemma SwapLookups(front: seq<Rule>, a: Rule, b: Rule, back: seq<Rule>, source: byte, topic: u16)
    ensures TargetsFor(front + [a, b] + back, source, topic) ==
            if exists r :: r in front && Matches(r, source, topic) then TargetsFor(front, source, topic)
            else if Matches(a, source, topic) then a.dests
            else if Matches(b, source, topic) then b.dests else TargetsFor(back, source, topic)
  {
    assert front + [a, b] + back == front + ([a, b] + back);
    TargetsSplit(front, [a, b] + back, source, topic);
    assert ([a, b] + back)[1..] == [b] + back && ([b] + back)[1..] == back;
  }

  /** Swapping two adjacent rules that the check allows never changes a lookup. */
  lemma SwapAdjacent(front: seq<Rule>, a: Rule, b: Rule, back: seq<Rule>, source: byte, topic: u16)
    requires MaySwap(front, a, b)
    ensures TargetsFor(front + [a, b] + back, source, topic) == TargetsFor(front + [b, a] + back, source, topic)
  {
    SwapLookups(front, a, b, back, source, topic);
    SwapLookups(front, b, a, back, source, topic);
    if Matches(a, source, topic) && Matches(b, source, topic) {
      OverlapIsExact(a, b);
      MeetIsExact(a, b, source, topic);
      if r :| r in front && Covers(r, Meet(a, b)) {
        CoversIsExact(r, Meet(a, b));
      }
    }
  }

  /** In every table: swapping neighbours preserves all lookups if and only if the check allows it. */
  lemma SwapIff(front: seq<Rule>, a: Rule, b: Rule, back: seq<Rule>)
    ensures MaySwap(front, a, b) <==>
            forall source: byte, topic: u16 ::
              TargetsFor(front + [a, b] + back, source, topic) == TargetsFor(front + [b, a] + back, source, topic)
  {
    if MaySwap(front, a, b) {
      forall source: byte, topic: u16
        ensures TargetsFor(front + [a, b] + back, source, topic) == TargetsFor(front + [b, a] + back, source, topic)
      {
        SwapAdjacent(front, a, b, back, source, topic);
      }
    } else {
      var both := Meet(a, b);
      SwapLookups(front, a, b, back, both.source, both.topic);
      SwapLookups(front, b, a, back, both.source, both.topic);
    }
  }

  /** Every rule that an earlier rule covers, removed. */
  function Compact(kept: seq<Rule>, rest: seq<Rule>): seq<Rule>
    decreases |rest|
  {
    if rest == [] then kept
    else if exists r :: r in kept && Covers(r, rest[0]) then Compact(kept, rest[1..])
    else Compact(kept + [rest[0]], rest[1..])
  }

  /** Compacting a whole table preserves its meaning for every source and topic. */
  lemma {:induction false} CompactPreservesMeaning(kept: seq<Rule>, rest: seq<Rule>, source: byte, topic: u16)
    ensures TargetsFor(Compact(kept, rest), source, topic) == TargetsFor(kept + rest, source, topic)
    decreases |rest|
  {
    if rest == [] {
      assert kept + rest == kept;
    } else {
      assert rest == [rest[0]] + rest[1..];
      assert kept + rest == kept + [rest[0]] + rest[1..];
      if exists r :: r in kept && Covers(r, rest[0]) {
        DeleteCovered(kept, rest[0], rest[1..], source, topic);
        CompactPreservesMeaning(kept, rest[1..], source, topic);
      } else {
        CompactPreservesMeaning(kept + [rest[0]], rest[1..], source, topic);
      }
    }
  }
}
