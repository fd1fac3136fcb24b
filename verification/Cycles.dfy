/** Segments that refer to each other in a cycle with a `not` on it: what the engine answers, and why it is the
    meaning of nothing. */
module Cycles {
  import opened Prelude
  import opened Engine
  import opened Segments

  function NegatedLeaf(key: string): ConditionNode {
    EMPTY_NODE.(not := Some(SegmentLeaf(key)))
  }

  /** Why cycles under `not` have to be excluded: a segment that negates itself has no solution at all, and
      the visited guard makes evaluation answer true. */
  lemma {:induction false} NegatedCycleHasNoModel(w: World)
    requires w.maxDepth >= 1
    requires w.segments == map["a" := Segment("a", NegatedLeaf("a"))]
    ensures forall truth: set<string> :: !Model(w, None, truth)
    ensures EvalNode(w, SegmentLeaf("a"), {}, 0).holds
  {
    SegmentLeafAsks("a");
    var body := w.segments["a"].conditions;
    forall truth: set<string> ensures !Model(w, None, truth) {
      assert SegmentHolds(w, None, truth, "a") <==> "a" !in truth;
    }
    SegmentLeafHops(w, SegmentLeaf("a"), {"a"}, 1);
    SegmentLeafHops(w, SegmentLeaf("a"), {}, 0);
    assert {} + {"a"} == {"a"};
    assert EvalNode(w, body, {"a"}, 0).holds;
  }

  /** Evaluating a segment that only negates another. */
  lemma NegatedLeafHops(w: World, key: string, other: string, visited: set<string>)
    requires w.maxDepth >= 1 && key in w.segments && w.segments[key].conditions == NegatedLeaf(other)
    ensures EvalNode(w, w.segments[key].conditions, visited, 0).holds <==> !EvalNode(w, SegmentLeaf(other), visited, 1).holds
    ensures forall truth: set<string> :: SegmentHolds(w, None, truth, key) <==> !(other in w.segments && other in truth)
  {
    SegmentLeafAsks(other);
    forall truth: set<string>
      ensures SegmentHolds(w, None, truth, key) <==> !(other in w.segments && other in truth)
    {
      assert Holds(w, None, truth, SegmentLeaf(other), 1) <==> other in w.segments && other in truth;
      assert SegmentHolds(w, None, truth, key) == !Holds(w, None, truth, SegmentLeaf(other), 1);
    }
  }

  /** Two segments that negate each other have solutions, and the engine's answers are none of them: it finds
      neither true, although one has to be. */
  lemma {:induction false} EvenCycleMissesItsModels(w: World)
    requires w.maxDepth >= 1
    requires w.segments == map["a" := Segment("a", NegatedLeaf("b")), "b" := Segment("b", NegatedLeaf("a"))]
    ensures Model(w, None, {"a"}) && Model(w, None, {"b"}) && !Model(w, None, {})
    ensures SegmentTruth(w) == {}
  {
    NegatedLeafHops(w, "a", "b", {});
    NegatedLeafHops(w, "b", "a", {});
    EvenCycleIsFalse(w, "a", "b");
    EvenCycleIsFalse(w, "b", "a");
  }

  lemma EvenCycleIsFalse(w: World, a: string, b: string)
    requires w.maxDepth >= 1 && a in w.segments && b in w.segments && a != b
    requires w.segments[a].conditions == NegatedLeaf(b) && w.segments[b].conditions == NegatedLeaf(a)
    ensures !EvalNode(w, SegmentLeaf(a), {}, 0).holds
  {
    SegmentLeafAsks(a);
    SegmentLeafAsks(b);
    SegmentLeafHops(w, SegmentLeaf(a), {}, 0);
    NegatedLeafHops(w, a, b, {} + {a});
    SegmentLeafHops(w, SegmentLeaf(b), {} + {a}, 1);
    NegatedLeafHops(w, b, a, {} + {a} + {b});
    SegmentLeafHops(w, SegmentLeaf(a), {} + {a} + {b}, 1);
  }

  // ---------- Every cycle under a `not`

  function Link(key: string, negated: bool): ConditionNode {
    if negated then NegatedLeaf(key) else SegmentLeaf(key)
  }

  function NextOf(keys: seq<string>, i: nat): string
    requires i < |keys|
  {
    keys[if i + 1 == |keys| then 0 else i + 1]
  }

  ghost predicate LinkAt(w: World, keys: seq<string>, negated: seq<bool>, i: nat) {
    && i < |keys| == |negated| && keys[i] in w.segments && keys[i] !in keys[..i]
    && w.segments[keys[i]].conditions == Link(NextOf(keys, i), negated[i])
  }

  /** Distinct segments, each of which only asks for the next one, or negates it, and the last one the first. */
  ghost predicate Cycle(w: World, keys: seq<string>, negated: seq<bool>) {
    keys != [] && |negated| == |keys| && forall i: nat | i < |keys| :: LinkAt(w, keys, negated, i)
  }

  function Negations(negated: seq<bool>): nat {
    if negated == [] then 0 else (if negated[0] then 1 else 0) + Negations(negated[1..])
  }

  predicate Odd(n: nat) {
    n % 2 == 1
  }

  lemma {:induction false} NegationsPush(negated: seq<bool>, last: bool)
    ensures Negations(negated + [last]) == Negations(negated) + if last then 1 else 0
  {
    if negated == [] {
      assert [last][1..] == [];
    } else {
      NegationsPush(negated[1..], last);
      assert (negated + [last])[1..] == negated[1..] + [last];
    }
  }

  lemma OddPush(n: nat, last: bool)
    ensures Odd(n + if last then 1 else 0) <==> Odd(n) != last
  {
  }

  lemma NegationsFrom(negated: seq<bool>, j: nat)
    requires j < |negated|
    ensures Odd(Negations(negated[j..])) <==> Odd(Negations(negated[j + 1..])) != negated[j]
  {
    assert negated[j..][1..] == negated[j + 1..];
    OddPush(Negations(negated[j + 1..]), negated[j]);
  }

  lemma NegationsUpTo(negated: seq<bool>, j: nat)
    requires j < |negated|
    ensures Odd(Negations(negated[..j + 1])) <==> Odd(Negations(negated[..j])) != negated[j]
  {
    NegationsPush(negated[..j], negated[j]);
    assert negated[..j + 1] == negated[..j] + [negated[j]];
    OddPush(Negations(negated[..j]), negated[j]);
  }

  /** What asking for the segment on this path answers. */
  ghost predicate Asked(w: World, key: string, visited: set<string>) {
    key !in visited && key in w.segments && EvalNode(w, w.segments[key].conditions, visited + {key}, 0).holds
  }

  lemma LeafAnswers(w: World, key: string, visited: set<string>, depth: nat)
    requires depth <= w.maxDepth
    ensures EvalNode(w, SegmentLeaf(key), visited, depth).holds <==> Asked(w, key, visited)
  {
    SegmentLeafAsks(key);
    SegmentLeafHops(w, SegmentLeaf(key), visited, depth);
  }

  lemma LinkAnswers(w: World, key: string, negated: bool, visited: set<string>)
    requires w.maxDepth >= 1
    ensures EvalNode(w, Link(key, negated), visited, 0).holds <==> Asked(w, key, visited) != negated
  {
    LeafAnswers(w, key, visited, if negated then 1 else 0);
  }

  lemma CycleAnswers(w: World, keys: seq<string>, negated: seq<bool>, j: nat, visited: set<string>)
    requires LinkAt(w, keys, negated, j) && w.maxDepth >= 1
    ensures EvalNode(w, w.segments[keys[j]].conditions, visited, 0).holds <==> Asked(w, NextOf(keys, j), visited) != negated[j]
  {
    LinkAnswers(w, NextOf(keys, j), negated[j], visited);
  }

  function AsSet(keys: seq<string>): set<string> {
    set k | k in keys
  }

  /** Once round the cycle the visited guard answers false, so a segment's answer is the parity of the negations
      from it to the end of the round. */
  lemma {:induction false} CycleParity(w: World, keys: seq<string>, negated: seq<bool>, j: nat)
    requires Cycle(w, keys, negated) && w.maxDepth >= 1 && LinkAt(w, keys, negated, j)
    ensures EvalNode(w, w.segments[keys[j]].conditions, AsSet(keys[..j + 1]), 0).holds <==> Odd(Negations(negated[j..]))
    decreases |keys| - j
  {
    var visited := AsSet(keys[..j + 1]);
    CycleAnswers(w, keys, negated, j, visited);
    NegationsFrom(negated, j);
    if j + 1 == |keys| {
      assert keys[..j + 1][0] in visited;
    } else {
      assert LinkAt(w, keys, negated, j + 1);
      NextIsUnvisited(w, keys, negated, j);
      CycleParity(w, keys, negated, j + 1);
    }
  }

  lemma NextIsUnvisited(w: World, keys: seq<string>, negated: seq<bool>, j: nat)
    requires LinkAt(w, keys, negated, j + 1)
    ensures var visited := AsSet(keys[..j + 1]);
      && (Asked(w, keys[j + 1], visited) <==> EvalNode(w, w.segments[keys[j + 1]].conditions, AsSet(keys[..j + 2]), 0).holds)
  {
    assert keys[..j + 2] == keys[..j + 1] + [keys[j + 1]];
    assert AsSet(keys[..j + 2]) == AsSet(keys[..j + 1]) + {keys[j + 1]};
  }

  lemma RotatedCycle(w: World, keys: seq<string>, negated: seq<bool>)
    requires Cycle(w, keys, negated)
    ensures Cycle(w, keys[1..] + [keys[0]], negated[1..] + [negated[0]])
    ensures Negations(negated[1..] + [negated[0]]) == Negations(negated)
  {
    NegationsPush(negated[1..], negated[0]);
    forall i: nat | i < |keys| ensures LinkAt(w, keys[1..] + [keys[0]], negated[1..] + [negated[0]], i) {
      RotatedLink(w, keys, negated, i);
    }
  }

  lemma RotatedLink(w: World, keys: seq<string>, negated: seq<bool>, i: nat)
    requires Cycle(w, keys, negated) && i < |keys|
    ensures LinkAt(w, keys[1..] + [keys[0]], negated[1..] + [negated[0]], i)
  {
    var k := keys[1..] + [keys[0]];
    var from := if i + 1 == |keys| then 0 else i + 1;
    assert LinkAt(w, keys, negated, from);
    assert k[i] == keys[from] && NextOf(k, i) == NextOf(keys, from);
    if i + 1 < |keys| {
      assert forall x | x in k[..i] :: x in keys[..from] by { assert k[..i] == keys[1..from]; }
    } else {
      assert k[..i] == keys[1..];
      FirstIsNotRepeated(w, keys, negated);
    }
  }

  lemma FirstIsNotRepeated(w: World, keys: seq<string>, negated: seq<bool>)
    requires Cycle(w, keys, negated)
    ensures keys[0] !in keys[1..]
  {
    forall j | 1 <= j < |keys| ensures keys[j] != keys[0] {
      assert LinkAt(w, keys, negated, j) && keys[..j][0] == keys[0];
    }
  }

  /** The engine gives all segments of a cycle the same answer, the parity of its negations. */
  lemma {:induction false} CycleAnswersParity(w: World, keys: seq<string>, negated: seq<bool>, i: nat)
    requires Cycle(w, keys, negated) && w.maxDepth >= 1 && i < |keys|
    ensures keys[i] in SegmentTruth(w) <==> Odd(Negations(negated))
    decreases i
  {
    if i == 0 {
      assert LinkAt(w, keys, negated, 0) && negated[0..] == negated;
      LeafAnswers(w, keys[0], {}, 0);
      assert AsSet(keys[..1]) == {} + {keys[0]};
      CycleParity(w, keys, negated, 0);
    } else {
      RotatedCycle(w, keys, negated);
      assert keys[i] == (keys[1..] + [keys[0]])[i - 1];
      CycleAnswersParity(w, keys[1..] + [keys[0]], negated[1..] + [negated[0]], i - 1);
    }
  }

  lemma LinkHolds(w: World, truth: set<string>, key: string, negated: bool)
    requires key in w.segments
    ensures Holds(w, None, truth, Link(key, negated), 0) <==> (key in truth) != negated
  {
    SegmentLeafAsks(key);
    assert Holds(w, None, truth, SegmentLeaf(key), if negated then 1 else 0) <==> key in truth;
  }

  lemma CycleSolves(w: World, keys: seq<string>, negated: seq<bool>, truth: set<string>, i: nat)
    requires Cycle(w, keys, negated) && Model(w, None, truth) && i < |keys|
    ensures keys[i] in truth <==> (NextOf(keys, i) in truth) != negated[i]
  {
    var next := if i + 1 == |keys| then 0 else i + 1;
    assert LinkAt(w, keys, negated, i) && LinkAt(w, keys, negated, next);
    LinkHolds(w, truth, NextOf(keys, i), negated[i]);
    assert SegmentHolds(w, None, truth, keys[i]) <==> (NextOf(keys, i) in truth) != negated[i];
  }

  /** Why cycles under a `not` have to be excluded, for every such cycle: the engine's answers are no solution. */
  lemma NegatedCycleIsUnsolved(w: World, keys: seq<string>, negated: seq<bool>, i: nat)
    requires Cycle(w, keys, negated) && w.maxDepth >= 1 && i < |keys| && negated[i]
    ensures !Model(w, None, SegmentTruth(w))
  {
    var next := if i + 1 == |keys| then 0 else i + 1;
    CycleAnswersParity(w, keys, negated, i);
    CycleAnswersParity(w, keys, negated, next);
    if Model(w, None, SegmentTruth(w)) { CycleSolves(w, keys, negated, SegmentTruth(w), i); }
  }

  lemma {:induction false} CycleChain(w: World, keys: seq<string>, negated: seq<bool>, truth: set<string>, i: nat)
    requires Cycle(w, keys, negated) && Model(w, None, truth) && i < |keys|
    ensures keys[0] in truth <==> (keys[i] in truth) != Odd(Negations(negated[..i]))
  {
    if i > 0 {
      CycleChain(w, keys, negated, truth, i - 1);
      CycleSolves(w, keys, negated, truth, i - 1);
      NegationsUpTo(negated, i - 1);
    }
  }

  lemma SolvedCycleIsEven(w: World, keys: seq<string>, negated: seq<bool>, truth: set<string>)
    requires Cycle(w, keys, negated) && Model(w, None, truth)
    ensures !Odd(Negations(negated))
  {
    var last := |keys| - 1;
    CycleChain(w, keys, negated, truth, last);
    CycleSolves(w, keys, negated, truth, last);
    NegationsUpTo(negated, last);
    assert negated[..last + 1] == negated;
  }

  /** With an odd number of negations there is no solution at all. */
  lemma OddCycleHasNoModel(w: World, keys: seq<string>, negated: seq<bool>, truth: set<string>)
    requires Cycle(w, keys, negated) && Odd(Negations(negated))
    ensures !Model(w, None, truth)
  {
    if Model(w, None, truth) { SolvedCycleIsEven(w, keys, negated, truth); }
  }
}
