/** How many condition nodes one evaluation visits, however the segments refer to each other. */
module Cost {
  import opened Engine

  /** The nodes the evaluator can reach in one tree, not counting segment hops. */
  function Size(node: ConditionNode): nat
    decreases node
  {
    match FormOf(node)
    case All => 1 + SizeSum(node.all)
    case Any => 1 + SizeSum(node.any)
    case Not => 1 + Size(node.not.value)
    case Leaf => 1
  }

  function SizeSum(nodes: seq<ConditionNode>): nat
    decreases nodes
  {
    if nodes == [] then 0 else Size(nodes[0]) + SizeSum(nodes[1..])
  }

  function Pow(m: nat, e: nat): nat {
    if e == 0 then 1 else m * Pow(m, e - 1)
  }

  /** m + m^2 + ... + m^(k+1). */
  function PowerSum(m: nat, k: nat): nat {
    Pow(m, k + 1) + if k == 0 then 0 else PowerSum(m, k - 1)
  }

  ghost predicate TreesBounded(w: World, m: nat) {
    forall key | key in w.segments :: Size(w.segments[key].conditions) <= m
  }

  /** What one visited node may cost: itself and, if it is a leaf, one hop into a segment with one
      unvisited segment less. */
  ghost function NodeCost(w: World, visited: set<string>, m: nat): nat {
    var k := |w.segments.Keys - visited|;
    1 + if k == 0 then 0 else PowerSum(m, k - 1)
  }

  lemma {:induction false} PowerSumStep(m: nat, k: nat)
    ensures PowerSum(m, k) == m * (1 + if k == 0 then 0 else PowerSum(m, k - 1))
  {
    if k == 0 {
      assert Pow(m, 1) == m * Pow(m, 0);
    } else {
      PowerSumStep(m, k - 1);
      var rest := if k == 1 then 0 else PowerSum(m, k - 2);
      assert m * (1 + (Pow(m, k) + rest)) == m * Pow(m, k) + m * (1 + rest);
    }
  }

  lemma HopLeavesOneLess(w: World, visited: set<string>, key: string)
    requires key in w.segments && key !in visited
    ensures |w.segments.Keys - (visited + {key})| == |w.segments.Keys - visited| - 1
  {
    assert w.segments.Keys - (visited + {key}) == w.segments.Keys - visited - {key};
  }

  lemma {:induction false} NodeVisits(w: World, node: ConditionNode, visited: set<string>, depth: nat, m: nat)
    requires TreesBounded(w, m)
    ensures EvalNode(w, node, visited, depth).visits <= Size(node) * NodeCost(w, visited, m)
    decreases w.segments.Keys - visited, Levels(w, depth), 0
  {
    var c := NodeCost(w, visited, m);
    var below := VisitsBelow(w, node, visited, depth);
    Distribute(1, Size(node) - 1, c);
    if depth <= w.maxDepth {
      match FormOf(node)
      case All => ListVisits(w, node.all, visited, depth + 1, m);
      case Any => ListVisits(w, node.any, visited, depth + 1, m);
      case Not => NodeVisits(w, node.not.value, visited, depth + 1, m);
      case Leaf => LeafVisits(w, node, visited, m);
    }
    VisitsAreOneAndBelow(w, node, visited, depth);
  }

  /** The visits of a node that is not itself cut off, but for the first. */
  function VisitsBelow(w: World, node: ConditionNode, visited: set<string>, depth: nat): nat {
    if depth > w.maxDepth then 0
    else
      match FormOf(node)
      case All => EvalAll(w, node.all, visited, depth + 1).visits
      case Any => EvalAny(w, node.any, visited, depth + 1).visits
      case Not => EvalNode(w, node.not.value, visited, depth + 1).visits
      case Leaf => EvalLeaf(w, node, visited).visits
  }

  lemma VisitsAreOneAndBelow(w: World, node: ConditionNode, visited: set<string>, depth: nat)
    ensures EvalNode(w, node, visited, depth).visits == 1 + VisitsBelow(w, node, visited, depth)
  {
  }

  lemma Distribute(a: nat, b: nat, c: nat)
    ensures (a + b) * c == a * c + b * c && b * c >= 0
  {
  }

  lemma {:induction false} ListVisits(w: World, nodes: seq<ConditionNode>, visited: set<string>, depth: nat, m: nat)
    requires TreesBounded(w, m)
    ensures EvalAll(w, nodes, visited, depth).visits <= SizeSum(nodes) * NodeCost(w, visited, m)
    ensures EvalAny(w, nodes, visited, depth).visits <= SizeSum(nodes) * NodeCost(w, visited, m)
    decreases w.segments.Keys - visited, Levels(w, depth), 1 + |nodes|
  {
    var c := NodeCost(w, visited, m);
    if nodes == [] {
      Distribute(0, 0, c);
    } else {
      var head, tail := Size(nodes[0]), SizeSum(nodes[1..]);
      NodeVisits(w, nodes[0], visited, depth, m);
      ListVisits(w, nodes[1..], visited, depth, m);
      Distribute(head, tail, c);
      assert SizeSum(nodes) == head + tail;
    }
  }

  lemma PlainLeafVisitsNothing(w: World, node: ConditionNode)
    ensures PlainLeaf(w, node).visits == 0
  {
  }

  lemma {:induction false} LeafVisits(w: World, node: ConditionNode, visited: set<string>, m: nat)
    requires TreesBounded(w, m)
    ensures 1 + EvalLeaf(w, node, visited).visits <= NodeCost(w, visited, m)
    decreases w.segments.Keys - visited, 0, 1
  {
    if SegmentKey(node).None? {
      PlainLeafVisitsNothing(w, node);
    } else {
      var key := SegmentKey(node).value;
      assert EvalLeaf(w, node, visited) == ResolveSegment(w, key, visited);
      if key !in visited && key in w.segments {
        var tree := w.segments[key].conditions;
        HopLeavesOneLess(w, visited, key);
        NodeVisits(w, tree, visited + {key}, 0, m);
        var k, c := |w.segments.Keys - visited|, NodeCost(w, visited + {key}, m);
        PowerSumStep(m, k - 1);
        Distribute(Size(tree), m - Size(tree), c);
      }
    }
  }

  /** The bound: with k segments and trees of at most m nodes, evaluating a tree of at most m nodes
      visits at most m + m^2 + ... + m^(k+1) of them. */
  lemma {:induction false} EvaluationIsBounded(w: World, node: ConditionNode, m: nat)
    requires TreesBounded(w, m) && Size(node) <= m
    ensures EvalNode(w, node, {}, 0).visits <= PowerSum(m, |w.segments|)
  {
    NodeVisits(w, node, {}, 0, m);
    assert w.segments.Keys - {} == w.segments.Keys;
    PowerSumStep(m, |w.segments|);
    Distribute(Size(node), m - Size(node), NodeCost(w, {}, m));
  }
}
