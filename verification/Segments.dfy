/** What evaluation through segments means. When no reference cycle passes under a `not`, it is the stable
    model of the segment equations; without any `not` that is their least fixpoint, and without cycles
    their only solution. */
module Segments {
  import opened Prelude
  import opened Engine
  import Json
  import Text

  /** The meaning of a tree when `truth` is the set of segments that are true. It knows nothing of
      visited sets, evaluation order or short-circuiting. `cap` is the deepest level that is read;
      None reads the whole tree. */
  ghost predicate Holds(w: World, cap: Option<nat>, truth: set<string>, node: ConditionNode, depth: nat)
    decreases node
  {
    if cap.Some? && depth > cap.value then false
    else match FormOf(node)
    case All => forall i | 0 <= i < |node.all| :: Holds(w, cap, truth, node.all[i], depth + 1)
    case Any => exists i | 0 <= i < |node.any| :: Holds(w, cap, truth, node.any[i], depth + 1)
    case Not => !Holds(w, cap, truth, node.not.value, depth + 1)
    case Leaf =>
      (match SegmentKey(node)
       case Some(key) => key in w.segments && key in truth
       case None => PlainLeaf(w, node).holds)
  }

  ghost predicate SegmentHolds(w: World, cap: Option<nat>, truth: set<string>, key: string)
    requires key in w.segments
  {
    Holds(w, cap, truth, w.segments[key].conditions, 0)
  }

  /** `truth` solves the segment equations. */
  ghost predicate Model(w: World, cap: Option<nat>, truth: set<string>) {
    truth <= w.segments.Keys && forall key | key in w.segments :: key in truth <==> SegmentHolds(w, cap, truth, key)
  }

  /** Whatever the equations make true under `truth` is in `truth`. */
  ghost predicate Closed(w: World, cap: Option<nat>, truth: set<string>) {
    forall key | key in w.segments && SegmentHolds(w, cap, truth, key) :: key in truth
  }

  /** The least solution: what is in every closed set. */
  ghost function LeastModel(w: World, cap: Option<nat>): set<string> {
    set key | key in w.segments && forall truth: set<string> | Closed(w, cap, truth) :: key in truth
  }

  // ---------- References

  ghost predicate Refers(node: ConditionNode, key: string)
    decreases node
  {
    match FormOf(node)
    case All => exists i | 0 <= i < |node.all| :: Refers(node.all[i], key)
    case Any => exists i | 0 <= i < |node.any| :: Refers(node.any[i], key)
    case Not => Refers(node.not.value, key)
    case Leaf => SegmentKey(node) == Some(key)
  }

  /** The tree refers to the segment under a `not`. */
  ghost predicate Negates(node: ConditionNode, key: string)
    decreases node
  {
    match FormOf(node)
    case All => exists i | 0 <= i < |node.all| :: Negates(node.all[i], key)
    case Any => exists i | 0 <= i < |node.any| :: Negates(node.any[i], key)
    case Not => Refers(node.not.value, key)
    case Leaf => false
  }

  lemma {:induction false} NegatesRefers(node: ConditionNode, key: string)
    requires Negates(node, key)
    ensures Refers(node, key)
    decreases node
  {
    match FormOf(node)
    case All =>
      var i :| 0 <= i < |node.all| && Negates(node.all[i], key);
      NegatesRefers(node.all[i], key);
    case Any =>
      var i :| 0 <= i < |node.any| && Negates(node.any[i], key);
      NegatesRefers(node.any[i], key);
    case Not =>
    case Leaf =>
  }

  /** Segment `a` refers to the existing segment `b`. */
  ghost predicate Edge(w: World, a: string, b: string) {
    a in w.segments && b in w.segments && Refers(w.segments[a].conditions, b)
  }

  ghost predicate Path(w: World, p: seq<string>) {
    forall i | 0 < i < |p| :: Edge(w, p[i - 1], p[i])
  }

  ghost predicate Connects(w: World, p: seq<string>, a: string, b: string) {
    |p| >= 2 && p[0] == a && p[|p| - 1] == b && Path(w, p)
  }

  /** The segments reached from `a` over one or more references. */
  ghost function Below(w: World, a: string): set<string> {
    set b | b in w.segments && exists p :: Connects(w, p, a, b)
  }

  /** No reference cycle passes under a `not`. */
  ghost predicate Stratified(w: World) {
    forall a, b | a in w.segments && b in w.segments && Negates(w.segments[a].conditions, b) :: a != b && a !in Below(w, b)
  }

  lemma {:induction false} SubsetSize(a: set<string>, b: set<string>)
    requires a <= b
    ensures |a| <= |b|
    ensures a != b ==> |a| < |b|
  {
    assert a + (b - a) == b;
  }

  lemma {:induction false} EdgesDescend(w: World, a: string, b: string)
    requires Edge(w, a, b)
    ensures b in Below(w, a) && Below(w, b) <= Below(w, a)
  {
    forall c | c in Below(w, b) ensures c in Below(w, a) {
      var p :| Connects(w, p, b, c);
      assert Connects(w, [a] + p, a, c);
    }
    assert Connects(w, [a, b], a, b);
  }

  /** The tree refers to segments of rank at most `top`, and under `not` to lower ones. */
  ghost predicate Graded(rank: map<string, nat>, node: ConditionNode, top: nat) {
    forall key | key in rank && Refers(node, key) :: rank[key] <= top && (Negates(node, key) ==> rank[key] < top)
  }

  ghost predicate LowerOnly(rank: map<string, nat>, node: ConditionNode, top: nat) {
    forall key | key in rank && Refers(node, key) :: rank[key] < top
  }

  /** References lead to equal or lower ranks, those under `not` to lower ones. */
  ghost predicate Ranked(w: World, rank: map<string, nat>) {
    rank.Keys == w.segments.Keys && forall key | key in w.segments :: Graded(rank, w.segments[key].conditions, rank[key])
  }

  lemma StratifiedHasRanks(w: World) returns (rank: map<string, nat>)
    requires Stratified(w)
    ensures Ranked(w, rank)
  {
    rank := map key | key in w.segments :: |Below(w, key) + {key}|;
    forall a, b | a in w.segments && b in w.segments && Refers(w.segments[a].conditions, b)
      ensures rank[b] <= rank[a] && (Negates(w.segments[a].conditions, b) ==> rank[b] < rank[a])
    {
      EdgesDescend(w, a, b);
      SubsetSize(Below(w, b) + {b}, Below(w, a) + {a});
    }
  }

  lemma {:induction false} RanksAreBounded(rank: map<string, nat>) returns (top: nat)
    ensures forall key | key in rank :: rank[key] < top
  {
    if rank.Keys == {} { return 0; }
    var key :| key in rank.Keys;
    var rest := rank - {key};
    top := RanksAreBounded(rest);
    top := top + rank[key] + 1;
    assert forall k | k in rank && k != key :: k in rest && rest[k] == rank[k];
  }

  // ---------- Stable models

  /** What can be derived from `given` when the answers under `not` are taken from `truth`. */
  ghost predicate Derives(w: World, cap: Option<nat>, given: set<string>, truth: set<string>, node: ConditionNode, depth: nat)
    decreases node
  {
    if cap.Some? && depth > cap.value then false
    else match FormOf(node)
    case All => forall i | 0 <= i < |node.all| :: Derives(w, cap, given, truth, node.all[i], depth + 1)
    case Any => exists i | 0 <= i < |node.any| :: Derives(w, cap, given, truth, node.any[i], depth + 1)
    case Not => !Holds(w, cap, truth, node.not.value, depth + 1)
    case Leaf => Holds(w, cap, given, node, depth)
  }

  ghost predicate SegmentDerives(w: World, cap: Option<nat>, given: set<string>, truth: set<string>, key: string)
    requires key in w.segments
  {
    Derives(w, cap, given, truth, w.segments[key].conditions, 0)
  }

  ghost predicate ClosedGiven(w: World, cap: Option<nat>, given: set<string>, truth: set<string>) {
    forall key | key in w.segments && SegmentDerives(w, cap, given, truth, key) :: key in given
  }

  /** The segments that must be true when the answers under `not` are taken from `truth`. */
  ghost function Consequences(w: World, cap: Option<nat>, truth: set<string>): set<string> {
    set key | key in w.segments && forall given: set<string> | ClosedGiven(w, cap, given, truth) :: key in given
  }

  /** A stable model: what is true is exactly what must be, given what is not. */
  ghost predicate Stable(w: World, cap: Option<nat>, truth: set<string>) {
    truth == Consequences(w, cap, truth)
  }

  lemma {:induction false} DerivingIsMonotone(w: World, cap: Option<nat>, g0: set<string>, g1: set<string>, truth: set<string>, node: ConditionNode, depth: nat)
    requires g0 <= g1 && Derives(w, cap, g0, truth, node, depth)
    ensures Derives(w, cap, g1, truth, node, depth)
    decreases node
  {
    match FormOf(node)
    case All =>
      forall i | 0 <= i < |node.all| ensures Derives(w, cap, g1, truth, node.all[i], depth + 1) {
        DerivingIsMonotone(w, cap, g0, g1, truth, node.all[i], depth + 1);
      }
    case Any =>
      var i :| 0 <= i < |node.any| && Derives(w, cap, g0, truth, node.any[i], depth + 1);
      DerivingIsMonotone(w, cap, g0, g1, truth, node.any[i], depth + 1);
    case Not =>
    case Leaf =>
  }

  lemma {:induction false} DerivingFromTruthIsHolding(w: World, cap: Option<nat>, truth: set<string>, node: ConditionNode, depth: nat)
    ensures Derives(w, cap, truth, truth, node, depth) == Holds(w, cap, truth, node, depth)
    decreases node
  {
    match FormOf(node)
    case All =>
      forall i | 0 <= i < |node.all|
        ensures Derives(w, cap, truth, truth, node.all[i], depth + 1) == Holds(w, cap, truth, node.all[i], depth + 1)
      { DerivingFromTruthIsHolding(w, cap, truth, node.all[i], depth + 1); }
    case Any =>
      forall i | 0 <= i < |node.any|
        ensures Derives(w, cap, truth, truth, node.any[i], depth + 1) == Holds(w, cap, truth, node.any[i], depth + 1)
      { DerivingFromTruthIsHolding(w, cap, truth, node.any[i], depth + 1); }
    case Not =>
    case Leaf =>
  }

  /** The consequences are closed, and the least closed set, so they are exactly what they derive. */
  lemma {:induction false} ConsequencesAreLeast(w: World, cap: Option<nat>, truth: set<string>)
    ensures var least := Consequences(w, cap, truth);
      && ClosedGiven(w, cap, least, truth)
      && (forall key | key in least :: SegmentDerives(w, cap, least, truth, key))
  {
    var least := Consequences(w, cap, truth);
    forall key | key in w.segments && SegmentDerives(w, cap, least, truth, key) ensures key in least {
      forall given: set<string> | ClosedGiven(w, cap, given, truth) ensures key in given {
        DerivingIsMonotone(w, cap, least, given, truth, w.segments[key].conditions, 0);
        assert SegmentDerives(w, cap, given, truth, key);
      }
    }
    var step := set key | key in w.segments && SegmentDerives(w, cap, least, truth, key);
    forall key | key in w.segments && SegmentDerives(w, cap, step, truth, key) ensures key in step {
      DerivingIsMonotone(w, cap, step, least, truth, w.segments[key].conditions, 0);
    }
    assert ClosedGiven(w, cap, step, truth);
  }

  /** A stable model solves the segment equations. */
  lemma {:induction false} StableIsModel(w: World, cap: Option<nat>, truth: set<string>)
    requires Stable(w, cap, truth)
    ensures Model(w, cap, truth)
  {
    forall key | key in w.segments ensures key in truth <==> SegmentHolds(w, cap, truth, key) {
      StableSegment(w, cap, truth, key);
    }
  }

  lemma {:induction false} StableSegment(w: World, cap: Option<nat>, truth: set<string>, key: string)
    requires Stable(w, cap, truth) && key in w.segments
    ensures key in truth <==> Holds(w, cap, truth, w.segments[key].conditions, 0)
  {
    ConsequencesAreLeast(w, cap, truth);
    DerivingFromTruthIsHolding(w, cap, truth, w.segments[key].conditions, 0);
    assert SegmentDerives(w, cap, truth, truth, key) == SegmentHolds(w, cap, truth, key);
  }

  /** The segments derived in `n` rounds, starting from none. */
  ghost function Round(w: World, cap: Option<nat>, truth: set<string>, n: nat): set<string> {
    if n == 0 then {} else set key | key in w.segments && SegmentDerives(w, cap, Round(w, cap, truth, n - 1), truth, key)
  }

  lemma {:induction false} RoundsGrow(w: World, cap: Option<nat>, truth: set<string>, n: nat)
    ensures Round(w, cap, truth, n) <= Round(w, cap, truth, n + 1)
  {
    if n > 0 {
      RoundsGrow(w, cap, truth, n - 1);
      forall key | key in Round(w, cap, truth, n) ensures key in Round(w, cap, truth, n + 1) {
        DerivingIsMonotone(w, cap, Round(w, cap, truth, n - 1), Round(w, cap, truth, n), truth, w.segments[key].conditions, 0);
      }
    }
  }

  /** Rounds keep growing by at least one segment until they are closed. */
  lemma {:induction false} RoundsClose(w: World, cap: Option<nat>, truth: set<string>, n: nat) returns (m: nat)
    ensures m <= n
    ensures ClosedGiven(w, cap, Round(w, cap, truth, m), truth) || |Round(w, cap, truth, m)| >= m == n
  {
    if n == 0 { return 0; }
    m := RoundsClose(w, cap, truth, n - 1);
    if !ClosedGiven(w, cap, Round(w, cap, truth, m), truth) {
      RoundAdds(w, cap, truth, m);
      m := m + 1;
    }
  }

  lemma RoundAdds(w: World, cap: Option<nat>, truth: set<string>, n: nat)
    requires !ClosedGiven(w, cap, Round(w, cap, truth, n), truth)
    ensures |Round(w, cap, truth, n + 1)| > |Round(w, cap, truth, n)|
  {
    var now, next := Round(w, cap, truth, n), Round(w, cap, truth, n + 1);
    RoundsGrow(w, cap, truth, n);
    var key :| key in w.segments && SegmentDerives(w, cap, now, truth, key) && key !in now;
    SubsetSize(now + {key}, next);
  }

  /** Some round is closed, so it has all the consequences. */
  lemma {:induction false} ConsequencesAreReached(w: World, cap: Option<nat>, truth: set<string>) returns (n: nat)
    ensures Consequences(w, cap, truth) <= Round(w, cap, truth, n)
  {
    n := RoundsClose(w, cap, truth, |w.segments.Keys| + 1);
    SubsetSize(Round(w, cap, truth, n), w.segments.Keys);
  }

  /** The last round that does not have `key` yet, and that already derives it. */
  lemma {:induction false} FirstRound(w: World, cap: Option<nat>, truth: set<string>, n: nat, key: string) returns (r: nat)
    requires key in Round(w, cap, truth, n)
    ensures r < n && key !in Round(w, cap, truth, r) && Round(w, cap, truth, r) <= Round(w, cap, truth, n)
    ensures key in w.segments && SegmentDerives(w, cap, Round(w, cap, truth, r), truth, key)
  {
    RoundsGrow(w, cap, truth, n - 1);
    if key in Round(w, cap, truth, n - 1) { r := FirstRound(w, cap, truth, n - 1, key); } else { r := n - 1; }
  }

  // ---------- Evaluation against a stable model

  /** No visited segment has a rank below `top`. */
  ghost predicate ClearBelow(rank: map<string, nat>, visited: set<string>, top: nat) {
    forall key | key in visited && key in rank :: rank[key] >= top
  }

  /** No visited segment of the round has a rank that evaluation can still ask for. */
  ghost predicate Unasked(rank: map<string, nat>, visited: set<string>, round: set<string>, top: nat) {
    forall key | key in visited && key in round && key in rank :: rank[key] > top
  }

  lemma HopKeepsClear(rank: map<string, nat>, visited: set<string>, top: nat, key: string)
    requires ClearBelow(rank, visited, top) && key in rank && rank[key] <= top
    ensures ClearBelow(rank, visited + {key}, rank[key])
  {
  }

  lemma HopKeepsUnasked(rank: map<string, nat>, visited: set<string>, round: set<string>, earlier: set<string>, top: nat, key: string)
    requires Unasked(rank, visited, round, top) && key in rank && rank[key] <= top && earlier <= round && key !in earlier
    ensures Unasked(rank, visited + {key}, earlier, rank[key])
  {
  }

  /** An answer of true is true in the model: along a cycle the visited guard only turns true into false,
      and what stands under a `not` is of lower rank, where nothing has been visited. */
  lemma {:induction false} EvalIsSound(w: World, truth: set<string>, rank: map<string, nat>, top: nat, node: ConditionNode, visited: set<string>, depth: nat)
    requires Ranked(w, rank) && Stable(w, Some(w.maxDepth), truth)
    requires Graded(rank, node, top) && ClearBelow(rank, visited, top)
    requires EvalNode(w, node, visited, depth).holds
    ensures Holds(w, Some(w.maxDepth), truth, node, depth)
    decreases top, 2, w.segments.Keys - visited, Levels(w, depth)
  {
    match FormOf(node)
    case All =>
      LoopsAreConnectives(w, node.all, visited, depth + 1);
      forall i | 0 <= i < |node.all| ensures Holds(w, Some(w.maxDepth), truth, node.all[i], depth + 1) {
        ChildrenAreGraded(rank, node, top, node.all[i]);
        EvalIsSound(w, truth, rank, top, node.all[i], visited, depth + 1);
      }
    case Any =>
      LoopsAreConnectives(w, node.any, visited, depth + 1);
      var i :| 0 <= i < |node.any| && EvalNode(w, node.any[i], visited, depth + 1).holds;
      ChildrenAreGraded(rank, node, top, node.any[i]);
      EvalIsSound(w, truth, rank, top, node.any[i], visited, depth + 1);
    case Not =>
      assert LowerOnly(rank, node.not.value, top);
      EvalAgreesBelow(w, truth, rank, top, node.not.value, visited, depth + 1);
    case Leaf =>
      LeafIsSound(w, truth, rank, top, node, visited, depth);
  }

  lemma {:induction false} LeafIsSound(w: World, truth: set<string>, rank: map<string, nat>, top: nat, node: ConditionNode, visited: set<string>, depth: nat)
    requires Ranked(w, rank) && Stable(w, Some(w.maxDepth), truth) && FormOf(node) == Leaf
    requires Graded(rank, node, top) && ClearBelow(rank, visited, top)
    requires EvalNode(w, node, visited, depth).holds
    ensures Holds(w, Some(w.maxDepth), truth, node, depth)
    decreases top, 2, w.segments.Keys - visited, 0
  {
    if SegmentKey(node).Some? {
      var key := SegmentKey(node).value;
      SegmentLeafHops(w, node, visited, depth);
      HopKeepsClear(rank, visited, top, key);
      EvalIsSound(w, truth, rank, rank[key], w.segments[key].conditions, visited + {key}, 0);
      StableSegment(w, Some(w.maxDepth), truth, key);
    }
  }

  lemma ChildrenAreGraded(rank: map<string, nat>, node: ConditionNode, top: nat, child: ConditionNode)
    requires Graded(rank, node, top)
    requires (FormOf(node) == All && child in node.all) || (FormOf(node) == Any && child in node.any)
    ensures Graded(rank, child, top)
  {
    forall key | key in rank && Refers(child, key)
      ensures rank[key] <= top && (Negates(child, key) ==> rank[key] < top)
    {
      assert Refers(node, key) && (Negates(child, key) ==> Negates(node, key));
    }
  }

  /** What round `n` derives, evaluation finds, as long as no segment of that round and rank has been
      visited: a segment first derived in round r needs only rounds before r. */
  lemma {:induction false} EvalIsComplete(w: World, truth: set<string>, rank: map<string, nat>, top: nat, n: nat, node: ConditionNode, visited: set<string>, depth: nat)
    requires Ranked(w, rank) && Stable(w, Some(w.maxDepth), truth)
    requires Graded(rank, node, top) && ClearBelow(rank, visited, top)
    requires Derives(w, Some(w.maxDepth), Round(w, Some(w.maxDepth), truth, n), truth, node, depth)
    requires Unasked(rank, visited, Round(w, Some(w.maxDepth), truth, n), top)
    ensures EvalNode(w, node, visited, depth).holds
    decreases top, 2, n, node
  {
    var cap := Some(w.maxDepth);
    match FormOf(node)
    case All =>
      forall i | 0 <= i < |node.all| ensures EvalNode(w, node.all[i], visited, depth + 1).holds {
        ChildrenAreGraded(rank, node, top, node.all[i]);
        EvalIsComplete(w, truth, rank, top, n, node.all[i], visited, depth + 1);
      }
      LoopsAreConnectives(w, node.all, visited, depth + 1);
    case Any =>
      var i :| 0 <= i < |node.any| && Derives(w, cap, Round(w, cap, truth, n), truth, node.any[i], depth + 1);
      ChildrenAreGraded(rank, node, top, node.any[i]);
      EvalIsComplete(w, truth, rank, top, n, node.any[i], visited, depth + 1);
      LoopsAreConnectives(w, node.any, visited, depth + 1);
    case Not =>
      assert LowerOnly(rank, node.not.value, top);
      EvalAgreesBelow(w, truth, rank, top, node.not.value, visited, depth + 1);
    case Leaf =>
      if SegmentKey(node).Some? {
        var key := SegmentKey(node).value;
        var r := FirstRound(w, cap, truth, n, key);
        SegmentLeafHops(w, node, visited, depth);
        HopKeepsClear(rank, visited, top, key);
        HopKeepsUnasked(rank, visited, Round(w, cap, truth, n), Round(w, cap, truth, r), top, key);
        EvalIsComplete(w, truth, rank, rank[key], r, w.segments[key].conditions, visited + {key}, 0);
      }
  }

  /** Where every segment referred to has a rank below all that has been visited, evaluation and the model
      agree, `not` included. */
  lemma {:induction false} EvalAgreesBelow(w: World, truth: set<string>, rank: map<string, nat>, top: nat, node: ConditionNode, visited: set<string>, depth: nat)
    requires Ranked(w, rank) && Stable(w, Some(w.maxDepth), truth)
    requires LowerOnly(rank, node, top) && ClearBelow(rank, visited, top)
    ensures EvalNode(w, node, visited, depth).holds == Holds(w, Some(w.maxDepth), truth, node, depth)
    decreases top, 1, node, 1
  {
    match FormOf(node)
    case All =>
      ChildrenAreLower(rank, node, top);
      ListAgreesBelow(w, truth, rank, top, node.all, visited, depth + 1);
      LoopsAreConnectives(w, node.all, visited, depth + 1);
    case Any =>
      ChildrenAreLower(rank, node, top);
      ListAgreesBelow(w, truth, rank, top, node.any, visited, depth + 1);
      LoopsAreConnectives(w, node.any, visited, depth + 1);
    case Not => NotAgreesBelow(w, truth, rank, top, node, visited, depth);
    case Leaf => LeafAgreesBelow(w, truth, rank, top, node, visited, depth);
  }

  lemma {:induction false} ListAgreesBelow(w: World, truth: set<string>, rank: map<string, nat>, top: nat, nodes: seq<ConditionNode>, visited: set<string>, depth: nat)
    requires Ranked(w, rank) && Stable(w, Some(w.maxDepth), truth) && ClearBelow(rank, visited, top)
    requires forall i | 0 <= i < |nodes| :: LowerOnly(rank, nodes[i], top)
    ensures forall i | 0 <= i < |nodes| ::
      EvalNode(w, nodes[i], visited, depth).holds == Holds(w, Some(w.maxDepth), truth, nodes[i], depth)
    decreases top, 1, nodes
  {
    forall i | 0 <= i < |nodes|
      ensures EvalNode(w, nodes[i], visited, depth).holds == Holds(w, Some(w.maxDepth), truth, nodes[i], depth)
    { EvalAgreesBelow(w, truth, rank, top, nodes[i], visited, depth); }
  }

  lemma {:induction false} NotAgreesBelow(w: World, truth: set<string>, rank: map<string, nat>, top: nat, node: ConditionNode, visited: set<string>, depth: nat)
    requires Ranked(w, rank) && Stable(w, Some(w.maxDepth), truth) && FormOf(node) == Not
    requires LowerOnly(rank, node, top) && ClearBelow(rank, visited, top)
    ensures EvalNode(w, node, visited, depth).holds == Holds(w, Some(w.maxDepth), truth, node, depth)
    decreases top, 1, node, 0
  {
    assert LowerOnly(rank, node.not.value, top);
    EvalAgreesBelow(w, truth, rank, top, node.not.value, visited, depth + 1);
  }

  lemma {:induction false} LeafAgreesBelow(w: World, truth: set<string>, rank: map<string, nat>, top: nat, node: ConditionNode, visited: set<string>, depth: nat)
    requires Ranked(w, rank) && Stable(w, Some(w.maxDepth), truth) && FormOf(node) == Leaf
    requires LowerOnly(rank, node, top) && ClearBelow(rank, visited, top)
    ensures EvalNode(w, node, visited, depth).holds == Holds(w, Some(w.maxDepth), truth, node, depth)
    decreases top, 0
  {
    if SegmentKey(node).Some? && depth <= w.maxDepth {
      var key := SegmentKey(node).value;
      SegmentLeafHops(w, node, visited, depth);
      if key in rank { SegmentAgreesBelow(w, truth, rank, top, key, visited); }
    }
  }

  lemma ChildrenAreLower(rank: map<string, nat>, node: ConditionNode, top: nat)
    requires LowerOnly(rank, node, top)
    ensures FormOf(node) == All ==> forall i | 0 <= i < |node.all| :: LowerOnly(rank, node.all[i], top)
    ensures FormOf(node) == Any ==> forall i | 0 <= i < |node.any| :: LowerOnly(rank, node.any[i], top)
  {
    assert FormOf(node) == All ==> forall i, key | 0 <= i < |node.all| && Refers(node.all[i], key) :: Refers(node, key);
    assert FormOf(node) == Any ==> forall i, key | 0 <= i < |node.any| && Refers(node.any[i], key) :: Refers(node, key);
  }

  lemma {:induction false} SegmentAgreesBelow(w: World, truth: set<string>, rank: map<string, nat>, top: nat, key: string, visited: set<string>)
    requires Ranked(w, rank) && Stable(w, Some(w.maxDepth), truth)
    requires key in w.segments && rank[key] < top && ClearBelow(rank, visited, top)
    ensures EvalNode(w, w.segments[key].conditions, visited + {key}, 0).holds <==> key in truth
    decreases rank[key], 3
  {
    var cap, tree := Some(w.maxDepth), w.segments[key].conditions;
    assert ClearBelow(rank, visited + {key}, rank[key]);
    if EvalNode(w, tree, visited + {key}, 0).holds {
      EvalIsSound(w, truth, rank, rank[key], tree, visited + {key}, 0);
      StableSegment(w, cap, truth, key);
    }
    if key in truth {
      var n := ConsequencesAreReached(w, cap, truth);
      var r := FirstRound(w, cap, truth, n, key);
      EvalIsComplete(w, truth, rank, rank[key], r, tree, visited + {key}, 0);
    }
  }

  // ---------- There is a stable model

  /** The sets agree on the segments of lower rank. */
  ghost predicate AgreeBelow(rank: map<string, nat>, top: nat, a: set<string>, b: set<string>) {
    forall key | key in rank && rank[key] < top :: key in a <==> key in b
  }

  lemma {:induction false} HoldingIsLocal(w: World, cap: Option<nat>, rank: map<string, nat>, top: nat, a: set<string>, b: set<string>, node: ConditionNode, depth: nat)
    requires rank.Keys == w.segments.Keys && LowerOnly(rank, node, top) && AgreeBelow(rank, top, a, b)
    ensures Holds(w, cap, a, node, depth) == Holds(w, cap, b, node, depth)
    decreases node
  {
    match FormOf(node)
    case All =>
      forall i | 0 <= i < |node.all| ensures Holds(w, cap, a, node.all[i], depth + 1) == Holds(w, cap, b, node.all[i], depth + 1) {
        ChildrenAreLower(rank, node, top);
        HoldingIsLocal(w, cap, rank, top, a, b, node.all[i], depth + 1);
      }
    case Any =>
      forall i | 0 <= i < |node.any| ensures Holds(w, cap, a, node.any[i], depth + 1) == Holds(w, cap, b, node.any[i], depth + 1) {
        ChildrenAreLower(rank, node, top);
        HoldingIsLocal(w, cap, rank, top, a, b, node.any[i], depth + 1);
      }
    case Not =>
      assert LowerOnly(rank, node.not.value, top);
      HoldingIsLocal(w, cap, rank, top, a, b, node.not.value, depth + 1);
    case Leaf =>
  }

  lemma {:induction false} DerivingIsLocal(w: World, cap: Option<nat>, rank: map<string, nat>, top: nat, g0: set<string>, g1: set<string>, t0: set<string>, t1: set<string>, node: ConditionNode, depth: nat)
    requires rank.Keys == w.segments.Keys && Graded(rank, node, top) && AgreeBelow(rank, top + 1, g0, g1) && AgreeBelow(rank, top, t0, t1)
    ensures Derives(w, cap, g0, t0, node, depth) == Derives(w, cap, g1, t1, node, depth)
    decreases node
  {
    match FormOf(node)
    case All =>
      forall i | 0 <= i < |node.all| ensures Derives(w, cap, g0, t0, node.all[i], depth + 1) == Derives(w, cap, g1, t1, node.all[i], depth + 1) {
        ChildrenAreGraded(rank, node, top, node.all[i]);
        DerivingIsLocal(w, cap, rank, top, g0, g1, t0, t1, node.all[i], depth + 1);
      }
    case Any =>
      forall i | 0 <= i < |node.any| ensures Derives(w, cap, g0, t0, node.any[i], depth + 1) == Derives(w, cap, g1, t1, node.any[i], depth + 1) {
        ChildrenAreGraded(rank, node, top, node.any[i]);
        DerivingIsLocal(w, cap, rank, top, g0, g1, t0, t1, node.any[i], depth + 1);
      }
    case Not =>
      assert LowerOnly(rank, node.not.value, top);
      HoldingIsLocal(w, cap, rank, top, t0, t1, node.not.value, depth + 1);
    case Leaf => assert forall key | key in rank && Refers(node, key) :: rank[key] < top + 1;
  }

  /** The consequences of a rank depend on lower ranks only. */
  lemma {:induction false} ConsequencesAreLocal(w: World, cap: Option<nat>, rank: map<string, nat>, top: nat, t0: set<string>, t1: set<string>, key: string)
    requires Ranked(w, rank) && AgreeBelow(rank, top, t0, t1)
    requires key in Consequences(w, cap, t0) && key in rank && rank[key] <= top
    ensures key in Consequences(w, cap, t1)
  {
    forall given: set<string> | ClosedGiven(w, cap, given, t1) ensures key in given {
      var wider := given + (set k | k in w.segments && rank[k] > top);
      forall k | k in w.segments && SegmentDerives(w, cap, wider, t0, k) ensures k in wider {
        if rank[k] <= top {
          assert AgreeBelow(rank, rank[k] + 1, wider, given) && AgreeBelow(rank, rank[k], t0, t1);
          DerivingIsLocal(w, cap, rank, rank[k], wider, given, t0, t1, w.segments[k].conditions, 0);
          assert SegmentDerives(w, cap, given, t1, k);
        }
      }
      assert ClosedGiven(w, cap, wider, t0);
    }
  }

  lemma ConsequencesAgree(w: World, cap: Option<nat>, rank: map<string, nat>, top: nat, t0: set<string>, t1: set<string>)
    requires Ranked(w, rank) && AgreeBelow(rank, top, t0, t1)
    ensures AgreeBelow(rank, top + 1, Consequences(w, cap, t0), Consequences(w, cap, t1))
  {
    forall key | key in rank && rank[key] <= top ensures key in Consequences(w, cap, t0) <==> key in Consequences(w, cap, t1) {
      if key in Consequences(w, cap, t0) { ConsequencesAreLocal(w, cap, rank, top, t0, t1, key); }
      if key in Consequences(w, cap, t1) { ConsequencesAreLocal(w, cap, rank, top, t1, t0, key); }
    }
  }

  /** Taking consequences again and again settles rank after rank. */
  lemma {:induction false} RanksSettle(w: World, cap: Option<nat>, rank: map<string, nat>, n: nat) returns (truth: set<string>)
    requires Ranked(w, rank)
    ensures truth <= w.segments.Keys && AgreeBelow(rank, n, truth, Consequences(w, cap, truth))
  {
    if n == 0 { return {}; }
    var before := RanksSettle(w, cap, rank, n - 1);
    truth := Consequences(w, cap, before);
    ConsequencesAgree(w, cap, rank, n - 1, before, truth);
  }

  lemma StableModelExists(w: World, cap: Option<nat>) returns (truth: set<string>)
    requires Stratified(w)
    ensures Stable(w, cap, truth)
  {
    var rank := StratifiedHasRanks(w);
    var n := RanksAreBounded(rank);
    truth := RanksSettle(w, cap, rank, n);
    assert forall key | key in rank :: key in truth <==> key in Consequences(w, cap, truth);
  }

  // ---------- The main result

  function SegmentLeaf(key: string): ConditionNode {
    EMPTY_NODE.(attribute := Some("user_id"), op := Some("segment"), value := Json.Str(key))
  }

  lemma SegmentLeafAsks(key: string)
    ensures FormOf(SegmentLeaf(key)) == Leaf && SegmentKey(SegmentLeaf(key)) == Some(key)
  {
    assert Text.TrimLeft("segment") == "segment" && Text.TrimSpace("segment") == "segment";
  }

  /** The segments the engine finds true when asked for each by itself. */
  ghost function SegmentTruth(w: World): set<string> {
    set key | key in w.segments && EvalNode(w, SegmentLeaf(key), {}, 0).holds
  }

  lemma EvalAgreesWithStable(w: World, truth: set<string>, node: ConditionNode)
    requires Stratified(w) && Stable(w, Some(w.maxDepth), truth)
    ensures EvalNode(w, node, {}, 0).holds == Holds(w, Some(w.maxDepth), truth, node, 0)
  {
    var rank := StratifiedHasRanks(w);
    var top := RanksAreBounded(rank);
    EvalAgreesBelow(w, truth, rank, top, node, {}, 0);
  }

  lemma StableIsSegmentTruth(w: World, truth: set<string>)
    requires Stratified(w) && Stable(w, Some(w.maxDepth), truth)
    ensures truth == SegmentTruth(w)
  {
    forall key | key in w.segments ensures key in truth <==> key in SegmentTruth(w) {
      SegmentLeafAsks(key);
      EvalAgreesWithStable(w, truth, SegmentLeaf(key));
    }
  }

  /** The main result. When no reference cycle passes under a `not`, the segment equations have exactly one
      stable model, and the answer to every tree, cyclic references and `not` included, is its truth value
      in that model. */
  lemma EvaluationIsStableModel(w: World, node: ConditionNode)
    requires Stratified(w)
    ensures var cap, truth := Some(w.maxDepth), SegmentTruth(w);
      && Stable(w, cap, truth)
      && (forall other: set<string> | Stable(w, cap, other) :: other == truth)
      && EvalNode(w, node, {}, 0).holds == Holds(w, cap, truth, node, 0)
  {
    var truth := StableModelExists(w, Some(w.maxDepth));
    StableIsSegmentTruth(w, truth);
    EvalAgreesWithStable(w, truth, node);
    forall other: set<string> | Stable(w, Some(w.maxDepth), other) ensures other == truth {
      StableIsSegmentTruth(w, other);
    }
  }

  // ---------- Trees without `not`

  ghost predicate NotFree(node: ConditionNode)
    decreases node
  {
    match FormOf(node)
    case All => forall i | 0 <= i < |node.all| :: NotFree(node.all[i])
    case Any => forall i | 0 <= i < |node.any| :: NotFree(node.any[i])
    case Not => false
    case Leaf => true
  }

  ghost predicate AllNotFree(w: World) {
    forall key | key in w.segments :: NotFree(w.segments[key].conditions)
  }

  lemma {:induction false} NotFreeNegatesNothing(node: ConditionNode, key: string)
    requires NotFree(node)
    ensures !Negates(node, key)
    decreases node
  {
    match FormOf(node)
    case All =>
      forall i | 0 <= i < |node.all| ensures !Negates(node.all[i], key) { NotFreeNegatesNothing(node.all[i], key); }
    case Any =>
      forall i | 0 <= i < |node.any| ensures !Negates(node.any[i], key) { NotFreeNegatesNothing(node.any[i], key); }
    case Not =>
    case Leaf =>
  }

  lemma {:induction false} NotFreeDerivesAsItHolds(w: World, cap: Option<nat>, given: set<string>, truth: set<string>, node: ConditionNode, depth: nat)
    requires NotFree(node)
    ensures Derives(w, cap, given, truth, node, depth) == Holds(w, cap, given, node, depth)
    decreases node
  {
    match FormOf(node)
    case All =>
      forall i | 0 <= i < |node.all|
        ensures Derives(w, cap, given, truth, node.all[i], depth + 1) == Holds(w, cap, given, node.all[i], depth + 1)
      { NotFreeDerivesAsItHolds(w, cap, given, truth, node.all[i], depth + 1); }
    case Any =>
      forall i | 0 <= i < |node.any|
        ensures Derives(w, cap, given, truth, node.any[i], depth + 1) == Holds(w, cap, given, node.any[i], depth + 1)
      { NotFreeDerivesAsItHolds(w, cap, given, truth, node.any[i], depth + 1); }
    case Not =>
    case Leaf =>
  }

  /** Without `not`, the stable model is the least fixpoint. */
  lemma {:induction false} LeastModelIsStable(w: World, cap: Option<nat>, truth: set<string>)
    requires AllNotFree(w)
    ensures Consequences(w, cap, truth) == LeastModel(w, cap)
  {
    forall given: set<string>, key | key in w.segments
      ensures SegmentDerives(w, cap, given, truth, key) == SegmentHolds(w, cap, given, key)
    { NotFreeDerivesAsItHolds(w, cap, given, truth, w.segments[key].conditions, 0); }
    assert forall given: set<string> :: ClosedGiven(w, cap, given, truth) <==> Closed(w, cap, given);
  }

  /** The least closed set solves the equations, and every solution contains it. */
  lemma {:induction false} LeastModelIsLeast(w: World, cap: Option<nat>)
    requires AllNotFree(w)
    ensures Model(w, cap, LeastModel(w, cap))
    ensures forall truth: set<string> | Model(w, cap, truth) :: LeastModel(w, cap) <= truth
  {
    LeastModelIsStable(w, cap, LeastModel(w, cap));
    StableIsModel(w, cap, LeastModel(w, cap));
  }

  /** Evaluation decides the least fixpoint, in whatever way the segments refer to each other. */
  lemma {:induction false} EvaluationIsLeastFixpointUnderCap(w: World, node: ConditionNode)
    requires AllNotFree(w)
    ensures EvalNode(w, node, {}, 0).holds == Holds(w, Some(w.maxDepth), LeastModel(w, Some(w.maxDepth)), node, 0)
  {
    forall a, b | a in w.segments && b in w.segments && Negates(w.segments[a].conditions, b) ensures false {
      NotFreeNegatesNothing(w.segments[a].conditions, b);
    }
    LeastModelIsStable(w, Some(w.maxDepth), LeastModel(w, Some(w.maxDepth)));
    EvalAgreesWithStable(w, LeastModel(w, Some(w.maxDepth)), node);
  }

  // ---------- The depth guard

  /** No node of the tree lies below level `cap`. */
  ghost predicate Fits(cap: nat, node: ConditionNode, depth: nat)
    decreases node
  {
    depth <= cap &&
    match FormOf(node)
    case All => forall i | 0 <= i < |node.all| :: Fits(cap, node.all[i], depth + 1)
    case Any => forall i | 0 <= i < |node.any| :: Fits(cap, node.any[i], depth + 1)
    case Not => Fits(cap, node.not.value, depth + 1)
    case Leaf => true
  }

  ghost predicate AllFit(w: World) {
    forall key | key in w.segments :: Fits(w.maxDepth, w.segments[key].conditions, 0)
  }

  lemma {:induction false} CapIsIrrelevant(w: World, cap: nat, truth: set<string>, node: ConditionNode, depth: nat)
    requires Fits(cap, node, depth)
    ensures Holds(w, Some(cap), truth, node, depth) == Holds(w, None, truth, node, depth)
    decreases node
  {
    match FormOf(node)
    case All =>
      forall i | 0 <= i < |node.all|
        ensures Holds(w, Some(cap), truth, node.all[i], depth + 1) == Holds(w, None, truth, node.all[i], depth + 1)
      { CapIsIrrelevant(w, cap, truth, node.all[i], depth + 1); }
    case Any =>
      forall i | 0 <= i < |node.any|
        ensures Holds(w, Some(cap), truth, node.any[i], depth + 1) == Holds(w, None, truth, node.any[i], depth + 1)
      { CapIsIrrelevant(w, cap, truth, node.any[i], depth + 1); }
    case Not => CapIsIrrelevant(w, cap, truth, node.not.value, depth + 1);
    case Leaf =>
  }

  /** For trees within the depth cap, the answer is the truth value of the whole tree in the least fixpoint of
      the whole segment trees. The tree asked about may itself contain `not`. */
  lemma {:induction false} EvaluationIsLeastFixpoint(w: World, node: ConditionNode)
    requires AllNotFree(w) && AllFit(w) && Fits(w.maxDepth, node, 0)
    ensures EvalNode(w, node, {}, 0).holds <==> Holds(w, None, LeastModel(w, None), node, 0)
  {
    var cap := Some(w.maxDepth);
    forall truth: set<string>, key | key in w.segments
      ensures SegmentHolds(w, cap, truth, key) == SegmentHolds(w, None, truth, key)
    { CapIsIrrelevant(w, w.maxDepth, truth, w.segments[key].conditions, 0); }
    assert forall truth: set<string> :: Closed(w, cap, truth) <==> Closed(w, None, truth);
    assert LeastModel(w, cap) == LeastModel(w, None);
    CapIsIrrelevant(w, w.maxDepth, LeastModel(w, None), node, 0);
    EvaluationIsLeastFixpointUnderCap(w, node);
  }

  // ---------- Acyclic references

  ghost predicate Acyclic(w: World) {
    forall key | key in w.segments :: key !in Below(w, key)
  }

  /** Every existing segment the tree refers to lies in `bound`, with all that is below it. */
  ghost predicate Within(w: World, node: ConditionNode, bound: set<string>) {
    forall key | key in w.segments && Refers(node, key) :: key in bound && Below(w, key) < bound
  }

  lemma {:induction false} ChildrenAreBelow(w: World, key: string)
    requires Acyclic(w) && key in w.segments
    ensures Within(w, w.segments[key].conditions, Below(w, key))
    ensures key !in Below(w, key)
  {
    forall k | k in w.segments && Refers(w.segments[key].conditions, k)
      ensures k in Below(w, key) && Below(w, k) < Below(w, key)
    {
      assert Connects(w, [key, k], key, k);
      EdgesDescend(w, key, k);
    }
  }

  /** Two solutions agree on every tree, going up from the segments with nothing below. */
  lemma {:induction false} SolutionsAgree(w: World, cap: Option<nat>, t0: set<string>, t1: set<string>, node: ConditionNode, depth: nat, bound: set<string>)
    requires Acyclic(w) && Model(w, cap, t0) && Model(w, cap, t1) && Within(w, node, bound)
    ensures Holds(w, cap, t0, node, depth) == Holds(w, cap, t1, node, depth)
    decreases bound, node
  {
    match FormOf(node)
    case All =>
      forall i | 0 <= i < |node.all|
        ensures Holds(w, cap, t0, node.all[i], depth + 1) == Holds(w, cap, t1, node.all[i], depth + 1)
      { SolutionsAgree(w, cap, t0, t1, node.all[i], depth + 1, bound); }
    case Any =>
      forall i | 0 <= i < |node.any|
        ensures Holds(w, cap, t0, node.any[i], depth + 1) == Holds(w, cap, t1, node.any[i], depth + 1)
      { SolutionsAgree(w, cap, t0, t1, node.any[i], depth + 1, bound); }
    case Not => SolutionsAgree(w, cap, t0, t1, node.not.value, depth + 1, bound);
    case Leaf =>
      if SegmentKey(node).Some? && SegmentKey(node).value in w.segments {
        var key := SegmentKey(node).value;
        ChildrenAreBelow(w, key);
        SolutionsAgree(w, cap, t0, t1, w.segments[key].conditions, 0, Below(w, key));
        assert SegmentHolds(w, cap, t0, key) == SegmentHolds(w, cap, t1, key);
      }
  }

  /** When no segment leads back to itself, the segment equations have exactly one solution, and evaluation,
      with `not` anywhere, is the meaning of the tree in it. The visited set is unobservable. */
  lemma {:induction false} VisitedSetIsUnobservable(w: World, node: ConditionNode)
    requires Acyclic(w)
    ensures var cap := Some(w.maxDepth);
      && Model(w, cap, SegmentTruth(w))
      && (forall truth: set<string> | Model(w, cap, truth) :: truth == SegmentTruth(w))
      && EvalNode(w, node, {}, 0).holds == Holds(w, cap, SegmentTruth(w), node, 0)
  {
    var cap, truth := Some(w.maxDepth), SegmentTruth(w);
    AcyclicIsStratified(w);
    EvaluationIsStableModel(w, node);
    StableIsModel(w, cap, truth);
    forall other: set<string> | Model(w, cap, other) ensures other == truth {
      forall key | key in w.segments ensures key in truth <==> key in other {
        ChildrenAreBelow(w, key);
        SolutionsAgree(w, cap, truth, other, w.segments[key].conditions, 0, Below(w, key));
        assert SegmentHolds(w, cap, truth, key) == SegmentHolds(w, cap, other, key);
      }
    }
  }

  lemma AcyclicIsStratified(w: World)
    requires Acyclic(w)
    ensures Stratified(w)
  {
    forall a, b | a in w.segments && b in w.segments && Negates(w.segments[a].conditions, b) ensures a != b && a !in Below(w, b) {
      NegatesRefers(w.segments[a].conditions, b);
      EdgesDescend(w, a, b);
    }
  }
}
