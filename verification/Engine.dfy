/** The rule engine: `pkg/engine/{types,segments,conditions,operators}.go`.

    `Run` carries what one call of the evaluator does: its answer, the warnings and errors it
    reports through OnWarn/OnError in order, and how many condition nodes it visits. */
module Engine {
  import opened Prelude
  import opened Json
  import Text

  const MAX_CONDITION_DEPTH: nat := 10

  /** One record with optional fields; nothing forces exactly one form to be set. */
  datatype ConditionNode = ConditionNode(
    attribute: Option<string>,
    op: Option<string>,
    value: Json,
    all: seq<ConditionNode>,
    any: seq<ConditionNode>,
    not: Option<ConditionNode>)

  const EMPTY_NODE := ConditionNode(None, None, Null, [], [], None)

  datatype Segment = Segment(key: string, conditions: ConditionNode)

  datatype Event = UnknownOp | MaxConditionDepth | InvalidRegex

  datatype Run = Run(holds: bool, events: seq<Event>, visits: nat) {
    /** This run followed by `next`, whose answer stands. */
    function Then(next: Run): Run {
      Run(next.holds, events + next.events, visits + next.visits)
    }
  }

  /** What stays fixed during one evaluation. `regexMatch(pattern, text)` is None for a pattern that
      does not compile. The engine runs with `maxDepth == MAX_CONDITION_DEPTH`. */
  datatype World = World(
    context: map<string, Json>,
    segments: map<string, Segment>,
    regexMatch: (string, string) -> Option<bool>,
    maxDepth: nat)

  /** A node's form, in the order in which the evaluator looks at the fields. */
  datatype Form = All | Any | Not | Leaf

  function FormOf(node: ConditionNode): Form {
    if |node.all| > 0 then All
    else if |node.any| > 0 then Any
    else if node.not.Some? then Not
    else Leaf
  }

  function Answer(holds: bool): Run {
    Run(holds, [], 0)
  }

  predicate EqualStrict(left: Json, right: Json) {
    match left
    case Str(l) => right.Str? && l == right.s
    case Bool(l) => right.Bool? && l == right.b
    case Num(l) => right.Num? && l == right.n
    case _ => false
  }

  predicate BothNumbers(val: Option<Json>, ruleVal: Json) {
    val.Some? && val.value.Num? && ruleVal.Num?
  }

  predicate BothStrings(val: Option<Json>, ruleVal: Json) {
    val.Some? && val.value.Str? && ruleVal.Str?
  }

  /** Every operator but "segment". */
  function Operator(w: World, op: string, val: Option<Json>, ruleVal: Json): Run {
    match op
    case "exists" => Answer(val.Some?)
    case "not_exists" => Answer(val.None?)
    case "eq" => Answer(val.Some? && EqualStrict(val.value, ruleVal))
    case "neq" => Answer(val.Some? && !EqualStrict(val.value, ruleVal))
    case "gt" => Answer(BothNumbers(val, ruleVal) && val.value.n > ruleVal.n)
    case "gte" => Answer(BothNumbers(val, ruleVal) && val.value.n >= ruleVal.n)
    case "lt" => Answer(BothNumbers(val, ruleVal) && val.value.n < ruleVal.n)
    case "lte" => Answer(BothNumbers(val, ruleVal) && val.value.n <= ruleVal.n)
    case "in" =>
      Answer(val.Some? && ruleVal.Arr? && exists i | 0 <= i < |ruleVal.items| :: EqualStrict(val.value, ruleVal.items[i]))
    case "not_in" =>
      Answer(val.Some? && ruleVal.Arr? && forall i | 0 <= i < |ruleVal.items| :: !EqualStrict(val.value, ruleVal.items[i]))
    case "contains" => Answer(BothStrings(val, ruleVal) && Text.Contains(val.value.s, ruleVal.s))
    case "starts_with" => Answer(BothStrings(val, ruleVal) && Text.HasPrefix(val.value.s, ruleVal.s))
    case "ends_with" => Answer(BothStrings(val, ruleVal) && Text.HasSuffix(val.value.s, ruleVal.s))
    case "matches" =>
      if !BothStrings(val, ruleVal) then Answer(false)
      else
        (match w.regexMatch(ruleVal.s, val.value.s)
         case None => Run(false, [InvalidRegex], 0)
         case Some(matched) => Answer(matched))
    case _ => Run(false, [UnknownOp], 0)
  }

  /** Which operator pairs are each other's negation, and when: on a missing attribute or an operand of the
      wrong type both answer false. */
  lemma OperatorsComplement(w: World, val: Option<Json>, ruleVal: Json)
    ensures Operator(w, "exists", val, ruleVal).holds != Operator(w, "not_exists", val, ruleVal).holds
    ensures Operator(w, "eq", val, ruleVal).holds != Operator(w, "neq", val, ruleVal).holds <==> val.Some?
    ensures Operator(w, "in", val, ruleVal).holds != Operator(w, "not_in", val, ruleVal).holds <==> val.Some? && ruleVal.Arr?
    ensures Operator(w, "gt", val, ruleVal).holds != Operator(w, "lte", val, ruleVal).holds <==> BothNumbers(val, ruleVal)
    ensures Operator(w, "lt", val, ruleVal).holds != Operator(w, "gte", val, ruleVal).holds <==> BothNumbers(val, ruleVal)
    ensures BothNumbers(val, ruleVal) ==>
      (Operator(w, "eq", val, ruleVal).holds
       <==> Operator(w, "gte", val, ruleVal).holds && Operator(w, "lte", val, ruleVal).holds)
    ensures ruleVal.Arr? ==>
      (Operator(w, "in", val, ruleVal).holds
       <==> exists i | 0 <= i < |ruleVal.items| :: Operator(w, "eq", val, ruleVal.items[i]).holds)
  {
  }

  /** The segment a leaf asks for, when it asks for one at all. */
  function SegmentKey(node: ConditionNode): Option<string> {
    if node.op.Some? && Text.TrimSpace(node.op.value) == "segment" && node.value.Str?
    then Some(node.value.s) else None
  }

  /** A leaf that does not ask for a segment. */
  function PlainLeaf(w: World, node: ConditionNode): Run {
    if node.op.None? then Answer(false)
    else
      var op := Text.TrimSpace(node.op.value);
      var attr := if node.attribute.Some? then Text.TrimSpace(node.attribute.value) else "";
      var val := if attr in w.context then Some(w.context[attr]) else None;
      if op == "segment" then Answer(false) else Operator(w, op, val, node.value)
  }

  /** How many more levels the depth guard lets through, counting the one that is cut off. */
  function Levels(w: World, depth: nat): nat {
    if depth > w.maxDepth then 0 else w.maxDepth + 1 - depth
  }

  /** `evaluateNodeDepth`. Termination is lexicographic: segments not yet visited on this path, then
      remaining depth. The shape of the condition tree plays no part in it. */
  function EvalNode(w: World, node: ConditionNode, visited: set<string>, depth: nat): Run
    decreases w.segments.Keys - visited, Levels(w, depth), 0
  {
    if depth > w.maxDepth then Run(false, [MaxConditionDepth], 1)
    else
      Run(true, [], 1).Then(
        match FormOf(node)
        case All => EvalAll(w, node.all, visited, depth + 1)
        case Any => EvalAny(w, node.any, visited, depth + 1)
        case Not => var r := EvalNode(w, node.not.value, visited, depth + 1); r.(holds := !r.holds)
        case Leaf => EvalLeaf(w, node, visited))
  }

  function EvalAll(w: World, nodes: seq<ConditionNode>, visited: set<string>, depth: nat): Run
    decreases w.segments.Keys - visited, Levels(w, depth), 1 + |nodes|
  {
    if nodes == [] then Answer(true)
    else
      var first := EvalNode(w, nodes[0], visited, depth);
      if !first.holds then first else first.Then(EvalAll(w, nodes[1..], visited, depth))
  }

  function EvalAny(w: World, nodes: seq<ConditionNode>, visited: set<string>, depth: nat): Run
    decreases w.segments.Keys - visited, Levels(w, depth), 1 + |nodes|
  {
    if nodes == [] then Answer(false)
    else
      var first := EvalNode(w, nodes[0], visited, depth);
      if first.holds then first else first.Then(EvalAny(w, nodes[1..], visited, depth))
  }

  function EvalLeaf(w: World, node: ConditionNode, visited: set<string>): Run
    decreases w.segments.Keys - visited, 0, 1
  {
    match SegmentKey(node)
    case Some(key) => ResolveSegment(w, key, visited)
    case None => PlainLeaf(w, node)
  }

  /** `resolveSegment`. The depth starts again at 0 inside the segment. */
  function ResolveSegment(w: World, key: string, visited: set<string>): Run
    decreases w.segments.Keys - visited, 0, 0
  {
    if key in visited || key !in w.segments then Answer(false)
    else EvalNode(w, w.segments[key].conditions, visited + {key}, 0)
  }

  /** What the two loops compute: conjunction and disjunction over the children. */
  lemma {:induction false} LoopsAreConnectives(w: World, nodes: seq<ConditionNode>, visited: set<string>, depth: nat)
    ensures EvalAll(w, nodes, visited, depth).holds
       <==> forall i | 0 <= i < |nodes| :: EvalNode(w, nodes[i], visited, depth).holds
    ensures EvalAny(w, nodes, visited, depth).holds
       <==> exists i | 0 <= i < |nodes| :: EvalNode(w, nodes[i], visited, depth).holds
    decreases |nodes|
  {
    if nodes != [] {
      LoopsAreConnectives(w, nodes[1..], visited, depth);
      assert forall i | 0 < i < |nodes| :: nodes[i] == nodes[1..][i - 1];
      assert forall i | 0 <= i < |nodes| - 1 :: nodes[1..][i] == nodes[i + 1];
    }
  }

  /** A leaf naming a segment is answered by that segment's tree, with the segment added to the path. */
  lemma SegmentLeafHops(w: World, node: ConditionNode, visited: set<string>, depth: nat)
    requires depth <= w.maxDepth && FormOf(node) == Leaf && SegmentKey(node).Some?
    ensures var key := SegmentKey(node).value;
      EvalNode(w, node, visited, depth).holds <==>
        key !in visited && key in w.segments && EvalNode(w, w.segments[key].conditions, visited + {key}, 0).holds
  {
    var key := SegmentKey(node).value;
    assert EvalNode(w, node, visited, depth) == Run(true, [], 1).Then(EvalLeaf(w, node, visited));
    assert EvalLeaf(w, node, visited) == ResolveSegment(w, key, visited);
  }
}
