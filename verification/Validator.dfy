/** The write-time check on rules, `internal/api/rules_validator.go`, and what it accepts. */
module Validator {
  import opened Prelude
  import opened Json
  import opened Codec

  const MAX_RULES_PER_FLAG := 100
  const MAX_RULE_JSON_BYTES := 64 * 1024
  const MAX_CONDITIONS_PER_RULE := 50
  const MAX_DEPTH := 10

  const VALID_OPERATORS := {
    "eq", "neq", "gt", "gte", "lt", "lte", "contains", "starts_with", "ends_with", "in", "not_in",
    "matches", "exists", "not_exists", "segment"}

  datatype Problem =
    | TooLarge | NotJson | TooManyRules | MissingConditions | ConditionsNotObject | TooManyConditions
    | TooDeep | NotAnArray | NotAnObject | IncompleteLeaf | BadAttribute | BadOperator

  predicate NameStart(c: char) {
    'a' <= c <= 'z' || 'A' <= c <= 'Z' || c == '_'
  }

  predicate NamePart(c: char) {
    NameStart(c) || '0' <= c <= '9' || c == '.'
  }

  /** ^[a-zA-Z_][a-zA-Z0-9_.]{0,63}$ */
  predicate AttributeName(s: string) {
    1 <= |s| <= 64 && NameStart(s[0]) && forall i | 1 <= i < |s| :: NamePart(s[i])
  }

  function LeafProblem(fields: map<string, Json>): Option<Problem> {
    if "attribute" !in fields || "op" !in fields then Some(IncompleteLeaf)
    else if !fields["attribute"].Str? || !AttributeName(fields["attribute"].s) then Some(BadAttribute)
    else if !fields["op"].Str? || fields["op"].s !in VALID_OPERATORS then Some(BadOperator)
    else None
  }

  /** What the validator finds in a node at `depth`: its first problem, and how many nodes it has
      counted by then. */
  datatype Finding = Finding(problem: Option<Problem>, count: nat)

  function Find(node: Json, depth: nat): Finding
    requires node.Obj?
    decreases node, 0
  {
    if depth > MAX_DEPTH then Finding(Some(TooDeep), 0)
    else
      var below :=
        if "all" in node.fields then FindChildren(node.fields["all"], depth + 1)
        else if "any" in node.fields then FindChildren(node.fields["any"], depth + 1)
        else if "not" in node.fields then FindChild(node.fields["not"], depth + 1)
        else Finding(LeafProblem(node.fields), 0);
      below.(count := 1 + below.count)
  }

  function FindChild(child: Json, depth: nat): Finding
    decreases child, 1
  {
    if child.Obj? then Find(child, depth) else Finding(Some(NotAnObject), 0)
  }

  function FindChildren(children: Json, depth: nat): Finding
    decreases children
  {
    if children.Arr? then FindItems(children.items, depth) else Finding(Some(NotAnArray), 0)
  }

  function FindItems(items: seq<Json>, depth: nat): Finding
    decreases items
  {
    if items == [] then Finding(None, 0)
    else
      var first := FindChild(items[0], depth);
      if first.problem.Some? then first
      else
        var rest := FindItems(items[1..], depth);
        rest.(count := first.count + rest.count)
  }

  /** `validateConditionNode`; `count` is the counter the Go code shares through a pointer. */
  method ValidateConditionNode(node: Json, depth: nat, count: nat) returns (problem: Option<Problem>, newCount: nat)
    requires node.Obj?
    ensures newCount >= count && Finding(problem, newCount - count) == Find(node, depth)
    decreases node, 1
  {
    if depth > MAX_DEPTH { return Some(TooDeep), count; }
    newCount := count + 1;
    if "all" in node.fields {
      problem, newCount := ValidateChildren(node.fields["all"], depth + 1, newCount);
      return;
    }
    if "any" in node.fields {
      problem, newCount := ValidateChildren(node.fields["any"], depth + 1, newCount);
      return;
    }
    if "not" in node.fields {
      var child := node.fields["not"];
      if !child.Obj? { return Some(NotAnObject), newCount; }
      problem, newCount := ValidateConditionNode(child, depth + 1, newCount);
      return;
    }
    return LeafProblem(node.fields), newCount;
  }

  method ValidateChildren(children: Json, depth: nat, count: nat) returns (problem: Option<Problem>, newCount: nat)
    ensures newCount >= count && Finding(problem, newCount - count) == FindChildren(children, depth)
    decreases children, 0
  {
    newCount := count;
    if !children.Arr? { return Some(NotAnArray), newCount; }
    var items := children.items;
    var j := 0;
    while j < |items|
      invariant 0 <= j <= |items| && newCount >= count
      invariant var rest := FindItems(items[j..], depth);
        FindItems(items, depth) == rest.(count := newCount - count + rest.count)
    {
      assert items[j..][0] == items[j] && items[j..][1..] == items[j + 1..];
      if !items[j].Obj? { return Some(NotAnObject), newCount; }
      problem, newCount := ValidateConditionNode(items[j], depth, newCount);
      if problem.Some? { return; }
      j := j + 1;
    }
    return None, newCount;
  }

  // ---------- What acceptance means

  ghost predicate Accepts(node: Json, depth: nat)
    decreases node
  {
    node.Obj? && depth <= MAX_DEPTH &&
    if "all" in node.fields then AcceptsItems(node.fields["all"], depth + 1)
    else if "any" in node.fields then AcceptsItems(node.fields["any"], depth + 1)
    else if "not" in node.fields then Accepts(node.fields["not"], depth + 1)
    else
      && "attribute" in node.fields && node.fields["attribute"].Str? && AttributeName(node.fields["attribute"].s)
      && "op" in node.fields && node.fields["op"].Str? && node.fields["op"].s in VALID_OPERATORS
  }

  ghost predicate AcceptsItems(children: Json, depth: nat)
    decreases children
  {
    children.Arr? && forall i | 0 <= i < |children.items| :: Accepts(children.items[i], depth)
  }

  /** The nodes of a raw tree, by the key that takes precedence. */
  function RawSize(node: Json): nat
    decreases node
  {
    if !node.Obj? then 0
    else if "all" in node.fields then 1 + RawSizes(node.fields["all"])
    else if "any" in node.fields then 1 + RawSizes(node.fields["any"])
    else if "not" in node.fields then 1 + RawSize(node.fields["not"])
    else 1
  }

  function RawSizes(children: Json): nat
    decreases children
  {
    if children.Arr? then RawSum(children.items) else 0
  }

  function RawSum(items: seq<Json>): nat
    decreases items
  {
    if items == [] then 0 else RawSize(items[0]) + RawSum(items[1..])
  }

  /** A node passes exactly when its whole tree is acceptable, and then the counter has grown by exactly
      the size of the tree. */
  lemma {:induction false} PassesIffAccepted(node: Json, depth: nat)
    requires node.Obj?
    ensures Find(node, depth).problem == None <==> Accepts(node, depth)
    ensures Find(node, depth).problem == None ==> Find(node, depth).count == RawSize(node)
    decreases node
  {
    if depth <= MAX_DEPTH {
      if "all" in node.fields { ChildrenPass(node.fields["all"], depth + 1); }
      else if "any" in node.fields { ChildrenPass(node.fields["any"], depth + 1); }
      else if "not" in node.fields && node.fields["not"].Obj? { PassesIffAccepted(node.fields["not"], depth + 1); }
    }
  }

  lemma {:induction false} ChildrenPass(children: Json, depth: nat)
    ensures FindChildren(children, depth).problem == None <==> AcceptsItems(children, depth)
    ensures FindChildren(children, depth).problem == None ==> FindChildren(children, depth).count == RawSizes(children)
    decreases children
  {
    if children.Arr? { ItemsPass(children.items, depth); }
  }

  lemma {:induction false} ItemsPass(items: seq<Json>, depth: nat)
    ensures FindItems(items, depth).problem == None <==> forall i | 0 <= i < |items| :: Accepts(items[i], depth)
    ensures FindItems(items, depth).problem == None ==> FindItems(items, depth).count == RawSum(items)
    decreases items
  {
    if items != [] {
      if items[0].Obj? { PassesIffAccepted(items[0], depth); }
      ItemsPass(items[1..], depth);
      assert forall i | 0 < i < |items| :: items[i] == items[1..][i - 1];
      assert forall i | 0 <= i < |items| - 1 :: items[1..][i] == items[i + 1];
    }
  }

  // ---------- The two entry points

  /** What json.Unmarshal makes of the bytes as []map[string]any: null entries are nil maps. */
  function RuleObjects(raw: RawMessage): Option<seq<Json>> {
    match raw.parsed
    case Some(Null) => Some([])
    case Some(Arr(items)) => if forall i | 0 <= i < |items| :: items[i].Obj? || items[i].Null? then Some(items) else None
    case _ => None
  }

  ghost predicate RuleAccepted(rule: Json) {
    && rule.Obj? && "conditions" in rule.fields && Accepts(rule.fields["conditions"], 0)
    && RawSize(rule.fields["conditions"]) <= MAX_CONDITIONS_PER_RULE
  }

  ghost predicate FlagRulesAccepted(raw: RawMessage) {
    raw.size == 0 ||
    (&& raw.size <= MAX_RULE_JSON_BYTES && RuleObjects(raw).Some? && |RuleObjects(raw).value| <= MAX_RULES_PER_FLAG
     && forall i | 0 <= i < |RuleObjects(raw).value| :: RuleAccepted(RuleObjects(raw).value[i]))
  }

  method ValidateFlagRules(raw: RawMessage) returns (problem: Option<Problem>)
    ensures problem == None <==> FlagRulesAccepted(raw)
  {
    if raw.size == 0 { return None; }
    if raw.size > MAX_RULE_JSON_BYTES { return Some(TooLarge); }
    var rules := RuleObjects(raw);
    if rules.None? { return Some(NotJson); }
    if |rules.value| > MAX_RULES_PER_FLAG { return Some(TooManyRules); }
    for i := 0 to |rules.value|
      invariant forall k | 0 <= k < i :: RuleAccepted(rules.value[k])
    {
      var rule := rules.value[i];
      if !rule.Obj? || "conditions" !in rule.fields { return Some(MissingConditions); }
      var conditions := rule.fields["conditions"];
      if !conditions.Obj? { return Some(ConditionsNotObject); }
      var found, count := ValidateConditionNode(conditions, 0, 0);
      PassesIffAccepted(conditions, 0);
      if found.Some? { return found; }
      if count > MAX_CONDITIONS_PER_RULE { return Some(TooManyConditions); }
    }
    return None;
  }

  /** json.Unmarshal into map[string]any turns null into a nil map, a node without keys. */
  function SegmentObject(raw: RawMessage): Option<Json> {
    match raw.parsed
    case Some(Null) => Some(Obj(map[]))
    case Some(Obj(fields)) => Some(Obj(fields))
    case _ => None
  }

  ghost predicate SegmentRulesAccepted(raw: RawMessage) {
    raw.size == 0 || (raw.size <= MAX_RULE_JSON_BYTES && SegmentObject(raw).Some? && Accepts(SegmentObject(raw).value, 0))
  }

  method ValidateSegmentRules(raw: RawMessage) returns (problem: Option<Problem>)
    ensures problem == None <==> SegmentRulesAccepted(raw)
  {
    if raw.size == 0 { return None; }
    if raw.size > MAX_RULE_JSON_BYTES { return Some(TooLarge); }
    var node := SegmentObject(raw);
    if node.None? { return Some(NotJson); }
    PassesIffAccepted(node.value, 0);
    var count;
    problem, count := ValidateConditionNode(node.value, 0, 0);
  }
}
