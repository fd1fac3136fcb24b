/** What validation buys the engine: evaluation without warnings, and inputs for which it does not. */
module Validated {
  import opened Prelude
  import opened Json
  import opened Engine
  import opened Codec
  import opened Keys
  import opened Validator
  import opened Reading
  import Cost
  import Segments
  import Text

  ghost predicate Quiet(events: seq<Event>) {
    UnknownOp !in events && MaxConditionDepth !in events
  }

  ghost predicate SegmentsSafe(w: World) {
    Segments.AllFit(w) && forall key | key in w.segments :: KnownOps(w.segments[key].conditions)
  }

  /** A safe tree over safe segments runs without either warning, and exactly as under any larger cap. */
  lemma {:induction false} SafeTreesRunQuietly(w: World, node: ConditionNode, visited: set<string>, depth: nat, cap: nat)
    requires SegmentsSafe(w) && Segments.Fits(w.maxDepth, node, depth) && KnownOps(node) && w.maxDepth <= cap
    ensures Quiet(EvalNode(w, node, visited, depth).events)
    ensures EvalNode(w.(maxDepth := cap), node, visited, depth) == EvalNode(w, node, visited, depth)
    decreases w.segments.Keys - visited, Levels(w, depth), 0
  {
    match FormOf(node)
    case All => SafeListsRunQuietly(w, node.all, visited, depth + 1, cap);
    case Any => SafeListsRunQuietly(w, node.any, visited, depth + 1, cap);
    case Not => SafeTreesRunQuietly(w, node.not.value, visited, depth + 1, cap);
    case Leaf => SafeLeavesRunQuietly(w, node, visited, cap);
  }

  lemma {:induction false} SafeListsRunQuietly(w: World, nodes: seq<ConditionNode>, visited: set<string>, depth: nat, cap: nat)
    requires SegmentsSafe(w) && w.maxDepth <= cap
    requires forall i | 0 <= i < |nodes| :: Segments.Fits(w.maxDepth, nodes[i], depth) && KnownOps(nodes[i])
    ensures Quiet(EvalAll(w, nodes, visited, depth).events) && Quiet(EvalAny(w, nodes, visited, depth).events)
    ensures EvalAll(w.(maxDepth := cap), nodes, visited, depth) == EvalAll(w, nodes, visited, depth)
    ensures EvalAny(w.(maxDepth := cap), nodes, visited, depth) == EvalAny(w, nodes, visited, depth)
    decreases w.segments.Keys - visited, Levels(w, depth), 1 + |nodes|
  {
    if nodes != [] {
      SafeTreesRunQuietly(w, nodes[0], visited, depth, cap);
      SafeListsRunQuietly(w, nodes[1..], visited, depth, cap);
    }
  }

  lemma {:induction false} SafeLeavesRunQuietly(w: World, node: ConditionNode, visited: set<string>, cap: nat)
    requires SegmentsSafe(w) && w.maxDepth <= cap && FormOf(node) == Leaf && KnownOps(node)
    ensures Quiet(EvalLeaf(w, node, visited).events)
    ensures EvalLeaf(w.(maxDepth := cap), node, visited) == EvalLeaf(w, node, visited)
    decreases w.segments.Keys - visited, 0, 1
  {
    var wide := w.(maxDepth := cap);
    match SegmentKey(node)
    case None => KnownOperatorIsQuiet(w, node); assert PlainLeaf(wide, node) == PlainLeaf(w, node);
    case Some(key) =>
      assert EvalLeaf(w, node, visited) == ResolveSegment(w, key, visited);
      assert EvalLeaf(wide, node, visited) == ResolveSegment(wide, key, visited);
      if key !in visited && key in w.segments {
        SafeTreesRunQuietly(w, w.segments[key].conditions, visited + {key}, 0, cap);
      }
  }

  lemma KnownOperatorIsQuiet(w: World, node: ConditionNode)
    requires FormOf(node) == Leaf && KnownOps(node)
    ensures Quiet(PlainLeaf(w, node).events)
    ensures forall cap: nat :: PlainLeaf(w.(maxDepth := cap), node) == PlainLeaf(w, node)
  {
  }

  /** The engine's segments are the stored ones, each accepted when it was written and harmless. */
  ghost predicate SegmentsWereAccepted(w: World, stored: map<string, RawMessage>) {
    forall key | key in w.segments ::
      && key in stored && SegmentRulesAccepted(stored[key])
      && (stored[key].parsed.Some? ==> Harmless(stored[key].parsed.value, 0))
      && StoredTree(stored[key]) == Some(w.segments[key].conditions)
  }

  lemma AcceptedSegmentsAreSafe(w: World, stored: map<string, RawMessage>)
    requires SegmentsWereAccepted(w, stored) && w.maxDepth == MAX_DEPTH
    ensures SegmentsSafe(w)
  {
    forall key | key in w.segments
      ensures Segments.Fits(w.maxDepth, w.segments[key].conditions, 0) && KnownOps(w.segments[key].conditions)
    {
      var raw := stored[key];
      if raw.size > 0 {
        assert raw.parsed.value != Null;
        AcceptedTreeIsSafeIffHarmless(raw.parsed.value, 0);
      }
    }
  }

  /** The same at the level of a rule, whose `conditions` can be spelled several ways too. */
  ghost predicate RuleHarmless(rule: Json) {
    if rule.Obj? && "conditions" in rule.fields && Exact(rule.fields, "conditions") then Harmless(rule.fields["conditions"], 0)
    else DecodeRule(rule).Some? ==> Safe(DecodeRule(rule).value.conditions, 0)
  }

  lemma RuleParts(rule: Json)
    requires rule.Obj? && DecodeRule(rule).Some?
    ensures Field(rule.fields, "conditions", EMPTY_NODE, IntoNode) == Some(DecodeRule(rule).value.conditions)
  {
  }

  lemma ExactConditions(rule: Json)
    ensures rule.Obj? && "conditions" in rule.fields && Exact(rule.fields, "conditions") && DecodeRule(rule).Some? ==>
      DecodeNode(rule.fields["conditions"]) == Some(DecodeRule(rule).value.conditions)
  {
    if rule.Obj? && "conditions" in rule.fields && Exact(rule.fields, "conditions") && DecodeRule(rule).Some? {
      RuleParts(rule);
      ExactField(rule.fields, "conditions", EMPTY_NODE, IntoNode);
    }
  }

  lemma AcceptedRuleIsSafeIffHarmless(rule: Json)
    ensures RuleAccepted(rule) && DecodeRule(rule).Some? ==> (Safe(DecodeRule(rule).value.conditions, 0) <==> RuleHarmless(rule))
    ensures RuleAccepted(rule) && DecodeRule(rule).Some? && Exact(rule.fields, "conditions") && PlainTree(rule.fields["conditions"]) ==>
      RuleHarmless(rule) && Cost.Size(DecodeRule(rule).value.conditions) <= MAX_CONDITIONS_PER_RULE
  {
    if RuleAccepted(rule) && DecodeRule(rule).Some? && Exact(rule.fields, "conditions") {
      var conditions := rule.fields["conditions"];
      ExactConditions(rule);
      AcceptedTreeIsSafeIffHarmless(conditions, 0);
      if PlainTree(conditions) {
        PlainIsHarmless(conditions, 0);
        PlainTreeHasCountedSize(conditions, 0);
      }
    }
  }

  /** The stored rules were accepted when they were written, are harmless, and decode to these. */
  ghost predicate RulesWereAccepted(raw: RawMessage, rules: seq<Rule>) {
    && raw.size > 0 && FlagRulesAccepted(raw) && DecodeRules(raw.parsed.value) == Some(rules)
    && forall i | 0 <= i < |RuleObjects(raw).value| :: RuleHarmless(RuleObjects(raw).value[i])
  }

  lemma RuleAt(raw: RawMessage, rules: seq<Rule>, i: nat)
    ensures RulesWereAccepted(raw, rules) && i < |rules| ==> Safe(rules[i].conditions, 0)
  {
    if RulesWereAccepted(raw, rules) && i < |rules| && raw.parsed.value.Arr? {
      FreshRules(raw.parsed.value.items);
      AcceptedRuleIsSafeIffHarmless(RuleObjects(raw).value[i]);
    }
  }

  /** Evaluation raises neither warning, and is the same under the larger depth cap. */
  ghost predicate RunsQuietly(w: World, node: ConditionNode, cap: nat) {
    && Quiet(EvalNode(w, node, {}, 0).events)
    && EvalNode(w.(maxDepth := cap), node, {}, 0) == EvalNode(w, node, {}, 0)
  }

  /** The main result: over accepted and harmless segments, accepted rules that are harmless never make the
      engine report an unknown operator or hit its depth guard, and the guard could be removed without
      changing any answer. */
  lemma ValidatedRulesRunQuietly(w: World, raw: RawMessage, stored: map<string, RawMessage>, rules: seq<Rule>, i: nat, cap: nat)
    ensures w.maxDepth == MAX_DEPTH <= cap && SegmentsWereAccepted(w, stored) && RulesWereAccepted(raw, rules) && i < |rules| ==>
      RunsQuietly(w, rules[i].conditions, cap)
  {
    if w.maxDepth == MAX_DEPTH <= cap && SegmentsWereAccepted(w, stored) && RulesWereAccepted(raw, rules) && i < |rules| {
      RuleAt(raw, rules, i);
      AcceptedSegmentsAreSafe(w, stored);
      SafeTreesRunQuietly(w, rules[i].conditions, {}, 0, cap);
    }
  }

  // ---------- Accepted, and not quiet

  const UNKNOWN_LEAF := Obj(map["attribute" := Str("plan"), "op" := Str("like")])

  const UNKNOWN_NODE := EMPTY_NODE.(attribute := Some("plan"), op := Some("like"))

  /** A leaf's two members, beside nothing or an empty `all`. */
  ghost predicate LeafMembers(raw: Json, attribute: string, op: string) {
    && raw.Obj? && (forall k | k in raw.fields :: k == "attribute" || k == "op" || (k == "all" && raw.fields[k] == Arr([])))
    && "attribute" in raw.fields && raw.fields["attribute"] == Str(attribute)
    && "op" in raw.fields && raw.fields["op"] == Str(op)
  }

  lemma LeafNames(raw: Json, attribute: string, op: string)
    requires LeafMembers(raw, attribute, op)
    ensures Exact(raw.fields, "attribute") && Exact(raw.fields, "op") && Exact(raw.fields, "all")
    ensures Unspelled(raw.fields, "value") && Unspelled(raw.fields, "any") && Unspelled(raw.fields, "not")
  {
    forall k | k in raw.fields ensures !SameName(k, "any") && !SameName(k, "not") {
      if |k| == 3 { assert k == "all" && FoldChar(k[1]) != FoldChar("any"[1]) && FoldChar(k[0]) != FoldChar("not"[0]); }
    }
  }

  lemma TextPtr(raw: Json, name: string, text: string)
    requires raw.Obj? && Exact(raw.fields, name) && name in raw.fields && raw.fields[name] == Str(text)
    ensures Field(raw.fields, name, None, IntoStringPtr) == Some(Some(text))
  {
    ExactField(raw.fields, name, None, IntoStringPtr);
  }

  lemma NoValue(raw: Json, name: string)
    requires raw.Obj? && Unspelled(raw.fields, name)
    ensures Field(raw.fields, name, Null, IntoAny) == Some(Null)
  {
    assert SameName(name, name);
    ExactField(raw.fields, name, Null, IntoAny);
  }

  lemma FewNodes(raw: Json, name: string)
    requires raw.Obj? && Exact(raw.fields, name) && (name in raw.fields ==> raw.fields[name] == Arr([]))
    ensures FillNodes(raw, Spellings(raw.fields, name), []) == Some([])
  {
    ExactNodes(raw, name);
  }

  lemma LeafFieldsDecode(raw: Json, attribute: string, op: string)
    requires LeafMembers(raw, attribute, op)
    ensures Field(raw.fields, "attribute", None, IntoStringPtr) == Some(Some(attribute))
    ensures Field(raw.fields, "op", None, IntoStringPtr) == Some(Some(op))
    ensures Field(raw.fields, "value", Null, IntoAny) == Some(Null)
  {
    LeafNames(raw, attribute, op);
    TextPtr(raw, "attribute", attribute);
    TextPtr(raw, "op", op);
    NoValue(raw, "value");
  }

  lemma LeafHasNoComposite(raw: Json, attribute: string, op: string)
    requires LeafMembers(raw, attribute, op)
    ensures FillNodes(raw, Spellings(raw.fields, "all"), []) == Some([])
    ensures FillNodes(raw, Spellings(raw.fields, "any"), []) == Some([])
    ensures FillNodePtr(raw, Spellings(raw.fields, "not"), None) == Some(None)
  {
    LeafNames(raw, attribute, op);
    FewNodes(raw, "all");
    NoNodes(raw, "any");
    NoNode(raw, "not");
  }

  lemma LeafDecodes(raw: Json, attribute: string, op: string)
    requires LeafMembers(raw, attribute, op)
    ensures DecodeNode(raw) == Some(EMPTY_NODE.(attribute := Some(attribute), op := Some(op)))
  {
    LeafFieldsDecode(raw, attribute, op);
    LeafHasNoComposite(raw, attribute, op);
    NodeFrom(raw, EMPTY_NODE.(attribute := Some(attribute), op := Some(op)));
  }

  lemma UnknownNodeSpeaksUp(w: World, visited: set<string>, depth: nat)
    requires depth <= w.maxDepth
    ensures EvalNode(w, UNKNOWN_NODE, visited, depth) == Run(false, [UnknownOp], 1)
  {
    assert Text.TrimLeft("like") == "like" && Text.TrimSpace("like") == "like";
    assert PlainLeaf(w, UNKNOWN_NODE) == Run(false, [UnknownOp], 0);
    assert EvalLeaf(w, UNKNOWN_NODE, visited) == PlainLeaf(w, UNKNOWN_NODE);
  }

  lemma UnknownAllSpeaksUp(w: World, node: ConditionNode)
    requires w.maxDepth >= 1 && node.all == [UNKNOWN_NODE]
    ensures EvalNode(w, node, {}, 0).events == [UnknownOp]
  {
    UnknownNodeSpeaksUp(w, {}, 1);
    assert EvalAll(w, [UNKNOWN_NODE], {}, 1) == Run(false, [UnknownOp], 1);
  }

  /** An empty `all` hides the rest of the node from the validator only. */
  const HOLLOW := Obj(map["all" := Arr([]), "attribute" := Str("plan"), "op" := Str("like")])

  lemma HollowNodeSlipsThrough(w: World)
    ensures Accepts(HOLLOW, 0) && DecodeNode(HOLLOW) == Some(UNKNOWN_NODE)
    ensures EvalNode(w, UNKNOWN_NODE, {}, 0).events == [UnknownOp]
  {
    UnknownNodeSpeaksUp(w, {}, 0);
    LeafDecodes(HOLLOW, "plan", "like");
    assert AcceptsItems(HOLLOW.fields["all"], 1);
  }

  /** A key that differs from `all` in case is a composite for the engine only. */
  const FOLDED := Obj(map["ALL" := Arr([UNKNOWN_LEAF]), "attribute" := Str("plan"), "op" := Str("eq")])

  lemma FoldedNames()
    ensures var fields := FOLDED.fields;
      Exact(fields, "attribute") && Exact(fields, "op") && Unspelled(fields, "value")
  {
  }

  lemma FoldedHasNoOther()
    ensures Unspelled(FOLDED.fields, "any") && Unspelled(FOLDED.fields, "not")
  {
    forall k | k in FOLDED.fields ensures !SameName(k, "any") && !SameName(k, "not") {
      if |k| == 3 { assert k == "ALL" && FoldChar(k[1]) != FoldChar("any"[1]) && FoldChar(k[0]) != FoldChar("not"[0]); }
    }
  }

  lemma UnknownListDecodes()
    ensures IntoNodes([], Arr([UNKNOWN_LEAF])) == Some([UNKNOWN_NODE])
  {
    LeafDecodes(UNKNOWN_LEAF, "plan", "like");
    OneItem(UNKNOWN_LEAF, UNKNOWN_NODE);
  }

  lemma OneItem(raw: Json, node: ConditionNode)
    requires DecodeNode(raw) == Some(node)
    ensures IntoNodes([], Arr([raw])) == Some([node])
  {
    assert [raw][1..] == [] && IntoItems([], []) == Some([]);
    assert IntoItems([], [raw]) == Some([node] + []);
    assert [node] + [] == [node];
  }

  lemma FillNodesOnce(raw: Json, key: string, nodes: seq<ConditionNode>)
    requires raw.Obj? && key in raw.fields && IntoNodes([], raw.fields[key]) == Some(nodes)
    ensures FillNodes(raw, [key], []) == Some(nodes)
  {
    assert [key][1..] == [];
  }

  lemma FoldedAll()
    ensures FillNodes(FOLDED, Spellings(FOLDED.fields, "all"), []) == Some([UNKNOWN_NODE])
  {
    assert SameName("ALL", "all");
    assert forall k | k in FOLDED.fields && |k| == 3 :: k == "ALL";
    SpelledOnce(FOLDED.fields, "all", "ALL");
    UnknownListDecodes();
    FillNodesOnce(FOLDED, "ALL", [UNKNOWN_NODE]);
  }

  const FOLDED_NODE := EMPTY_NODE.(attribute := Some("plan"), op := Some("eq"), all := [UNKNOWN_NODE])

  lemma FoldedDecodes()
    ensures DecodeNode(FOLDED) == Some(FOLDED_NODE)
  {
    FoldedNames();
    FoldedHasNoOther();
    TextPtr(FOLDED, "attribute", "plan");
    TextPtr(FOLDED, "op", "eq");
    NoValue(FOLDED, "value");
    FoldedAll();
    NoNodes(FOLDED, "any");
    NoNode(FOLDED, "not");
    NodeFrom(FOLDED, FOLDED_NODE);
  }

  lemma FoldedIsAccepted()
    ensures Accepts(FOLDED, 0)
  {
    assert "all" !in FOLDED.fields && "any" !in FOLDED.fields && "not" !in FOLDED.fields;
    assert AttributeName("plan") && "eq" in VALID_OPERATORS;
  }

  lemma FoldedNodeSlipsThrough(w: World)
    requires w.maxDepth >= 1
    ensures Accepts(FOLDED, 0) && DecodeNode(FOLDED) == Some(FOLDED_NODE)
    ensures EvalNode(w, FOLDED_NODE, {}, 0).events == [UnknownOp]
  {
    FoldedIsAccepted();
    FoldedDecodes();
    UnknownAllSpeaksUp(w, FOLDED_NODE);
  }

  // ---------- Accepted, and quiet

  const PLAIN_LEAF := Obj(map["attribute" := Str("plan"), "op" := Str("eq")])

  const PLAIN_RULE := Obj(map["conditions" := PLAIN_LEAF])

  lemma PlainRuleConditions()
    ensures Exact(PLAIN_RULE.fields, "conditions")
    ensures Field(PLAIN_RULE.fields, "conditions", EMPTY_NODE, IntoNode) == DecodeNode(PLAIN_LEAF)
  {
    ExactField(PLAIN_RULE.fields, "conditions", EMPTY_NODE, IntoNode);
  }

  lemma PlainRuleHasNoOther()
    ensures Unspelled(PLAIN_RULE.fields, "rollout") && Unspelled(PLAIN_RULE.fields, "value")
  {
    assert forall k | k in PLAIN_RULE.fields :: |k| == 10;
  }

  lemma NoRollout(raw: Json, name: string)
    requires raw.Obj? && Unspelled(raw.fields, name)
    ensures Field(raw.fields, name, None, IntoRolloutPtr) == Some(None)
  {
    assert SameName(name, name);
    ExactField(raw.fields, name, None, IntoRolloutPtr);
  }

  lemma PlainRuleDecodes()
    ensures DecodeRule(PLAIN_RULE).Some?
  {
    LeafDecodes(PLAIN_LEAF, "plan", "eq");
    PlainRuleConditions();
    PlainRuleHasNoOther();
    NoRollout(PLAIN_RULE, "rollout");
    NoValue(PLAIN_RULE, "value");
    RuleFrom(PLAIN_RULE, Rule(DecodeNode(PLAIN_LEAF).value, None, Null));
  }

  lemma PlainLeafIsAccepted()
    ensures Accepts(PLAIN_LEAF, 0) && PlainTree(PLAIN_LEAF)
  {
    assert AttributeName("plan") && "eq" in VALID_OPERATORS;
    LeafNames(PLAIN_LEAF, "plan", "eq");
    assert SameName("all", "all");
  }

  lemma PlainRuleIsHarmless()
    ensures RuleAccepted(PLAIN_RULE) && RuleHarmless(PLAIN_RULE)
  {
    PlainLeafIsAccepted();
    PlainIsHarmless(PLAIN_LEAF, 0);
    PlainRuleConditions();
    assert RawSize(PLAIN_LEAF) == 1;
  }

  lemma OneRuleDecodes(rule: Json)
    requires DecodeRule(rule).Some?
    ensures DecodeRules(Arr([rule])).Some?
  {
    assert [rule][1..] == [] && IntoRuleItems([], []) == Some([]);
  }

  lemma OneRuleIsAccepted(raw: RawMessage, rule: Json)
    requires raw == RawMessage(64, Some(Arr([rule]))) && RuleAccepted(rule)
    ensures RuleObjects(raw) == Some([rule]) && FlagRulesAccepted(raw)
  {
  }

  /** The hypotheses of the main result can be met. */
  lemma PlainRuleIsAcceptedAndHarmless(raw: RawMessage)
    requires raw == RawMessage(64, Some(Arr([PLAIN_RULE])))
    ensures FlagRulesAccepted(raw) && DecodeRules(raw.parsed.value).Some?
    ensures RuleObjects(raw) == Some([PLAIN_RULE]) && RuleHarmless(PLAIN_RULE)
  {
    PlainRuleIsHarmless();
    PlainRuleDecodes();
    OneRuleDecodes(PLAIN_RULE);
    OneRuleIsAccepted(raw, PLAIN_RULE);
  }
}
