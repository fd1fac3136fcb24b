/** JSON decoding and encoding of rules and segments, with the struct tags of `pkg/engine/types.go`. Decoding
    fills a value that is already there. A member names a field exactly or but for case; when several do, they
    fill the field one after the other. Null leaves a struct, string or number alone and clears pointers,
    slices and interfaces; a member of the wrong kind is an error. `omitempty` leaves out nil pointers, nil
    interfaces, empty slices and empty strings. */
module Codec {
  import opened Prelude
  import opened Json
  import opened Engine
  import opened Keys

  type int64 = n: int | -0x8000_0000_0000_0000 <= n < 0x8000_0000_0000_0000

  /** A JSON document and its column: how many bytes it has and what they parse to, if they parse. Of two equal
      keys both a Go map and a JSONB column keep the last, so what is validated is what is stored. */
  datatype RawMessage = RawMessage(size: nat, parsed: Option<Json>)

  datatype RolloutConfig = RolloutConfig(percentage: int64, seed: string)

  datatype Rule = Rule(conditions: ConditionNode, rollout: Option<RolloutConfig>, value: Json)

  // ---------- Decoding

  /** `*string`. */
  function IntoStringPtr(was: Option<string>, j: Json): Option<Option<string>> {
    match j
    case Null => Some(None)
    case Str(s) => Some(Some(s))
    case _ => None
  }

  function IntoString(was: string, j: Json): Option<string> {
    match j
    case Null => Some(was)
    case Str(s) => Some(s)
    case _ => None
  }

  function IntoBool(was: bool, j: Json): Option<bool> {
    match j
    case Null => Some(was)
    case Bool(b) => Some(b)
    case _ => None
  }

  function IntoInt(was: int64, j: Json): Option<int64> {
    match j
    case Null => Some(was)
    case Num(r) =>
      var n := r.Floor;
      if n as real == r && -0x8000_0000_0000_0000 <= n < 0x8000_0000_0000_0000 then Some(n) else None
    case _ => None
  }

  function IntoAny(was: Json, j: Json): Option<Json> {
    Some(j)
  }

  function Fill<T>(fields: map<string, Json>, keys: seq<string>, was: T, into: (T, Json) -> Option<T>): Option<T>
    requires forall k | k in keys :: k in fields
  {
    if keys == [] then Some(was)
    else
      match into(was, fields[keys[0]])
      case None => None
      case Some(v) => Fill(fields, keys[1..], v, into)
  }

  /** The field after every member that names it. */
  function Field<T>(fields: map<string, Json>, name: string, was: T, into: (T, Json) -> Option<T>): Option<T> {
    Fill(fields, Spellings(fields, name), was, into)
  }

  function IntoNode(was: ConditionNode, j: Json): Option<ConditionNode>
    decreases j, 1
  {
    match j
    case Null => Some(was)
    case Obj(fields) =>
      var attribute := Field(fields, "attribute", was.attribute, IntoStringPtr);
      var op := Field(fields, "op", was.op, IntoStringPtr);
      var value := Field(fields, "value", was.value, IntoAny);
      var all := FillNodes(j, Spellings(fields, "all"), was.all);
      var any := FillNodes(j, Spellings(fields, "any"), was.any);
      var not := FillNodePtr(j, Spellings(fields, "not"), was.not);
      if attribute.Some? && op.Some? && value.Some? && all.Some? && any.Some? && not.Some?
      then Some(ConditionNode(attribute.value, op.value, value.value, all.value, any.value, not.value))
      else None
    case _ => None
  }

  function FillNodes(j: Json, keys: seq<string>, was: seq<ConditionNode>): Option<seq<ConditionNode>>
    requires j.Obj? && forall k | k in keys :: k in j.fields
    decreases j, 0, |keys|
  {
    if keys == [] then Some(was)
    else
      match IntoNodes(was, j.fields[keys[0]])
      case None => None
      case Some(nodes) => FillNodes(j, keys[1..], nodes)
  }

  function FillNodePtr(j: Json, keys: seq<string>, was: Option<ConditionNode>): Option<Option<ConditionNode>>
    requires j.Obj? && forall k | k in keys :: k in j.fields
    decreases j, 0, |keys|
  {
    if keys == [] then Some(was)
    else if j.fields[keys[0]].Null? then FillNodePtr(j, keys[1..], None)
    else
      match IntoNode(if was.Some? then was.value else EMPTY_NODE, j.fields[keys[0]])
      case None => None
      case Some(node) => FillNodePtr(j, keys[1..], Some(node))
  }

  function IntoNodes(was: seq<ConditionNode>, j: Json): Option<seq<ConditionNode>>
    decreases j
  {
    match j
    case Null => Some([])
    case Arr(items) => IntoItems(was, items)
    case _ => None
  }

  /** The elements already there are filled again. */
  function IntoItems(was: seq<ConditionNode>, items: seq<Json>): Option<seq<ConditionNode>>
    decreases items
  {
    if items == [] then Some([])
    else
      var head := IntoNode(if was == [] then EMPTY_NODE else was[0], items[0]);
      var tail := IntoItems(if was == [] then [] else was[1..], items[1..]);
      if head.Some? && tail.Some? then Some([head.value] + tail.value) else None
  }

  function DecodeNode(j: Json): Option<ConditionNode> {
    IntoNode(EMPTY_NODE, j)
  }

  function IntoRollout(was: RolloutConfig, j: Json): Option<RolloutConfig> {
    match j
    case Null => Some(was)
    case Obj(fields) =>
      var percentage := Field(fields, "percentage", was.percentage, IntoInt);
      var seed := Field(fields, "seed", was.seed, IntoString);
      if percentage.Some? && seed.Some? then Some(RolloutConfig(percentage.value, seed.value)) else None
    case _ => None
  }

  /** `*RolloutConfig`. */
  function IntoRolloutPtr(was: Option<RolloutConfig>, j: Json): Option<Option<RolloutConfig>> {
    if j.Null? then Some(None)
    else
      match IntoRollout(if was.Some? then was.value else RolloutConfig(0, ""), j)
      case None => None
      case Some(r) => Some(Some(r))
  }

  const EMPTY_RULE := Rule(EMPTY_NODE, None, Null)

  function IntoRule(was: Rule, j: Json): Option<Rule> {
    match j
    case Null => Some(was)
    case Obj(fields) =>
      var conditions := Field(fields, "conditions", was.conditions, IntoNode);
      var rollout := Field(fields, "rollout", was.rollout, IntoRolloutPtr);
      var value := Field(fields, "value", was.value, IntoAny);
      if conditions.Some? && rollout.Some? && value.Some?
      then Some(Rule(conditions.value, rollout.value, value.value)) else None
    case _ => None
  }

  function IntoRuleItems(was: seq<Rule>, items: seq<Json>): (rules: Option<seq<Rule>>)
    ensures rules.Some? ==> |rules.value| == |items|
  {
    if items == [] then Some([])
    else
      var head := IntoRule(if was == [] then EMPTY_RULE else was[0], items[0]);
      var tail := IntoRuleItems(if was == [] then [] else was[1..], items[1..]);
      if head.Some? && tail.Some? then Some([head.value] + tail.value) else None
  }

  /** `[]Rule`. */
  function IntoRules(was: seq<Rule>, j: Json): Option<seq<Rule>> {
    match j
    case Null => Some([])
    case Arr(items) => IntoRuleItems(was, items)
    case _ => None
  }

  function DecodeRule(j: Json): Option<Rule> {
    IntoRule(EMPTY_RULE, j)
  }

  function DecodeRules(j: Json): Option<seq<Rule>> {
    IntoRules([], j)
  }

  lemma {:induction false} FreshRules(items: seq<Json>)
    requires IntoRuleItems([], items).Some?
    ensures var rules := IntoRuleItems([], items).value;
      |rules| == |items| && forall i | 0 <= i < |items| :: DecodeRule(items[i]) == Some(rules[i])
  {
    if items != [] {
      FreshRules(items[1..]);
      assert forall i | 0 < i < |items| :: items[i] == items[1..][i - 1];
    }
  }

  /** The engine's copy of a stored segment tree; empty bytes leave the zero node. */
  function StoredTree(raw: RawMessage): Option<ConditionNode> {
    if raw.size == 0 then Some(EMPTY_NODE)
    else if raw.parsed.None? then None
    else DecodeNode(raw.parsed.value)
  }

  function StoredRules(raw: RawMessage): Option<seq<Rule>> {
    if raw.size == 0 then Some([])
    else if raw.parsed.None? then None
    else DecodeRules(raw.parsed.value)
  }

  // ---------- Encoding

  // A member that encodes to None is left out of the object.

  function NonNil(value: Json): Option<Json> {
    if value == Null then None else Some(value)
  }

  function NonEmpty(s: string): Option<Json> {
    if s == "" then None else Some(Str(s))
  }

  function StringPtr(s: Option<string>): Option<Json> {
    if s.Some? then Some(Str(s.value)) else None
  }

  const NODE_MEMBERS := {"attribute", "op", "value", "all", "any", "not"}

  function NodeMember(node: ConditionNode, name: string): Option<Json>
    decreases node, 0
  {
    match name
    case "attribute" => StringPtr(node.attribute)
    case "op" => StringPtr(node.op)
    case "value" => NonNil(node.value)
    case "all" => if node.all == [] then None else Some(Arr(EncodeNodes(node.all)))
    case "any" => if node.any == [] then None else Some(Arr(EncodeNodes(node.any)))
    case "not" => if node.not.Some? then Some(EncodeNode(node.not.value)) else None
    case _ => None
  }

  function EncodeNode(node: ConditionNode): Json
    decreases node, 1
  {
    Obj(map name | name in NODE_MEMBERS && NodeMember(node, name).Some? :: NodeMember(node, name).value)
  }

  function EncodeNodes(nodes: seq<ConditionNode>): seq<Json>
    decreases nodes
  {
    if nodes == [] then [] else [EncodeNode(nodes[0])] + EncodeNodes(nodes[1..])
  }

  const ROLLOUT_MEMBERS := {"percentage", "seed"}

  function RolloutMember(r: RolloutConfig, name: string): Option<Json> {
    match name
    case "percentage" => Some(Num(r.percentage as real))
    case "seed" => NonEmpty(r.seed)
    case _ => None
  }

  function EncodeRollout(r: RolloutConfig): Json {
    Obj(map name | name in ROLLOUT_MEMBERS && RolloutMember(r, name).Some? :: RolloutMember(r, name).value)
  }

  const RULE_MEMBERS := {"conditions", "rollout", "value"}

  function RuleMember(rule: Rule, name: string): Option<Json> {
    match name
    case "conditions" => Some(EncodeNode(rule.conditions))
    case "rollout" => if rule.rollout.Some? then Some(EncodeRollout(rule.rollout.value)) else None
    case "value" => NonNil(rule.value)
    case _ => None
  }

  function EncodeRule(rule: Rule): Json {
    Obj(map name | name in RULE_MEMBERS && RuleMember(rule, name).Some? :: RuleMember(rule, name).value)
  }

  function EncodeRules(rules: seq<Rule>): seq<Json> {
    if rules == [] then [] else [EncodeRule(rules[0])] + EncodeRules(rules[1..])
  }

  // ---------- Round trips

  /** At most one key names the field, and that one exactly. */
  predicate Exact(fields: map<string, Json>, name: string) {
    forall k | k in fields && SameName(k, name) :: k == name
  }

  lemma ExactField<T>(fields: map<string, Json>, name: string, was: T, into: (T, Json) -> Option<T>)
    requires Exact(fields, name)
    ensures Field(fields, name, was, into) == if name in fields then into(was, fields[name]) else Some(was)
  {
    SpelledExactly(fields, name);
    if name in fields { FillOnce(fields, name, was, into); }
  }

  lemma FillOnce<T>(fields: map<string, Json>, name: string, was: T, into: (T, Json) -> Option<T>)
    requires name in fields
    ensures Fill(fields, [name], was, into) == into(was, fields[name])
  {
    assert [name][1..] == [];
    match into(was, fields[name])
    case None =>
    case Some(v) => assert Fill(fields, [], v, into) == Some(v);
  }

  lemma ExactNodes(j: Json, name: string)
    requires j.Obj? && Exact(j.fields, name)
    ensures FillNodes(j, Spellings(j.fields, name), []) == if name in j.fields then IntoNodes([], j.fields[name]) else Some([])
  {
    SpelledExactly(j.fields, name);
    if name in j.fields { assert [name][1..] == []; }
  }

  lemma ExactNodePtr(j: Json, name: string)
    requires j.Obj? && Exact(j.fields, name) && name in j.fields && !j.fields[name].Null?
    ensures FillNodePtr(j, Spellings(j.fields, name), None)
         == match DecodeNode(j.fields[name]) case None => None case Some(node) => Some(Some(node))
  {
    SpelledExactly(j.fields, name);
    assert [name][1..] == [];
  }

  lemma DistinctNodeNames(a: string, b: string)
    requires a in NODE_MEMBERS && b in NODE_MEMBERS && SameName(a, b)
    ensures a == b
  {
    assert FoldChar(a[0]) == FoldChar(b[0]) && FoldChar(a[1]) == FoldChar(b[1]);
  }

  lemma NodeFieldsAreExact(node: ConditionNode, name: string)
    requires name in NODE_MEMBERS
    ensures Exact(EncodeNode(node).fields, name)
    ensures name in EncodeNode(node).fields <==> NodeMember(node, name).Some?
    ensures name in EncodeNode(node).fields ==> EncodeNode(node).fields[name] == NodeMember(node, name).value
  {
    forall k | k in EncodeNode(node).fields && SameName(k, name) ensures k == name { DistinctNodeNames(k, name); }
  }

  lemma NodeMembers(node: ConditionNode)
    ensures NodeMember(node, "attribute") == StringPtr(node.attribute) && NodeMember(node, "op") == StringPtr(node.op)
    ensures NodeMember(node, "value") == NonNil(node.value)
    ensures NodeMember(node, "all") == if node.all == [] then None else Some(Arr(EncodeNodes(node.all)))
    ensures NodeMember(node, "any") == if node.any == [] then None else Some(Arr(EncodeNodes(node.any)))
    ensures NodeMember(node, "not") == if node.not.Some? then Some(EncodeNode(node.not.value)) else None
  {
  }

  lemma NodeField<T>(node: ConditionNode, name: string, was: T, into: (T, Json) -> Option<T>)
    requires name in NODE_MEMBERS
    ensures Field(EncodeNode(node).fields, name, was, into)
         == match NodeMember(node, name) case None => Some(was) case Some(j) => into(was, j)
  {
    NodeFieldsAreExact(node, name);
    ExactField(EncodeNode(node).fields, name, was, into);
  }

  lemma NodePtrFieldRoundTrip(node: ConditionNode, name: string, p: Option<string>)
    requires name in NODE_MEMBERS && NodeMember(node, name) == StringPtr(p)
    ensures Field(EncodeNode(node).fields, name, None, IntoStringPtr) == Some(p)
  {
    NodeField(node, name, None, IntoStringPtr);
  }

  lemma NodeTextsRoundTrip(node: ConditionNode)
    ensures var fields := EncodeNode(node).fields;
      && Field(fields, "attribute", None, IntoStringPtr) == Some(node.attribute)
      && Field(fields, "op", None, IntoStringPtr) == Some(node.op)
  {
    NodeMembers(node);
    NodePtrFieldRoundTrip(node, "attribute", node.attribute);
    NodePtrFieldRoundTrip(node, "op", node.op);
  }

  lemma NodeValueRoundTrip(node: ConditionNode)
    ensures Field(EncodeNode(node).fields, "value", Null, IntoAny) == Some(node.value)
  {
    NodeMembers(node);
    NodeField(node, "value", Null, IntoAny);
  }

  lemma NodeFrom(raw: Json, node: ConditionNode)
    requires raw.Obj?
    requires Field(raw.fields, "attribute", None, IntoStringPtr) == Some(node.attribute)
    requires Field(raw.fields, "op", None, IntoStringPtr) == Some(node.op)
    requires Field(raw.fields, "value", Null, IntoAny) == Some(node.value)
    requires FillNodes(raw, Spellings(raw.fields, "all"), []) == Some(node.all)
    requires FillNodes(raw, Spellings(raw.fields, "any"), []) == Some(node.any)
    requires FillNodePtr(raw, Spellings(raw.fields, "not"), None) == Some(node.not)
    ensures DecodeNode(raw) == Some(node)
  {
  }

  lemma {:induction false} NodeRoundTrip(node: ConditionNode)
    ensures DecodeNode(EncodeNode(node)) == Some(node)
    decreases node, 2
  {
    NodeTextsRoundTrip(node);
    NodeValueRoundTrip(node);
    NodeListsRoundTrip(node);
    NodePtrRoundTrip(node);
    NodeFrom(EncodeNode(node), node);
  }

  lemma {:induction false} NodeListRoundTrip(node: ConditionNode, name: string, nodes: seq<ConditionNode>)
    requires nodes == node.all || nodes == node.any
    requires name in NODE_MEMBERS && NodeMember(node, name) == if nodes == [] then None else Some(Arr(EncodeNodes(nodes)))
    ensures FillNodes(EncodeNode(node), Spellings(EncodeNode(node).fields, name), []) == Some(nodes)
    decreases node, 0
  {
    NodesRoundTrip(nodes);
    NodeFieldsAreExact(node, name);
    ExactNodes(EncodeNode(node), name);
  }

  lemma {:induction false} NodeListsRoundTrip(node: ConditionNode)
    ensures var j := EncodeNode(node);
      && FillNodes(j, Spellings(j.fields, "all"), []) == Some(node.all)
      && FillNodes(j, Spellings(j.fields, "any"), []) == Some(node.any)
    decreases node, 1
  {
    NodeMembers(node);
    NodeListRoundTrip(node, "all", node.all);
    NodeListRoundTrip(node, "any", node.any);
  }

  lemma {:induction false} NodePtrRoundTrip(node: ConditionNode)
    ensures var j := EncodeNode(node); FillNodePtr(j, Spellings(j.fields, "not"), None) == Some(node.not)
    decreases node, 0
  {
    var j := EncodeNode(node);
    NodeMembers(node);
    NodeFieldsAreExact(node, "not");
    if node.not.Some? {
      NodeRoundTrip(node.not.value);
      ExactNodePtr(j, "not");
    } else {
      SpelledExactly(j.fields, "not");
    }
  }

  lemma {:induction false} NodesRoundTrip(nodes: seq<ConditionNode>)
    ensures IntoItems([], EncodeNodes(nodes)) == Some(nodes)
    decreases nodes
  {
    if nodes != [] {
      NodeRoundTrip(nodes[0]);
      NodesRoundTrip(nodes[1..]);
      var items := EncodeNodes(nodes);
      assert items[1..] == EncodeNodes(nodes[1..]) && items[0] == EncodeNode(nodes[0]);
      assert [nodes[0]] + nodes[1..] == nodes;
    }
  }

  lemma IntRoundTrip(was: int64, n: int64)
    ensures IntoInt(was, Num(n as real)) == Some(n)
  {
  }

  lemma PercentageRoundTrip(r: RolloutConfig)
    ensures Field(EncodeRollout(r).fields, "percentage", 0, IntoInt) == Some(r.percentage)
  {
    var fields := EncodeRollout(r).fields;
    assert "percentage" in ROLLOUT_MEMBERS && RolloutMember(r, "percentage") == Some(Num(r.percentage as real));
    ExactField(fields, "percentage", 0, IntoInt);
    IntRoundTrip(0, r.percentage);
  }

  lemma SeedRoundTrip(r: RolloutConfig)
    ensures Field(EncodeRollout(r).fields, "seed", "", IntoString) == Some(r.seed)
  {
    var fields := EncodeRollout(r).fields;
    assert "seed" in ROLLOUT_MEMBERS && RolloutMember(r, "seed") == NonEmpty(r.seed);
    ExactField(fields, "seed", "", IntoString);
  }

  lemma RolloutRoundTrip(r: RolloutConfig)
    ensures IntoRolloutPtr(None, EncodeRollout(r)) == Some(Some(r))
  {
    PercentageRoundTrip(r);
    SeedRoundTrip(r);
  }

  lemma RuleFieldsAreExact(rule: Rule, name: string)
    requires name in RULE_MEMBERS
    ensures Exact(EncodeRule(rule).fields, name)
    ensures name in EncodeRule(rule).fields <==> RuleMember(rule, name).Some?
    ensures name in EncodeRule(rule).fields ==> EncodeRule(rule).fields[name] == RuleMember(rule, name).value
  {
    forall k | k in EncodeRule(rule).fields && SameName(k, name) ensures k == name { assert |k| == |name|; }
  }

  lemma RuleMembers(rule: Rule)
    ensures RuleMember(rule, "conditions") == Some(EncodeNode(rule.conditions))
    ensures RuleMember(rule, "rollout") == if rule.rollout.Some? then Some(EncodeRollout(rule.rollout.value)) else None
    ensures RuleMember(rule, "value") == NonNil(rule.value)
  {
  }

  lemma RuleField<T>(rule: Rule, name: string, was: T, into: (T, Json) -> Option<T>)
    requires name in RULE_MEMBERS
    ensures Field(EncodeRule(rule).fields, name, was, into)
         == match RuleMember(rule, name) case None => Some(was) case Some(j) => into(was, j)
  {
    RuleFieldsAreExact(rule, name);
    ExactField(EncodeRule(rule).fields, name, was, into);
  }

  lemma RuleFrom(raw: Json, rule: Rule)
    requires raw.Obj?
    requires Field(raw.fields, "conditions", EMPTY_NODE, IntoNode) == Some(rule.conditions)
    requires Field(raw.fields, "rollout", None, IntoRolloutPtr) == Some(rule.rollout)
    requires Field(raw.fields, "value", Null, IntoAny) == Some(rule.value)
    ensures DecodeRule(raw) == Some(rule)
  {
  }

  lemma RuleRoundTrip(rule: Rule)
    ensures DecodeRule(EncodeRule(rule)) == Some(rule)
  {
    RuleMembers(rule);
    NodeRoundTrip(rule.conditions);
    RuleField(rule, "conditions", EMPTY_NODE, IntoNode);
    if rule.rollout.Some? { RolloutRoundTrip(rule.rollout.value); }
    RuleField(rule, "rollout", None, IntoRolloutPtr);
    RuleField(rule, "value", Null, IntoAny);
    RuleFrom(EncodeRule(rule), rule);
  }

  lemma {:induction false} RulesRoundTrip(rules: seq<Rule>)
    ensures IntoRuleItems([], EncodeRules(rules)) == Some(rules)
  {
    if rules != [] {
      RuleRoundTrip(rules[0]);
      RulesRoundTrip(rules[1..]);
      var items := EncodeRules(rules);
      assert items[1..] == EncodeRules(rules[1..]) && items[0] == EncodeRule(rules[0]);
      assert [rules[0]] + rules[1..] == rules;
    }
  }
}
