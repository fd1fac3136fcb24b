/** How the engine's decoder reads a condition tree the validator has accepted, and when that is safe to
    evaluate. The validator goes by exact keys; the decoder takes keys up to case and skips empty lists. */
module Reading {
  import opened Prelude
  import opened Json
  import opened Engine
  import opened Codec
  import opened Keys
  import opened Validator
  import Cost
  import Segments
  import Text

  predicate Unspelled(fields: map<string, Json>, name: string) {
    forall k | k in fields :: !SameName(k, name)
  }

  predicate NotHollow(children: Json) {
    children.Arr? ==> children.items != []
  }

  /** Validator and engine see the same form here: the member the validator goes by is the only key that the
      engine takes for that member, no other key makes the node a composite for the engine, and `all` and
      `any` are not empty. */
  predicate PlainNode(fields: map<string, Json>) {
    if "all" in fields then Exact(fields, "all") && NotHollow(fields["all"])
    else if "any" in fields then Unspelled(fields, "all") && Exact(fields, "any") && NotHollow(fields["any"])
    else if "not" in fields then Unspelled(fields, "all") && Unspelled(fields, "any") && Exact(fields, "not")
    else Unspelled(fields, "all") && Unspelled(fields, "any") && Unspelled(fields, "not") && Exact(fields, "op")
  }

  /** What a node shows: a list of conditions, one condition to negate, or a leaf's operator. */
  datatype Look = List(items: seq<Json>) | Negated(node: Json) | Op(op: Option<Json>)

  function ListOf(value: Json): Look {
    if value.Arr? then List(value.items) else Op(None)
  }

  function Member(fields: map<string, Json>, name: string): Option<Json> {
    if name in fields then Some(fields[name]) else None
  }

  /** What the validator sees. */
  function Seen(fields: map<string, Json>): (look: Look)
    ensures Shows(fields, look)
  {
    if "all" in fields then ListOf(fields["all"])
    else if "any" in fields then ListOf(fields["any"])
    else if "not" in fields then Negated(fields["not"])
    else Op(Member(fields, "op"))
  }

  /** What is shown stands in the object. */
  ghost predicate Shows(fields: map<string, Json>, look: Look) {
    match look
    case List(items) => exists k | k in fields :: fields[k] == Arr(items)
    case Negated(node) => exists k | k in fields :: fields[k] == node
    case Op(_) => true
  }

  /** The value under the key that the engine takes for the member, when there is one such key. */
  function Taken(fields: map<string, Json>, name: string): (value: Option<Json>)
    ensures value.Some? ==> exists k | k in fields :: fields[k] == value.value
  {
    var keys := Spellings(fields, name);
    if keys == [] then None else assert keys[0] in keys; Some(fields[keys[0]])
  }

  predicate TwiceSpelled(fields: map<string, Json>, name: string) {
    |Spellings(fields, name)| > 1
  }

  /** A list that makes the node a composite: present and not empty. */
  predicate IsList(value: Option<Json>) {
    value.Some? && value.value.Arr? && value.value.items != []
  }

  predicate IsNode(value: Option<Json>) {
    value.Some? && !value.value.Null?
  }

  predicate IsKnownOp(op: Option<Json>) {
    op.Some? && op.value.Str? ==> Text.TrimSpace(op.value.s) in VALID_OPERATORS
  }

  /** What the decoder takes. */
  function Read(fields: map<string, Json>): (look: Look)
    ensures Shows(fields, look)
  {
    if IsList(Taken(fields, "all")) then List(Taken(fields, "all").value.items)
    else if IsList(Taken(fields, "any")) then List(Taken(fields, "any").value.items)
    else if IsNode(Taken(fields, "not")) then Negated(Taken(fields, "not").value)
    else Op(Taken(fields, "op"))
  }

  /** On its way the decoder meets a member that is spelled twice. */
  predicate Ambiguous(fields: map<string, Json>) {
    TwiceSpelled(fields, "all") || (!IsList(Taken(fields, "all")) &&
    (TwiceSpelled(fields, "any") || (!IsList(Taken(fields, "any")) &&
    (TwiceSpelled(fields, "not") || (!IsNode(Taken(fields, "not")) && TwiceSpelled(fields, "op"))))))
  }

  /** The tree has plain nodes only. */
  ghost predicate PlainTree(raw: Json)
    decreases raw
  {
    raw.Obj? ==>
      && PlainNode(raw.fields)
      && match Seen(raw.fields)
         case List(items) => forall i | 0 <= i < |items| :: PlainTree(items[i])
         case Negated(node) => PlainTree(node)
         case Op(_) => true
  }

  /** Every operator the engine can meet in the tree is one it implements. */
  ghost predicate KnownOps(node: ConditionNode)
    decreases node
  {
    match FormOf(node)
    case All => forall i | 0 <= i < |node.all| :: KnownOps(node.all[i])
    case Any => forall i | 0 <= i < |node.any| :: KnownOps(node.any[i])
    case Not => KnownOps(node.not.value)
    case Leaf => node.op.Some? ==> Text.TrimSpace(node.op.value) in VALID_OPERATORS
  }

  lemma TrimKeepsOperators(op: string)
    requires op in VALID_OPERATORS
    ensures Text.TrimSpace(op) == op
  {
    assert !Text.IsSpace(op[0]) && !Text.IsSpace(op[|op| - 1]);
  }

  ghost predicate Safe(node: ConditionNode, depth: nat) {
    Segments.Fits(MAX_DEPTH, node, depth) && KnownOps(node)
  }

  /** A check on the raw tree of what the engine will read: the member it takes, level by level, and the operator
      at the leaves. Only where one of these members is spelled twice, so that Go fills it twice, is the node
      decoded. */
  ghost predicate ReadsSafe(raw: Json, depth: nat)
    decreases raw
  {
    depth <= MAX_DEPTH &&
    match raw
    case Obj(fields) =>
      if Ambiguous(fields) then DecodeNode(raw).Some? ==> Safe(DecodeNode(raw).value, depth)
      else
        (match Read(fields)
         case List(items) => forall i | 0 <= i < |items| :: ReadsSafe(items[i], depth + 1)
         case Negated(node) => ReadsSafe(node, depth + 1)
         case Op(op) => IsKnownOp(op))
    case _ => true
  }

  /** What acceptance leaves open: wherever validator and engine see different forms, what the engine reads must
      itself be safe. */
  ghost predicate Harmless(raw: Json, depth: nat)
    decreases raw
  {
    raw.Obj? ==>
      if !PlainNode(raw.fields) then ReadsSafe(raw, depth)
      else
        match Seen(raw.fields)
        case List(items) => forall i | 0 <= i < |items| :: Harmless(items[i], depth + 1)
        case Negated(node) => Harmless(node, depth + 1)
        case Op(_) => true
  }

  lemma {:induction false} PlainIsHarmless(raw: Json, depth: nat)
    requires PlainTree(raw)
    ensures Harmless(raw, depth)
    decreases raw
  {
    if raw.Obj? {
      match Seen(raw.fields)
      case List(items) => forall i | 0 <= i < |items| ensures Harmless(items[i], depth + 1) { PlainIsHarmless(items[i], depth + 1); }
      case Negated(node) => PlainIsHarmless(node, depth + 1);
      case Op(_) =>
    }
  }

  // ---------- The decoder reads what `Read` says

  lemma {:induction false} FreshItems(items: seq<Json>)
    requires IntoItems([], items).Some?
    ensures var nodes := IntoItems([], items).value;
      |nodes| == |items| && forall i | 0 <= i < |items| :: DecodeNode(items[i]) == Some(nodes[i])
  {
    if items != [] {
      FreshItems(items[1..]);
      assert forall i | 0 < i < |items| :: items[i] == items[1..][i - 1];
    }
  }

  /** What the fields of a decoded node are. */
  lemma NodeParts(raw: Json)
    requires raw.Obj? && DecodeNode(raw).Some?
    ensures var node := DecodeNode(raw).value;
      && Field(raw.fields, "op", None, IntoStringPtr) == Some(node.op)
      && FillNodes(raw, Spellings(raw.fields, "all"), []) == Some(node.all)
      && FillNodes(raw, Spellings(raw.fields, "any"), []) == Some(node.any)
      && FillNodePtr(raw, Spellings(raw.fields, "not"), None) == Some(node.not)
  {
  }

  lemma NoNodes(raw: Json, name: string)
    requires raw.Obj? && Unspelled(raw.fields, name)
    ensures FillNodes(raw, Spellings(raw.fields, name), []) == Some([])
  {
    SpelledExactly(raw.fields, name);
    assert SameName(name, name);
  }

  lemma NoNode(raw: Json, name: string)
    requires raw.Obj? && Unspelled(raw.fields, name)
    ensures FillNodePtr(raw, Spellings(raw.fields, name), None) == Some(None)
  {
    SpelledExactly(raw.fields, name);
    assert SameName(name, name);
  }

  /** A member with at most one spelling: the list under it, or nothing. */
  lemma TakenNodes(raw: Json, name: string, nodes: seq<ConditionNode>)
    requires raw.Obj? && !TwiceSpelled(raw.fields, name)
    requires FillNodes(raw, Spellings(raw.fields, name), []) == Some(nodes)
    ensures var value := Taken(raw.fields, name);
      if IsList(value) then |nodes| == |value.value.items| && forall i | 0 <= i < |nodes| :: DecodeNode(value.value.items[i]) == Some(nodes[i])
      else nodes == []
  {
    var keys := Spellings(raw.fields, name);
    if keys != [] {
      assert keys[0] in keys;
      OneKeyNodes(raw, keys[0], nodes);
      assert keys == [keys[0]];
    }
  }

  lemma OneKeyNodes(raw: Json, key: string, nodes: seq<ConditionNode>)
    requires raw.Obj? && key in raw.fields
    ensures FillNodes(raw, [key], []) == Some(nodes) ==>
      var value := Some(raw.fields[key]);
      if IsList(value) then |nodes| == |value.value.items| && forall i | 0 <= i < |nodes| :: DecodeNode(value.value.items[i]) == Some(nodes[i])
      else nodes == []
  {
    assert [key][1..] == [];
    if IntoNodes([], raw.fields[key]).Some? {
      assert FillNodes(raw, [key], []) == Some(IntoNodes([], raw.fields[key]).value);
      if raw.fields[key].Arr? { FreshItems(raw.fields[key].items); }
    }
  }

  lemma TakenNode(raw: Json, name: string, node: Option<ConditionNode>)
    requires raw.Obj? && !TwiceSpelled(raw.fields, name)
    requires FillNodePtr(raw, Spellings(raw.fields, name), None) == Some(node)
    ensures var value := Taken(raw.fields, name);
      if value.Some? && !value.value.Null? then node.Some? && DecodeNode(value.value) == node else node == None
  {
    var keys := Spellings(raw.fields, name);
    if keys != [] {
      assert keys[0] in keys && keys == [keys[0]] && [keys[0]][1..] == [];
      OneKeyNode(raw, keys[0], node);
    }
  }

  lemma OneKeyNode(raw: Json, key: string, node: Option<ConditionNode>)
    requires raw.Obj? && key in raw.fields
    ensures FillNodePtr(raw, [key], None) == Some(node) ==>
      if raw.fields[key].Null? then node == None else node.Some? && DecodeNode(raw.fields[key]) == node
  {
    assert [key][1..] == [] && FillNodePtr(raw, [], None) == Some(None);
    if DecodeNode(raw.fields[key]).Some? {
      assert FillNodePtr(raw, [], DecodeNode(raw.fields[key])) == Some(DecodeNode(raw.fields[key]));
    }
  }

  lemma TakenText(raw: Json, name: string, text: Option<string>)
    requires raw.Obj? && !TwiceSpelled(raw.fields, name)
    requires Field(raw.fields, name, None, IntoStringPtr) == Some(text)
    ensures var value := Taken(raw.fields, name);
      text == if value.Some? && value.value.Str? then Some(value.value.s) else None
  {
    var keys := Spellings(raw.fields, name);
    if keys != [] {
      assert keys[0] in keys && keys == [keys[0]];
      FillOnce(raw.fields, keys[0], None, IntoStringPtr);
    }
  }

  function ChildrenOf(node: ConditionNode): seq<ConditionNode> {
    if FormOf(node) == All then node.all else if FormOf(node) == Any then node.any else []
  }

  /** The decoded node shows what was read. */
  ghost predicate Matches(node: ConditionNode, look: Look) {
    match look
    case List(items) =>
      && (FormOf(node) == All || FormOf(node) == Any) && |ChildrenOf(node)| == |items|
      && forall i | 0 <= i < |items| :: DecodeNode(items[i]) == Some(ChildrenOf(node)[i])
    case Negated(child) => FormOf(node) == Not && DecodeNode(child) == Some(node.not.value)
    case Op(op) => FormOf(node) == Leaf && (KnownOps(node) <==> IsKnownOp(op))
  }

  lemma DecodedAsRead(raw: Json)
    requires raw.Obj? && DecodeNode(raw).Some? && !Ambiguous(raw.fields)
    ensures Matches(DecodeNode(raw).value, Read(raw.fields))
  {
    var fields, node := raw.fields, DecodeNode(raw).value;
    NodeParts(raw);
    TakenNodes(raw, "all", node.all);
    if !IsList(Taken(fields, "all")) { DecodedAsReadBelowAll(raw, node); }
  }

  /** The same for a node without `all`. */
  lemma DecodedAsReadBelowAll(raw: Json, node: ConditionNode)
    ensures raw.Obj? && DecodeNode(raw) == Some(node) && !Ambiguous(raw.fields) && !IsList(Taken(raw.fields, "all")) && node.all == [] ==>
      Matches(node, Read(raw.fields))
  {
    if raw.Obj? && DecodeNode(raw) == Some(node) && !Ambiguous(raw.fields) && !IsList(Taken(raw.fields, "all")) && node.all == [] {
      var fields := raw.fields;
      NodeParts(raw);
      TakenNodes(raw, "any", node.any);
      if !IsList(Taken(fields, "any")) {
        TakenNode(raw, "not", node.not);
        if !IsNode(Taken(fields, "not")) { TakenText(raw, "op", node.op); }
      }
    }
  }

  lemma SafeByForm(node: ConditionNode, depth: nat)
    requires depth <= MAX_DEPTH
    ensures FormOf(node) == All || FormOf(node) == Any ==>
      (Safe(node, depth) <==> forall i | 0 <= i < |ChildrenOf(node)| :: Safe(ChildrenOf(node)[i], depth + 1))
    ensures FormOf(node) == Not ==> (Safe(node, depth) <==> Safe(node.not.value, depth + 1))
    ensures FormOf(node) == Leaf ==> (Safe(node, depth) <==> KnownOps(node))
  {
    var nodes := ChildrenOf(node);
    assert FormOf(node) == All ==> (Safe(node, depth) <==> forall i | 0 <= i < |node.all| :: Safe(node.all[i], depth + 1));
    assert FormOf(node) == Any ==> (Safe(node, depth) <==> forall i | 0 <= i < |node.any| :: Safe(node.any[i], depth + 1));
    assert FormOf(node) == All ==> nodes == node.all;
    assert FormOf(node) == Any ==> nodes == node.any;
  }

  /** For every raw tree: what it decodes to is safe if and only if the check on the tree says so. */
  lemma {:induction false} SafeIffReadsSafe(raw: Json, depth: nat)
    ensures DecodeNode(raw).Some? ==> (Safe(DecodeNode(raw).value, depth) <==> ReadsSafe(raw, depth))
    decreases raw
  {
    if DecodeNode(raw).Some? && depth <= MAX_DEPTH && raw.Obj? && !Ambiguous(raw.fields) {
      var node := DecodeNode(raw).value;
      DecodedAsRead(raw);
      SafeByForm(node, depth);
      match Read(raw.fields)
      case List(items) =>
        forall i | 0 <= i < |items| ensures Safe(ChildrenOf(node)[i], depth + 1) <==> ReadsSafe(items[i], depth + 1) {
          SafeIffReadsSafe(items[i], depth + 1);
        }
      case Negated(child) => SafeIffReadsSafe(child, depth + 1);
      case Op(_) =>
    }
  }

  // ---------- At a plain node the decoder reads what the validator sees

  lemma ExactIsTaken(fields: map<string, Json>, name: string)
    requires Exact(fields, name)
    ensures !TwiceSpelled(fields, name) && Taken(fields, name) == Member(fields, name)
  {
    SpelledExactly(fields, name);
  }

  lemma UnspelledIsNotTaken(fields: map<string, Json>, name: string)
    requires Unspelled(fields, name)
    ensures !TwiceSpelled(fields, name) && Taken(fields, name) == None
  {
    SpelledExactly(fields, name);
    assert SameName(name, name);
  }

  lemma PlainIsReadAsSeen(raw: Json, depth: nat)
    requires Accepts(raw, depth) && PlainNode(raw.fields)
    ensures !Ambiguous(raw.fields) && Read(raw.fields) == Seen(raw.fields)
  {
    var fields := raw.fields;
    if "all" in fields {
      ExactIsTaken(fields, "all");
    } else {
      UnspelledIsNotTaken(fields, "all");
      if "any" in fields {
        ExactIsTaken(fields, "any");
      } else {
        UnspelledIsNotTaken(fields, "any");
        if "not" in fields {
          ExactIsTaken(fields, "not");
        } else {
          UnspelledIsNotTaken(fields, "not");
          ExactIsTaken(fields, "op");
        }
      }
    }
  }

  /** What acceptance says of what the validator sees. */
  lemma AcceptedBelow(raw: Json, depth: nat)
    requires Accepts(raw, depth)
    ensures depth <= MAX_DEPTH
    ensures match Seen(raw.fields)
            case List(items) => (forall i | 0 <= i < |items| :: Accepts(items[i], depth + 1)) && RawSize(raw) == 1 + RawSum(items)
            case Negated(node) => Accepts(node, depth + 1) && RawSize(raw) == 1 + RawSize(node)
            case Op(op) => op.Some? && op.value.Str? && op.value.s in VALID_OPERATORS && RawSize(raw) == 1
  {
  }

  lemma {:induction false} AcceptedReadsSafeIffHarmless(raw: Json, depth: nat)
    ensures Accepts(raw, depth) ==> (ReadsSafe(raw, depth) <==> Harmless(raw, depth))
    decreases raw
  {
    if Accepts(raw, depth) && PlainNode(raw.fields) {
      PlainIsReadAsSeen(raw, depth);
      AcceptedBelow(raw, depth);
      match Seen(raw.fields)
      case List(items) =>
        forall i | 0 <= i < |items| ensures ReadsSafe(items[i], depth + 1) <==> Harmless(items[i], depth + 1) {
          AcceptedReadsSafeIffHarmless(items[i], depth + 1);
        }
      case Negated(node) => AcceptedReadsSafeIffHarmless(node, depth + 1);
      case Op(op) => TrimKeepsOperators(op.value.s);
    }
  }

  /** The exact condition: an accepted tree reaches the engine within its depth cap and with known operators
      if and only if it is harmless wherever the two see different forms. */
  lemma AcceptedTreeIsSafeIffHarmless(raw: Json, depth: nat)
    ensures Accepts(raw, depth) && DecodeNode(raw).Some? ==> (Safe(DecodeNode(raw).value, depth) <==> Harmless(raw, depth))
  {
    SafeIffReadsSafe(raw, depth);
    AcceptedReadsSafeIffHarmless(raw, depth);
  }

  /** In a plain tree the engine meets exactly the nodes the validator counted. */
  lemma {:induction false} PlainTreeHasCountedSize(raw: Json, depth: nat)
    ensures Accepts(raw, depth) && PlainTree(raw) && DecodeNode(raw).Some? ==> Cost.Size(DecodeNode(raw).value) == RawSize(raw)
    decreases raw
  {
    if Accepts(raw, depth) && PlainTree(raw) && DecodeNode(raw).Some? {
      var node := DecodeNode(raw).value;
      PlainIsReadAsSeen(raw, depth);
      AcceptedBelow(raw, depth);
      DecodedAsRead(raw);
      match Seen(raw.fields)
      case List(items) => PlainItemsHaveCountedSize(items, ChildrenOf(node), depth + 1);
      case Negated(child) => PlainTreeHasCountedSize(child, depth + 1);
      case Op(_) =>
    }
  }

  lemma {:induction false} PlainItemsHaveCountedSize(items: seq<Json>, nodes: seq<ConditionNode>, depth: nat)
    requires |nodes| == |items|
    requires forall i | 0 <= i < |items| :: Accepts(items[i], depth) && PlainTree(items[i]) && DecodeNode(items[i]) == Some(nodes[i])
    ensures Cost.SizeSum(nodes) == RawSum(items)
    decreases items
  {
    if items != [] {
      PlainTreeHasCountedSize(items[0], depth);
      PlainItemsHaveCountedSize(items[1..], nodes[1..], depth);
    }
  }
}
