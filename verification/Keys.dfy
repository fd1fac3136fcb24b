/** Member names: which keys of an object Go's encoding/json takes for a struct field, and in which order a
    JSONB column hands them out (`migrations/000001_init.up.sql` stores rules so). */
module Keys {
  import opened Json
  import Text

  /** encoding/json's foldRune, as far as it can reach an ASCII letter. */
  function FoldChar(c: char): char {
    if 'a' <= c <= 'z' then 'A' + (c - 'a')
    else if c == '\U{17F}' then 'S'
    else if c == '\U{212A}' then 'K'
    else c
  }

  function Folded(name: string): (folded: string)
    ensures |folded| == |name| && forall i | 0 <= i < |name| :: folded[i] == FoldChar(name[i])
  {
    seq(|name|, i requires 0 <= i < |name| => FoldChar(name[i]))
  }

  /** The key names the field, exactly or but for case. */
  predicate SameName(key: string, name: string) {
    Folded(key) == Folded(name)
  }

  // ---------- JSONB order: shorter keys first, then by bytes, which is by code point

  predicate Ascends(a: string, b: string) {
    a == "" || (b != "" && (a[0] < b[0] || (a[0] == b[0] && Ascends(a[1..], b[1..]))))
  }

  predicate Before(a: string, b: string) {
    Text.Bytes(a) < Text.Bytes(b) || (Text.Bytes(a) == Text.Bytes(b) && Ascends(a, b))
  }

  lemma {:induction false} AscendsIsOrder(a: string, b: string, c: string)
    ensures Ascends(a, b) || Ascends(b, a)
    ensures Ascends(a, b) && Ascends(b, a) ==> a == b
    ensures Ascends(a, b) && Ascends(b, c) ==> Ascends(a, c)
  {
    if a != "" && b != "" {
      AscendsIsOrder(a[1..], b[1..], if c == "" then "" else c[1..]);
      assert a == [a[0]] + a[1..] && b == [b[0]] + b[1..];
    }
  }

  lemma BeforeIsOrder(a: string, b: string, c: string)
    ensures Before(a, b) || Before(b, a)
    ensures Before(a, b) && Before(b, a) ==> a == b
    ensures Before(a, b) && Before(b, c) ==> Before(a, c)
  {
    AscendsIsOrder(a, b, c);
  }

  lemma {:induction false} FirstExists(keys: set<string>) returns (first: string)
    requires keys != {}
    ensures first in keys && forall k | k in keys :: Before(first, k)
  {
    var some :| some in keys;
    var rest := keys - {some};
    first := some;
    if rest != {} {
      var other := FirstExists(rest);
      first := if Before(some, other) then some else other;
      BeforeIsOrder(some, other, other);
    }
    forall k | k in keys ensures Before(first, k) {
      BeforeIsOrder(k, k, k);
      if k != some {
        assert k in rest;
        var other :| Before(other, k) && Before(first, other);
        BeforeIsOrder(first, other, k);
      }
    }
  }

  ghost predicate IsFirst(keys: set<string>, k: string) {
    k in keys && forall j | j in keys :: Before(k, j)
  }

  lemma OneFirst(keys: set<string>)
    requires keys != {}
    ensures exists k :: IsFirst(keys, k)
    ensures forall a, b | IsFirst(keys, a) && IsFirst(keys, b) :: a == b
  {
    var k := FirstExists(keys);
    assert IsFirst(keys, k);
    forall a, b | IsFirst(keys, a) && IsFirst(keys, b) ensures a == b { BeforeIsOrder(a, b, b); }
  }

  function First(keys: set<string>): (first: string)
    requires keys != {}
    ensures first in keys
  {
    OneFirst(keys);
    assert forall k :: IsFirst(keys, k) <==> k in keys && forall j | j in keys :: Before(k, j);
    var k :| k in keys && forall j | j in keys :: Before(k, j);
    k
  }

  function InOrder(keys: set<string>): (s: seq<string>)
    ensures forall k :: k in s <==> k in keys
  {
    if keys == {} then [] else var k := First(keys); [k] + InOrder(keys - {k})
  }

  /** The keys of the object that name the field, in the order they are decoded. */
  function Spellings(fields: map<string, Json>, name: string): (s: seq<string>)
    ensures forall k :: k in s <==> k in fields && SameName(k, name)
  {
    InOrder(set k | k in fields && SameName(k, name))
  }

  /** The only key that names the field is found. */
  lemma SpelledOnce(fields: map<string, Json>, name: string, key: string)
    requires key in fields && SameName(key, name)
    requires forall k | k in fields && SameName(k, name) :: k == key
    ensures Spellings(fields, name) == [key]
  {
    var keys := set k | k in fields && SameName(k, name);
    assert keys == {key} && First(keys) == key && keys - {key} == {};
    assert InOrder({}) == [];
  }

  /** A name without variants is found exactly. */
  lemma SpelledExactly(fields: map<string, Json>, name: string)
    requires forall k | k in fields && SameName(k, name) :: k == name
    ensures Spellings(fields, name) == if name in fields then [name] else []
  {
    if name in fields {
      SpelledOnce(fields, name, name);
    } else {
      assert (set k | k in fields && SameName(k, name)) == {};
    }
  }
}
