/** Evaluating one flag: `pkg/engine/engine.go` and `pkg/engine/rollout.go`. */
module Evaluate {
  import opened Prelude
  import opened Json
  import opened Engine
  import opened Codec

  const TWO_32 := 0x1_0000_0000

  type uint32 = n: int | 0 <= n < 0x1_0000_0000

  /** The two foreign functions: RE2 matching and 32-bit FNV-1a. */
  datatype Library = Library(regexMatch: (string, string) -> Option<bool>, fnv32a: string -> uint32)

  datatype FlagConfig = FlagConfig(
    key: string,
    enabled: bool,
    flagType: string,
    defaultValue: Json,
    environmentDefaultValue: Json,
    hasEnvironmentDefault: bool,
    version: int64,
    rules: seq<Rule>)

  datatype Reason = RuleMatch | Default | Disabled

  datatype EvaluateResult = EvaluateResult(value: Json, reason: Reason, ruleIndex: int)

  function WorldFor(lib: Library, context: map<string, Json>, segments: map<string, Segment>): World {
    World(context, segments, lib.regexMatch, MAX_CONDITION_DEPTH)
  }

  predicate InRollout(lib: Library, seed: string, userID: string, percentage: int) {
    if percentage <= 0 then false
    else if percentage >= 100 then true
    else lib.fnv32a(seed + ":" + userID) % 100 < percentage
  }

  function UserID(context: map<string, Json>): string {
    if "user_id" in context && context["user_id"].Str? then context["user_id"].s else ""
  }

  /** Whether the rule lets this user through once its conditions hold. */
  predicate RolloutAdmits(lib: Library, flagKey: string, rollout: Option<RolloutConfig>, userID: string) {
    match rollout
    case None => true
    case Some(r) => userID != "" && InRollout(lib, if r.seed == "" then flagKey else r.seed, userID, r.percentage)
  }

  predicate Applies(lib: Library, w: World, flagKey: string, rule: Rule) {
    EvalNode(w, rule.conditions, {}, 0).holds && RolloutAdmits(lib, flagKey, rule.rollout, UserID(w.context))
  }

  function ValueOrTrue(rule: Rule): Json {
    if rule.value == Null then Bool(true) else rule.value
  }

  /** The environment's default, a null one included, goes before the flag's. */
  function NoMatch(fc: FlagConfig): EvaluateResult {
    EvaluateResult(if fc.hasEnvironmentDefault then fc.environmentDefaultValue else fc.defaultValue, Default, -1)
  }

  /** The search from rule `i` on. */
  function FirstMatch(lib: Library, w: World, fc: FlagConfig, i: nat): EvaluateResult
    requires i <= |fc.rules|
    decreases |fc.rules| - i
  {
    if i == |fc.rules| then NoMatch(fc)
    else if Applies(lib, w, fc.key, fc.rules[i]) then EvaluateResult(ValueOrTrue(fc.rules[i]), RuleMatch, i)
    else FirstMatch(lib, w, fc, i + 1)
  }

  function EvaluateFlag(lib: Library, w: World, fc: FlagConfig): EvaluateResult {
    if !fc.enabled then EvaluateResult(Bool(false), Disabled, -1) else FirstMatch(lib, w, fc, 0)
  }

  /** Rule `i` applies and no earlier rule does. */
  ghost predicate IsLeastApplicable(lib: Library, w: World, fc: FlagConfig, i: int) {
    && 0 <= i < |fc.rules| && Applies(lib, w, fc.key, fc.rules[i])
    && forall j | 0 <= j < i :: !Applies(lib, w, fc.key, fc.rules[j])
  }

  lemma {:induction false} FirstMatchFinds(lib: Library, w: World, fc: FlagConfig, i: nat)
    requires i <= |fc.rules|
    requires forall j | 0 <= j < i :: !Applies(lib, w, fc.key, fc.rules[j])
    ensures var r := FirstMatch(lib, w, fc, i);
      && (r.reason == RuleMatch <==> exists k | 0 <= k < |fc.rules| :: Applies(lib, w, fc.key, fc.rules[k]))
      && (r.reason == RuleMatch ==> IsLeastApplicable(lib, w, fc, r.ruleIndex) && r.value == ValueOrTrue(fc.rules[r.ruleIndex]))
      && (r.reason != RuleMatch ==> r == NoMatch(fc))
    decreases |fc.rules| - i
  {
    if i < |fc.rules| && !Applies(lib, w, fc.key, fc.rules[i]) { FirstMatchFinds(lib, w, fc, i + 1); }
  }

  /** A disabled flag is false without a rule. An enabled one is decided by its least applicable rule, and when
      there is none by the environment's default if it has one and else by the flag's. */
  lemma ResultIsLeastApplicableRule(lib: Library, w: World, fc: FlagConfig)
    ensures var r := EvaluateFlag(lib, w, fc);
      && (!fc.enabled ==> r == EvaluateResult(Bool(false), Disabled, -1))
      && (forall i :: fc.enabled && IsLeastApplicable(lib, w, fc, i) <==> r.reason == RuleMatch && r.ruleIndex == i)
      && (r.reason == RuleMatch ==> IsLeastApplicable(lib, w, fc, r.ruleIndex) && r.value == ValueOrTrue(fc.rules[r.ruleIndex]))
      && (fc.enabled && (forall k | 0 <= k < |fc.rules| :: !Applies(lib, w, fc.key, fc.rules[k])) ==>
            && r.reason == Default && r.ruleIndex == -1
            && (fc.hasEnvironmentDefault ==> r.value == fc.environmentDefaultValue)
            && (!fc.hasEnvironmentDefault ==> r.value == fc.defaultValue))
  {
    if fc.enabled { FirstMatchFinds(lib, w, fc, 0); }
  }

  // ---------- Raising a rollout

  function WithPercentage(fc: FlagConfig, k: nat, percentage: int64): FlagConfig
    requires k < |fc.rules| && fc.rules[k].rollout.Some?
  {
    var rule := fc.rules[k];
    fc.(rules := fc.rules[k := rule.(rollout := Some(rule.rollout.value.(percentage := percentage)))])
  }

  /** Raising rule k's percentage changes nothing for a user or moves the user to rule k; whoever rule k
      served before, it still serves. */
  lemma RaisingRolloutIsMonotone(lib: Library, w: World, fc: FlagConfig, k: nat, percentage: int64)
    requires k < |fc.rules| && fc.rules[k].rollout.Some? && fc.rules[k].rollout.value.percentage <= percentage
    ensures var before, after := EvaluateFlag(lib, w, fc), EvaluateFlag(lib, w, WithPercentage(fc, k, percentage));
      && (after == before || (after.ruleIndex == k && after.reason == RuleMatch))
      && (before.ruleIndex == k ==> after == before)
  {
    var raised := WithPercentage(fc, k, percentage);
    assert forall j | 0 <= j < |fc.rules| && j != k :: raised.rules[j] == fc.rules[j];
    assert Applies(lib, w, fc.key, fc.rules[k]) ==> Applies(lib, w, fc.key, raised.rules[k]);
    if fc.enabled {
      FirstMatchFinds(lib, w, fc, 0);
      FirstMatchFinds(lib, w, raised, 0);
      var before, after := EvaluateFlag(lib, w, fc), EvaluateFlag(lib, w, raised);
      if before.reason == RuleMatch {
        assert Applies(lib, w, fc.key, raised.rules[before.ruleIndex]);
      }
      DefaultsAgree(lib, w, fc, raised, 0);
    }
  }

  lemma {:induction false} DefaultsAgree(lib: Library, w: World, fc: FlagConfig, other: FlagConfig, i: nat)
    requires i <= |fc.rules| == |other.rules| && other == fc.(rules := other.rules)
    ensures var r, s := FirstMatch(lib, w, fc, i), FirstMatch(lib, w, other, i);
      r.reason == s.reason == Default ==> r == s
    decreases |fc.rules| - i
  {
    if i < |fc.rules| { DefaultsAgree(lib, w, fc, other, i + 1); }
  }

  /** The hash values below `n` that fall in `p` percent. */
  function Served(n: nat, p: nat): set<int> {
    set h | 0 <= h < n && h % 100 < p
  }

  lemma {:induction false} ServedCount(n: nat, p: nat)
    requires p <= 100
    ensures |Served(n, p)| == n / 100 * p + if n % 100 < p then n % 100 else p
    decreases n
  {
    if n > 0 {
      ServedCount(n - 1, p);
      if (n - 1) % 100 < p {
        assert Served(n, p) == Served(n - 1, p) + {n - 1};
      } else {
        assert Served(n, p) == Served(n - 1, p);
      }
      assert n % 100 == 0 ==> n / 100 == (n - 1) / 100 + 1 && n / 100 * p == (n - 1) / 100 * p + p;
    }
  }

  /** Exactly this many of the 2^32 hash values are in the rollout at p percent. */
  lemma RolloutShare(p: nat)
    requires p <= 100
    ensures |Served(TWO_32, p)| == 42949672 * p + if p < 96 then p else 96
    ensures forall lib: Library, seed, userID ::
      InRollout(lib, seed, userID, p) <==> lib.fnv32a(seed + ":" + userID) in Served(TWO_32, p)
  {
    ServedCount(TWO_32, p);
  }
}
