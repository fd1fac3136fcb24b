/** The two ways a flag reaches a user: evaluated on the server (`internal/api/evaluate.go`), or sent to
    the SDK as a snapshot (`internal/api/sdk_snapshot.go`, `pkg/sdk/types.go`) and evaluated there. */
module Snapshot {
  import opened Prelude
  import opened Json
  import opened Engine
  import opened Codec
  import opened Evaluate
  import opened Keys

  /** One row of FlagEnvironments.ListByEnvironment. */
  datatype FlagRow = FlagRow(
    flagKey: string,
    flagType: string,
    flagDefaultValue: RawMessage,
    enabled: bool,
    rules: RawMessage,
    environmentDefaultValue: Option<RawMessage>,
    version: int64)

  /** One row of Segments.ListByProject. */
  datatype SegmentRow = SegmentRow(key: string, rules: RawMessage)

  /** `parseDefaultValue`. Null read into a Go bool, number or string leaves its zero value. */
  function ParseDefaultValue(flagType: string, raw: RawMessage): Option<Json> {
    if raw.size == 0 then Some(Null)
    else
      match raw.parsed
      case None => None
      case Some(j) =>
        match flagType
        case "boolean" => if j.Null? then Some(Bool(false)) else if j.Bool? then Some(j) else None
        case "number" => if j.Null? then Some(Num(0.0)) else if j.Num? then Some(j) else None
        case "string" => if j.Null? then Some(Str("")) else if j.Str? then Some(j) else None
        case _ => Some(j)
  }

  /** `buildFlagConfigFromJoined`; None is its error. */
  function BuildFlagConfig(row: FlagRow): Option<FlagConfig> {
    var rules := StoredRules(row.rules);
    var default := ParseDefaultValue(row.flagType, row.flagDefaultValue);
    if rules.None? || default.None? then None
    else
      var fc := FlagConfig(row.flagKey, row.enabled, row.flagType, default.value, Null, false, row.version, rules.value);
      match row.environmentDefaultValue
      case Some(raw) =>
        if raw.size == 0 then Some(fc)
        else
          (match ParseDefaultValue(row.flagType, raw)
           case None => None
           case Some(v) => Some(fc.(environmentDefaultValue := v, hasEnvironmentDefault := true)))
      case None => Some(fc)
  }

  /** The flags the rows describe, by key: rows that do not build are skipped, later rows win. */
  function FlagsOf(rows: seq<FlagRow>): map<string, FlagConfig> {
    if rows == [] then map[]
    else
      var rest := FlagsOf(rows[..|rows| - 1]);
      match BuildFlagConfig(rows[|rows| - 1])
      case None => rest
      case Some(fc) => rest[fc.key := fc]
  }

  function SegmentsOf(rows: seq<SegmentRow>): map<string, Segment> {
    if rows == [] then map[]
    else
      var last, rest := rows[|rows| - 1], SegmentsOf(rows[..|rows| - 1]);
      match StoredTree(last.rules)
      case None => rest
      case Some(tree) => rest[last.key := Segment(last.key, tree)]
  }

  /** Every flag evaluated by itself. */
  function ResultsFor(lib: Library, w: World, flags: map<string, FlagConfig>): map<string, EvaluateResult> {
    map key | key in flags :: EvaluateFlag(lib, w, flags[key])
  }

  // ---------- The server's bulk endpoint

  method LoadEngineSegments(rows: seq<SegmentRow>) returns (segments: map<string, Segment>)
    ensures segments == SegmentsOf(rows)
  {
    segments := map[];
    for i := 0 to |rows|
      invariant segments == SegmentsOf(rows[..i])
    {
      assert rows[..i + 1][..i] == rows[..i];
      var tree := StoredTree(rows[i].rules);
      if tree.Some? { segments := segments[rows[i].key := Segment(rows[i].key, tree.value)]; }
    }
    assert rows[..|rows|] == rows;
  }

  ghost function ByKey(flags: seq<FlagConfig>): map<string, FlagConfig> {
    if flags == [] then map[] else ByKey(flags[..|flags| - 1])[flags[|flags| - 1].key := flags[|flags| - 1]]
  }

  lemma ByKeyPush(flags: seq<FlagConfig>, fc: FlagConfig)
    ensures ByKey(flags + [fc]) == ByKey(flags)[fc.key := fc]
  {
    assert (flags + [fc])[..|flags|] == flags;
  }

  method EvaluateAll(lib: Library, w: World, flags: seq<FlagConfig>) returns (results: map<string, EvaluateResult>)
    ensures results == ResultsFor(lib, w, ByKey(flags))
  {
    results := map[];
    for i := 0 to |flags|
      invariant results == ResultsFor(lib, w, ByKey(flags[..i]))
    {
      assert flags[..i + 1][..i] == flags[..i];
      results := results[flags[i].key := EvaluateFlag(lib, w, flags[i])];
    }
    assert flags[..|flags|] == flags;
  }

  method HandleEvaluateFlags(lib: Library, flagRows: seq<FlagRow>, segmentRows: seq<SegmentRow>, context: map<string, Json>)
    returns (results: map<string, EvaluateResult>)
    ensures results == ResultsFor(lib, WorldFor(lib, context, SegmentsOf(segmentRows)), FlagsOf(flagRows))
  {
    var segments := LoadEngineSegments(segmentRows);
    var flags: seq<FlagConfig> := [];
    for i := 0 to |flagRows|
      invariant ByKey(flags) == FlagsOf(flagRows[..i])
    {
      assert flagRows[..i + 1][..i] == flagRows[..i];
      var fc := BuildFlagConfig(flagRows[i]);
      if fc.Some? {
        ByKeyPush(flags, fc.value);
        flags := flags + [fc.value];
      }
    }
    assert flagRows[..|flagRows|] == flagRows;
    results := EvaluateAll(lib, WorldFor(lib, context, segments), flags);
  }

  // ---------- The snapshot on the wire

  /** The JSON shape of a flag, declared once on each side. */
  datatype WireFlag = WireFlag(
    key: string,
    enabled: bool,
    flagType: string,
    defaultValue: Json,
    environmentDefaultValue: Json,
    hasEnvironmentDefault: bool,
    version: int64,
    rules: seq<Rule>)

  /** The body. Only the server's side declares the request id. */
  datatype WireSnapshot = WireSnapshot(
    environment: string,
    flags: map<string, WireFlag>,
    segments: map<string, Segment>,
    fetchedAt: string,
    requestID: string)

  const FLAG_MEMBERS := {
    "key", "enabled", "flag_type", "default_value", "environment_default_value", "has_environment_default",
    "version", "rules"}

  function FlagMember(flag: WireFlag, name: string): Option<Json> {
    match name
    case "key" => Some(Str(flag.key))
    case "enabled" => Some(Bool(flag.enabled))
    case "flag_type" => Some(Str(flag.flagType))
    case "default_value" => Some(flag.defaultValue)
    case "environment_default_value" => NonNil(flag.environmentDefaultValue)
    case "has_environment_default" => Some(Bool(flag.hasEnvironmentDefault))
    case "version" => Some(Num(flag.version as real))
    case "rules" => Some(Arr(EncodeRules(flag.rules)))
    case _ => None
  }

  function EncodeFlag(flag: WireFlag): Json {
    Obj(map name | name in FLAG_MEMBERS && FlagMember(flag, name).Some? :: FlagMember(flag, name).value)
  }

  function DecodeFlag(j: Json): Option<WireFlag> {
    match j
    case Null => Some(WireFlag("", false, "", Null, Null, false, 0, []))
    case Obj(fields) =>
      var key, flagType := Field(fields, "key", "", IntoString), Field(fields, "flag_type", "", IntoString);
      var enabled, hasDefault := Field(fields, "enabled", false, IntoBool), Field(fields, "has_environment_default", false, IntoBool);
      var default, envDefault := Field(fields, "default_value", Null, IntoAny), Field(fields, "environment_default_value", Null, IntoAny);
      var version, rules := Field(fields, "version", 0, IntoInt), Field(fields, "rules", [], IntoRules);
      if key.Some? && flagType.Some? && enabled.Some? && hasDefault.Some? && default.Some? && envDefault.Some?
         && version.Some? && rules.Some? then
        Some(WireFlag(key.value, enabled.value, flagType.value, default.value, envDefault.value, hasDefault.value,
                      version.value, rules.value))
      else None
    case _ => None
  }

  function EncodeSegment(segment: Segment): Json {
    Obj(map["key" := Str(segment.key), "conditions" := EncodeNode(segment.conditions)])
  }

  function DecodeSegment(j: Json): Option<Segment> {
    match j
    case Null => Some(Segment("", EMPTY_NODE))
    case Obj(fields) =>
      var key, conditions := Field(fields, "key", "", IntoString), Field(fields, "conditions", EMPTY_NODE, IntoNode);
      if key.Some? && conditions.Some? then Some(Segment(key.value, conditions.value)) else None
    case _ => None
  }

  /** A Go map written as JSON. */
  function EncodeMap<T>(m: map<string, T>, encode: T -> Json): Json {
    Obj(map key | key in m :: encode(m[key]))
  }

  const SNAPSHOT_MEMBERS := {"environment", "flags", "segments", "fetched_at", "request_id"}

  function SnapshotMember(s: WireSnapshot, name: string): Option<Json> {
    match name
    case "environment" => Some(Str(s.environment))
    case "flags" => Some(EncodeMap(s.flags, EncodeFlag))
    case "segments" => Some(EncodeMap(s.segments, EncodeSegment))
    case "fetched_at" => Some(Str(s.fetchedAt))
    case "request_id" => NonEmpty(s.requestID)
    case _ => None
  }

  function EncodeSnapshot(s: WireSnapshot): Json {
    Obj(map name | name in SNAPSHOT_MEMBERS && SnapshotMember(s, name).Some? :: SnapshotMember(s, name).value)
  }

  /** A Go map read from JSON: entries already there stay unless they are read again. */
  function IntoMap<T>(was: map<string, T>, j: Json, decode: Json -> Option<T>): Option<map<string, T>> {
    match j
    case Null => Some(map[])
    case Obj(fields) =>
      if forall key | key in fields :: decode(fields[key]).Some?
      then Some(was + map key | key in fields :: decode(fields[key]).value) else None
    case _ => None
  }

  function IntoFlags(was: map<string, WireFlag>, j: Json): Option<map<string, WireFlag>> {
    IntoMap(was, j, DecodeFlag)
  }

  function IntoSegments(was: map<string, Segment>, j: Json): Option<map<string, Segment>> {
    IntoMap(was, j, DecodeSegment)
  }

  /** time.Time. `isTime` stands for Go's reading of RFC 3339. */
  function IntoTime(isTime: string -> bool, was: string, j: Json): Option<string> {
    match j
    case Null => Some(was)
    case Str(s) => if isTime(s) then Some(s) else None
    case _ => None
  }

  function DecodeSnapshot(isTime: string -> bool, j: Json): Option<WireSnapshot> {
    match j
    case Null => Some(WireSnapshot("", map[], map[], "", ""))
    case Obj(fields) =>
      var environment := Field(fields, "environment", "", IntoString);
      var fetchedAt := Field(fields, "fetched_at", "", (was, j) => IntoTime(isTime, was, j));
      var flags, segments := Field(fields, "flags", map[], IntoFlags), Field(fields, "segments", map[], IntoSegments);
      if environment.Some? && flags.Some? && segments.Some? && fetchedAt.Some?
      then Some(WireSnapshot(environment.value, flags.value, segments.value, fetchedAt.value, "")) else None
    case _ => None
  }

  lemma DistinctFlagNames(a: string, b: string)
    requires a in FLAG_MEMBERS && b in FLAG_MEMBERS && SameName(a, b)
    ensures a == b
  {
    assert |a| == |b| && Keys.FoldChar(a[0]) == Keys.FoldChar(b[0]);
  }

  /** Decoding a member of an encoded flag. */
  lemma FlagField<T>(flag: WireFlag, name: string, was: T, into: (T, Json) -> Option<T>)
    requires name in FLAG_MEMBERS
    ensures Field(EncodeFlag(flag).fields, name, was, into)
         == match FlagMember(flag, name) case None => Some(was) case Some(j) => into(was, j)
  {
    var fields := EncodeFlag(flag).fields;
    forall k | k in fields && SameName(k, name) ensures k == name { DistinctFlagNames(k, name); }
    ExactField(fields, name, was, into);
  }

  lemma FlagMembers(flag: WireFlag)
    ensures FlagMember(flag, "key") == Some(Str(flag.key)) && FlagMember(flag, "flag_type") == Some(Str(flag.flagType))
    ensures FlagMember(flag, "enabled") == Some(Bool(flag.enabled))
    ensures FlagMember(flag, "has_environment_default") == Some(Bool(flag.hasEnvironmentDefault))
    ensures FlagMember(flag, "default_value") == Some(flag.defaultValue)
    ensures FlagMember(flag, "environment_default_value") == NonNil(flag.environmentDefaultValue)
    ensures FlagMember(flag, "version") == Some(Num(flag.version as real))
    ensures FlagMember(flag, "rules") == Some(Arr(EncodeRules(flag.rules)))
  {
  }

  lemma FlagFrom(fields: map<string, Json>, flag: WireFlag)
    requires Field(fields, "key", "", IntoString) == Some(flag.key)
    requires Field(fields, "flag_type", "", IntoString) == Some(flag.flagType)
    requires Field(fields, "enabled", false, IntoBool) == Some(flag.enabled)
    requires Field(fields, "has_environment_default", false, IntoBool) == Some(flag.hasEnvironmentDefault)
    requires Field(fields, "default_value", Null, IntoAny) == Some(flag.defaultValue)
    requires Field(fields, "environment_default_value", Null, IntoAny) == Some(flag.environmentDefaultValue)
    requires Field(fields, "version", 0, IntoInt) == Some(flag.version)
    requires Field(fields, "rules", [], IntoRules) == Some(flag.rules)
    ensures DecodeFlag(Obj(fields)) == Some(flag)
  {
  }

  lemma FlagScalarsRoundTrip(flag: WireFlag)
    ensures var fields := EncodeFlag(flag).fields;
      && Field(fields, "key", "", IntoString) == Some(flag.key)
      && Field(fields, "flag_type", "", IntoString) == Some(flag.flagType)
      && Field(fields, "enabled", false, IntoBool) == Some(flag.enabled)
      && Field(fields, "has_environment_default", false, IntoBool) == Some(flag.hasEnvironmentDefault)
  {
    FlagMembers(flag);
    FlagField(flag, "key", "", IntoString);
    FlagField(flag, "flag_type", "", IntoString);
    FlagField(flag, "enabled", false, IntoBool);
    FlagField(flag, "has_environment_default", false, IntoBool);
  }

  lemma FlagValuesRoundTrip(flag: WireFlag)
    ensures var fields := EncodeFlag(flag).fields;
      && Field(fields, "default_value", Null, IntoAny) == Some(flag.defaultValue)
      && Field(fields, "environment_default_value", Null, IntoAny) == Some(flag.environmentDefaultValue)
  {
    FlagMembers(flag);
    FlagField(flag, "default_value", Null, IntoAny);
    FlagField(flag, "environment_default_value", Null, IntoAny);
  }

  lemma FlagVersionRoundTrip(flag: WireFlag)
    ensures var fields := EncodeFlag(flag).fields;
      && Field(fields, "version", 0, IntoInt) == Some(flag.version)
      && Field(fields, "rules", [], IntoRules) == Some(flag.rules)
  {
    FlagMembers(flag);
    FlagField(flag, "version", 0, IntoInt);
    IntRoundTrip(0, flag.version);
    FlagField(flag, "rules", [], IntoRules);
    RulesRoundTrip(flag.rules);
  }

  lemma FlagRoundTrip(flag: WireFlag)
    ensures DecodeFlag(EncodeFlag(flag)) == Some(flag)
  {
    FlagScalarsRoundTrip(flag);
    FlagValuesRoundTrip(flag);
    FlagVersionRoundTrip(flag);
    FlagFrom(EncodeFlag(flag).fields, flag);
  }

  lemma SegmentKeyRoundTrip(segment: Segment)
    ensures Field(EncodeSegment(segment).fields, "key", "", IntoString) == Some(segment.key)
  {
    assert |"key"| == 3 && |"conditions"| == 10;
    ExactField(EncodeSegment(segment).fields, "key", "", IntoString);
  }

  lemma SegmentConditionsRoundTrip(segment: Segment)
    ensures Field(EncodeSegment(segment).fields, "conditions", EMPTY_NODE, IntoNode) == Some(segment.conditions)
  {
    assert |"key"| == 3 && |"conditions"| == 10;
    ExactField(EncodeSegment(segment).fields, "conditions", EMPTY_NODE, IntoNode);
    NodeRoundTrip(segment.conditions);
  }

  lemma SegmentRoundTrip(segment: Segment)
    ensures DecodeSegment(EncodeSegment(segment)) == Some(segment)
  {
    SegmentKeyRoundTrip(segment);
    SegmentConditionsRoundTrip(segment);
  }

  lemma MapRoundTrip<T>(m: map<string, T>, encode: T -> Json, decode: Json -> Option<T>)
    requires forall key | key in m :: decode(encode(m[key])) == Some(m[key])
    ensures IntoMap(map[], EncodeMap(m, encode), decode) == Some(m)
  {
    var fields := EncodeMap(m, encode).fields;
    assert forall key | key in fields :: decode(fields[key]) == Some(m[key]);
    assert map[] + (map key | key in fields :: decode(fields[key]).value) == m;
  }

  lemma FlagsRoundTrip(flags: map<string, WireFlag>)
    ensures IntoFlags(map[], EncodeMap(flags, EncodeFlag)) == Some(flags)
  {
    forall key | key in flags ensures DecodeFlag(EncodeFlag(flags[key])) == Some(flags[key]) {
      FlagRoundTrip(flags[key]);
    }
    MapRoundTrip(flags, EncodeFlag, DecodeFlag);
  }

  lemma SegmentsRoundTrip(segments: map<string, Segment>)
    ensures IntoSegments(map[], EncodeMap(segments, EncodeSegment)) == Some(segments)
  {
    forall key | key in segments ensures DecodeSegment(EncodeSegment(segments[key])) == Some(segments[key]) {
      SegmentRoundTrip(segments[key]);
    }
    MapRoundTrip(segments, EncodeSegment, DecodeSegment);
  }

  lemma SnapshotField<T>(s: WireSnapshot, name: string, was: T, into: (T, Json) -> Option<T>)
    requires name in SNAPSHOT_MEMBERS
    ensures Field(EncodeSnapshot(s).fields, name, was, into)
         == match SnapshotMember(s, name) case None => Some(was) case Some(j) => into(was, j)
  {
    var fields := EncodeSnapshot(s).fields;
    forall k | k in fields && SameName(k, name) ensures k == name {
      assert |k| == |name| && Keys.FoldChar(k[0]) == Keys.FoldChar(name[0]);
    }
    ExactField(fields, name, was, into);
  }

  lemma SnapshotMembers(s: WireSnapshot)
    ensures SnapshotMember(s, "environment") == Some(Str(s.environment)) && SnapshotMember(s, "fetched_at") == Some(Str(s.fetchedAt))
    ensures SnapshotMember(s, "flags") == Some(EncodeMap(s.flags, EncodeFlag))
    ensures SnapshotMember(s, "segments") == Some(EncodeMap(s.segments, EncodeSegment))
  {
  }

  lemma SnapshotTextsRoundTrip(isTime: string -> bool, s: WireSnapshot)
    requires isTime(s.fetchedAt)
    ensures var fields := EncodeSnapshot(s).fields;
      && Field(fields, "environment", "", IntoString) == Some(s.environment)
      && Field(fields, "fetched_at", "", (was, j) => IntoTime(isTime, was, j)) == Some(s.fetchedAt)
  {
    SnapshotMembers(s);
    SnapshotField(s, "environment", "", IntoString);
    SnapshotField(s, "fetched_at", "", (was, j) => IntoTime(isTime, was, j));
  }

  lemma SnapshotMapsRoundTrip(s: WireSnapshot)
    ensures var fields := EncodeSnapshot(s).fields;
      && Field(fields, "flags", map[], IntoFlags) == Some(s.flags)
      && Field(fields, "segments", map[], IntoSegments) == Some(s.segments)
  {
    SnapshotMembers(s);
    FlagsRoundTrip(s.flags);
    SnapshotField(s, "flags", map[], IntoFlags);
    SegmentsRoundTrip(s.segments);
    SnapshotField(s, "segments", map[], IntoSegments);
  }

  lemma SnapshotFrom(isTime: string -> bool, fields: map<string, Json>, s: WireSnapshot)
    requires Field(fields, "environment", "", IntoString) == Some(s.environment)
    requires Field(fields, "fetched_at", "", (was, j) => IntoTime(isTime, was, j)) == Some(s.fetchedAt)
    requires Field(fields, "flags", map[], IntoFlags) == Some(s.flags)
    requires Field(fields, "segments", map[], IntoSegments) == Some(s.segments)
    ensures DecodeSnapshot(isTime, Obj(fields)) == Some(s.(requestID := ""))
  {
  }

  /** The SDK reads back all that it declares. */
  lemma SnapshotRoundTrip(isTime: string -> bool, s: WireSnapshot)
    requires isTime(s.fetchedAt)
    ensures DecodeSnapshot(isTime, EncodeSnapshot(s)) == Some(s.(requestID := ""))
  {
    SnapshotTextsRoundTrip(isTime, s);
    SnapshotMapsRoundTrip(s);
    SnapshotFrom(isTime, EncodeSnapshot(s).fields, s);
  }

  // ---------- The two ends

  function ToWire(fc: FlagConfig): WireFlag {
    WireFlag(fc.key, fc.enabled, fc.flagType, fc.defaultValue, fc.environmentDefaultValue, fc.hasEnvironmentDefault,
             fc.version, fc.rules)
  }

  function FromWire(flag: WireFlag): FlagConfig {
    FlagConfig(flag.key, flag.enabled, flag.flagType, flag.defaultValue, flag.environmentDefaultValue,
               flag.hasEnvironmentDefault, flag.version, flag.rules)
  }

  function ServerSnapshot(environment: string, flagRows: seq<FlagRow>, segmentRows: seq<SegmentRow>,
                          fetchedAt: string, requestID: string): WireSnapshot {
    var flags := FlagsOf(flagRows);
    WireSnapshot(environment, map key | key in flags :: ToWire(flags[key]), SegmentsOf(segmentRows), fetchedAt, requestID)
  }

  method HandleSDKSnapshot(environment: string, flagRows: seq<FlagRow>, segmentRows: seq<SegmentRow>,
                           fetchedAt: string, requestID: string) returns (body: Json)
    ensures body == EncodeSnapshot(ServerSnapshot(environment, flagRows, segmentRows, fetchedAt, requestID))
  {
    var flags: map<string, WireFlag> := map[];
    for i := 0 to |flagRows|
      invariant flags == map key | key in FlagsOf(flagRows[..i]) :: ToWire(FlagsOf(flagRows[..i])[key])
    {
      assert flagRows[..i + 1][..i] == flagRows[..i];
      var fc := BuildFlagConfig(flagRows[i]);
      if fc.Some? { flags := flags[fc.value.key := ToWire(fc.value)]; }
    }
    assert flagRows[..|flagRows|] == flagRows;
    var segments := LoadEngineSegments(segmentRows);
    body := EncodeSnapshot(WireSnapshot(environment, flags, segments, fetchedAt, requestID));
  }

  datatype CachedSnapshot = CachedSnapshot(flags: map<string, FlagConfig>, segments: map<string, Segment>)

  function Cached(r: WireSnapshot): CachedSnapshot {
    CachedSnapshot(map key | key in r.flags :: FromWire(r.flags[key]), r.segments)
  }

  /** `toSnapshot`: two fresh maps, filled key by key. */
  method ToSnapshot(r: WireSnapshot) returns (s: CachedSnapshot)
    ensures s == Cached(r)
  {
    var flags: map<string, FlagConfig>, segments: map<string, Segment> := map[], map[];
    var todo := r.flags.Keys;
    while todo != {}
      invariant todo <= r.flags.Keys
      invariant flags == map key | key in r.flags && key !in todo :: FromWire(r.flags[key])
    {
      var key :| key in todo;
      flags := flags[key := FromWire(r.flags[key])];
      todo := todo - {key};
    }
    todo := r.segments.Keys;
    while todo != {}
      invariant todo <= r.segments.Keys
      invariant segments == map key | key in r.segments && key !in todo :: r.segments[key]
    {
      var key :| key in todo;
      segments := segments[key := Segment(r.segments[key].key, r.segments[key].conditions)];
      todo := todo - {key};
    }
    s := CachedSnapshot(flags, segments);
  }

  /** What the SDK answers for one flag or all of them: the engine run on its cached copy. */
  function SdkResults(lib: Library, s: CachedSnapshot, context: map<string, Json>): map<string, EvaluateResult> {
    ResultsFor(lib, WorldFor(lib, context, s.segments), s.flags)
  }

  /** The main result: whatever rows the store holds, the body the server sends decodes, and the SDK's copy
      gives the server's own bulk result: the same flag keys, each with the same value, reason and rule. */
  lemma SdkEvaluatesLikeServer(lib: Library, environment: string, flagRows: seq<FlagRow>, segmentRows: seq<SegmentRow>,
                               isTime: string -> bool, fetchedAt: string, requestID: string, context: map<string, Json>)
    requires isTime(fetchedAt)
    ensures var received := DecodeSnapshot(isTime, EncodeSnapshot(ServerSnapshot(environment, flagRows, segmentRows, fetchedAt, requestID)));
      && received.Some?
      && SdkResults(lib, Cached(received.value), context)
         == ResultsFor(lib, WorldFor(lib, context, SegmentsOf(segmentRows)), FlagsOf(flagRows))
  {
    SnapshotRoundTrip(isTime, ServerSnapshot(environment, flagRows, segmentRows, fetchedAt, requestID));
    CachedIsServed(environment, flagRows, segmentRows, fetchedAt);
  }

  lemma CachedIsServed(environment: string, flagRows: seq<FlagRow>, segmentRows: seq<SegmentRow>, fetchedAt: string)
    ensures Cached(ServerSnapshot(environment, flagRows, segmentRows, fetchedAt, ""))
         == CachedSnapshot(FlagsOf(flagRows), SegmentsOf(segmentRows))
  {
    assert forall fc: FlagConfig :: FromWire(ToWire(fc)) == fc;
  }

  // ---------- Which rows are served

  /** A flag is served exactly when some row of its key builds, and then as the last such row says. */
  lemma {:induction false} FlagServed(rows: seq<FlagRow>, key: string) returns (i: nat)
    ensures key in FlagsOf(rows) ==>
      && i < |rows| && rows[i].flagKey == key && BuildFlagConfig(rows[i]) == Some(FlagsOf(rows)[key])
      && forall j | i < j < |rows| :: rows[j].flagKey == key ==> BuildFlagConfig(rows[j]).None?
    ensures key !in FlagsOf(rows) ==> forall j | 0 <= j < |rows| :: rows[j].flagKey == key ==> BuildFlagConfig(rows[j]).None?
  {
    if rows == [] { return 0; }
    var last := |rows| - 1;
    if rows[last].flagKey == key && BuildFlagConfig(rows[last]).Some? { return last; }
    i := FlagServed(rows[..last], key);
    assert forall j | 0 <= j < last :: rows[..last][j] == rows[j];
    assert key in FlagsOf(rows) <==> key in FlagsOf(rows[..last]);
  }

  /** The same for segments. */
  lemma {:induction false} SegmentServed(rows: seq<SegmentRow>, key: string) returns (i: nat)
    ensures key in SegmentsOf(rows) ==>
      && i < |rows| && rows[i].key == key && SegmentsOf(rows)[key].key == key
      && StoredTree(rows[i].rules) == Some(SegmentsOf(rows)[key].conditions)
      && forall j | i < j < |rows| :: rows[j].key == key ==> StoredTree(rows[j].rules).None?
    ensures key !in SegmentsOf(rows) ==> forall j | 0 <= j < |rows| :: rows[j].key == key ==> StoredTree(rows[j].rules).None?
  {
    if rows == [] { return 0; }
    var last := |rows| - 1;
    if rows[last].key == key && StoredTree(rows[last].rules).Some? { return last; }
    i := SegmentServed(rows[..last], key);
    assert forall j | 0 <= j < last :: rows[..last][j] == rows[j];
    assert key in SegmentsOf(rows) <==> key in SegmentsOf(rows[..last]);
  }
}
