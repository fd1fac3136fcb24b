# Flagstone, verified

A Dafny model of the parts of Flagstone (a feature-flag service and its Go SDK) whose behaviour is not obvious
from reading one function, with proofs of what those parts are for. It covers the rule engine and its validator, the snapshot
that carries flags to the SDK, the refresh-token protocol, the propagation of changes, the timed counters
that protect logins, and Base62.

| module | what it models |
|---|---|
| `Prelude`, `Json`, `Text` | option and result types, decoded JSON values (Go's `any`), Go's string helpers |
| `Keys` | which keys of an object encoding/json takes for a field, and the order in which JSONB hands them out |
| `Engine` | the evaluator: all/any/not/leaf trees, the depth guard, the path-local visited set, every operator |
| `Segments`, `Cycles` | what evaluation means: stable models, least fixpoints, unique solutions, and cycles that have none |
| `Cost` | how many nodes one evaluation can visit |
| `Evaluate` | first-match evaluation of one flag, and percentage rollouts |
| `Codec`, `Snapshot` | stored rules, the bulk endpoint, the snapshot on the wire and the SDK's copy of it |
| `Validator`, `Reading`, `Validated` | the write-time check of rules and segments, how the engine reads what passed it, and what that guarantees |
| `Tokens`, `Rotation` | the session and revoked-token tables, and the refresh protocol as interleaved steps |
| `Revocation`, `Replay`, `Escapes` | ending all of a user's sessions, replays and logouts, and runs in which they come too late |
| `Propagation`, `Hub`, `Sse` | change propagation end to end, the hub's client table, both ends of the event stream |
| `SdkStatus` | the SDK client's state, cache and callbacks over its whole life |
| `Timeline`, `RateLimit`, `Lockout` | the per-address limiter and the failed-login window |
| `Base62` | radix conversion with leading zeros, in place as the Go code does it, and what is built on it |

Main results:

* `Segments.EvaluationIsStableModel`: whenever no reference cycle passes under a `not`, the segment equations
  have exactly one stable model, and the engine's answer to any tree is the tree's truth value in it. Two
  special cases are drawn from it: without `not` in the segments the model is the least fixpoint, cycles included
  (`EvaluationIsLeastFixpoint`); with acyclic references it is the only solution of the equations, so the visited
  set cannot be observed (`VisitedSetIsUnobservable`). With a cycle under a `not` there may be no solution at all
  (`Cycles.OddCycleHasNoModel`), or several; on every such cycle the engine's answers are none (`Cycles.NegatedCycleIsUnsolved`).
* `Reading.AcceptedTreeIsSafeIffHarmless`, `Validated.ValidatedRulesRunQuietly`: the validator reads keys exactly, and
  the engine's decoder reads them up to case and ignores empty arrays. An accepted tree fits the depth cap and has
  known operators only if and only if a check on its raw keys, at the nodes where the two differ, says so; and then
  it never reaches the depth guard or an unknown operator. Accepted inputs that do are given.
* `Snapshot.SdkEvaluatesLikeServer`: the SDK's answers are the server's, through encoding with omitempty and decoding.
* `Rotation.TokenRotatesAtMostOnce`, `RevokedAndLiveAreDisjoint`, `Replay.ReplayIsSeenIff`, `Revocation.LeftoverIffRotated`,
  `KilledSessionsStayDead`: safety of token rotation over every interleaving of logins, refreshes, logouts,
  revocations and cleanups; exactly when a replay is seen, and exactly when the deletion of a user's sessions
  leaves one.
* `Propagation.QuiescentClientIsUpToDate`: dropped and coalesced notifications do no harm; and
  `ChangeArrivesIffFetched`: exactly when the client has a change, connected or not.
* `SdkStatus.ReadersAreNeverMisled`, `ErrorBesideDataIff`: what readers and callbacks see after every single write of
  a client's life, the writes inside a transition included.
* `RateLimit.AdmissionsAreBounded`, `Lockout.FailuresAreBounded`, and in both modules that cleanup is unobservable.
* `Sse.StreamRoundTrip` and the Base62 bijection.

Some expectations do not hold of the code. Each is recorded as a lemma with an input or a run, beside the exact
condition: `Cycles.NegatedCycleHasNoModel`, `Cycles.EvenCycleMissesItsModels`, `Validated.HollowNodeSlipsThrough`,
`Validated.FoldedNodeSlipsThrough`, `Propagation.ChangeBeforeConnectIsMissed`,
`Escapes.ReplayBetweenLookupAndReadEscapes`, `Escapes.ReplayAfterReadEscapes`, `Escapes.ReplayAfterCleanupEscapes`,
`Escapes.LogoutAfterRotationEscapes`, `Escapes.DeletionMissesRotation`, `Replay.RefreshBeatsLogout`,
`Hub.Hub.Serve` (a client over the cap has its channel closed twice), `SdkStatus.ErrorBesideDataIsSeen`,
`RateLimit.FirstRequestIsAdmitted`.

The code and its documentation disagree in places, and the model follows the code: the design text says that a
segment cycle is logged, and the code answers false silently; the repository's README speaks of a token bucket,
and the limiter is a fixed window; "locked for 15 minutes" is a sliding window over recorded failures; the SDK's
stream parser trims all surrounding white space of an event type, where the HTML standard strips one space.

What stands outside becomes a parameter: regular-expression matching and FNV-1a are functions in
`Evaluate.Library`, Go's reading of RFC 3339 is `isTime`, random bytes and new ids are arguments, the clock is an argument or a step. New session ids
and token hashes are assumed fresh. Every step a server can take may come at any time and in any order that its
own request allows.

The transactions that rotate a token and log out are serializable, and each is one step. The deletion of all of a
user's sessions is a plain DELETE at the database's default isolation: it finds its rows in one step and deletes
those in another, and a rotation that commits in between takes its new row out of reach. `Login` in `Rotation` stands
for every insertion that begins a family of sessions, the first-run setup's (`internal/api/setup.go:263`) included.

## Model

| member | source | states |
|---|---|---|
| `Engine.LoopsAreConnectives` | pkg/engine/conditions.go:18-34 | the short-circuiting loops over children compute conjunction and disjunction |
| `Segments.EvaluationIsStableModel` | pkg/engine/segments.go:3-20 | if no reference cycle passes under a `not`, the segment equations have exactly one stable model and the answer to every tree is its truth value in it |
| `Segments.EvalIsSound` | pkg/engine/conditions.go:9-41 | an answer of true is true in the stable model, for every tree and every visited set clear of lower ranks: on a cycle the guard only turns true into false |
| `Segments.EvalIsComplete` | pkg/engine/conditions.go:9-41 | whatever is derived in n rounds, evaluation finds, although the visited guard cuts every path through a segment already being evaluated |
| `Segments.EvalAgreesBelow` | pkg/engine/conditions.go:36-38 | under a `not`, where only segments of lower rank can be asked for, answer and model agree in both directions |
| `Segments.StableModelExists` | pkg/engine/segments.go:3-20 | segment equations without a cycle under a `not` have a stable model |
| `Segments.StableIsModel` | pkg/engine/segments.go:3-20 | a stable model solves the segment equations |
| `Segments.EvaluationIsLeastFixpointUnderCap` | pkg/engine/conditions.go:9-41 | with `not`-free segments, evaluation decides the least fixpoint of the equations cut at the depth cap, whatever cycles there are |
| `Segments.EvaluationIsLeastFixpoint` | pkg/engine/segments.go:3-20 | for trees within the cap, true exactly when the whole tree is true in the least fixpoint of the whole equations |
| `Segments.LeastModelIsLeast` | pkg/engine/segments.go:3-20 | that fixpoint solves the equations and lies below every other solution |
| `Segments.CapIsIrrelevant` | pkg/engine/conditions.go:10-15 | the depth cap does not change the meaning of a tree that fits below it |
| `Segments.VisitedSetIsUnobservable` | pkg/engine/segments.go:13-17 | with acyclic references and `not` anywhere, the equations have one solution and evaluation is the plain meaning of the tree in it |
| `Segments.SolutionsAgree` | pkg/engine/segments.go:3-20 | two solutions of acyclic equations give every tree the same truth value |
| `Cycles.NegatedCycleHasNoModel` | pkg/engine/conditions.go:36-38 | a segment that negates itself has no solution, and the engine answers true |
| `Cycles.EvenCycleMissesItsModels` | pkg/engine/segments.go:13-17 | two segments that negate each other have two solutions, and the engine finds neither segment true, which is not one of them |
| `Cycles.CycleAnswersParity` | pkg/engine/segments.go:3-20 | on every cycle of segments that ask for or negate the next one, the engine answers true for all exactly when the number of negations is odd |
| `Cycles.NegatedCycleIsUnsolved` | pkg/engine/conditions.go:36-38 | on every such cycle with a negation the engine's answers do not solve the segment equations |
| `Cycles.OddCycleHasNoModel` | pkg/engine/conditions.go:36-38 | with an odd number of negations nothing solves them |
| `Cost.NodeVisits` | pkg/engine/conditions.go:9-41 | visits are bounded by tree size times the cost of one hop with the segments still unvisited |
| `Cost.EvaluationIsBounded` | pkg/engine/segments.go:13-19 | with k segments and trees of at most m nodes, an evaluation visits at most m + m^2 + ... + m^(k+1) nodes |
| `Codec.NodeRoundTrip` | pkg/engine/types.go:94-104 | a condition tree encoded with omitempty decodes to itself |
| `Codec.RuleRoundTrip` | pkg/engine/types.go:71-81 | a rule with its optional rollout and value decodes to itself |
| `Codec.RulesRoundTrip` | pkg/engine/types.go:66-75 | a list of rules decodes to itself |
| `Evaluate.ResultIsLeastApplicableRule` | pkg/engine/engine.go:53-127 | a disabled flag is false without a rule; an enabled one matches exactly when some rule applies, with the index and value of the least such rule; otherwise the environment's default goes before the flag's, with index -1 |
| `Evaluate.RaisingRolloutIsMonotone` | pkg/engine/engine.go:62-91 | raising one rule's percentage leaves a user's result alone or moves it to that rule, and never loses a user the rule already served |
| `Evaluate.ServedCount` | pkg/engine/rollout.go:14-18 | how many of the first n hash values fall in p percent |
| `Evaluate.RolloutShare` | pkg/engine/rollout.go:5-19 | exactly 42949672 p + min(p, 96) of all 32-bit hash values are served at p percent, and a user is in the rollout exactly when its hash is one of them |
| `Validator.ValidateConditionNode` | internal/api/rules_validator.go:94-170 | the first problem of the tree, and by how much the shared counter has grown when it is found |
| `Validator.ValidateChildren` | internal/api/rules_validator.go:101-137 | the first problem among the children in order, with the counter carried from one to the next |
| `Validator.PassesIffAccepted` | internal/api/rules_validator.go:94-170 | a node passes exactly when its whole tree is acceptable, and then the counter has grown by exactly the size of the tree |
| `Validator.ValidateFlagRules` | internal/api/rules_validator.go:35-69 | passes exactly when size, rule count, every rule's conditions and every rule's node count are within the limits |
| `Validator.ValidateSegmentRules` | internal/api/rules_validator.go:73-88 | passes exactly when the document is small enough and one acceptable tree; there is no limit on its nodes |
| `Reading.AcceptedTreeIsSafeIffHarmless` | internal/api/rules_validator.go:94-170 | an accepted tree that decodes fits the depth cap and has known operators only if and only if, at every node where a key in other case or an empty array makes validator and engine see different forms, the check on the raw keys passes |
| `Reading.SafeIffReadsSafe` | pkg/engine/types.go:94-104 | for every raw tree that decodes, accepted or not, that check (the member the decoder takes, level by level, and the operators at the leaves) passes if and only if the decoded tree fits the cap and has known operators only |
| `Reading.PlainTreeHasCountedSize` | internal/api/rules_validator.go:94-98 | where they see the same forms throughout, the engine's tree has exactly the size the validator counted |
| `Validated.AcceptedRuleIsSafeIffHarmless` | internal/api/rules_validator.go:51-67 | the same for a rule, whose `conditions` key can be spelled in several ways; a plainly spelled rule is harmless and has at most 50 nodes |
| `Validated.SafeTreesRunQuietly` | pkg/engine/conditions.go:9-41 | over safe segments a safe tree raises neither warning, and evaluates the same under every larger depth cap |
| `Validated.ValidatedRulesRunQuietly` | pkg/engine/conditions.go:10-15 | accepted and harmless rules over accepted and harmless segments never reach the depth cut-off or the unknown-operator branch, and equal the evaluator with a larger cap |
| `Validated.PlainRuleIsAcceptedAndHarmless` | internal/api/rules_validator.go:51-67 | a plainly spelled one-leaf rule is accepted, decodes and is harmless |
| `Validated.HollowNodeSlipsThrough` | internal/api/rules_validator.go:101-118 | an empty `all` is composite for the validator and absent for the engine, so an unknown operator beside it is accepted and reached |
| `Validated.FoldedNodeSlipsThrough` | internal/api/evaluate.go:314-320 | an `ALL` is absent for the validator and a composite for the engine's decoder, so an unknown operator below it is accepted and reached |
| `Snapshot.LoadEngineSegments` | internal/api/evaluate.go:258-278 | the segments whose stored trees decode, by key |
| `Snapshot.FlagServed` | internal/api/evaluate.go:314-346 | a flag is served exactly when some row of its key builds, and then as the last such row says |
| `Snapshot.SegmentServed` | internal/api/evaluate.go:264-276 | a segment is served exactly when some row of its key decodes, and then as the last such row says |
| `Snapshot.EvaluateAll` | pkg/engine/engine.go:110-120 | every flag evaluated independently, one result per key, a later flag with the same key winning |
| `Snapshot.HandleEvaluateFlags` | internal/api/evaluate.go:170-256 | the bulk result is each buildable flag's own result against the project's segments |
| `Snapshot.HandleSDKSnapshot` | internal/api/sdk_snapshot.go:42-146 | the body encodes exactly the buildable flags, the decodable segments, the environment, the time and the request id |
| `Snapshot.ToSnapshot` | pkg/sdk/types.go:33-55 | the cached copy has exactly the received keys, flags and segments |
| `Snapshot.FlagRoundTrip` | internal/api/sdk_snapshot.go:26-35 | a flag's wire form decodes to itself, omitted members included |
| `Snapshot.SnapshotRoundTrip` | pkg/sdk/types.go:10-31 | the SDK decodes every snapshot body with a valid time to what was encoded, but for the request id, which it does not declare |
| `Snapshot.CachedIsServed` | pkg/sdk/types.go:33-55 | the SDK's copy of a served snapshot is the server's own flags and segments |
| `Snapshot.SdkEvaluatesLikeServer` | internal/api/sdk_snapshot.go:66-128 | for all stored rows and contexts, the SDK's results over the decoded snapshot equal the server's bulk results, with the same flag keys |
| `Tokens.Tables.Create` | internal/storage/session_store.go:27-62 | inserts the row unless its id or token hash is taken, and otherwise changes nothing |
| `Tokens.Tables.GetByRefreshHash` | internal/storage/session_store.go:142-171 | finds a row with the hash exactly when there is one |
| `Tokens.Tables.DeleteByID` | internal/storage/session_store.go:175-190 | deletes the row, and fails exactly when there was none |
| `Tokens.Tables.RotateTx` | internal/api/auth.go:250-271 | all three writes or none: a missing old row or a clashing new one restores both tables |
| `Tokens.Tables.LogoutTx` | internal/api/auth.go:324-334 | both writes or none |
| `Tokens.Tables.HandleRefresh` | internal/api/auth.go:183-271 | run alone: a revoked hash ends all sessions of its user, an unknown one or a user without a role changes nothing, an expired session is deleted, a live one is exchanged for one new session and its hash revoked |
| `Tokens.Tables.HandleLogout` | internal/api/auth.go:320-336 | run alone: exactly the token's session goes and its hash is revoked |
| `Rotation.StepKeepsInv` | internal/api/auth.go:183-377 | every step of login, refresh, logout, revocation and cleanup keeps the protocol's invariant |
| `Rotation.BurningKeepsInv` | internal/api/auth.go:250-261 | revoking the old hash and deleting its row keeps the invariant: the spent hash can never be live again |
| `Rotation.AddingKeepsInv` | internal/api/auth.go:262-264 | inserting a fresh session into a family with no live member keeps the invariant |
| `Rotation.TokenRotatesAtMostOnce` | internal/api/auth.go:250-271 | in every run a refresh token is exchanged successfully at most once, even after the row that revokes it has been cleaned up |
| `Rotation.RevokedAndLiveAreDisjoint` | internal/storage/session_store.go:175-190 | in every reachable state no live session's hash is revoked, each login's family has at most one live session, and a revoked row names the user the token was issued to |
| `Revocation.LeftoverIffRotated` | internal/storage/session_store.go:194-203 | in every run, a deletion of a user's sessions leaves one from an earlier login if and only if, between finding its rows and deleting them, a rotation of such a session committed whose row is still there |
| `Revocation.KilledSessionsStayDead` | internal/api/account.go:282-296 | after reuse, revoke-all or a password change without such a rotation, every later session of the user descends from a login whose row was inserted after the deletion found its rows, whatever was in flight |
| `Revocation.UndisturbedDeletionIsComplete` | internal/api/auth.go:357-360 | a deletion that no step comes between leaves the user no session |
| `Replay.RevokedUntilCleaned` | internal/storage/revoked_token_store.go:28-93 | in every run a rotated hash is revoked, with the session's user, exactly until a cleanup that comes after the session's expiry |
| `Replay.ReplayIsSeenIff` | internal/api/auth.go:194-196 | in every run, a refresh with a token that is rotated at some step is seen as a replay if and only if it looks the token up after that step and before any cleanup that comes after the token's expiry; its next step then begins the deletion of that user's sessions |
| `Replay.UnseenReplayIsRefused` | internal/api/auth.go:204-209 | at any time after the rotation, a replay that was not seen finds no session and changes nothing |
| `Replay.LateRotationFails` | internal/api/auth.go:250-271 | at any time after the rotation, another rotation of the same token that had read the session changes nothing |
| `Escapes.ReplayBetweenLookupAndReadEscapes` | internal/api/auth.go:194-209 | a run in which a replay looks up before the rotation and reads after it: it is refused and the new session lives |
| `Escapes.ReplayAfterReadEscapes` | internal/api/auth.go:250-271 | a run in which a replay reads before the rotation: its transaction fails and the new session lives |
| `Escapes.ReplayAfterCleanupEscapes` | internal/storage/revoked_token_store.go:86-93 | a run in which a replay comes after expiry and cleanup: it finds nothing and the new session lives |
| `Escapes.DeletionMissesRotation` | internal/storage/session_store.go:194-203 | a run in which a deletion of all sessions ends with the user's new session alive |
| `Escapes.LogoutAfterRotationEscapes` | internal/api/auth.go:320-336 | a run in which a logout reads after the rotation and the login's new session stays alive |
| `Revocation.OldFamiliesStayOut` | internal/api/auth.go:250-266 | once no session of a user's earlier logins is left, none comes back in any later state |
| `Rotation.FamilyBeginsWithLogin` | internal/api/auth.go:136-181 | every family number stands for a login step of that user, taken when that many families existed |
| `Replay.LogoutEndsSessionIffStillLive` | internal/api/auth.go:324-334 | a logout's transaction ends the family's session exactly when the row it read is still there, and otherwise changes nothing |
| `Replay.LogoutOverRuns` | internal/api/auth.go:320-336 | in every run, a logout's read finds its session exactly when the token's row is there, and its transaction ends the login's family exactly when the row is still there; otherwise the logout ends with nothing changed |
| `Replay.LogoutAfterRotationChangesNothing` | internal/api/auth.go:320-336 | in every run, once a token has been rotated no step of a logout with it changes the database, whether it had read the session or not |
| `Replay.RevokeOneOverRuns` | internal/api/account.go:215-280 | in every run, revoking one session ends its login's family exactly when its row is still there; a rotation that committed first leaves the revocation without effect |
| `Replay.RefreshBeatsLogout` | internal/api/auth.go:320-336 | of a refresh and a logout that read the same session, the first to commit wins: a refresh first leaves a live session behind the logout |
| `Propagation.CoveredStays` | internal/streaming/hub.go:181-194 | each step keeps a published change covered by something still on its way; dropping on a full queue and coalescing into a raised signal included |
| `Propagation.StepKeepsInv` | pkg/sdk/client.go:248-293 | every step keeps the system invariant, and never replaces the cached snapshot by an older one |
| `Propagation.QuiescentClientIsUpToDate` | pkg/sdk/stream.go:137-151 | when channel, queue, wire and signal are empty, no fetch is in flight and the last succeeded, the SDK's flags and segments are at least as new as every change published while connected |
| `Propagation.ChangeArrivesIffFetched` | pkg/sdk/client.go:248-293 | in every state of every run, connected or not, the client has a change if and only if some successful fetch did its read of that kind after the change was written |
| `Propagation.PublishedWhileConnectedIsAnnounced` | internal/api/server.go:475-506 | whatever was published for the environment since the connection came up is among those changes |
| `Propagation.CacheNeverGoesBack` | pkg/sdk/client.go:255-293 | over any run flags and segments in the cache never get older, and are never newer than the store |
| `Propagation.ChangeBeforeConnectIsMissed` | pkg/sdk/client.go:152-173 | a change between Start's fetch and the stream's connection reaches nobody: a run that ends quiescent with an older snapshot |
| `Hub.Hub.constructor` | internal/streaming/hub.go:61-78 | an empty hub, with a cap of 10 when none is given |
| `Hub.Hub.Register` | internal/streaming/hub.go:88-103 | accepted exactly when the key's count is below the cap; a rejected client's channel is closed and nothing else changes |
| `Hub.Hub.Admit` | internal/streaming/hub.go:95-99 | registration keeps the counts equal to the number of registered clients per key and the table free of empty entries |
| `Hub.Hub.Unregister` | internal/streaming/hub.go:104-114 | the client is gone, its channel is closed once more, and that panics exactly when it was closed before |
| `Hub.Hub.Broadcast` | internal/streaming/hub.go:181-194 | every registered client of the event's environment, and no other, gets the event unless its queue is full |
| `Hub.Client.Offer` | internal/streaming/hub.go:185-192 | a full queue drops the event; delivered and queued events stay an in-order subsequence of those published |
| `Hub.Hub.Take` | internal/streaming/handler.go:87-92 | the handler takes the oldest queued event, and the order is kept |
| `Hub.Hub.Serve` | internal/streaming/handler.go:54-98 | registering, any events, deliveries and other clients' comings and goings, and unregistering panics exactly when the hub was at its cap for the key, unless another connection crashes the process first |
| `Hub.SubsequenceKeepsOrder` | internal/streaming/hub.go:184-193 | what the per-client invariant says: an increasing choice of positions among the published events |
| `Sse.Consume` | pkg/sdk/stream.go:103-135 | the scanner loop dispatches what feeding its lines to the parser dispatches, and leaves the same last event id |
| `Sse.StreamRoundTrip` | internal/streaming/handler.go:101-104 | parsing the concatenated output of the writer gives exactly the events written, in order; of a stream cut anywhere, exactly those written in full |
| `Sse.TruncationDispatchesPrefix` | pkg/sdk/stream.go:107-133 | from any parser state between events, a truncated stream dispatches a prefix of the events |
| `Sse.ExpectedIsExactIff` | pkg/sdk/stream.go:120-131 | an event survives unchanged exactly when its type has no surrounding white space and its data no final carriage return |
| `SdkStatus.Client.New` | pkg/sdk/client.go:64-111 | fails exactly on an unreadable or undecodable bootstrap (a malformed time included), or on a missing endpoint or key while online; otherwise callbacks are added first, so they hear of the bootstrap and of offline mode |
| `SdkStatus.Client.Transition` | pkg/sdk/status.go:105-121 | no change and no callback when the state is the same; otherwise the state is stored, then the ready channel closed on leaving Initializing, then every callback told once, in order |
| `SdkStatus.Client.Start` | pkg/sdk/client.go:120-178 | only the first call works, and every call returns its error; a stored snapshot decides between Stale and Error when the fetch fails |
| `SdkStatus.Client.DoRefresh` | pkg/sdk/client.go:272-293 | a refresh that succeeds fills the cache before it says Connected, and one that fails says Stale or Error by what the cache holds |
| `SdkStatus.LifeSettles` | pkg/sdk/client.go:64-293 | every write of every life is one that readers may see, and between calls the client is settled |
| `SdkStatus.ReadersAreNeverMisled` | pkg/sdk/status.go:105-121 | after any single write of any life, inside a transition too: Connected and Stale have data, a closed ready channel means not Initializing and the converse fails only just before the channel is closed, Initializing is never re-entered, Offline is never left, and every callback has heard exactly the changes since it was added, but for the one it is about to be told |
| `SdkStatus.SettledReadersKnowAll` | pkg/sdk/status.go:105-121 | between calls the ready channel is closed exactly outside Initializing and every callback is up to date |
| `SdkStatus.CallbacksHearChanges` | pkg/sdk/status.go:114-120 | consecutive notifications of a callback differ, none says Initializing, and the last one is the present state, or the one before while a transition has yet to tell it |
| `SdkStatus.LoadedNeverTurnsToError` | pkg/sdk/client.go:272-288 | once the cache is loaded it stays loaded, and the client does not go to Error any more |
| `SdkStatus.SettledStateTellsAll` | pkg/sdk/status.go:14-20 | between calls: Offline exactly in offline mode, Error exactly when the last fetch failed with nothing loaded, Stale exactly when it failed with data, and Initializing exactly before Start without a bootstrap |
| `SdkStatus.ErrorBesideDataIff` | pkg/sdk/client.go:284-287 | after any single write of any life a reader sees Error beside a loaded cache if and only if a client in Error is inside a successful refresh, between its Store and its move to Connected |
| `SdkStatus.ErrorBesideDataIsSeen` | pkg/sdk/client.go:272-287 | such a moment exists: a failed first fetch, then a refresh that succeeds |
| `RateLimit.IPRateLimiter.Allow` | internal/api/middleware/rate_limit.go:45-57 | the new table and answer of one request; a denied request does not move the end of the block |
| `RateLimit.IPRateLimiter.Cleanup` | internal/api/middleware/rate_limit.go:59-72 | exactly the entries whose window is over are removed |
| `RateLimit.AdmissionsAreBounded` | internal/api/middleware/rate_limit.go:45-57 | for every limit, each window admits at most max(1, limit) requests of an address and any closed interval of one window length at most twice that, in every run with cleanup at any time |
| `RateLimit.LimitIsKeptIffPositive` | internal/api/middleware/rate_limit.go:50-56 | the limit itself is kept in every run if and only if it is at least 1 |
| `RateLimit.FirstRequestIsAdmitted` | internal/api/middleware/rate_limit.go:50-53 | whatever the limit, the first request of an address is admitted |
| `RateLimit.CleanupIsUnobservable` | internal/api/middleware/rate_limit.go:59-72 | cleanup at arbitrary times changes no answer |
| `Lockout.LoginAttemptStore.CountSince` | internal/storage/login_attempt_store.go:58-70 | the number of the user's rows at that time or later |
| `Lockout.LoginAttemptStore.ClearForUser` | internal/storage/login_attempt_store.go:74-80 | exactly the user's rows go, the rest keep their order |
| `Lockout.LoginAttemptStore.DeleteOlderThan` | internal/storage/login_attempt_store.go:84-91 | exactly the rows before the cutoff go |
| `Lockout.CleanupNeverUnlocks` | internal/api/server.go:530-535 | in every run the lockout decision equals the one without any cleanup |
| `Lockout.FailuresAreBounded` | internal/api/auth.go:81-98 | with at most k logins of a user in flight, no 15-minute interval holds more than 4 + k failures since the last success |
| `Base62.ConversionIsInvertible` | internal/auth/base62.go:23-87 | converting digits to another base and back, leading zeros counted apart, changes nothing |
| `Base62.DigitsAreCanonical` | internal/auth/base62.go:24-29 | digits are their leading zeros followed by the shortest digits of their value |
| `Base62.DecodeEncode` | internal/auth/base62.go:23-87 | decoding an encoding gives back every byte string |
| `Base62.EncodeDecode` | internal/auth/base62.go:57-87 | encoding a decoding gives back every string over the alphabet |
| `Base62.EncodedLength` | internal/auth/base62.go:42 | n bytes encode to between n and 2n characters |
| `Base62.Base62Encode` | internal/auth/base62.go:23-54 | the DivMod loop, the appended zeros and the reverse compute the specified encoding within the preallocated capacity |
| `Base62.Base62Decode` | internal/auth/base62.go:57-87 | fails exactly on a string outside the alphabet, naming its first such character; otherwise computes the specified decoding |
| `Base62.ReverseBytes` | internal/auth/base62.go:89-93 | the buffer's contents in reverse order |
| `Base62.GenerateOpaqueToken` | internal/auth/token.go:28-42 | 0 means 32 bytes, fewer than 16 or no randomness is refused, and the token encodes the random bytes |
| `Base62.GenerateAPIKey` | internal/auth/apikey.go:12-47 | succeeds exactly for live and test hints, up to case and space, and a token that can be made; every key has a stored prefix of exactly 12 characters |

## Left out

- JSON text: documents are taken as a JSONB column returns them, each key of an object once and in JSONB's order. In a body that does not come from the database (the SDK's bootstrap or data store) several spellings of one member may come in another order. Number spelling and the difference between a nil and an empty slice are not captured.
- A slice that three spellings of one member fill in turn, the second one shortening it: Go shows the elements cut off again, the model starts them afresh.
- Numbers are reals: float rounding, NaN and infinities are not modelled; version numbers are 64-bit integers.
- Panics inside the evaluator and the recover around them (`pkg/engine/engine.go:33-49`): the modelled evaluator has no operation that panics.
- Log lines, metrics and audit rows, except the warnings and errors that the engine reports through its hooks.
- Regular expressions, FNV-1a, SHA-256, bcrypt and JWT: parameters, or absent. Token hashes are taken as unique to their tokens.
- SQL and HTTP: each table is a map or a sequence, a transaction is one step with rollback, and request decoding, cookies and status codes are absent.
- Snapshot.HandleSDKSnapshot: store errors end the handler before any of this and are left out.
- Snapshot.LoadEngineSegments: takes the rows as already read; the store's error path is not modelled.
- Hub.Hub.Register: is the hub's own register case; the non-blocking send in front of it, which answers 429 while the loop is busy, is left out.
- Hub.Hub.Serve: every other client joins before it leaves, and at most once.
- Redis persistence, `Last-Event-ID` and replay: event ids are never assigned, so nothing could be said of them.
- Propagation is modelled on values, as a state machine over the steps of several goroutines; liveness (that a quiescent state is reached) is not claimed.
- Reconnection back-off of the stream: any time may pass between steps; forced resyncs are a step that raises the signal.
- Sse.Consume: event data stays text; decoding it to a map changes nothing the client acts on.
- Sse.TruncationDispatchesPrefix: cuts the stream between two characters, never inside one.
- SdkStatus.Client.AddOnStatusChange: is not interleaved with a transition; the source copies the callbacks under a lock in the middle of one.
- SdkStatus.Client.Start: the data store's Save and Close, and the goroutines it starts, are left out; refreshes are calls of `DoRefresh`.
- SdkStatus.Client.New: the options that do not touch the state.
- RateLimit.IPRateLimiter.Allow: the mutex is left out, each call is one step; `Reset` is used by tests only and left out.
- Lockout.FailuresAreBounded: counts the check and the recording of a failure each as one step at one time; failures before the user's last success are gone by design.
- Rotation.StepKeepsInv: takes a request's user and role lookups as steps that change nothing; any request may also give up at any step.
- The expiry job for sessions (`internal/storage/session_store.go:206-218`) is never scheduled and not modelled.
- Validator.ValidateFlagRules: says that a problem is found, not which message the user reads.
- Optimistic locking, role ordering, slugs, CRUD handlers, usage counters, typed SDK getters and the web console: they would only add easy members.
