/** Account lockout after failed logins: `internal/storage/login_attempt_store.go`, the window check in
    `internal/api/auth.go` and the retention job in `internal/api/server.go`. Times are in nanoseconds. */
module Lockout {
  import opened Timeline

  type User = nat

  const MAX_FAILED_LOGIN_ATTEMPTS := 5
  const SECOND := 1_000_000_000
  const LOGIN_LOCKOUT_WINDOW := 15 * 60 * SECOND
  const LOGIN_ATTEMPT_RETENTION := 60 * 60 * SECOND

  function Without(rows: seq<Stamp<User>>, user: User): seq<Stamp<User>> {
    if rows == [] then []
    else
      var front, last := Without(rows[..|rows| - 1], user), rows[|rows| - 1];
      if last.key == user then front else front + [last]
  }

  function NotOlderThan(rows: seq<Stamp<User>>, cutoff: Time): seq<Stamp<User>> {
    if rows == [] then []
    else
      var front, last := NotOlderThan(rows[..|rows| - 1], cutoff), rows[|rows| - 1];
      if last.at < cutoff then front else front + [last]
  }

  class LoginAttemptStore {
    var rows: seq<Stamp<User>>

    constructor ()
      ensures rows == []
    {
      rows := [];
    }

    method Record(user: User, now: Time)
      modifies this
      ensures rows == old(rows) + [Stamp(user, now)]
    {
      rows := rows + [Stamp(user, now)];
    }

    method CountSince(user: User, since: Time) returns (count: nat)
      ensures count == Since(rows, user, since)
    {
      count := 0;
      for i := 0 to |rows|
        invariant count == Since(rows[..i], user, since)
      {
        assert rows[..i + 1][..i] == rows[..i];
        if rows[i].key == user && since <= rows[i].at { count := count + 1; }
      }
      assert rows[..|rows|] == rows;
    }

    method ClearForUser(user: User)
      modifies this
      ensures rows == Without(old(rows), user)
    {
      var kept := [];
      for i := 0 to |rows|
        invariant kept == Without(rows[..i], user)
      {
        assert rows[..i + 1][..i] == rows[..i];
        if rows[i].key != user { kept := kept + [rows[i]]; }
      }
      assert rows[..|rows|] == rows;
      rows := kept;
    }

    method DeleteOlderThan(cutoff: Time)
      modifies this
      ensures rows == NotOlderThan(old(rows), cutoff)
    {
      var kept := [];
      for i := 0 to |rows|
        invariant kept == NotOlderThan(rows[..i], cutoff)
      {
        assert rows[..i + 1][..i] == rows[..i];
        if !(rows[i].at < cutoff) { kept := kept + [rows[i]]; }
      }
      assert rows[..|rows|] == rows;
      rows := kept;
    }
  }

  predicate Locked(rows: seq<Stamp<User>>, user: User, now: Time) {
    Since(rows, user, now - LOGIN_LOCKOUT_WINDOW) >= MAX_FAILED_LOGIN_ATTEMPTS
  }

  /** The table, the clock, the attempts that have passed the check and not yet ended, and the table as it
      would be had no old row ever been cleaned up: each user's failures since the last success. */
  datatype State = State(rows: seq<Stamp<User>>, now: Time, inFlight: multiset<User>, failures: seq<Stamp<User>>)

  datatype Action =
    | Check(user: User)
    | Fail(user: User)
    | Succeed(user: User)
    | GiveUp(user: User)
    | Cleanup
    | Tick(now: Time)

  predicate Enabled(s: State, a: Action) {
    match a
    case Check(_) => true
    case Fail(user) => user in s.inFlight
    case Succeed(user) => user in s.inFlight
    case GiveUp(user) => user in s.inFlight
    case Cleanup => true
    case Tick(now) => s.now <= now
  }

  function Apply(s: State, a: Action): State
    requires Enabled(s, a)
  {
    match a
    case Check(user) => if Locked(s.rows, user, s.now) then s else s.(inFlight := s.inFlight + multiset{user})
    case Fail(user) =>
      s.(inFlight := s.inFlight - multiset{user}, rows := s.rows + [Stamp(user, s.now)],
         failures := s.failures + [Stamp(user, s.now)])
    case Succeed(user) =>
      s.(inFlight := s.inFlight - multiset{user}, rows := Without(s.rows, user), failures := Without(s.failures, user))
    case GiveUp(user) => s.(inFlight := s.inFlight - multiset{user})
    case Cleanup => s.(rows := NotOlderThan(s.rows, s.now - LOGIN_ATTEMPT_RETENTION))
    case Tick(now) => s.(now := now)
  }

  ghost predicate Step(states: seq<State>, actions: seq<Action>, i: nat) {
    i < |actions| && i + 1 < |states| && Enabled(states[i], actions[i]) && states[i + 1] == Apply(states[i], actions[i])
  }

  ghost predicate Run(states: seq<State>, actions: seq<Action>) {
    && |states| == |actions| + 1
    && states[0].rows == states[0].failures == [] && states[0].inFlight == multiset{}
    && forall i: nat | i < |actions| :: Step(states, actions, i)
  }

  lemma StepAt(states: seq<State>, actions: seq<Action>, i: nat)
    requires Run(states, actions) && i < |actions|
    ensures Enabled(states[i], actions[i]) && states[i + 1] == Apply(states[i], actions[i])
  {
    assert Step(states, actions, i);
  }

  lemma {:induction false} WithoutCounts(rows: seq<Stamp<User>>, user: User, key: User, from: Time)
    ensures Since(Without(rows, user), key, from) == if key == user then 0 else Since(rows, key, from)
    ensures forall to :: Count(Without(rows, user), key, from, to) <= Count(rows, key, from, to)
  {
    if rows != [] {
      var front, last := rows[..|rows| - 1], rows[|rows| - 1];
      WithoutCounts(front, user, key, from);
      Push(Without(front, user), last, key, from);
    }
  }

  lemma {:induction false} CleaningCounts(rows: seq<Stamp<User>>, cutoff: Time, key: User, from: Time)
    requires cutoff <= from
    ensures Since(NotOlderThan(rows, cutoff), key, from) == Since(rows, key, from)
  {
    if rows != [] {
      var front, last := rows[..|rows| - 1], rows[|rows| - 1];
      CleaningCounts(front, cutoff, key, from);
      Push(NotOlderThan(front, cutoff), last, key, from);
    }
  }

  // ---------- Cleanup

  /** The table agrees with the uncleaned one as far back as the retention goes. */
  ghost predicate Agrees(s: State, user: User) {
    forall from | s.now - LOGIN_ATTEMPT_RETENTION <= from :: Since(s.rows, user, from) == Since(s.failures, user, from)
  }

  lemma StepKeepsAgrees(s: State, a: Action, user: User)
    requires Enabled(s, a) && Agrees(s, user)
    ensures Agrees(Apply(s, a), user)
  {
    var t := Apply(s, a);
    forall from | t.now - LOGIN_ATTEMPT_RETENTION <= from ensures Since(t.rows, user, from) == Since(t.failures, user, from) {
      match a
      case Fail(key) => Push(s.rows, Stamp(key, s.now), user, from); Push(s.failures, Stamp(key, s.now), user, from);
      case Succeed(key) => WithoutCounts(s.rows, key, user, from); WithoutCounts(s.failures, key, user, from);
      case Cleanup => CleaningCounts(s.rows, s.now - LOGIN_ATTEMPT_RETENTION, user, from);
      case _ =>
    }
  }

  /** The retention job never changes a lockout decision, in any run. */
  lemma {:induction false} CleanupNeverUnlocks(states: seq<State>, actions: seq<Action>, i: nat, user: User)
    requires Run(states, actions) && i < |states|
    ensures Agrees(states[i], user)
    ensures Locked(states[i].rows, user, states[i].now) <==> Locked(states[i].failures, user, states[i].now)
  {
    if i > 0 {
      CleanupNeverUnlocks(states, actions, i - 1, user);
      StepAt(states, actions, i - 1);
      StepKeepsAgrees(states[i - 1], actions[i - 1], user);
    }
  }

  // ---------- How many failures a window can hold

  function InWindow(s: State, user: User, from: Time): nat {
    Count(s.failures, user, from, from + LOGIN_LOCKOUT_WINDOW + 1)
  }

  /** With at most k attempts in flight: every window holds at most 4 + k failures, and one that is still open
      has room for those in flight. */
  ghost predicate Inv(s: State, user: User, k: nat) {
    && (forall i | 0 <= i < |s.failures| :: s.failures[i].at <= s.now)
    && (forall from | s.now - LOGIN_LOCKOUT_WINDOW <= from :: Since(s.failures, user, from) + s.inFlight[user] <= 4 + k)
    && (forall from :: InWindow(s, user, from) <= 4 + k)
  }

  lemma CheckKeepsInv(s: State, user: User, k: nat, checked: User)
    requires Inv(s, user, k) && Agrees(s, user) && Apply(s, Check(checked)).inFlight[user] <= k
    ensures Inv(Apply(s, Check(checked)), user, k)
  {
    forall from | s.now - LOGIN_LOCKOUT_WINDOW <= from {
      CountAndSince(s.failures, user, s.now - LOGIN_LOCKOUT_WINDOW, from);
    }
    var t := Apply(s, Check(checked));
    assert forall from :: InWindow(t, user, from) == InWindow(s, user, from);
  }

  lemma FailKeepsInv(s: State, user: User, k: nat, failed: User)
    requires Inv(s, user, k) && failed in s.inFlight
    ensures Inv(Apply(s, Fail(failed)), user, k)
  {
    var t := Apply(s, Fail(failed));
    forall from ensures Since(t.failures, user, from) == Since(s.failures, user, from) + if failed == user && from <= s.now then 1 else 0
      ensures InWindow(t, user, from)
           == InWindow(s, user, from) + if failed == user && from <= s.now <= from + LOGIN_LOCKOUT_WINDOW then 1 else 0
      ensures InWindow(s, user, from) <= Since(s.failures, user, from)
    {
      Push(s.failures, Stamp(failed, s.now), user, from);
      CountAndSince(s.failures, user, from, from + LOGIN_LOCKOUT_WINDOW + 1);
    }
    forall from ensures InWindow(t, user, from) <= 4 + k { assert InWindow(s, user, from) <= 4 + k; }
  }

  lemma SucceedKeepsInv(s: State, user: User, k: nat, key: User)
    requires Inv(s, user, k) && key in s.inFlight && s.inFlight[user] <= k
    ensures Inv(Apply(s, Succeed(key)), user, k)
  {
    var t := Apply(s, Succeed(key));
    forall from ensures Since(t.failures, user, from) == (if user == key then 0 else Since(s.failures, user, from))
      ensures InWindow(t, user, from) <= InWindow(s, user, from)
    {
      WithoutCounts(s.failures, key, user, from);
    }
    WithoutKeepsTimes(s.failures, key, s.now);
    forall from ensures InWindow(t, user, from) <= 4 + k { assert InWindow(s, user, from) <= 4 + k; }
  }

  lemma {:induction false} WithoutKeepsTimes(rows: seq<Stamp<User>>, user: User, now: Time)
    requires forall i | 0 <= i < |rows| :: rows[i].at <= now
    ensures forall i | 0 <= i < |Without(rows, user)| :: Without(rows, user)[i].at <= now
  {
    if rows != [] { WithoutKeepsTimes(rows[..|rows| - 1], user, now); }
  }

  lemma StepKeepsInv(s: State, a: Action, user: User, k: nat)
    requires Enabled(s, a) && Inv(s, user, k) && Agrees(s, user) && s.inFlight[user] <= k && Apply(s, a).inFlight[user] <= k
    ensures Inv(Apply(s, a), user, k)
  {
    match a
    case Check(checked) => CheckKeepsInv(s, user, k, checked);
    case Fail(failed) => FailKeepsInv(s, user, k, failed);
    case Succeed(key) => SucceedKeepsInv(s, user, k, key);
    case _ => assert forall from :: InWindow(Apply(s, a), user, from) == InWindow(s, user, from);
  }

  /** The main result: as long as at most k logins of a user are in flight at once, no 15-minute interval
      holds more than 4 + k recorded failures since the user's last success; 5 when logins are sequential. */
  lemma {:induction false} FailuresAreBounded(states: seq<State>, actions: seq<Action>, i: nat, user: User, k: nat)
    requires Run(states, actions) && i < |states|
    requires forall j | 0 <= j <= i :: states[j].inFlight[user] <= k
    ensures Inv(states[i], user, k)
    ensures forall from :: InWindow(states[i], user, from) <= MAX_FAILED_LOGIN_ATTEMPTS - 1 + k
  {
    if i > 0 {
      FailuresAreBounded(states, actions, i - 1, user, k);
      CleanupNeverUnlocks(states, actions, i - 1, user);
      StepAt(states, actions, i - 1);
      assert states[i].inFlight[user] <= k && states[i - 1].inFlight[user] <= k;
      StepKeepsInv(states[i - 1], actions[i - 1], user, k);
    }
  }
}
