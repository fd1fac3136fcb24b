/** What a refresh or a logout does with a token that has been rotated already (`internal/api/auth.go`): when
    the replay is seen, the ways in which it is not, and runs that go those ways. */
module Replay {
  import opened Prelude
  import opened Tokens
  import opened Rotation
  import opened Revocation

  // ---------- How long a rotated hash stays revoked

  lemma RotationRevokes(s: State, a: Action, hash: Hash)
    requires Inv(s) && Rotates(s, a, hash)
    ensures var t, prior := Apply(s, a), s.requests[a.pid].session;
      hash in t.db.revoked && t.db.revoked[hash] == RevokedRow(prior)
  {
    assert RequestOk(s, s.requests[a.pid]) && IssuedTo(s, hash, s.requests[a.pid].session.id) && Live(s, hash);
  }

  /** A revoked row goes in a cleanup after its expiry, and in no other step. */
  lemma RevokedRowGoesIffCleaned(s: State, a: Action, hash: Hash)
    requires Enabled(s, a) && hash in s.db.revoked
    ensures hash !in Apply(s, a).db.revoked <==> a.Cleanup? && s.now > s.db.revoked[hash].expiresAt
    ensures hash in Apply(s, a).db.revoked ==> Apply(s, a).db.revoked[hash] == s.db.revoked[hash]
  {
  }

  /** What has no row any more is not revoked again. */
  lemma DeadIsNotRevokedAgain(s: State, a: Action, hash: Hash)
    requires Inv(s) && Enabled(s, a) && Dead(s, hash) && hash !in s.db.revoked
    ensures hash !in Apply(s, a).db.revoked
  {
    if a.RotateTx? || a.LogoutTx? { assert RequestOk(s, s.requests[a.pid]); }
  }

  /** Some cleanup between the steps came after the expiry. */
  ghost predicate CleanedBetween(states: seq<State>, actions: seq<Action>, i: nat, j: nat, expiry: Time) {
    exists k: nat :: CleansAt(states, actions, k, expiry) && i < k < j
  }

  ghost predicate CleansAt(states: seq<State>, actions: seq<Action>, k: nat, expiry: Time) {
    k < |actions| && k < |states| && actions[k].Cleanup? && states[k].now > expiry
  }

  lemma CleanedStep(states: seq<State>, actions: seq<Action>, i: nat, j: nat, expiry: Time)
    requires i < j < |actions| && j < |states|
    ensures CleanedBetween(states, actions, i, j + 1, expiry)
       <==> CleanedBetween(states, actions, i, j, expiry) || CleansAt(states, actions, j, expiry)
  {
  }

  lemma RotationSpends(states: seq<State>, actions: seq<Action>, i: nat, j: nat, hash: Hash)
    requires Run(states, actions) && i < j < |states| && Rotates(states[i], actions[i], hash)
    ensures Dead(states[j], hash)
  {
    StepAt(states, actions, i);
    RunKeepsInv(states, actions, i);
    RotationKills(states[i], actions[i], hash);
    RunKeepsDead(states, actions, i + 1, j, hash);
  }

  lemma RotationKills(s: State, a: Action, hash: Hash)
    requires Inv(s) && Rotates(s, a, hash)
    ensures Dead(Apply(s, a), hash)
  {
    StepKeepsInv(s, a);
    assert Apply(s, a).rotated[|s.rotated|] == hash;
  }

  /** A rotated hash is revoked, with the row it was rotated from, exactly until a cleanup after its expiry. */
  lemma {:induction false} RevokedUntilCleaned(states: seq<State>, actions: seq<Action>, i: nat, j: nat, hash: Hash)
    requires Run(states, actions) && i < j < |states| && Rotates(states[i], actions[i], hash)
    ensures var prior := states[i].requests[actions[i].pid].session;
      && (hash in states[j].db.revoked <==> !CleanedBetween(states, actions, i, j, prior.expiresAt))
      && (hash in states[j].db.revoked ==> states[j].db.revoked[hash] == RevokedRow(prior))
    decreases j
  {
    var prior := states[i].requests[actions[i].pid].session;
    if j == i + 1 {
      StepAt(states, actions, i);
      RunKeepsInv(states, actions, i);
      RotationRevokes(states[i], actions[i], hash);
    } else {
      RevokedUntilCleaned(states, actions, i, j - 1, hash);
      CleanedStep(states, actions, i, j - 1, prior.expiresAt);
      RevokedAt(states, actions, i, j - 1, hash);
    }
  }

  lemma RevokedAt(states: seq<State>, actions: seq<Action>, i: nat, j: nat, hash: Hash)
    requires Run(states, actions) && i < j < |actions| && Rotates(states[i], actions[i], hash)
    requires var prior := states[i].requests[actions[i].pid].session;
      hash in states[j].db.revoked ==> states[j].db.revoked[hash] == RevokedRow(prior)
    ensures var prior := states[i].requests[actions[i].pid].session;
      && (hash in states[j + 1].db.revoked <==> hash in states[j].db.revoked && !CleansAt(states, actions, j, prior.expiresAt))
      && (hash in states[j + 1].db.revoked ==> states[j + 1].db.revoked[hash] == RevokedRow(prior))
  {
    StepAt(states, actions, j);
    if hash in states[j].db.revoked {
      RevokedRowGoesIffCleaned(states[j], actions[j], hash);
    } else {
      RunKeepsInv(states, actions, j);
      RotationSpends(states, actions, i, j, hash);
      DeadIsNotRevokedAgain(states[j], actions[j], hash);
    }
  }

  // ---------- Exactly when a replay is seen

  /** Before its rotation a hash is not revoked. */
  lemma NotRevokedBefore(states: seq<State>, actions: seq<Action>, i: nat, j: nat, hash: Hash)
    requires Run(states, actions) && j <= i < |actions| && Rotates(states[i], actions[i], hash)
    ensures hash !in states[j].db.revoked
  {
    RunKeepsInv(states, actions, i);
    RunKeepsInv(states, actions, j);
    assert RequestOk(states[i], states[i].requests[actions[i].pid]) && Live(states[i], hash);
    if Dead(states[j], hash) { RunKeepsDead(states, actions, j, i, hash); }
  }

  /** What the pattern is for, exactly: in every run, a refresh with a token that is rotated in step i is seen as
      a replay if and only if it looks the token up after that step and before any cleanup that comes after
      the token's expiry. It then knows the user the token was issued to, and its next step begins the
      deletion of all that user's sessions. */
  lemma ReplayIsSeenIff(states: seq<State>, actions: seq<Action>, i: nat, j: nat, hash: Hash, pid: Pid)
    requires Run(states, actions) && i < |actions| && j < |actions| && Rotates(states[i], actions[i], hash)
    requires actions[j] == LookupRevoked(pid) && pid in states[j].requests && states[j].requests[pid] == RefreshStart(hash)
    ensures var prior := states[i].requests[actions[i].pid].session;
      && pid in states[j + 1].requests
      && (states[j + 1].requests[pid].ReuseSeen? <==> i < j && !CleanedBetween(states, actions, i, j, prior.expiresAt))
      && (states[j + 1].requests[pid].ReuseSeen? ==>
            states[j + 1].requests[pid].user == prior.user && Begins(states[j + 1], BeginReuse(pid), pid, prior.user))
      && (!states[j + 1].requests[pid].ReuseSeen? ==> states[j + 1].requests[pid] == RefreshUnrevoked(hash))
  {
    StepAt(states, actions, j);
    if i < j { RevokedUntilCleaned(states, actions, i, j, hash); } else { NotRevokedBefore(states, actions, i, j, hash); }
  }

  // ---------- What becomes of a replay that is not seen

  lemma DeadHasNoRow(s: State, hash: Hash)
    requires Inv(s) && Dead(s, hash)
    ensures forall id | id in s.db.sessions :: s.db.sessions[id].hash != hash
  {
  }

  /** At any time after the rotation, a replay that was not seen finds no session: it is refused, and nobody's
      session ends. */
  lemma UnseenReplayIsRefused(states: seq<State>, actions: seq<Action>, i: nat, k: nat, hash: Hash, pid: Pid, found: Option<Session>)
    requires Run(states, actions) && i < k < |actions| && Rotates(states[i], actions[i], hash)
    requires actions[k] == ReadSession(pid, found) && pid in states[k].requests && states[k].requests[pid] == RefreshUnrevoked(hash)
    ensures found == None && states[k + 1] == Done(states[k], pid)
  {
    StepAt(states, actions, k);
    RunKeepsInv(states, actions, k);
    RotationSpends(states, actions, i, k, hash);
    DeadHasNoRow(states[k], hash);
  }

  /** And one that had read the session before the rotation committed fails in its own transaction at any time
      after it, and nobody's session ends. */
  lemma LateRotationFails(states: seq<State>, actions: seq<Action>, i: nat, k: nat, hash: Hash)
    requires Run(states, actions) && i < k < |actions| && Rotates(states[i], actions[i], hash)
    requires actions[k].RotateTx? && actions[k].pid in states[k].requests && states[k].requests[actions[k].pid].RefreshRead?
    requires states[k].requests[actions[k].pid].hash == hash
    ensures states[k + 1] == Done(states[k], actions[k].pid)
  {
    StepAt(states, actions, k);
    RunKeepsInv(states, actions, k);
    RotationSpends(states, actions, i, k, hash);
    assert RequestOk(states[k], states[k].requests[actions[k].pid]);
  }

  // ---------- Logout

  /** A logout ends the session it read exactly when that row is still there at its transaction; a refresh
      that commits in between wins, and the logout then changes nothing. */
  lemma LogoutEndsSessionIffStillLive(s: State, pid: Pid)
    requires Inv(s) && Enabled(s, LogoutTx(pid))
    ensures var t, session := Apply(s, LogoutTx(pid)), s.requests[pid].session;
      session.id in s.family &&
      if session.id in s.db.sessions
      then session.hash in t.db.revoked && (forall id | id in t.db.sessions :: id in t.family && t.family[id] != s.family[session.id])
      else t.db == s.db
  {
    assert RequestOk(s, s.requests[pid]);
  }

  /** A logout in flight with this token. */
  ghost predicate LogsOut(s: State, pid: Pid, hash: Hash) {
    pid in s.requests && (s.requests[pid].LogoutStart? || s.requests[pid].LogoutRead?) && s.requests[pid].hash == hash
  }

  /** A step of that logout. */
  ghost predicate LogoutStep(a: Action, pid: Pid) {
    a == LogoutTx(pid) || (a.ReadSession? && a.pid == pid) || a == GiveUp(pid)
  }

  /** Over runs: once its token has been rotated, no step of a logout with that token changes the database,
      whether it had read the session by then or not: the login's new session stays alive. */
  lemma LogoutAfterRotationChangesNothing(states: seq<State>, actions: seq<Action>, i: nat, k: nat, hash: Hash, pid: Pid)
    requires Run(states, actions) && i < k < |actions| && Rotates(states[i], actions[i], hash)
    requires LogsOut(states[k], pid, hash) && LogoutStep(actions[k], pid)
    ensures states[k + 1] == Done(states[k], pid)
  {
    StepAt(states, actions, k);
    RunKeepsInv(states, actions, k);
    RotationSpends(states, actions, i, k, hash);
    DeadHasNoRow(states[k], hash);
    assert RequestOk(states[k], states[k].requests[pid]);
  }

  /** Over runs: a logout's transaction ends its token's family if and only if the token's row is still there,
      and a logout that finds no row ends with nothing changed. */
  lemma LogoutOverRuns(states: seq<State>, actions: seq<Action>, k: nat, hash: Hash, pid: Pid)
    requires Run(states, actions) && k < |actions| && LogsOut(states[k], pid, hash) && LogoutStep(actions[k], pid)
    ensures actions[k].ReadSession? ==>
      if Live(states[k], hash) then states[k + 1].db == states[k].db && LogsOut(states[k + 1], pid, hash)
      else states[k + 1] == Done(states[k], pid)
    ensures actions[k].LogoutTx? ==>
      if Live(states[k], hash) then Dead(states[k + 1], hash) && hash in states[k + 1].db.revoked && EndsFamily(states[k], states[k + 1], states[k].issued[hash])
      else states[k + 1] == Done(states[k], pid)
  {
    StepAt(states, actions, k);
    RunKeepsInv(states, actions, k);
    if actions[k].LogoutTx? {
      LogoutCommitsIffLive(states[k], pid);
    } else if actions[k].ReadSession? {
      LogoutReadsIffLive(states[k], pid, actions[k].found);
    }
  }

  /** No session of the row's family is left. */
  ghost predicate EndsFamily(s: State, t: State, id: Id) {
    id in s.family && forall other | other in t.db.sessions :: other in t.family && t.family[other] != s.family[id]
  }

  lemma LogoutCommitsIffLive(s: State, pid: Pid)
    requires Inv(s) && Enabled(s, LogoutTx(pid))
    ensures var t, hash := Apply(s, LogoutTx(pid)), s.requests[pid].hash;
      if Live(s, hash) then Dead(t, hash) && hash in t.db.revoked && EndsFamily(s, t, s.issued[hash])
      else t == Done(s, pid)
  {
    assert RequestOk(s, s.requests[pid]);
    LogoutEndsSessionIffStillLive(s, pid);
  }

  lemma LogoutReadsIffLive(s: State, pid: Pid, found: Option<Session>)
    requires Inv(s) && pid in s.requests && s.requests[pid].LogoutStart? && Enabled(s, ReadSession(pid, found))
    ensures var t, hash := Apply(s, ReadSession(pid, found)), s.requests[pid].hash;
      if Live(s, hash) then t.db == s.db && LogsOut(t, pid, hash) else t == Done(s, pid)
  {
    var hash := s.requests[pid].hash;
    if found.Some? { assert IssuedTo(s, hash, found.value.id); }
  }

  /** Whenever a refresh and a logout have both read the same live session, the order in which their
      transactions commit decides: logout last leaves the login's new session alive. */
  lemma RefreshBeatsLogout(s: State, refresh: Pid, logout: Pid, next: Session)
    requires Inv(s) && refresh != logout && Enabled(s, RotateTx(refresh, next)) && Enabled(s, LogoutTx(logout))
    requires s.requests[logout].session == s.requests[refresh].session && s.requests[refresh].session.id in s.db.sessions
    ensures var mid := Apply(s, RotateTx(refresh, next));
      && Enabled(mid, LogoutTx(logout))
      && var end := Apply(mid, LogoutTx(logout));
         next.id in end.db.sessions && next.id in end.family && end.family[next.id] == s.family[s.requests[refresh].session.id]
    ensures var mid := Apply(s, LogoutTx(logout));
      && Enabled(mid, RotateTx(refresh, next))
      && Apply(mid, RotateTx(refresh, next)).db == mid.db
  {
    assert RequestOk(s, s.requests[refresh]) && RequestOk(s, s.requests[logout]);
    assert CanCreate(s.db.sessions - {s.requests[refresh].session.id}, next);
  }

  /** Over runs: revoking one session ends its login's family if and only if its row is still there; a rotation
      that commits first leaves the family alive and the revocation without effect. */
  lemma RevokeOneOverRuns(states: seq<State>, actions: seq<Action>, k: nat, id: Id)
    requires Run(states, actions) && k < |actions| && actions[k] == RevokeOne(id)
    ensures if id in states[k].db.sessions then EndsFamily(states[k], states[k + 1], id) else states[k + 1] == states[k]
  {
    StepAt(states, actions, k);
    RunKeepsInv(states, actions, k);
    if id !in states[k].db.sessions { assert states[k].db.sessions - {id} == states[k].db.sessions; }
  }
}
