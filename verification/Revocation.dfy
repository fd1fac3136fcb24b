/** Ending all sessions of a user, after reuse of a refresh token, on demand, or with a password change
    (`internal/api/{auth,account}.go`, `internal/storage/session_store.go:194-203`): when it works, and when a
    rotation slips through. */
module Revocation {
  import opened Prelude
  import opened Tokens
  import opened Rotation

  ghost predicate Begins(s: State, a: Action, pid: Pid, user: User) {
    a == BeginDeletion(pid, user) || (a == BeginReuse(pid) && Enabled(s, a) && s.requests[pid].user == user)
  }

  /** A deletion of the user's sessions that finds its rows in step i and deletes those in step j. */
  ghost predicate Deletion(states: seq<State>, actions: seq<Action>, pid: Pid, user: User, i: nat, j: nat) {
    && i < j < |actions| && i < |states| && Begins(states[i], actions[i], pid, user) && actions[j] == FinishDeletion(pid)
    && forall k | i < k < j :: actions[k] != GiveUp(pid) && actions[k] != FinishDeletion(pid)
  }

  lemma StepKeepsDeleting(s: State, a: Action, pid: Pid)
    requires Enabled(s, a) && pid in s.requests && s.requests[pid].Deleting?
    requires a != GiveUp(pid) && a != FinishDeletion(pid)
    ensures pid in Apply(s, a).requests && Apply(s, a).requests[pid] == s.requests[pid]
  {
  }

  lemma {:induction false} DeletionWaits(states: seq<State>, actions: seq<Action>, pid: Pid, user: User, i: nat, j: nat, k: nat)
    requires Run(states, actions) && Deletion(states, actions, pid, user, i, j) && i < k <= j
    ensures pid in states[k].requests && states[k].requests[pid] == Deleting(user, Found(states[i], user))
    decreases k
  {
    StepAt(states, actions, k - 1);
    if i < k - 1 {
      DeletionWaits(states, actions, pid, user, i, j, k - 1);
      StepKeepsDeleting(states[k - 1], actions[k - 1], pid);
    }
  }

  lemma DeletionEnds(states: seq<State>, actions: seq<Action>, pid: Pid, user: User, i: nat, j: nat)
    requires Run(states, actions) && Deletion(states, actions, pid, user, i, j)
    ensures states[j + 1].db.sessions == states[j].db.sessions - Found(states[i], user)
  {
    DeletionWaits(states, actions, pid, user, i, j, j);
    StepAt(states, actions, j);
  }

  // ---------- What was inserted meanwhile

  /** A rotation that commits. */
  ghost predicate Commits(s: State, a: Action) {
    a.RotateTx? && Enabled(s, a) && Rotates(s, a, s.requests[a.pid].hash)
  }

  ghost predicate Inserts(s: State, a: Action, id: Id) {
    (a.Login? && a.session.id == id) || (Commits(s, a) && a.next.id == id)
  }

  lemma OnlyInsertionsInsert(s: State, a: Action, id: Id)
    requires Enabled(s, a) && id in Apply(s, a).db.sessions && id !in s.db.sessions
    ensures Inserts(s, a, id)
  {
  }

  lemma {:induction false} InsertedBetween(states: seq<State>, actions: seq<Action>, i: nat, m: nat, id: Id) returns (k: nat)
    requires Run(states, actions) && i <= m < |states| && id in states[m].db.sessions && id !in states[i].db.sessions
    ensures i <= k < m && Inserts(states[k], actions[k], id) && id in states[k + 1].db.sessions
    decreases m
  {
    StepAt(states, actions, m - 1);
    if id in states[m - 1].db.sessions {
      k := InsertedBetween(states, actions, i, m - 1, id);
    } else {
      OnlyInsertionsInsert(states[m - 1], actions[m - 1], id);
      k := m - 1;
    }
  }

  /** The user's session descends from one of the first logins. */
  ghost predicate IsOld(s: State, id: Id, user: User, first: nat) {
    id in s.db.sessions && s.db.sessions[id].user == user && id in s.family && s.family[id] < first
  }

  /** The action rotates such a session of the user, and commits. */
  ghost predicate RotatesOld(s: State, a: Action, user: User, first: nat) {
    Commits(s, a) && IsOld(s, s.requests[a.pid].session.id, user, first)
  }

  lemma LoginBeginsFamily(s: State, session: Session)
    requires Enabled(s, Login(session))
    ensures session.id in Apply(s, Login(session)).family && Apply(s, Login(session)).family[session.id] == |s.owners|
  {
  }

  /** A rotation hands its family and its user on. */
  lemma RotationHandsOn(s: State, a: Action)
    requires Inv(s) && Commits(s, a)
    ensures var t, prior := Apply(s, a), s.requests[a.pid].session;
      && prior.id in s.db.sessions && s.db.sessions[prior.id] == prior && prior.id in s.family
      && a.next.id in t.db.sessions && t.db.sessions[a.next.id] == a.next && a.next.user == prior.user
      && a.next.id in t.family && t.family[a.next.id] == s.family[prior.id]
  {
    RotationIsBurnThenAdd(s, a);
    assert RequestOk(s, s.requests[a.pid]);
  }

  /** A row keeps its user and its family as long as it is there. */
  lemma RowKeepsOrigin(states: seq<State>, actions: seq<Action>, i: nat, j: nat, id: Id)
    requires Run(states, actions) && i <= j < |states| && id in states[i].db.sessions && id in states[j].db.sessions
    ensures states[j].db.sessions[id] == states[i].db.sessions[id]
    ensures id in states[i].family && id in states[j].family && states[j].family[id] == states[i].family[id]
  {
    RunKeepsInv(states, actions, i);
    RunKeepsInv(states, actions, j);
    RunKeepsHistory(states, actions, i, j, id);
  }

  // ---------- Exactly what a deletion leaves

  /** Step k rotates an old session between the deletion's two steps, and the row it inserts is there after them. */
  ghost predicate SlipsThrough(states: seq<State>, actions: seq<Action>, user: User, i: nat, j: nat, k: nat) {
    && i < k < j < |actions| && |states| == |actions| + 1
    && RotatesOld(states[k], actions[k], user, |states[i].owners|) && actions[k].next.id in states[j + 1].db.sessions
  }

  /** The deletion leaves this session of the user from an earlier login. */
  ghost predicate IsLeft(states: seq<State>, user: User, i: nat, j: nat, id: Id) {
    i < j && j + 1 < |states| && IsOld(states[j + 1], id, user, |states[i].owners|)
  }

  lemma LeftoverWasRotated(states: seq<State>, actions: seq<Action>, pid: Pid, user: User, i: nat, j: nat, id: Id) returns (k: nat)
    requires Run(states, actions) && Deletion(states, actions, pid, user, i, j)
    requires IsLeft(states, user, i, j, id)
    ensures SlipsThrough(states, actions, user, i, j, k) && actions[k].next.id == id
  {
    DeletionEnds(states, actions, pid, user, i, j);
    if id in states[i].db.sessions { RowKeepsOrigin(states, actions, i, j + 1, id); }
    k := InsertedBetween(states, actions, i, j, id);
    InsertionIsOldRotation(states, actions, i, k, j + 1, id, user);
    assert k != i;
  }

  lemma InsertionIsOldRotation(states: seq<State>, actions: seq<Action>, i: nat, k: nat, m: nat, id: Id, user: User)
    requires Run(states, actions) && i <= k < m < |states| && Inserts(states[k], actions[k], id) && id in states[k + 1].db.sessions
    requires IsOld(states[m], id, user, |states[i].owners|)
    ensures RotatesOld(states[k], actions[k], user, |states[i].owners|) && actions[k].next.id == id
  {
    StepAt(states, actions, k);
    RunExtends(states, actions, i, k);
    RowKeepsOrigin(states, actions, k + 1, m, id);
    if actions[k].Login? {
      LoginBeginsFamily(states[k], actions[k].session);
    } else {
      RunKeepsInv(states, actions, k);
      RotationHandsOn(states[k], actions[k]);
    }
  }

  lemma RotatedIsLeft(states: seq<State>, actions: seq<Action>, user: User, i: nat, j: nat, k: nat)
    requires Run(states, actions) && SlipsThrough(states, actions, user, i, j, k)
    ensures IsLeft(states, user, i, j, actions[k].next.id)
  {
    StepAt(states, actions, k);
    RunKeepsInv(states, actions, k);
    RotationHandsOn(states[k], actions[k]);
    RowKeepsOrigin(states, actions, k + 1, j + 1, actions[k].next.id);
  }

  /** The exact condition: a deletion leaves a session of the user from an earlier login if and only if, between
      finding its rows and deleting them, a rotation of such a session committed whose row is still there. */
  lemma LeftoverIffRotated(states: seq<State>, actions: seq<Action>, pid: Pid, user: User, i: nat, j: nat)
    requires Run(states, actions) && Deletion(states, actions, pid, user, i, j)
    ensures (exists id :: IsLeft(states, user, i, j, id))
       <==> exists k: nat :: SlipsThrough(states, actions, user, i, j, k)
  {
    if id :| IsLeft(states, user, i, j, id) {
      var k := LeftoverWasRotated(states, actions, pid, user, i, j, id);
    }
    if k: nat :| SlipsThrough(states, actions, user, i, j, k) {
      RotatedIsLeft(states, actions, user, i, j, k);
    }
  }

  // ---------- And after that

  ghost predicate OnlyFamiliesFrom(s: State, user: User, first: nat) {
    forall id :: !IsOld(s, id, user, first)
  }

  lemma StepKeepsOutOldFamilies(s: State, a: Action, user: User, first: nat)
    requires Inv(s) && Enabled(s, a) && OnlyFamiliesFrom(s, user, first) && first <= |s.owners|
    ensures OnlyFamiliesFrom(Apply(s, a), user, first)
  {
    forall id ensures !IsOld(Apply(s, a), id, user, first) {
      assert !IsOld(s, id, user, first);
      if id in Apply(s, a).db.sessions { StepInsertsNoOld(s, a, user, first, id); }
    }
  }

  lemma StepInsertsNoOld(s: State, a: Action, user: User, first: nat, id: Id)
    requires Inv(s) && Enabled(s, a) && OnlyFamiliesFrom(s, user, first) && first <= |s.owners|
    requires id in Apply(s, a).db.sessions
    ensures !IsOld(Apply(s, a), id, user, first)
  {
    if id in s.db.sessions {
      assert !IsOld(s, id, user, first);
      StepKeepsHistory(s, a, id);
      StepKeepsInv(s, a);
    } else {
      OnlyInsertionsInsert(s, a, id);
      if a.Login? {
        LoginBeginsFamily(s, a.session);
      } else {
        RotationHandsOn(s, a);
        assert !IsOld(s, s.requests[a.pid].session.id, user, first);
      }
    }
  }

  lemma {:induction false} OldFamiliesStayOut(states: seq<State>, actions: seq<Action>, user: User, first: nat, j: nat, m: nat)
    requires Run(states, actions) && j <= m < |states| && OnlyFamiliesFrom(states[j], user, first) && first <= |states[j].owners|
    ensures OnlyFamiliesFrom(states[m], user, first)
    decreases m
  {
    if j < m {
      OldFamiliesStayOut(states, actions, user, first, j, m - 1);
      RunExtends(states, actions, j, m - 1);
      OldFamiliesStayOutAt(states, actions, user, first, m - 1);
    }
  }

  lemma OldFamiliesStayOutAt(states: seq<State>, actions: seq<Action>, user: User, first: nat, i: nat)
    requires Run(states, actions) && i < |actions| && OnlyFamiliesFrom(states[i], user, first) && first <= |states[i].owners|
    ensures OnlyFamiliesFrom(states[i + 1], user, first)
  {
    StepAt(states, actions, i);
    RunKeepsInv(states, actions, i);
    StepKeepsOutOldFamilies(states[i], actions[i], user, first);
  }

  /** Unless a rotation slipped through, no request in flight brings a session back: every session the user has
      after the deletion descends from a login whose row was inserted after the deletion found its rows. */
  lemma KilledSessionsStayDead(states: seq<State>, actions: seq<Action>, pid: Pid, user: User, i: nat, j: nat, m: nat, id: Id)
      returns (k: nat)
    requires Run(states, actions) && Deletion(states, actions, pid, user, i, j) && j < m < |states|
    requires forall k: nat :: !SlipsThrough(states, actions, user, i, j, k)
    requires id in states[m].db.sessions && states[m].db.sessions[id].user == user
    ensures i < k < m && actions[k].Login? && actions[k].session.user == user
    ensures id in states[m].family && states[m].family[id] == |states[k].owners|
  {
    NoneIsLeft(states, actions, pid, user, i, j);
    RunExtends(states, actions, i, j + 1);
    OldFamiliesStayOut(states, actions, user, |states[i].owners|, j + 1, m);
    RunKeepsInv(states, actions, m);
    assert !IsOld(states[m], id, user, |states[i].owners|);
    k := FamilyBeginsWithLogin(states, actions, m, states[m].family[id]);
    LoginIsLater(states, actions, i, k);
  }

  lemma NoneIsLeft(states: seq<State>, actions: seq<Action>, pid: Pid, user: User, i: nat, j: nat)
    requires Run(states, actions) && Deletion(states, actions, pid, user, i, j)
    requires forall k: nat :: !SlipsThrough(states, actions, user, i, j, k)
    ensures OnlyFamiliesFrom(states[j + 1], user, |states[i].owners|)
  {
    LeftoverIffRotated(states, actions, pid, user, i, j);
    var end, first := states[j + 1], |states[i].owners|;
    forall id ensures !IsOld(end, id, user, first) { assert !IsLeft(states, user, i, j, id); }
  }

  lemma LoginIsLater(states: seq<State>, actions: seq<Action>, i: nat, k: nat)
    requires Run(states, actions) && i < |actions| && k < |actions| && actions[k].Login? && !actions[i].Login?
    requires |states[i].owners| <= |states[k].owners|
    ensures i < k
  {
    if k < i {
      StepAt(states, actions, k);
      OwnersGrowByLogins(states[k], actions[k]);
      RunExtends(states, actions, k + 1, i);
    }
  }

  /** A deletion that nothing comes between misses nothing. */
  lemma UndisturbedDeletionIsComplete(states: seq<State>, actions: seq<Action>, pid: Pid, user: User, i: nat)
    requires Run(states, actions) && Deletion(states, actions, pid, user, i, i + 1)
    ensures Found(states[i + 2], user) == {}
  {
    DeletionEnds(states, actions, pid, user, i, i + 1);
    StepAt(states, actions, i);
  }
}
