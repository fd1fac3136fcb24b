/** Refresh token rotation (RFC 9700, section 4.14.2) as interleaved steps. A request's lookups run outside
    its transaction, so other requests, cleanups and deletions can come between any two of its steps. The
    transactions are serializable, so each is one step. The deletion of all of a user's sessions is a plain
    DELETE of many rows: it finds its rows in one step and deletes those in another. `Login` stands for every
    insertion that begins a family: the login handler's and the first-run setup's (`internal/api/setup.go:263`). */
module Rotation {
  import opened Prelude
  import opened Tokens

  type Pid = nat

  /** Where a request in flight has got to, with what it has read so far. */
  datatype Request =
    | RefreshStart(hash: Hash)
    | RefreshUnrevoked(hash: Hash)
    | RefreshRead(hash: Hash, session: Session)
    | ReuseSeen(user: User)
    | Deleting(user: User, found: set<Id>)
    | ExpiredSeen(session: Session)
    | LogoutStart(hash: Hash)
    | LogoutRead(hash: Hash, session: Session)

  /** The database, the clock and the requests in flight. The rest is history: every session row ever
      inserted, the row each token hash was issued with, the login each row descends from, the user of each
      login in order of insertion, and the token hashes rotated so far. */
  datatype State = State(
    db: Db,
    now: Time,
    requests: map<Pid, Request>,
    born: map<Id, Session>,
    issued: map<Hash, Id>,
    family: map<Id, nat>,
    owners: seq<User>,
    rotated: seq<Hash>)

  datatype Action =
    | Login(session: Session)
    | Arrive(pid: Pid, hash: Hash, logout: bool)
    | LookupRevoked(pid: Pid)
    | ReadSession(pid: Pid, found: Option<Session>)
    | RotateTx(pid: Pid, next: Session)
    | LogoutTx(pid: Pid)
    | BeginReuse(pid: Pid)
    | BeginDeletion(pid: Pid, user: User)
    | FinishDeletion(pid: Pid)
    | DropExpired(pid: Pid)
    | GiveUp(pid: Pid)
    | RevokeOne(id: Id)
    | Cleanup
    | Tick(now: Time)

  ghost predicate Init(s: State) {
    s.db == Db(map[], map[]) && s.requests == map[] && s.born == map[] && s.issued == map[]
    && s.family == map[] && s.owners == [] && s.rotated == []
  }

  /** New ids and token hashes are random, hence new. */
  ghost predicate Fresh(s: State, session: Session) {
    session.id !in s.born && session.hash !in s.issued
  }

  ghost predicate IsRead(s: State, hash: Hash, found: Option<Session>) {
    match found
    case Some(session) => session.id in s.db.sessions && s.db.sessions[session.id] == session && session.hash == hash
    case None => forall id | id in s.db.sessions :: s.db.sessions[id].hash != hash
  }

  ghost predicate Enabled(s: State, a: Action) {
    match a
    case Login(session) => Fresh(s, session)
    case Arrive(pid, _, _) => pid !in s.requests
    case LookupRevoked(pid) => pid in s.requests && s.requests[pid].RefreshStart?
    case ReadSession(pid, found) =>
      pid in s.requests && (s.requests[pid].RefreshUnrevoked? || s.requests[pid].LogoutStart?)
      && IsRead(s, s.requests[pid].hash, found)
    case RotateTx(pid, next) =>
      pid in s.requests && s.requests[pid].RefreshRead? && Fresh(s, next)
      && next.user == s.requests[pid].session.user && next.tenant == s.requests[pid].session.tenant
    case LogoutTx(pid) => pid in s.requests && s.requests[pid].LogoutRead?
    case BeginReuse(pid) => pid in s.requests && s.requests[pid].ReuseSeen?
    case BeginDeletion(pid, _) => pid !in s.requests
    case FinishDeletion(pid) => pid in s.requests && s.requests[pid].Deleting?
    case DropExpired(pid) => pid in s.requests && s.requests[pid].ExpiredSeen?
    case GiveUp(pid) => pid in s.requests
    case RevokeOne(_) => true
    case Cleanup => true
    case Tick(now) => s.now <= now
  }

  function Done(s: State, pid: Pid): State {
    s.(requests := s.requests - {pid})
  }

  function Delete(s: State, id: Id): State {
    s.(db := s.db.(sessions := s.db.sessions - {id}))
  }

  /** The rows a deletion of the user's sessions finds. */
  function Found(s: State, user: User): set<Id> {
    set id | id in s.db.sessions && s.db.sessions[id].user == user
  }

  function BeginDelete(s: State, pid: Pid, user: User): State {
    s.(requests := s.requests[pid := Deleting(user, Found(s, user))])
  }

  function Insert(s: State, session: Session, family: nat): State {
    s.(born := s.born[session.id := session], issued := s.issued[session.hash := session.id],
       family := s.family[session.id := family])
  }

  ghost function Apply(s: State, a: Action): State
    requires Enabled(s, a)
  {
    match a
    case Login(session) =>
      Insert(s, session, |s.owners|).(owners := s.owners + [session.user],
                                      db := s.db.(sessions := s.db.sessions[session.id := session]))
    case Arrive(pid, hash, logout) =>
      s.(requests := s.requests[pid := if logout then LogoutStart(hash) else RefreshStart(hash)])
    case LookupRevoked(pid) =>
      var hash := s.requests[pid].hash;
      s.(requests := s.requests[pid :=
        if hash in s.db.revoked then ReuseSeen(s.db.revoked[hash].user) else RefreshUnrevoked(hash)])
    case ReadSession(pid, found) =>
      if found.None? then Done(s, pid)
      else
        var hash, session := s.requests[pid].hash, found.value;
        s.(requests := s.requests[pid :=
          if s.requests[pid].LogoutStart? then LogoutRead(hash, session)
          else if session.expiresAt > s.now then RefreshRead(hash, session)
          else ExpiredSeen(session)])
    case RotateTx(pid, next) =>
      var prior := s.requests[pid].session;
      (match Rotated(s.db, s.requests[pid].hash, prior, next)
       case Err(_) => Done(s, pid)
       case Ok(db) =>
         Done(Insert(s, next, if prior.id in s.family then s.family[prior.id] else 0), pid)
           .(db := db, rotated := s.rotated + [s.requests[pid].hash]))
    case LogoutTx(pid) =>
      (match LoggedOut(s.db, s.requests[pid].hash, s.requests[pid].session)
       case Err(_) => Done(s, pid)
       case Ok(db) => Done(s, pid).(db := db))
    case BeginReuse(pid) => BeginDelete(s, pid, s.requests[pid].user)
    case BeginDeletion(pid, user) => BeginDelete(s, pid, user)
    case FinishDeletion(pid) => Done(s, pid).(db := s.db.(sessions := s.db.sessions - s.requests[pid].found))
    case DropExpired(pid) => Done(Delete(s, s.requests[pid].session.id), pid)
    case GiveUp(pid) => Done(s, pid)
    case RevokeOne(id) => Delete(s, id)
    case Cleanup => s.(db := s.db.(revoked := Unexpired(s.db.revoked, s.now)))
    case Tick(now) => s.(now := now)
  }

  // ---------- The invariant

  /** The hash was issued with this row. */
  ghost predicate IssuedTo(s: State, hash: Hash, id: Id) {
    hash in s.issued && s.issued[hash] == id
  }

  /** The row the hash was issued with is still in the table. */
  ghost predicate Live(s: State, hash: Hash) {
    hash in s.issued && s.issued[hash] in s.db.sessions
  }

  ghost predicate BornOk(s: State) {
    && s.born.Keys == s.family.Keys
    && (forall id | id in s.born :: s.born[id].id == id && IssuedTo(s, s.born[id].hash, id))
    && (forall hash | hash in s.issued :: s.issued[hash] in s.born && s.born[s.issued[hash]].hash == hash)
  }

  ghost predicate FamiliesOk(s: State)
    requires s.born.Keys == s.family.Keys
  {
    forall id | id in s.born :: s.family[id] < |s.owners| && s.born[id].user == s.owners[s.family[id]]
  }

  ghost predicate SessionsOk(s: State) {
    forall id | id in s.db.sessions :: id in s.born && s.born[id] == s.db.sessions[id]
  }

  ghost predicate OneLivePerFamily(s: State)
    requires s.born.Keys == s.family.Keys && SessionsOk(s)
  {
    forall a, b | a in s.db.sessions && b in s.db.sessions && s.family[a] == s.family[b] :: a == b
  }

  ghost predicate RevokedOk(s: State)
    requires BornOk(s)
  {
    forall hash | hash in s.db.revoked ::
      hash in s.issued && !Live(s, hash) && s.born[s.issued[hash]].user == s.db.revoked[hash].user
  }

  ghost predicate RequestOk(s: State, r: Request) {
    r.RefreshRead? || r.LogoutRead? ==>
      r.session.id in s.born && s.born[r.session.id] == r.session && r.session.hash == r.hash
  }

  ghost predicate RotatedOk(s: State) {
    && (forall i | 0 <= i < |s.rotated| :: s.rotated[i] in s.issued && !Live(s, s.rotated[i]))
    && (forall i, j | 0 <= i < j < |s.rotated| :: s.rotated[i] != s.rotated[j])
  }

  ghost predicate Inv(s: State) {
    && BornOk(s) && FamiliesOk(s) && SessionsOk(s) && OneLivePerFamily(s) && RevokedOk(s) && RotatedOk(s)
    && forall pid | pid in s.requests :: RequestOk(s, s.requests[pid])
  }

  /** History only grows. */
  ghost predicate Extends(s: State, t: State) {
    s.owners <= t.owners && s.rotated <= t.rotated
  }

  /** Steps that insert no session: rows may go, the rest of the history stays. */
  lemma ShrinkingKeepsInv(s: State, t: State)
    requires Inv(s)
    requires t.born == s.born && t.issued == s.issued && t.family == s.family && t.owners == s.owners && t.rotated == s.rotated
    requires forall id | id in t.db.sessions :: id in s.db.sessions && t.db.sessions[id] == s.db.sessions[id]
    requires forall hash | hash in t.db.revoked ::
      (hash in s.db.revoked && t.db.revoked[hash] == s.db.revoked[hash])
      || (hash in s.issued && !Live(t, hash) && s.born[s.issued[hash]].user == t.db.revoked[hash].user)
    requires forall pid | pid in t.requests ::
      (pid in s.requests && t.requests[pid] == s.requests[pid]) || RequestOk(s, t.requests[pid])
    ensures Inv(t) && Extends(s, t)
  {
    assert forall pid | pid in t.requests :: RequestOk(s, t.requests[pid]);
  }

  /** Inserting a fresh session in a family that has no live member. */
  function Added(s: State, session: Session, family: nat, owners: seq<User>): State {
    Insert(s, session, family).(owners := owners, db := s.db.(sessions := s.db.sessions[session.id := session]))
  }

  ghost predicate CanAdd(s: State, session: Session, family: nat, owners: seq<User>) {
    && Inv(s) && Fresh(s, session) && s.owners <= owners && family < |owners| && owners[family] == session.user
    && forall id | id in s.db.sessions :: s.family[id] != family
  }

  lemma AddingKeepsBorn(s: State, session: Session, family: nat, owners: seq<User>)
    requires BornOk(s) && Fresh(s, session)
    ensures BornOk(Added(s, session, family, owners))
  {
    var t := Added(s, session, family, owners);
    assert t.born.Keys == s.born.Keys + {session.id} && t.family.Keys == s.family.Keys + {session.id};
    forall id | id in t.born ensures t.born[id].id == id && IssuedTo(t, t.born[id].hash, id) {
      if id != session.id { assert IssuedTo(s, s.born[id].hash, id); }
    }
    forall hash | hash in t.issued ensures t.issued[hash] in t.born && t.born[t.issued[hash]].hash == hash {
      if hash != session.hash { assert s.issued[hash] in s.born; }
    }
  }

  lemma AddingKeepsFamilies(s: State, session: Session, family: nat, owners: seq<User>)
    requires CanAdd(s, session, family, owners) && BornOk(Added(s, session, family, owners))
    ensures FamiliesOk(Added(s, session, family, owners))
  {
    forall id | id in s.born ensures s.family[id] < |owners| && s.born[id].user == owners[s.family[id]] {
      assert owners[s.family[id]] == s.owners[s.family[id]];
    }
  }

  lemma AddingKeepsSessions(s: State, session: Session, family: nat, owners: seq<User>)
    requires CanAdd(s, session, family, owners) && BornOk(Added(s, session, family, owners))
    ensures var t := Added(s, session, family, owners); SessionsOk(t) && OneLivePerFamily(t)
  {
  }

  lemma AddingKeepsHashes(s: State, session: Session, family: nat, owners: seq<User>)
    requires CanAdd(s, session, family, owners) && BornOk(Added(s, session, family, owners))
    ensures var t := Added(s, session, family, owners); RevokedOk(t) && RotatedOk(t)
  {
    var t := Added(s, session, family, owners);
    forall hash | hash in s.issued
      ensures hash in t.issued && t.issued[hash] == s.issued[hash] && Live(t, hash) == Live(s, hash)
      ensures t.born[t.issued[hash]] == s.born[s.issued[hash]]
    {
      assert hash != session.hash && s.issued[hash] != session.id;
    }
    assert t.db.revoked == s.db.revoked && t.rotated == s.rotated;
  }

  lemma AddingKeepsInv(s: State, session: Session, family: nat, owners: seq<User>)
    requires CanAdd(s, session, family, owners)
    ensures Inv(Added(s, session, family, owners)) && Extends(s, Added(s, session, family, owners))
  {
    var t := Added(s, session, family, owners);
    AddingKeepsBorn(s, session, family, owners);
    AddingKeepsFamilies(s, session, family, owners);
    AddingKeepsSessions(s, session, family, owners);
    AddingKeepsHashes(s, session, family, owners);
    AddingKeepsRequests(s, session, family, owners);
  }

  lemma AddingKeepsRequests(s: State, session: Session, family: nat, owners: seq<User>)
    requires CanAdd(s, session, family, owners)
    ensures var t := Added(s, session, family, owners); forall pid | pid in t.requests :: RequestOk(t, t.requests[pid])
  {
    forall pid | pid in s.requests ensures RequestOk(Added(s, session, family, owners), s.requests[pid]) {
      assert RequestOk(s, s.requests[pid]);
    }
  }

  /** The part of a committed rotation before the new row is inserted. */
  function Burned(s: State, hash: Hash, prior: Session): State {
    s.(db := Db(s.db.sessions - {prior.id}, WithRevoked(s.db.revoked, hash, RevokedRow(prior))), rotated := s.rotated + [hash])
  }

  lemma BurningKeepsInv(s: State, hash: Hash, prior: Session)
    requires Inv(s) && RequestOk(s, RefreshRead(hash, prior)) && prior.id in s.db.sessions
    ensures Inv(Burned(s, hash, prior)) && Extends(s, Burned(s, hash, prior))
  {
    var t := Burned(s, hash, prior);
    assert IssuedTo(s, hash, prior.id) && Live(s, hash) && !Live(t, hash);
    var mid := t.(rotated := s.rotated);
    ShrinkingKeepsInv(s, mid);
    BurningKeepsRotated(s, hash, prior);
    assert forall h :: Live(t, h) == Live(mid, h);
    assert forall pid | pid in t.requests :: RequestOk(mid, t.requests[pid]) && RequestOk(t, t.requests[pid]);
  }

  lemma BurningKeepsRotated(s: State, hash: Hash, prior: Session)
    requires RotatedOk(s) && Live(s, hash) && s.issued[hash] == prior.id
    ensures RotatedOk(Burned(s, hash, prior))
  {
    var t := Burned(s, hash, prior);
    forall i | 0 <= i < |t.rotated| ensures t.rotated[i] in s.issued && !Live(t, t.rotated[i]) {
      if i < |s.rotated| { assert t.rotated[i] == s.rotated[i]; }
    }
    forall i, j | 0 <= i < j < |t.rotated| ensures t.rotated[i] != t.rotated[j] {
      assert t.rotated[i] == s.rotated[i];
    }
  }

  lemma RotateKeepsInv(s: State, a: Action)
    requires Inv(s) && a.RotateTx? && Enabled(s, a)
    ensures Inv(Apply(s, a)) && Extends(s, Apply(s, a))
  {
    var hash, prior := s.requests[a.pid].hash, s.requests[a.pid].session;
    var t := Apply(s, a);
    assert RequestOk(s, s.requests[a.pid]);
    ShrinkingKeepsInv(s, Done(s, a.pid));
    if prior.id in s.db.sessions {
      BurningKeepsInv(Done(s, a.pid), hash, prior);
      RotationIsBurnThenAdd(s, a);
      AddingKeepsInv(Burned(Done(s, a.pid), hash, prior), a.next, s.family[prior.id], s.owners);
    }
  }

  lemma RotationIsBurnThenAdd(s: State, a: Action)
    requires Inv(s) && a.RotateTx? && Enabled(s, a)
    requires s.requests[a.pid].session.id in s.db.sessions
    ensures var hash, prior := s.requests[a.pid].hash, s.requests[a.pid].session;
      var mid := Burned(Done(s, a.pid), hash, prior);
      && prior.id in s.family && s.family[prior.id] < |s.owners| && s.owners[s.family[prior.id]] == a.next.user
      && Fresh(mid, a.next) && (forall id | id in mid.db.sessions :: s.family[id] != s.family[prior.id])
      && Apply(s, a) == Added(mid, a.next, s.family[prior.id], s.owners)
  {
    var prior := s.requests[a.pid].session;
    assert RequestOk(s, s.requests[a.pid]);
    assert CanCreate(s.db.sessions - {prior.id}, a.next);
  }

  lemma LogoutKeepsInv(s: State, a: Action)
    requires Inv(s) && a.LogoutTx? && Enabled(s, a)
    ensures Inv(Apply(s, a)) && Extends(s, Apply(s, a))
  {
    var hash, session := s.requests[a.pid].hash, s.requests[a.pid].session;
    var t := Apply(s, a);
    assert RequestOk(s, s.requests[a.pid]);
    if session.id in s.db.sessions { assert !Live(t, hash); }
    ShrinkingKeepsInv(s, t);
  }

  /** Steps that only move a request or the clock. */
  lemma RequestStepKeepsInv(s: State, a: Action)
    requires Inv(s) && Enabled(s, a)
    requires a.Arrive? || a.LookupRevoked? || a.ReadSession? || a.BeginReuse? || a.BeginDeletion? || a.GiveUp? || a.Tick?
    ensures Inv(Apply(s, a)) && Extends(s, Apply(s, a))
  {
    RequestStepChangesRequests(s, a);
    RequestsAloneKeepInv(s, Apply(s, a));
  }

  lemma RequestsAloneKeepInv(s: State, t: State)
    requires Inv(s) && t == s.(now := t.now, requests := t.requests)
    requires forall pid | pid in t.requests :: (pid in s.requests && t.requests[pid] == s.requests[pid]) || RequestOk(s, t.requests[pid])
    ensures Inv(t) && Extends(s, t)
  {
    ShrinkingKeepsInv(s, t);
  }

  lemma RequestStepChangesRequests(s: State, a: Action)
    requires Inv(s) && Enabled(s, a)
    requires a.Arrive? || a.LookupRevoked? || a.ReadSession? || a.BeginReuse? || a.BeginDeletion? || a.GiveUp? || a.Tick?
    ensures var t := Apply(s, a);
      && t == s.(now := t.now, requests := t.requests)
      && forall pid | pid in t.requests :: (pid in s.requests && t.requests[pid] == s.requests[pid]) || RequestOk(s, t.requests[pid])
  {
    var t := Apply(s, a);
    assert t == s.(now := t.now, requests := t.requests);
    if a.ReadSession? && a.found.Some? { ReadRequestIsOk(s, a.pid, a.found.value); }
  }

  lemma ReadRequestIsOk(s: State, pid: Pid, session: Session)
    requires Inv(s) && Enabled(s, ReadSession(pid, Some(session)))
    ensures var t := Apply(s, ReadSession(pid, Some(session)));
      pid in t.requests && RequestOk(s, t.requests[pid]) && t.requests == s.requests[pid := t.requests[pid]]
  {
  }

  /** Steps that delete rows. */
  lemma DeletingStepKeepsInv(s: State, a: Action)
    requires Inv(s) && Enabled(s, a)
    requires a.FinishDeletion? || a.DropExpired? || a.RevokeOne? || a.Cleanup?
    ensures Inv(Apply(s, a)) && Extends(s, Apply(s, a))
  {
    ShrinkingKeepsInv(s, Apply(s, a));
  }

  lemma LoginKeepsInv(s: State, session: Session)
    requires Inv(s) && Enabled(s, Login(session))
    ensures Inv(Apply(s, Login(session))) && Extends(s, Apply(s, Login(session)))
  {
    AddingKeepsInv(s, session, |s.owners|, s.owners + [session.user]);
    assert Apply(s, Login(session)) == Added(s, session, |s.owners|, s.owners + [session.user]);
  }

  lemma StepKeepsInv(s: State, a: Action)
    requires Inv(s) && Enabled(s, a)
    ensures Inv(Apply(s, a)) && Extends(s, Apply(s, a))
  {
    if a.Login? { LoginKeepsInv(s, a.session); }
    else if a.RotateTx? { RotateKeepsInv(s, a); }
    else if a.LogoutTx? { LogoutKeepsInv(s, a); }
    else if a.FinishDeletion? || a.DropExpired? || a.RevokeOne? || a.Cleanup? { DeletingStepKeepsInv(s, a); }
    else { RequestStepKeepsInv(s, a); }
  }

  // ---------- Runs

  ghost predicate Step(states: seq<State>, actions: seq<Action>, i: nat) {
    i < |actions| && i + 1 < |states| && Enabled(states[i], actions[i]) && states[i + 1] == Apply(states[i], actions[i])
  }

  /** A run: each state follows from the one before by its action. */
  ghost predicate Run(states: seq<State>, actions: seq<Action>) {
    && |states| == |actions| + 1 && Init(states[0])
    && forall i: nat | i < |actions| :: Step(states, actions, i)
  }

  lemma StepAt(states: seq<State>, actions: seq<Action>, i: nat)
    requires Run(states, actions) && i < |actions|
    ensures Enabled(states[i], actions[i]) && states[i + 1] == Apply(states[i], actions[i])
  {
    assert Step(states, actions, i);
  }

  lemma {:induction false} RunKeepsInv(states: seq<State>, actions: seq<Action>, i: nat)
    requires Run(states, actions) && i < |states|
    ensures Inv(states[i])
  {
    if i > 0 {
      RunKeepsInv(states, actions, i - 1);
      StepAt(states, actions, i - 1);
      StepKeepsInv(states[i - 1], actions[i - 1]);
    }
  }

  lemma StepExtends(s: State, a: Action)
    requires Enabled(s, a)
    ensures Extends(s, Apply(s, a))
  {
  }

  lemma {:induction false} RunExtends(states: seq<State>, actions: seq<Action>, i: nat, j: nat)
    requires Run(states, actions) && i <= j < |states|
    ensures Extends(states[i], states[j])
    decreases j
  {
    if i < j {
      RunExtends(states, actions, i, j - 1);
      StepAt(states, actions, j - 1);
      StepExtends(states[j - 1], actions[j - 1]);
    }
  }

  /** The action rotates the token with this hash, and commits. */
  ghost predicate Rotates(s: State, a: Action, hash: Hash) {
    a.RotateTx? && Enabled(s, a) && s.requests[a.pid].hash == hash && Rotated(s.db, hash, s.requests[a.pid].session, a.next).Ok?
  }

  /** A refresh token is exchanged successfully at most once in any run, whatever is interleaved and even
      when the row that revokes it has been cleaned up in between. */
  lemma TokenRotatesAtMostOnce(states: seq<State>, actions: seq<Action>, i: nat, j: nat, hash: Hash)
    requires Run(states, actions) && i < |actions| && j < |actions|
    requires Rotates(states[i], actions[i], hash) && Rotates(states[j], actions[j], hash)
    ensures i == j
  {
    if i < j { NoSecondRotation(states, actions, i, j, hash); }
    if j < i { NoSecondRotation(states, actions, j, i, hash); }
  }

  lemma NoSecondRotation(states: seq<State>, actions: seq<Action>, i: nat, j: nat, hash: Hash)
    requires Run(states, actions) && i < j < |actions| && Rotates(states[i], actions[i], hash)
    ensures !Rotates(states[j], actions[j], hash)
  {
    RunKeepsInv(states, actions, j);
    RunExtends(states, actions, i + 1, j);
    StepAt(states, actions, i);
    assert states[i + 1].rotated[|states[i].rotated|] == hash;
    RotatedHashIsSpent(states[j], actions[j], hash);
  }

  lemma RotatedHashIsSpent(s: State, a: Action, hash: Hash)
    requires Inv(s) && hash in s.rotated
    ensures !Rotates(s, a, hash)
  {
    if a.RotateTx? && Enabled(s, a) { assert RequestOk(s, s.requests[a.pid]); }
    assert !Live(s, hash);
  }

  /** In every reachable state no live session's hash is revoked, each login's family has at most one live
      session, and a revoked hash points at the user it was issued to. */
  lemma RevokedAndLiveAreDisjoint(states: seq<State>, actions: seq<Action>, i: nat)
    requires Run(states, actions) && i < |states|
    ensures var s := states[i];
      && (forall id | id in s.db.sessions :: s.db.sessions[id].hash !in s.db.revoked)
      && (forall id | id in s.db.sessions :: id in s.family)
      && (forall a, b | a in s.db.sessions && b in s.db.sessions && s.family[a] == s.family[b] :: a == b)
      && (forall hash, id | hash in s.db.revoked && IssuedTo(s, hash, id) :: id in s.born && s.db.revoked[hash].user == s.born[id].user)
  {
    RunKeepsInv(states, actions, i);
    var s := states[i];
    forall id | id in s.db.sessions ensures s.db.sessions[id].hash !in s.db.revoked {
      assert Live(s, s.db.sessions[id].hash);
    }
  }

  // ---------- What no step undoes

  lemma StepKeepsHistory(s: State, a: Action, id: Id)
    requires Inv(s) && Enabled(s, a) && id in s.born
    ensures var t := Apply(s, a);
      id in t.born && t.born[id] == s.born[id] && id in t.family && t.family[id] == s.family[id]
  {
    if a.RotateTx? && s.requests[a.pid].session.id in s.db.sessions {
      RotationIsBurnThenAdd(s, a);
    } else if !a.Login? {
      StepInsertsNothing(s, a);
    }
  }

  lemma StepInsertsNothing(s: State, a: Action)
    requires Enabled(s, a) && !a.Login?
    requires a.RotateTx? ==> s.requests[a.pid].session.id !in s.db.sessions
    ensures var t := Apply(s, a); t.born == s.born && t.family == s.family && t.issued == s.issued
    ensures Apply(s, a).db.sessions.Keys <= s.db.sessions.Keys
  {
  }

  lemma {:induction false} RunKeepsHistory(states: seq<State>, actions: seq<Action>, i: nat, j: nat, id: Id)
    requires Run(states, actions) && i <= j < |states| && id in states[i].born && id in states[i].family
    ensures id in states[j].born && states[j].born[id] == states[i].born[id]
    ensures id in states[j].family && states[j].family[id] == states[i].family[id]
    decreases j
  {
    if i < j {
      RunKeepsHistory(states, actions, i, j - 1, id);
      HistoryAt(states, actions, j - 1, id);
    }
  }

  lemma HistoryAt(states: seq<State>, actions: seq<Action>, i: nat, id: Id)
    requires Run(states, actions) && i < |actions| && id in states[i].born && id in states[i].family
    ensures id in states[i + 1].born && states[i + 1].born[id] == states[i].born[id]
    ensures id in states[i + 1].family && states[i + 1].family[id] == states[i].family[id]
  {
    RunKeepsInv(states, actions, i);
    StepAt(states, actions, i);
    StepKeepsHistory(states[i], actions[i], id);
  }

  /** A hash that was issued and has no row any more. */
  ghost predicate Dead(s: State, hash: Hash) {
    hash in s.issued && !Live(s, hash)
  }

  lemma StepKeepsDead(s: State, a: Action, hash: Hash)
    requires Inv(s) && Enabled(s, a) && Dead(s, hash)
    ensures Dead(Apply(s, a), hash)
  {
    if a.RotateTx? && s.requests[a.pid].session.id in s.db.sessions {
      RotationIsBurnThenAdd(s, a);
    } else if !a.Login? {
      StepInsertsNothing(s, a);
    }
  }

  lemma {:induction false} RunKeepsDead(states: seq<State>, actions: seq<Action>, i: nat, j: nat, hash: Hash)
    requires Run(states, actions) && i <= j < |states| && Dead(states[i], hash)
    ensures Dead(states[j], hash)
    decreases j
  {
    if i < j {
      RunKeepsDead(states, actions, i, j - 1, hash);
      DeadAt(states, actions, j - 1, hash);
    }
  }

  lemma DeadAt(states: seq<State>, actions: seq<Action>, i: nat, hash: Hash)
    requires Run(states, actions) && i < |actions| && Dead(states[i], hash)
    ensures Dead(states[i + 1], hash)
  {
    RunKeepsInv(states, actions, i);
    StepAt(states, actions, i);
    StepKeepsDead(states[i], actions[i], hash);
  }

  lemma OwnersGrowByLogins(s: State, a: Action)
    requires Enabled(s, a)
    ensures Apply(s, a).owners == if a.Login? then s.owners + [a.session.user] else s.owners
  {
  }

  /** Every family number stands for a login. */
  lemma {:induction false} FamilyBeginsWithLogin(states: seq<State>, actions: seq<Action>, j: nat, f: nat) returns (k: nat)
    requires Run(states, actions) && j < |states| && f < |states[j].owners|
    ensures k < j && actions[k].Login? && |states[k].owners| == f && actions[k].session.user == states[j].owners[f]
  {
    StepAt(states, actions, j - 1);
    OwnersGrowByLogins(states[j - 1], actions[j - 1]);
    if f < |states[j - 1].owners| { k := FamilyBeginsWithLogin(states, actions, j - 1, f); } else { k := j - 1; }
  }

  // ---------- Building runs

  /** The run goes from `first` to `last`. */
  ghost predicate Leads(states: seq<State>, actions: seq<Action>, first: State, last: State) {
    Run(states, actions) && states[0] == first && states[|actions|] == last
  }

  lemma Extend(states: seq<State>, actions: seq<Action>, first: State, last: State, a: Action) returns (longer: seq<State>, more: seq<Action>)
    requires Leads(states, actions, first, last) && Enabled(last, a)
    ensures Leads(longer, more, first, Apply(last, a)) && more == actions + [a]
  {
    longer, more := states + [Apply(last, a)], actions + [a];
    forall i: nat | i < |more| ensures Step(longer, more, i) {
      if i < |actions| {
        StepAt(states, actions, i);
        assert longer[i] == states[i] && longer[i + 1] == states[i + 1] && more[i] == actions[i];
      }
    }
  }
}
