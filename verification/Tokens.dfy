/** The two tables behind refresh tokens, `internal/storage/{session,revoked_token}_store.go`, and the
    handlers that change them when each runs alone, `internal/api/{auth,account}.go`. */
module Tokens {
  import opened Prelude

  type Id = nat
  type User = nat
  type Hash = string
  type Time = int

  datatype Session = Session(id: Id, user: User, tenant: nat, hash: Hash, expiresAt: Time)

  datatype RevokedToken = RevokedToken(user: User, tenant: nat, expiresAt: Time)

  datatype StoreError = NotFound | DuplicateKey

  datatype Db = Db(sessions: map<Id, Session>, revoked: map<Hash, RevokedToken>)

  /** The primary key and the unique index on refresh_hash. */
  ghost predicate Keyed(sessions: map<Id, Session>) {
    && (forall id | id in sessions :: sessions[id].id == id)
    && (forall a, b | a in sessions && b in sessions && sessions[a].hash == sessions[b].hash :: a == b)
  }

  function RevokedRow(session: Session): RevokedToken {
    RevokedToken(session.user, session.tenant, session.expiresAt)
  }

  /** ON CONFLICT DO NOTHING. */
  function WithRevoked(revoked: map<Hash, RevokedToken>, hash: Hash, row: RevokedToken): map<Hash, RevokedToken> {
    if hash in revoked then revoked else revoked[hash := row]
  }

  ghost predicate CanCreate(sessions: map<Id, Session>, s: Session) {
    s.id !in sessions && forall id | id in sessions :: sessions[id].hash != s.hash
  }

  function WithoutUser(sessions: map<Id, Session>, user: User): map<Id, Session> {
    map id | id in sessions && sessions[id].user != user :: sessions[id]
  }

  function Unexpired(revoked: map<Hash, RevokedToken>, now: Time): map<Hash, RevokedToken> {
    map hash | hash in revoked && !(revoked[hash].expiresAt < now) :: revoked[hash]
  }

  /** The rotate transaction: revoke the old hash, delete the old row, insert the new one; all or nothing. */
  ghost function Rotated(db: Db, hash: Hash, prior: Session, next: Session): Result<Db, StoreError> {
    if prior.id !in db.sessions then Err(NotFound)
    else if !CanCreate(db.sessions - {prior.id}, next) then Err(DuplicateKey)
    else Ok(Db((db.sessions - {prior.id})[next.id := next], WithRevoked(db.revoked, hash, RevokedRow(prior))))
  }

  /** The logout transaction. */
  function LoggedOut(db: Db, hash: Hash, session: Session): Result<Db, StoreError> {
    if session.id !in db.sessions then Err(NotFound)
    else Ok(Db(db.sessions - {session.id}, WithRevoked(db.revoked, hash, RevokedRow(session))))
  }

  datatype RefreshOutcome = Reuse(user: User) | Invalid | Expired | Failed(error: StoreError) | Refreshed(session: Session)

  class Tables {
    var sessions: map<Id, Session>
    var revoked: map<Hash, RevokedToken>

    ghost predicate Valid()
      reads this
    {
      Keyed(sessions)
    }

    ghost function Contents(): Db
      reads this
    {
      Db(sessions, revoked)
    }

    constructor ()
      ensures Valid() && Contents() == Db(map[], map[])
    {
      sessions, revoked := map[], map[];
    }

    method Create(s: Session) returns (r: Result<(), StoreError>)
      requires Valid()
      modifies this`sessions
      ensures Valid() && r.Ok? == old(CanCreate(sessions, s))
      ensures sessions == if r.Ok? then old(sessions)[s.id := s] else old(sessions)
    {
      var clash := GetByRefreshHash(s.hash);
      if s.id in sessions || clash.Some? { return Err(DuplicateKey); }
      sessions := sessions[s.id := s];
      return Ok(());
    }

    method GetByRefreshHash(hash: Hash) returns (found: Option<Session>)
      requires Valid()
      ensures found.Some? ==> found.value.hash == hash && found.value.id in sessions && sessions[found.value.id] == found.value
      ensures found.None? ==> forall id | id in sessions :: sessions[id].hash != hash
    {
      var todo := sessions.Keys;
      while todo != {}
        invariant todo <= sessions.Keys
        invariant forall id | id in sessions && id !in todo :: sessions[id].hash != hash
      {
        var id :| id in todo;
        if sessions[id].hash == hash { return Some(sessions[id]); }
        todo := todo - {id};
      }
      return None;
    }

    method DeleteByID(id: Id) returns (r: Result<(), StoreError>)
      requires Valid()
      modifies this`sessions
      ensures Valid() && sessions == old(sessions) - {id}
      ensures r == if id in old(sessions) then Ok(()) else Err(NotFound)
    {
      r := if id in sessions then Ok(()) else Err(NotFound);
      sessions := sessions - {id};
    }

    method DeleteByUserID(user: User)
      requires Valid()
      modifies this`sessions
      ensures Valid() && sessions == WithoutUser(old(sessions), user)
    {
      sessions := map id | id in sessions && sessions[id].user != user :: sessions[id];
    }

    method InsertRevoked(hash: Hash, row: RevokedToken)
      modifies this`revoked
      ensures revoked == WithRevoked(old(revoked), hash, row)
    {
      if hash !in revoked { revoked := revoked[hash := row]; }
    }

    method LookupRevoked(hash: Hash) returns (found: Option<RevokedToken>)
      ensures found == if hash in revoked then Some(revoked[hash]) else None
    {
      return if hash in revoked then Some(revoked[hash]) else None;
    }

    method DeleteExpiredRevoked(now: Time)
      modifies this`revoked
      ensures revoked == Unexpired(old(revoked), now)
    {
      revoked := map hash | hash in revoked && !(revoked[hash].expiresAt < now) :: revoked[hash];
    }

    /** runInTx around the three writes of handleRefresh: an error restores both tables. */
    method RotateTx(hash: Hash, prior: Session, next: Session) returns (r: Result<(), StoreError>)
      requires Valid()
      modifies this
      ensures Valid()
      ensures match old(Rotated(Contents(), hash, prior, next))
              case Ok(db) => r.Ok? && Contents() == db
              case Err(e) => r == Err(e) && Contents() == old(Contents())
    {
      var savedSessions, savedRevoked := sessions, revoked;
      InsertRevoked(hash, RevokedRow(prior));
      r := DeleteByID(prior.id);
      if r.Ok? { r := Create(next); if r.Err? { r := Err(DuplicateKey); } }
      if r.Err? { sessions, revoked := savedSessions, savedRevoked; }
    }

    method LogoutTx(hash: Hash, session: Session) returns (r: Result<(), StoreError>)
      requires Valid()
      modifies this
      ensures Valid()
      ensures match old(LoggedOut(Contents(), hash, session))
              case Ok(db) => r.Ok? && Contents() == db
              case Err(e) => r == Err(e) && Contents() == old(Contents())
    {
      var savedSessions, savedRevoked := sessions, revoked;
      InsertRevoked(hash, RevokedRow(session));
      r := DeleteByID(session.id);
      if r.Err? { sessions, revoked := savedSessions, savedRevoked; }
    }

    /** handleRefresh run without interference. `member` says whether the session's user exists and still has
        a role in its tenant. */
    method HandleRefresh(hash: Hash, now: Time, member: bool, newId: Id, newHash: Hash, ttl: nat) returns (outcome: RefreshOutcome)
      requires Valid()
      modifies this
      ensures Valid()
      ensures hash in old(revoked) ==>
        outcome == Reuse(old(revoked)[hash].user)
        && Contents() == Db(WithoutUser(old(sessions), old(revoked)[hash].user), old(revoked))
      ensures hash !in old(revoked) && (forall id | id in old(sessions) :: old(sessions)[id].hash != hash) ==>
        outcome == Invalid && Contents() == old(Contents())
      ensures forall id | hash !in old(revoked) && id in old(sessions) && old(sessions)[id].hash == hash ::
        var s := old(sessions)[id];
        if s.expiresAt <= now then
          outcome == Expired && Contents() == Db(old(sessions) - {id}, old(revoked))
        else if !member then
          outcome == Invalid && Contents() == old(Contents())
        else
          var next := Session(newId, s.user, s.tenant, newHash, now + ttl);
          if CanCreate(old(sessions) - {id}, next) then
            outcome == Refreshed(next)
            && Contents() == Db((old(sessions) - {id})[newId := next], old(revoked)[hash := RevokedRow(s)])
          else outcome == Failed(DuplicateKey) && Contents() == old(Contents())
    {
      var seen := LookupRevoked(hash);
      if seen.Some? {
        DeleteByUserID(seen.value.user);
        return Reuse(seen.value.user);
      }
      var found := GetByRefreshHash(hash);
      if found.None? { return Invalid; }
      var session := found.value;
      if !(session.expiresAt > now) {
        var _ := DeleteByID(session.id);
        return Expired;
      }
      if !member { return Invalid; }
      var next := Session(newId, session.user, session.tenant, newHash, now + ttl);
      var r := RotateTx(hash, session, next);
      if r.Err? { return Failed(r.error); }
      return Refreshed(next);
    }

    /** The token part of handleLogout, without interference. */
    method HandleLogout(hash: Hash)
      requires Valid()
      modifies this
      ensures Valid()
      ensures forall id | id in old(sessions) && old(sessions)[id].hash == hash ::
        Contents() == Db(old(sessions) - {id}, WithRevoked(old(revoked), hash, RevokedRow(old(sessions)[id])))
      ensures (forall id | id in old(sessions) :: old(sessions)[id].hash != hash) ==> Contents() == old(Contents())
    {
      var found := GetByRefreshHash(hash);
      if found.Some? { var _ := LogoutTx(hash, found.value); }
    }
  }
}
