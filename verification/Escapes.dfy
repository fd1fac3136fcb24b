/** Runs in which a replayed token, a logout or the deletion of all of a user's sessions comes too late, each
    from the empty database to a state in which the login's new session is alive. */
module Escapes {
  import opened Prelude
  import opened Tokens
  import opened Rotation

  /** Two rows of one user, the first one not expired. */
  predicate Pair(now: Time, a: Session, b: Session) {
    a.id != b.id && a.hash != b.hash && a.user == b.user && a.tenant == b.tenant && a.expiresAt > now
  }

  function Empty(now: Time): State {
    State(Db(map[], map[]), now, map[], map[], map[], map[], [], [])
  }

  /** Request 1 has read the login's session and is about to rotate it; `others` are in flight too. */
  function Reading(now: Time, a: Session, others: map<Pid, Request>): State {
    State(Db(map[a.id := a], map[]), now, others[1 := RefreshRead(a.hash, a)], map[a.id := a], map[a.hash := a.id],
          map[a.id := 0], [a.user], [])
  }

  /** Request 1 has rotated the session. */
  function Rotated1(now: Time, a: Session, b: Session, others: map<Pid, Request>): State {
    State(Db(map[b.id := b], map[a.hash := RevokedRow(a)]), now, others, map[a.id := a, b.id := b],
          map[a.hash := a.id, b.hash := b.id], map[a.id := 0, b.id := 0], [a.user], [a.hash])
  }

  function Opening(a: Session): seq<Action> {
    [Login(a), Arrive(1, a.hash, false), LookupRevoked(1), ReadSession(1, Some(a))]
  }

  lemma Open(now: Time, a: Session) returns (states: seq<State>, actions: seq<Action>)
    requires a.expiresAt > now
    ensures Leads(states, actions, Empty(now), Reading(now, a, map[])) && actions == Opening(a)
  {
    var s := Empty(now);
    assert Leads([s], [], s, s);
    states, actions := Extend([s], [], s, s, Login(a));
    var s1 := Apply(s, Login(a));
    states, actions := Extend(states, actions, s, s1, Arrive(1, a.hash, false));
    var s2 := Apply(s1, Arrive(1, a.hash, false));
    states, actions := Extend(states, actions, s, s2, LookupRevoked(1));
    var s3 := Apply(s2, LookupRevoked(1));
    states, actions := Extend(states, actions, s, s3, ReadSession(1, Some(a)));
    assert Apply(s3, ReadSession(1, Some(a))) == Reading(now, a, map[]);
  }

  lemma RotationOf(now: Time, a: Session, b: Session, others: map<Pid, Request>)
    requires Pair(now, a, b) && 1 !in others
    ensures Enabled(Reading(now, a, others), RotateTx(1, b))
    ensures Apply(Reading(now, a, others), RotateTx(1, b)) == Rotated1(now, a, b, others)
  {
    var s := Reading(now, a, others);
    assert s.db.sessions - {a.id} == map[] && CanCreate(s.db.sessions - {a.id}, b);
    assert s.requests - {1} == others;
  }

  /** Request 2 arrives with the same token and looks it up before request 1 rotates it. */
  lemma SecondLooksUp(now: Time, a: Session) returns (states: seq<State>, actions: seq<Action>)
    requires a.expiresAt > now
    ensures Leads(states, actions, Empty(now), Reading(now, a, map[2 := RefreshUnrevoked(a.hash)]))
    ensures actions == Opening(a) + [Arrive(2, a.hash, false), LookupRevoked(2)]
  {
    states, actions := Open(now, a);
    var s := Reading(now, a, map[]);
    states, actions := Extend(states, actions, Empty(now), s, Arrive(2, a.hash, false));
    var s1 := Apply(s, Arrive(2, a.hash, false));
    assert s1 == Reading(now, a, map[2 := RefreshStart(a.hash)]);
    states, actions := Extend(states, actions, Empty(now), s1, LookupRevoked(2));
    assert Apply(s1, LookupRevoked(2)) == Reading(now, a, map[2 := RefreshUnrevoked(a.hash)]);
  }

  /** A replay whose lookup precedes the rotation and whose read follows it is refused, and no session ends. */
  lemma ReplayBetweenLookupAndReadEscapes(now: Time, a: Session, b: Session) returns (states: seq<State>, actions: seq<Action>, end: State)
    requires Pair(now, a, b)
    ensures Leads(states, actions, Empty(now), end)
    ensures actions == Opening(a) + [Arrive(2, a.hash, false), LookupRevoked(2), RotateTx(1, b), ReadSession(2, None)]
    ensures end.requests == map[] && end.db.sessions == map[b.id := b]
  {
    var others := map[2 := RefreshUnrevoked(a.hash)];
    states, actions := SecondLooksUp(now, a);
    RotationOf(now, a, b, others);
    states, actions := Extend(states, actions, Empty(now), Reading(now, a, others), RotateTx(1, b));
    var s := Rotated1(now, a, b, others);
    states, actions := Extend(states, actions, Empty(now), s, ReadSession(2, None));
    end := Apply(s, ReadSession(2, None));
  }

  /** A replay that reads the session before the rotation fails in its transaction, and no session ends. */
  lemma ReplayAfterReadEscapes(now: Time, a: Session, b: Session, c: Session) returns (states: seq<State>, actions: seq<Action>, end: State)
    requires Pair(now, a, b) && Pair(now, a, c) && b.id != c.id && b.hash != c.hash
    ensures Leads(states, actions, Empty(now), end)
    ensures actions == Opening(a) + [Arrive(2, a.hash, false), LookupRevoked(2), ReadSession(2, Some(a)), RotateTx(1, b), RotateTx(2, c)]
    ensures end.requests == map[] && end.db.sessions == map[b.id := b]
  {
    states, actions := SecondLooksUp(now, a);
    var s := Reading(now, a, map[2 := RefreshUnrevoked(a.hash)]);
    states, actions := Extend(states, actions, Empty(now), s, ReadSession(2, Some(a)));
    var others := map[2 := RefreshRead(a.hash, a)];
    assert Apply(s, ReadSession(2, Some(a))) == Reading(now, a, others);
    RotationOf(now, a, b, others);
    states, actions := Extend(states, actions, Empty(now), Reading(now, a, others), RotateTx(1, b));
    var t := Rotated1(now, a, b, others);
    states, actions := Extend(states, actions, Empty(now), t, RotateTx(2, c));
    end := Apply(t, RotateTx(2, c));
  }

  lemma RotateAlone(now: Time, a: Session, b: Session) returns (states: seq<State>, actions: seq<Action>)
    requires Pair(now, a, b)
    ensures Leads(states, actions, Empty(now), Rotated1(now, a, b, map[])) && actions == Opening(a) + [RotateTx(1, b)]
  {
    states, actions := Open(now, a);
    RotationOf(now, a, b, map[]);
    states, actions := Extend(states, actions, Empty(now), Reading(now, a, map[]), RotateTx(1, b));
  }

  /** The revoked row has expired and been cleaned up. */
  function Cleaned(late: Time, a: Session, b: Session, others: map<Pid, Request>): State {
    Rotated1(late, a, b, others).(db := Db(map[b.id := b], map[]))
  }

  lemma ExpireAndClean(now: Time, late: Time, a: Session, b: Session) returns (states: seq<State>, actions: seq<Action>)
    requires Pair(now, a, b) && late > a.expiresAt
    ensures Leads(states, actions, Empty(now), Cleaned(late, a, b, map[]))
    ensures actions == Opening(a) + [RotateTx(1, b), Tick(late), Cleanup]
  {
    states, actions := RotateAlone(now, a, b);
    var s := Rotated1(now, a, b, map[]);
    states, actions := Extend(states, actions, Empty(now), s, Tick(late));
    var s1 := Apply(s, Tick(late));
    states, actions := Extend(states, actions, Empty(now), s1, Cleanup);
    assert Apply(s1, Cleanup) == Cleaned(late, a, b, map[]);
  }

  /** A replay after the token's expiry and a cleanup finds nothing, and no session ends. */
  lemma ReplayAfterCleanupEscapes(now: Time, late: Time, a: Session, b: Session) returns (states: seq<State>, actions: seq<Action>, end: State)
    requires Pair(now, a, b) && late > a.expiresAt
    ensures Leads(states, actions, Empty(now), end)
    ensures actions == Opening(a)
      + [RotateTx(1, b), Tick(late), Cleanup, Arrive(2, a.hash, false), LookupRevoked(2), ReadSession(2, None)]
    ensures end.requests == map[] && end.db.sessions == map[b.id := b]
  {
    states, actions := ExpireAndClean(now, late, a, b);
    var s := Cleaned(late, a, b, map[]);
    states, actions := Extend(states, actions, Empty(now), s, Arrive(2, a.hash, false));
    var s1 := Apply(s, Arrive(2, a.hash, false));
    states, actions := Extend(states, actions, Empty(now), s1, LookupRevoked(2));
    var s2 := Apply(s1, LookupRevoked(2));
    assert s2 == Cleaned(late, a, b, map[2 := RefreshUnrevoked(a.hash)]);
    states, actions := Extend(states, actions, Empty(now), s2, ReadSession(2, None));
    end := Apply(s2, ReadSession(2, None));
  }

  /** A logout whose read comes after the rotation ends nothing. */
  lemma LogoutAfterRotationEscapes(now: Time, a: Session, b: Session) returns (states: seq<State>, actions: seq<Action>, end: State)
    requires Pair(now, a, b)
    ensures Leads(states, actions, Empty(now), end)
    ensures actions == Opening(a) + [RotateTx(1, b), Arrive(2, a.hash, true), ReadSession(2, None)]
    ensures end.requests == map[] && end.db.sessions == map[b.id := b]
  {
    states, actions := RotateAlone(now, a, b);
    var s := Rotated1(now, a, b, map[]);
    states, actions := Extend(states, actions, Empty(now), s, Arrive(2, a.hash, true));
    var s1 := Apply(s, Arrive(2, a.hash, true));
    assert s1 == Rotated1(now, a, b, map[2 := LogoutStart(a.hash)]);
    states, actions := Extend(states, actions, Empty(now), s1, ReadSession(2, None));
    end := Apply(s1, ReadSession(2, None));
  }

  /** A deletion of all of the user's sessions that finds its rows before the rotation and deletes them after it
      leaves the new one. */
  lemma DeletionMissesRotation(now: Time, a: Session, b: Session) returns (states: seq<State>, actions: seq<Action>, end: State)
    requires Pair(now, a, b)
    ensures Leads(states, actions, Empty(now), end)
    ensures actions == Opening(a) + [BeginDeletion(2, a.user), RotateTx(1, b), FinishDeletion(2)]
    ensures end.requests == map[] && end.db.sessions == map[b.id := b] && b.user == a.user
  {
    states, actions := Open(now, a);
    var s := Reading(now, a, map[]);
    states, actions := Extend(states, actions, Empty(now), s, BeginDeletion(2, a.user));
    var others := map[2 := Deleting(a.user, {a.id})];
    assert Found(s, a.user) == {a.id} && Apply(s, BeginDeletion(2, a.user)) == Reading(now, a, others);
    RotationOf(now, a, b, others);
    states, actions := Extend(states, actions, Empty(now), Reading(now, a, others), RotateTx(1, b));
    var t := Rotated1(now, a, b, others);
    states, actions := Extend(states, actions, Empty(now), t, FinishDeletion(2));
    end := Apply(t, FinishDeletion(2));
  }
}
