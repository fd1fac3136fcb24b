/** How a change made on the server reaches one SDK client, end to end: database, publish channel
    (`internal/streaming/hub.go`), bounded client queue, SSE wire, one-slot refresh signal and single-writer
    refetch (`pkg/sdk/{stream,client}.go`) of a snapshot whose flags and segments are read one after the
    other (`internal/api/sdk_snapshot.go`). */
module Propagation {
  import opened Prelude

  const PUBLISH_CAPACITY := 256
  const QUEUE_CAPACITY := 16

  datatype Kind = Flag | Segment

  /** A change event. The server sends no version; here it is the version of the data it announces. */
  datatype Change = Change(env: nat, kind: Kind, version: nat)

  datatype Message = Notice(change: Change) | Heartbeat

  /** How new the flags and the segments of a snapshot are. */
  datatype Version = Version(flags: nat, segments: nat) {
    function Of(kind: Kind): nat {
      if kind == Flag then flags else segments
    }
    predicate AtMost(v: Version) {
      flags <= v.flags && segments <= v.segments
    }
  }

  datatype Fetch = Idle | Sent | FlagsRead(flags: nat) | BothRead(read: Version)

  /** `unpublished` are changes written whose handler has not published yet; `announced` is the history of
      this environment's changes published while the current connection has been up. */
  datatype State = State(
    env: nat,
    stored: Version,
    unpublished: multiset<Change>,
    publish: seq<Change>,
    connected: bool,
    queue: seq<Change>,
    wire: seq<Message>,
    signal: bool,
    fetch: Fetch,
    cache: Version,
    lastOk: bool,
    announced: seq<Change>)

  datatype Action =
    | Write(env: nat, kind: Kind)
    | Publish(change: Change)
    | Broadcast
    | Deliver
    | SendHeartbeat
    | Receive
    | Poke
    | FetchOnSignal
    | FetchOnTick
    | ReadFlags
    | ReadSegments
    | FetchDone
    | FetchFailed
    | Connect
    | Disconnect

  ghost predicate Init(s: State) {
    s.unpublished == multiset{} && s.publish == [] && !s.connected && s.queue == [] && s.wire == [] && !s.signal
    && s.fetch == Idle && s.cache.AtMost(s.stored) && s.announced == []
  }

  predicate Enabled(s: State, a: Action) {
    match a
    case Write(_, _) => true
    case Publish(change) => change in s.unpublished && |s.publish| < PUBLISH_CAPACITY
    case Broadcast => s.publish != []
    case Deliver => s.connected && s.queue != []
    case SendHeartbeat => s.connected
    case Receive => s.wire != []
    case Poke => true
    case FetchOnSignal => s.fetch.Idle? && s.signal
    case FetchOnTick => s.fetch.Idle?
    case ReadFlags => s.fetch.Sent?
    case ReadSegments => s.fetch.FlagsRead?
    case FetchDone => s.fetch.BothRead?
    case FetchFailed => !s.fetch.Idle?
    case Connect => !s.connected
    case Disconnect => s.connected
  }

  function Bump(v: Version, kind: Kind): Version {
    if kind == Flag then v.(flags := v.flags + 1) else v.(segments := v.segments + 1)
  }

  function Apply(s: State, a: Action): State
    requires Enabled(s, a)
  {
    match a
    case Write(env, kind) =>
      if env == s.env then
        var stored := Bump(s.stored, kind);
        s.(stored := stored, unpublished := s.unpublished + multiset{Change(env, kind, stored.Of(kind))})
      else s.(unpublished := s.unpublished + multiset{Change(env, kind, 0)})
    case Publish(change) =>
      s.(unpublished := s.unpublished - multiset{change}, publish := s.publish + [change],
         announced := if s.connected && change.env == s.env then s.announced + [change] else s.announced)
    case Broadcast =>
      var change := s.publish[0];
      s.(publish := s.publish[1..],
         queue := if s.connected && change.env == s.env && |s.queue| < QUEUE_CAPACITY then s.queue + [change] else s.queue)
    case Deliver => s.(queue := s.queue[1..], wire := s.wire + [Notice(s.queue[0])])
    case SendHeartbeat => s.(wire := s.wire + [Heartbeat])
    case Receive => s.(wire := s.wire[1..], signal := s.signal || s.wire[0].Notice?)
    case Poke => s.(signal := true)
    case FetchOnSignal => s.(signal := false, fetch := Sent)
    case FetchOnTick => s.(fetch := Sent)
    case ReadFlags => s.(fetch := FlagsRead(s.stored.flags))
    case ReadSegments => s.(fetch := BothRead(Version(s.fetch.flags, s.stored.segments)))
    case FetchDone => s.(fetch := Idle, cache := s.fetch.read, lastOk := true)
    case FetchFailed => s.(fetch := Idle, lastOk := false)
    case Connect => s.(connected := true)
    case Disconnect => s.(connected := false, queue := [], wire := [], announced := [])
  }

  // ---------- The invariant

  /** A notification is on its way to the refresh loop. */
  ghost predicate Noticed(s: State) {
    s.queue != [] || s.signal || exists i | 0 <= i < |s.wire| :: s.wire[i].Notice?
  }

  /** The fetch in flight, if it succeeds, brings the change. */
  ghost predicate FetchBrings(s: State, c: Change) {
    match s.fetch
    case Idle => false
    case Sent => true
    case FlagsRead(f) => c.kind == Flag ==> c.version <= f
    case BothRead(v) => c.version <= v.Of(c.kind)
  }

  /** No fetch is in flight, and either the last one failed or it brought the change. */
  ghost predicate Arrived(s: State, c: Change) {
    s.fetch.Idle? && (s.lastOk ==> c.version <= s.cache.Of(c.kind))
  }

  ghost predicate Covered(s: State, c: Change) {
    c in s.publish || Noticed(s) || FetchBrings(s, c) || Arrived(s, c)
  }

  ghost predicate Known(s: State, c: Change) {
    c.env == s.env ==> c.version <= s.stored.Of(c.kind)
  }

  ghost predicate FetchOk(s: State) {
    && s.cache.AtMost(s.stored)
    && match s.fetch
       case FlagsRead(f) => s.cache.flags <= f <= s.stored.flags
       case BothRead(v) => s.cache.AtMost(v) && v.AtMost(s.stored)
       case _ => true
  }

  ghost predicate Inv(s: State) {
    && FetchOk(s)
    && (forall c | c in s.unpublished :: Known(s, c))
    && (forall c | c in s.announced :: c.env == s.env && Known(s, c) && Covered(s, c))
    && (!s.connected ==> s.announced == [] && s.queue == [] && s.wire == [])
  }

  lemma KnownStays(s: State, a: Action, c: Change)
    requires Enabled(s, a) && Known(s, c)
    ensures Known(Apply(s, a), c)
  {
  }

  /** Dropping an event on a full queue and coalescing it into a raised signal both leave it covered. */
  lemma CoveredStays(s: State, a: Action, c: Change)
    requires FetchOk(s) && Enabled(s, a) && !a.Disconnect? && s.connected
    requires c.env == s.env && Known(s, c) && Covered(s, c)
    ensures Covered(Apply(s, a), c)
  {
    var t := Apply(s, a);
    match a
    case Broadcast =>
      if c in s.publish && c !in t.publish { assert c == s.publish[0] && t.queue != []; }
    case Publish(change) => assert c in s.publish ==> c in t.publish;
    case Deliver => assert t.wire[|s.wire|].Notice?;
    case SendHeartbeat =>
      if i :| 0 <= i < |s.wire| && s.wire[i].Notice? { assert t.wire[i].Notice?; }
    case Receive =>
      if i :| 0 <= i < |s.wire| && s.wire[i].Notice? { assert i > 0 ==> t.wire[i - 1].Notice?; }
    case Disconnect =>
    case _ => assert t.wire == s.wire;
  }

  lemma StepKeepsFetch(s: State, a: Action)
    requires FetchOk(s) && Enabled(s, a)
    ensures FetchOk(Apply(s, a)) && s.cache.AtMost(Apply(s, a).cache)
  {
  }

  lemma StepKeepsUnpublished(s: State, a: Action, c: Change)
    requires (forall u | u in s.unpublished :: Known(s, u)) && Enabled(s, a) && c in Apply(s, a).unpublished
    ensures Known(Apply(s, a), c)
  {
    if c in s.unpublished { KnownStays(s, a, c); }
  }

  /** What a step leaves in the history of announced changes: what was there, and the one it publishes. */
  lemma StepAnnounces(s: State, a: Action, c: Change)
    requires Enabled(s, a) && c in Apply(s, a).announced
    ensures c in s.announced || (a == Publish(c) && s.connected && c.env == s.env && c in Apply(s, a).publish)
    ensures !a.Disconnect?
  {
    if a.Publish? { assert Apply(s, a).publish[|s.publish|] == a.change; }
  }

  lemma StepKeepsAnnounced(s: State, a: Action, c: Change)
    requires Inv(s) && Enabled(s, a) && c in Apply(s, a).announced
    ensures c.env == s.env && Known(Apply(s, a), c) && Covered(Apply(s, a), c)
  {
    StepAnnounces(s, a, c);
    KnownStays(s, a, c);
    if c in s.announced { CoveredStays(s, a, c); }
  }

  lemma StepKeepsInv(s: State, a: Action)
    requires Inv(s) && Enabled(s, a)
    ensures Inv(Apply(s, a)) && s.cache.AtMost(Apply(s, a).cache) && Apply(s, a).env == s.env
  {
    var t := Apply(s, a);
    StepKeepsFetch(s, a);
    forall c | c in t.unpublished ensures Known(t, c) { StepKeepsUnpublished(s, a, c); }
    forall c | c in t.announced ensures c.env == s.env && Known(t, c) && Covered(t, c) { StepKeepsAnnounced(s, a, c); }
  }

  // ---------- Runs

  ghost predicate Step(states: seq<State>, actions: seq<Action>, i: nat) {
    i < |actions| && i + 1 < |states| && Enabled(states[i], actions[i]) && states[i + 1] == Apply(states[i], actions[i])
  }

  ghost predicate Run(states: seq<State>, actions: seq<Action>) {
    && |states| == |actions| + 1 && Init(states[0])
    && forall i: nat | i < |actions| :: Step(states, actions, i)
  }

  lemma StepAt(states: seq<State>, actions: seq<Action>, i: nat)
    requires Run(states, actions) && i < |actions|
    ensures Enabled(states[i], actions[i]) && states[i + 1] == Apply(states[i], actions[i])
  {
    assert Step(states, actions, i);
  }

  lemma {:induction false} RunKeepsInv(states: seq<State>, actions: seq<Action>, i: nat)
    requires Run(states, actions) && i < |states|
    ensures Inv(states[i])
  {
    if i > 0 {
      RunKeepsInv(states, actions, i - 1);
      StepAt(states, actions, i - 1);
      StepKeepsInv(states[i - 1], actions[i - 1]);
    }
  }

  /** Nothing is in flight towards the client, and its last fetch succeeded. */
  ghost predicate Quiescent(s: State) {
    s.publish == [] && !Noticed(s) && s.fetch.Idle? && s.lastOk
  }

  /** The main result: in a quiescent state the SDK has every change published while its connection was up,
      those dropped on a full queue or merged into one signal included. */
  lemma QuiescentClientIsUpToDate(states: seq<State>, actions: seq<Action>, i: nat, c: Change)
    requires Run(states, actions) && i < |states| && Quiescent(states[i]) && c in states[i].announced
    ensures c.version <= states[i].cache.Of(c.kind)
  {
    RunKeepsInv(states, actions, i);
  }

  /** What `announced` records: whatever was published for this environment at step i, if the connection was
      up then and has not gone down since. */
  lemma {:induction false} PublishedWhileConnectedIsAnnounced(states: seq<State>, actions: seq<Action>, i: nat, j: nat, c: Change)
    requires Run(states, actions) && i < j < |states| && actions[i] == Publish(c)
    requires states[i].connected && c.env == states[i].env
    requires forall k | i < k < j :: !actions[k].Disconnect?
    ensures c in states[j].announced
    decreases j
  {
    StepAt(states, actions, j - 1);
    if j == i + 1 {
      assert states[j].announced[|states[i].announced|] == c;
    } else {
      PublishedWhileConnectedIsAnnounced(states, actions, i, j - 1, c);
    }
  }

  /** A snapshot never replaces a newer one: the single writer's fetches do not overlap. */
  lemma {:induction false} CacheNeverGoesBack(states: seq<State>, actions: seq<Action>, i: nat, j: nat)
    requires Run(states, actions) && i <= j < |states|
    ensures states[i].cache.AtMost(states[j].cache) && states[j].cache.AtMost(states[j].stored)
    decreases j
  {
    RunKeepsInv(states, actions, j);
    if i < j {
      RunKeepsInv(states, actions, j - 1);
      StepAt(states, actions, j - 1);
      StepKeepsInv(states[j - 1], actions[j - 1]);
      CacheNeverGoesBack(states, actions, i, j - 1);
    }
  }

  // ---------- Exactly when a change arrives

  /** The step reads data of this kind into the fetch in flight. */
  predicate Reads(a: Action, kind: Kind) {
    if kind == Flag then a.ReadFlags? else a.ReadSegments?
  }

  /** What the fetch in flight has read of this kind. */
  function Held(f: Fetch, kind: Kind): Option<nat> {
    match f
    case FlagsRead(flags) => if kind == Flag then Some(flags) else None
    case BothRead(v) => Some(v.Of(kind))
    case _ => None
  }

  predicate Ends(a: Action) {
    a.FetchDone? || a.FetchFailed?
  }

  /** One fetch did its read of this kind at step r and succeeded at step d. */
  ghost predicate Fetched(actions: seq<Action>, r: nat, d: nat, kind: Kind) {
    r < d < |actions| && Reads(actions[r], kind) && actions[d].FetchDone? && forall k | r < k < d :: !Ends(actions[k])
  }

  lemma StepKeepsStore(s: State, a: Action)
    requires Enabled(s, a)
    ensures s.stored.AtMost(Apply(s, a).stored)
  {
  }

  /** A read puts the stored data into a fetch that had none of this kind; else only an end changes it. */
  lemma StepHolds(s: State, a: Action, kind: Kind)
    requires Enabled(s, a)
    ensures Reads(a, kind) ==> Held(s.fetch, kind).None? && Held(Apply(s, a).fetch, kind) == Some(s.stored.Of(kind))
    ensures !Reads(a, kind) && !Ends(a) ==> Held(Apply(s, a).fetch, kind) == Held(s.fetch, kind)
    ensures Ends(a) ==> Held(Apply(s, a).fetch, kind).None?
  {
  }

  lemma {:induction false} StoreNeverGoesBack(states: seq<State>, actions: seq<Action>, i: nat, j: nat)
    requires Run(states, actions) && i <= j < |states|
    ensures states[i].stored.AtMost(states[j].stored)
    decreases j
  {
    if i < j {
      StepAt(states, actions, j - 1);
      StepKeepsStore(states[j - 1], actions[j - 1]);
      StoreNeverGoesBack(states, actions, i, j - 1);
    }
  }

  /** A read stays in the fetch until the fetch ends. */
  lemma {:induction false} ReadIsHeld(states: seq<State>, actions: seq<Action>, r: nat, j: nat, kind: Kind)
    requires Run(states, actions) && r < j < |states| && Reads(actions[r], kind)
    requires forall k | r < k < j :: !Ends(actions[k])
    ensures Held(states[j].fetch, kind) == Some(states[r].stored.Of(kind))
    decreases j
  {
    StepAt(states, actions, j - 1);
    StepHolds(states[j - 1], actions[j - 1], kind);
    if r < j - 1 { ReadIsHeld(states, actions, r, j - 1, kind); }
  }

  /** And nothing else is in it. */
  lemma {:induction false} HeldWasRead(states: seq<State>, actions: seq<Action>, j: nat, kind: Kind) returns (r: nat)
    requires Run(states, actions) && j < |states| && Held(states[j].fetch, kind).Some?
    ensures r < j && Reads(actions[r], kind) && forall k | r < k < j :: !Ends(actions[k])
    ensures Held(states[j].fetch, kind) == Some(states[r].stored.Of(kind))
  {
    StepAt(states, actions, j - 1);
    StepHolds(states[j - 1], actions[j - 1], kind);
    if Reads(actions[j - 1], kind) {
      r := j - 1;
    } else {
      r := HeldWasRead(states, actions, j - 1, kind);
    }
  }

  /** The cache is what it was at first, or what some successful fetch read. */
  lemma {:induction false} CacheWasFetched(states: seq<State>, actions: seq<Action>, j: nat, kind: Kind) returns (r: nat, d: nat)
    requires Run(states, actions) && j < |states|
    ensures states[j].cache.Of(kind) == states[0].cache.Of(kind)
         || (d < j && Fetched(actions, r, d, kind) && states[j].cache.Of(kind) == states[r].stored.Of(kind))
  {
    if j == 0 { return 0, 0; }
    StepAt(states, actions, j - 1);
    if actions[j - 1].FetchDone? {
      d := j - 1;
      r := HeldWasRead(states, actions, d, kind);
    } else {
      r, d := CacheWasFetched(states, actions, j - 1, kind);
    }
  }

  lemma FetchedIsCached(states: seq<State>, actions: seq<Action>, r: nat, d: nat, j: nat, kind: Kind)
    requires Run(states, actions) && d < j < |states| && Fetched(actions, r, d, kind)
    ensures states[r].stored.Of(kind) <= states[j].cache.Of(kind)
  {
    ReadIsHeld(states, actions, r, d, kind);
    StepAt(states, actions, d);
    CacheNeverGoesBack(states, actions, d + 1, j);
  }

  lemma NewerDataWasReadLater(states: seq<State>, actions: seq<Action>, i: nat, kind: Kind, j: nat) returns (r: nat, d: nat)
    requires Run(states, actions) && i < j < |states| && actions[i] == Write(states[i].env, kind)
    requires states[i + 1].stored.Of(kind) <= states[j].cache.Of(kind)
    ensures i < r && d < j && Fetched(actions, r, d, kind)
  {
    r, d := CacheWasFetched(states, actions, j, kind);
    StepAt(states, actions, i);
    StoreNeverGoesBack(states, actions, 0, i);
    if r <= i { StoreNeverGoesBack(states, actions, r, i); }
  }

  /** The exact condition, in every state of every run and whether or not a connection was up: the client has a
      change if and only if some fetch that has succeeded did its read of that kind after the change was
      written. */
  lemma ChangeArrivesIffFetched(states: seq<State>, actions: seq<Action>, i: nat, kind: Kind, j: nat)
    requires Run(states, actions) && i < j < |states| && actions[i] == Write(states[i].env, kind)
    ensures states[i + 1].stored.Of(kind) <= states[j].cache.Of(kind)
       <==> exists r: nat, d: nat :: i < r && d < j && Fetched(actions, r, d, kind)
  {
    if states[i + 1].stored.Of(kind) <= states[j].cache.Of(kind) {
      var r, d := NewerDataWasReadLater(states, actions, i, kind, j);
    }
    if r: nat, d: nat :| i < r && d < j && Fetched(actions, r, d, kind) {
      StoreNeverGoesBack(states, actions, i + 1, r);
      FetchedIsCached(states, actions, r, d, j, kind);
    }
  }

  // ---------- Before the connection

  /** The run goes from `first` to `last`. */
  ghost predicate Leads(states: seq<State>, actions: seq<Action>, first: State, last: State) {
    Run(states, actions) && states[0] == first && states[|actions|] == last
  }

  lemma Extend(states: seq<State>, actions: seq<Action>, first: State, last: State, a: Action) returns (longer: seq<State>, more: seq<Action>)
    requires Leads(states, actions, first, last) && Enabled(last, a)
    ensures Leads(longer, more, first, Apply(last, a)) && more == actions + [a]
  {
    longer, more := states + [Apply(last, a)], actions + [a];
    forall i: nat | i < |more| ensures Step(longer, more, i) {
      if i < |actions| {
        StepAt(states, actions, i);
        assert longer[i] == states[i] && longer[i + 1] == states[i + 1] && more[i] == actions[i];
      }
    }
  }

  /** Why the result asks for the connection: Start fetches first and connects afterwards, so a change
      published in between reaches nobody, and the client is quiescent with an older snapshot. */
  lemma ChangeBeforeConnectIsMissed(s: State) returns (states: seq<State>, actions: seq<Action>, end: State)
    requires Init(s)
    ensures Leads(states, actions, s, end) && Publish(Change(s.env, Flag, s.stored.flags + 1)) in actions
    ensures Quiescent(end) && end.connected && end.cache.flags < end.stored.flags
  {
    var mid;
    states, actions, mid := WriteDuringFetch(s);
    states, actions := Extend(states, actions, s, mid, Broadcast);
    mid := Apply(mid, Broadcast);
    states, actions := Extend(states, actions, s, mid, ReadSegments);
    mid := Apply(mid, ReadSegments);
    states, actions := Extend(states, actions, s, mid, FetchDone);
    mid := Apply(mid, FetchDone);
    states, actions := Extend(states, actions, s, mid, Connect);
    end := Apply(mid, Connect);
  }

  lemma WriteDuringFetch(s: State) returns (states: seq<State>, actions: seq<Action>, end: State)
    requires Init(s)
    ensures Leads(states, actions, s, end) && Publish(Change(s.env, Flag, s.stored.flags + 1)) in actions
    ensures end == s.(stored := Bump(s.stored, Flag), publish := [Change(s.env, Flag, s.stored.flags + 1)],
                      fetch := FlagsRead(s.stored.flags))
  {
    var c := Change(s.env, Flag, s.stored.flags + 1);
    states, actions, end := ReadOldFlags(s);
    states, actions := Extend(states, actions, s, end, Write(s.env, Flag));
    end := Apply(end, Write(s.env, Flag));
    assert end.unpublished == multiset{c};
    states, actions := Extend(states, actions, s, end, Publish(c));
    end := Apply(end, Publish(c));
    assert actions[|actions| - 1] == Publish(c);
  }

  lemma ReadOldFlags(s: State) returns (states: seq<State>, actions: seq<Action>, end: State)
    requires Init(s)
    ensures Leads(states, actions, s, end) && end == s.(fetch := FlagsRead(s.stored.flags))
  {
    assert Leads([s], [], s, s);
    states, actions := Extend([s], [], s, s, FetchOnTick);
    end := Apply(s, FetchOnTick);
    states, actions := Extend(states, actions, s, end, ReadFlags);
    end := Apply(end, ReadFlags);
  }
}
