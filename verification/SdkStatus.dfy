/** The SDK client's connectivity state, its cache and its callbacks: `pkg/sdk/{status,client,cache}.go`. */
module SdkStatus {
  import opened Prelude
  import opened Json
  import opened Snapshot

  datatype State = Initializing | Connected | Stale | Offline | Error

  /** Where a transition has got to: its state is stored first, then the ready channel is closed if it was
      Initializing before, then the callbacks are told one by one. */
  datatype Turn = Idle | Closing | Telling(next: nat)

  /** What a reader can observe. `heard` holds, for each callback, the states it was called with; `path` is
      the history of all states, and `turn` the place in the transition at work. */
  datatype Status = Status(
    state: State,
    cache: Option<CachedSnapshot>,
    readyClosed: bool,
    failing: bool,
    updated: bool,
    heard: seq<seq<State>>,
    path: seq<State>,
    turn: Turn)

  /** One write to what readers observe. */
  datatype Write =
    | Store(snapshot: CachedSnapshot)
    | Touch
    | Blame(failing: bool)
    | Subscribe
    | SetState(to: State)
    | CloseReady
    | Notify(callback: nat)

  /** The snapshots that were loaded and fetched; None when that failed. */
  datatype Call = Start(stored: Option<CachedSnapshot>, response: Option<CachedSnapshot>) | Refresh(response: Option<CachedSnapshot>) | AddCallback

  function Tell(s: Status, next: nat): Turn {
    if next < |s.heard| then Telling(next) else Idle
  }

  function Do(s: Status, w: Write): Status {
    match w
    case Store(snapshot) => s.(cache := Some(snapshot))
    case Touch => s.(updated := true)
    case Blame(failing) => s.(failing := failing)
    case Subscribe => s.(heard := s.heard + [[]])
    case SetState(to) =>
      s.(state := to, path := s.path + [to], turn := if s.state.Initializing? then Closing else Tell(s, 0))
    case CloseReady => s.(readyClosed := true, turn := Tell(s, 0))
    case Notify(i) =>
      if i < |s.heard| then s.(heard := s.heard[i := s.heard[i] + [s.state]], turn := Tell(s, i + 1)) else s
  }

  function Play(s: Status, ws: seq<Write>): Status
    decreases |ws|
  {
    if ws == [] then s else Play(Do(s, ws[0]), ws[1..])
  }

  lemma {:induction false} PlayAppend(s: Status, ws: seq<Write>, more: seq<Write>)
    ensures Play(s, ws + more) == Play(Play(s, ws), more)
    decreases |ws|
  {
    if ws == [] {
      assert ws + more == more;
    } else {
      PlayAppend(Do(s, ws[0]), ws[1..], more);
      assert (ws + more)[1..] == ws[1..] + more;
    }
  }

  /** refetchRaw, and the two loads that decode a stored body. */
  function Decoded(isTime: string -> bool, body: Option<Json>): Option<CachedSnapshot> {
    if body.Some? && DecodeSnapshot(isTime, body.value).Some? then Some(Cached(DecodeSnapshot(isTime, body.value).value)) else None
  }

  function Loading(stored: Option<CachedSnapshot>): seq<Write> {
    if stored.Some? then [Store(stored.value)] else []
  }

  function Tells(next: nat, n: nat): seq<Write>
    decreases n - next
  {
    if next >= n then [] else [Notify(next)] + Tells(next + 1, n)
  }

  /** transition: nothing when the state is the same. */
  function Moving(s: Status, to: State): seq<Write> {
    if to == s.state then []
    else [SetState(to)] + (if s.state.Initializing? then [CloseReady] else []) + Tells(0, |s.heard|)
  }

  function Fetching(s: Status, response: Option<CachedSnapshot>): seq<Write> {
    if response.Some? then [Store(response.value), Touch, Blame(false)] + Moving(s, Connected)
    else [Blame(true)] + Moving(s, if s.cache.Some? then Stale else Error)
  }

  /** The logs once the callbacks from `next` on have been told. */
  function ToldFrom(heard: seq<seq<State>>, next: nat, state: State): seq<seq<State>> {
    seq(|heard|, i requires 0 <= i < |heard| => if i < next then heard[i] else heard[i] + [state])
  }

  /** What a transition comes to when nobody looks in between. */
  function Moved(s: Status, to: State): Status {
    if to == s.state then s
    else
      s.(state := to, path := s.path + [to], readyClosed := s.readyClosed || s.state.Initializing?,
         heard := ToldFrom(s.heard, 0, to))
  }

  lemma {:induction false} TellsTell(s: Status, next: nat)
    requires next <= |s.heard| && s.turn == Tell(s, next)
    ensures Play(s, Tells(next, |s.heard|)) == s.(turn := Idle, heard := ToldFrom(s.heard, next, s.state))
    decreases |s.heard| - next
  {
    if next == |s.heard| {
      assert ToldFrom(s.heard, next, s.state) == s.heard;
    } else {
      var t := Do(s, Notify(next));
      PlayOne(s, Notify(next));
      PlayAppend(s, [Notify(next)], Tells(next + 1, |s.heard|));
      TellsTell(t, next + 1);
      assert ToldFrom(t.heard, next + 1, s.state) == ToldFrom(s.heard, next, s.state);
    }
  }

  lemma TransitionMoves(s: Status, to: State)
    requires s.turn.Idle?
    ensures Play(s, Moving(s, to)) == Moved(s, to)
  {
    if to != s.state {
      var first := [SetState(to)] + if s.state.Initializing? then [CloseReady] else [];
      if s.state.Initializing? { PlayTwo(s, SetState(to), CloseReady); } else { PlayOne(s, SetState(to)); }
      assert first == if s.state.Initializing? then [SetState(to), CloseReady] else [SetState(to)];
      TellsTell(Play(s, first), 0);
      PlayAppend(s, first, Tells(0, |s.heard|));
    }
  }

  // ---------- The client

  class Client {
    const isTime: string -> bool
    const offline: bool
    var state: State
    var cache: Option<CachedSnapshot>
    var readyClosed: bool
    var failing: bool
    var updated: bool
    var heard: seq<seq<State>>
    ghost var path: seq<State>
    var started: bool
    var startErr: bool

    ghost function View(): Status
      reads this
    {
      Status(state, cache, readyClosed, failing, updated, heard, path, Idle)
    }

    constructor (isTime: string -> bool, offline: bool)
      ensures this.isTime == isTime && this.offline == offline && !started && View() == Fresh()
    {
      this.isTime, this.offline, state, cache, readyClosed, failing, updated := isTime, offline, Initializing, None, false, false, false;
      heard, path, started, startErr := [], [Initializing], false, false;
    }

    /** New, with the bootstrap body if one was given; `unreadable` says that its file could not be read. */
    static method New(isTime: string -> bool, endpoint: string, apiKey: string, offline: bool, unreadable: bool, bootstrap: Option<Json>, callbacks: nat)
        returns (client: Option<Client>)
      ensures client.Some? <==>
        !unreadable && (offline || (endpoint != "" && apiKey != "")) && (bootstrap.Some? ==> Decoded(isTime, bootstrap).Some?)
      ensures client.Some? ==>
        && fresh(client.value) && !client.value.started && client.value.offline == offline && client.value.isTime == isTime
        && client.value.View() == Play(Fresh(), Opening(offline, Decoded(isTime, bootstrap), callbacks))
    {
      if unreadable { return None; }
      if !offline && (endpoint == "" || apiKey == "") { return None; }
      var c := new Client(isTime, offline);
      ghost var ws: seq<Write> := [];
      for i := 0 to callbacks
        invariant fresh(c) && !c.started && ws == Subscribing(i) && c.View() == Play(Fresh(), ws)
      {
        c.AddOnStatusChange();
        PlayAppend(Fresh(), ws, [Subscribe]);
        PlayOne(Play(Fresh(), ws), Subscribe);
        ws := ws + [Subscribe];
      }
      ghost var subs := Play(Fresh(), ws);
      if bootstrap.Some? {
        var snapshot := Decoded(isTime, bootstrap);
        if snapshot.None? { return None; }
        c.cache := snapshot;
        c.Transition(Connected);
        StoreThenMove(subs, snapshot.value, Connected);
      }
      ghost var booted := Booting(subs, Decoded(isTime, bootstrap));
      PlayAppend(Fresh(), ws, booted);
      ws := ws + booted;
      if offline {
        PlayAppend(Fresh(), ws, Moving(c.View(), Offline));
        ws := ws + Moving(c.View(), Offline);
        c.Transition(Offline);
      }
      assert ws == Opening(offline, Decoded(isTime, bootstrap), callbacks);
      return Some(c);
    }

    method AddOnStatusChange()
      modifies this`heard
      ensures View() == Do(old(View()), Subscribe)
    {
      heard := heard + [[]];
    }

    method Transition(to: State)
      modifies this`state, this`readyClosed, this`heard, this`path
      ensures View() == Play(old(View()), Moving(old(View()), to)) == Moved(old(View()), to)
    {
      TransitionMoves(View(), to);
      var was := state;
      if was == to { return; }
      state := to;
      path := path + [to];
      if was == Initializing { readyClosed := true; }
      var logs := heard;
      for i := 0 to |logs|
        modifies this`heard
        invariant |heard| == |logs|
        invariant forall j | 0 <= j < i :: heard[j] == logs[j] + [to]
        invariant forall j | i <= j < |logs| :: heard[j] == logs[j]
      {
        heard := heard[i := heard[i] + [to]];
      }
      assert heard == Moved(old(View()), to).heard;
    }

    /** The part that Start and doRefresh share: a fetch, and what its outcome does to the status. */
    method Fetch(response: Option<Json>) returns (failed: bool)
      modifies this`state, this`cache, this`readyClosed, this`failing, this`updated, this`heard, this`path
      ensures failed <==> Decoded(isTime, response).None?
      ensures View() == Play(old(View()), Fetching(old(View()), Decoded(isTime, response)))
    {
      FetchComesTo(View(), Decoded(isTime, response));
      var snapshot := Decoded(isTime, response);
      failed := snapshot.None?;
      if failed {
        failing := true;
        Transition(if cache.None? then Error else Stale);
      } else {
        cache := snapshot;
        updated := true;
        failing := false;
        Transition(Connected);
      }
    }

    /** Only the first call does the work, and later ones return its error. */
    method Start(stored: Option<Json>, response: Option<Json>) returns (failed: bool)
      modifies this
      ensures View() == Play(old(View()), Calling(old(View()), offline, old(started), Call.Start(Decoded(isTime, stored), Decoded(isTime, response))))
      ensures started && failed == startErr
      ensures old(started) ==> startErr == old(startErr)
      ensures !old(started) ==> (failed <==> !offline && Decoded(isTime, response).None?)
    {
      if started { return startErr; }
      started := true;
      startErr := false;
      if offline { return false; }
      ghost var s := View();
      var snapshot := Decoded(isTime, stored);
      if snapshot.Some? {
        cache := snapshot;
        PlayOne(s, Store(snapshot.value));
      }
      PlayAppend(s, Loading(snapshot), Fetching(View(), Decoded(isTime, response)));
      startErr := Fetch(response);
      return startErr;
    }

    /** doRefresh runs in the loop, which Start starts unless the client is offline. */
    method DoRefresh(response: Option<Json>)
      requires started && !offline
      modifies this`state, this`cache, this`readyClosed, this`failing, this`updated, this`heard, this`path
      ensures View() == Play(old(View()), Calling(old(View()), offline, true, Refresh(Decoded(isTime, response))))
    {
      var failed := Fetch(response);
    }
  }

  function Fresh(): Status {
    Status(Initializing, None, false, false, false, [], [Initializing], Idle)
  }

  function Subscribing(n: nat): seq<Write> {
    seq(n, i => Subscribe)
  }

  function Booting(s: Status, bootstrap: Option<CachedSnapshot>): seq<Write> {
    if bootstrap.Some? then [Store(bootstrap.value)] + Moving(s, Connected) else []
  }

  /** New's writes. */
  function Opening(offline: bool, bootstrap: Option<CachedSnapshot>, callbacks: nat): seq<Write> {
    var subs := Subscribing(callbacks);
    var booted := subs + Booting(Play(Fresh(), subs), bootstrap);
    booted + if offline then Moving(Play(Fresh(), booted), Offline) else []
  }

  /** A later call's writes. */
  function Calling(s: Status, offline: bool, started: bool, call: Call): seq<Write> {
    match call
    case AddCallback => [Subscribe]
    case Start(stored, response) =>
      if started || offline then [] else Loading(stored) + Fetching(Play(s, Loading(stored)), response)
    case Refresh(response) => if started && !offline then Fetching(s, response) else []
  }

  lemma StoreThenMove(s: Status, snapshot: CachedSnapshot, to: State)
    requires s.turn.Idle?
    ensures Play(s, [Store(snapshot)] + Moving(s, to)) == Moved(s.(cache := Some(snapshot)), to)
  {
    PlayOne(s, Store(snapshot));
    PlayAppend(s, [Store(snapshot)], Moving(s, to));
    TransitionMoves(s.(cache := Some(snapshot)), to);
  }

  /** What a fetch comes to. */
  function Fetched(s: Status, response: Option<CachedSnapshot>): Status {
    if response.Some? then Moved(s.(cache := response, updated := true, failing := false), Connected)
    else Moved(s.(failing := true), if s.cache.Some? then Stale else Error)
  }

  lemma FetchComesTo(s: Status, response: Option<CachedSnapshot>)
    requires s.turn.Idle?
    ensures Play(s, Fetching(s, response)) == Fetched(s, response)
  {
    if response.Some? {
      var snapshot := response.value;
      PlayThree(s, Store(snapshot), Touch, Blame(false));
      PlayAppend(s, [Store(snapshot), Touch, Blame(false)], Moving(s, Connected));
      TransitionMoves(s.(cache := Some(snapshot), updated := true, failing := false), Connected);
    } else {
      var to := if s.cache.Some? then Stale else Error;
      PlayOne(s, Blame(true));
      PlayAppend(s, [Blame(true)], Moving(s, to));
      TransitionMoves(s.(failing := true), to);
    }
  }

  lemma PlayOne(s: Status, a: Write)
    ensures Play(s, [a]) == Do(s, a)
  {
    assert [a][1..] == [];
  }

  lemma PlayTwo(s: Status, a: Write, b: Write)
    ensures Play(s, [a, b]) == Do(Do(s, a), b)
  {
    assert [a, b][1..] == [b];
    PlayOne(Do(s, a), b);
  }

  lemma PlayThree(s: Status, a: Write, b: Write, c: Write)
    ensures Play(s, [a, b, c]) == Do(Do(Do(s, a), b), c)
  {
    assert [a, b, c][1..] == [b, c];
    PlayTwo(Do(s, a), b, c);
  }

  // ---------- Whole lives

  predicate Started(calls: seq<Call>) {
    exists i | 0 <= i < |calls| :: calls[i].Start?
  }

  datatype Options = Options(offline: bool, bootstrap: Option<CachedSnapshot>, callbacks: nat)

  /** All writes of a client's life, in order. */
  function Life(o: Options, calls: seq<Call>): seq<Write>
    decreases |calls|, 0
  {
    if calls == [] then Opening(o.offline, o.bootstrap, o.callbacks)
    else
      var before := calls[..|calls| - 1];
      Life(o, before) + Calling(After(o, before), o.offline, Started(before), calls[|calls| - 1])
  }

  function After(o: Options, calls: seq<Call>): Status
    decreases |calls|, 1
  {
    Play(Fresh(), Life(o, calls))
  }

  /** The writes that keep the promises, whoever reads in between: a transition is carried through, and begun
      only as the cache permits. */
  predicate Allowed(s: Status, w: Write) {
    match s.turn
    case Closing => w == CloseReady
    case Telling(next) => w == Notify(next)
    case Idle =>
      match w
      case CloseReady => false
      case Notify(_) => false
      case SetState(to) => MoveOk(s, to)
      case _ => true
  }

  predicate MoveOk(s: Status, to: State) {
    && to != s.state && !to.Initializing? && !s.state.Offline?
    && (to.Connected? || to.Stale? ==> s.cache.Some?)
    && (to.Stale? ==> !s.state.Error?)
    && (to.Error? ==> s.cache.None?)
    && (to.Offline? ==> (s.state.Initializing? || s.state.Connected?) && |s.path| <= 2)
  }

  ghost predicate AllAllowed(s: Status, ws: seq<Write>)
    decreases |ws|
  {
    ws == [] || (Allowed(s, ws[0]) && AllAllowed(Do(s, ws[0]), ws[1..]))
  }

  lemma {:induction false} AllowedAppend(s: Status, ws: seq<Write>, more: seq<Write>)
    requires AllAllowed(s, ws) && AllAllowed(Play(s, ws), more)
    ensures AllAllowed(s, ws + more)
    decreases |ws|
  {
    if ws == [] {
      assert ws + more == more;
    } else {
      AllowedAppend(Do(s, ws[0]), ws[1..], more);
      assert (ws + more)[1..] == ws[1..] + more;
    }
  }

  lemma AllowedOne(s: Status, a: Write)
    requires Allowed(s, a)
    ensures AllAllowed(s, [a]) && Play(s, [a]) == Do(s, a)
  {
    PlayOne(s, a);
    assert [a][1..] == [];
  }

  lemma AllowedTwo(s: Status, a: Write, b: Write)
    requires Allowed(s, a) && Allowed(Do(s, a), b)
    ensures AllAllowed(s, [a, b]) && Play(s, [a, b]) == Do(Do(s, a), b)
  {
    AllowedOne(s, a);
    AllowedOne(Do(s, a), b);
    AllowedAppend(s, [a], [b]);
    PlayTwo(s, a, b);
    assert [a] + [b] == [a, b];
  }

  lemma {:induction false} TellsAllowed(s: Status, next: nat)
    requires next <= |s.heard| && s.turn == Tell(s, next)
    ensures AllAllowed(s, Tells(next, |s.heard|))
    decreases |s.heard| - next
  {
    if next < |s.heard| {
      var t := Do(s, Notify(next));
      AllowedOne(s, Notify(next));
      TellsAllowed(t, next + 1);
      AllowedAppend(s, [Notify(next)], Tells(next + 1, |s.heard|));
    }
  }

  lemma TransitionAllowed(s: Status, to: State)
    requires s.turn.Idle? && (to == s.state || MoveOk(s, to))
    ensures AllAllowed(s, Moving(s, to)) && Play(s, Moving(s, to)) == Moved(s, to)
  {
    TransitionMoves(s, to);
    if to != s.state {
      AllowedOne(s, SetState(to));
      var t := Do(s, SetState(to));
      if s.state.Initializing? {
        AllowedOne(t, CloseReady);
        TellsAllowed(Do(t, CloseReady), 0);
        AllowedAppend(t, [CloseReady], Tells(0, |s.heard|));
        AllowedAppend(s, [SetState(to)], [CloseReady] + Tells(0, |s.heard|));
        assert Moving(s, to) == [SetState(to)] + ([CloseReady] + Tells(0, |s.heard|));
      } else {
        TellsAllowed(t, 0);
        AllowedAppend(s, [SetState(to)], Tells(0, |s.heard|));
        assert Moving(s, to) == [SetState(to)] + Tells(0, |s.heard|);
      }
    }
  }

  /** What also holds between calls. */
  predicate Settled(s: Status, offline: bool, started: bool) {
    && s.turn.Idle?
    && (s.state.Error? ==> s.cache.None?)
    && (s.state.Connected? || s.state.Stale? ==> s.cache.Some?)
    && (s.state.Offline? <==> offline)
    && (s.failing <==> s.state.Stale? || s.state.Error?)
    && (s.updated ==> s.cache.Some?)
    && (started ==> !s.state.Initializing?)
    && (!started ==> !s.failing && !s.updated && (s.state.Initializing? ==> s.cache.None?))
  }

  lemma OpeningSettles(o: Options)
    ensures AllAllowed(Fresh(), Life(o, [])) && Settled(After(o, []), o.offline, false)
    ensures After(o, []).state.Initializing? <==> o.bootstrap.None? && !o.offline
  {
    var subs := Subscribing(o.callbacks);
    SubscribingIsQuiet(o.callbacks);
    var s := Play(Fresh(), subs);
    var boot := Booting(s, o.bootstrap);
    BootingSettles(s, o.bootstrap);
    AllowedAppend(Fresh(), subs, boot);
    PlayAppend(Fresh(), subs, boot);
    var t := Play(Fresh(), subs + boot);
    if o.offline {
      TransitionAllowed(t, Offline);
      AllowedAppend(Fresh(), subs + boot, Moving(t, Offline));
      PlayAppend(Fresh(), subs + boot, Moving(t, Offline));
    } else {
      assert Life(o, []) == subs + boot + [];
      assert subs + boot + [] == subs + boot;
    }
  }

  lemma BootingSettles(s: Status, bootstrap: Option<CachedSnapshot>)
    requires s == Fresh().(heard := s.heard)
    ensures AllAllowed(s, Booting(s, bootstrap))
    ensures var t := Play(s, Booting(s, bootstrap));
      && t.turn.Idle? && |t.path| <= 2 && !t.failing && !t.updated
      && if bootstrap.Some? then t.state.Connected? && t.cache.Some? else t == s
  {
    if bootstrap.Some? {
      var store := Store(bootstrap.value);
      AllowedOne(s, store);
      TransitionAllowed(Do(s, store), Connected);
      assert Moving(Do(s, store), Connected) == Moving(s, Connected);
      AllowedAppend(s, [store], Moving(s, Connected));
      StoreThenMove(s, bootstrap.value, Connected);
    }
  }

  lemma {:induction false} SubscribingIsQuiet(n: nat)
    ensures AllAllowed(Fresh(), Subscribing(n))
    ensures Play(Fresh(), Subscribing(n)) == Fresh().(heard := Play(Fresh(), Subscribing(n)).heard)
  {
    if n > 0 {
      SubscribingIsQuiet(n - 1);
      var s := Play(Fresh(), Subscribing(n - 1));
      AllowedOne(s, Subscribe);
      AllowedAppend(Fresh(), Subscribing(n - 1), [Subscribe]);
      PlayAppend(Fresh(), Subscribing(n - 1), [Subscribe]);
      assert Subscribing(n - 1) + [Subscribe] == Subscribing(n);
    }
  }

  /** A fetch on a running client, with the cache perhaps filled from the data store just before. */
  lemma FetchSettles(s: Status, response: Option<CachedSnapshot>)
    requires s.turn.Idle? && !s.state.Offline? && (s.state.Error? ==> s.cache.None?)
    requires s.state.Connected? || s.state.Stale? || s.updated ==> s.cache.Some?
    ensures AllAllowed(s, Fetching(s, response)) && Settled(Play(s, Fetching(s, response)), false, true)
  {
    FetchComesTo(s, response);
    if response.Some? {
      var head := [Store(response.value), Touch, Blame(false)];
      ThreeAllowed(s, head[0], head[1], head[2]);
      TransitionAllowed(Play(s, head), Connected);
      assert Moving(Play(s, head), Connected) == Moving(s, Connected);
      AllowedAppend(s, head, Moving(s, Connected));
    } else {
      var to := if s.cache.Some? then Stale else Error;
      AllowedOne(s, Blame(true));
      TransitionAllowed(Do(s, Blame(true)), to);
      assert Moving(Do(s, Blame(true)), to) == Moving(s, to);
      AllowedAppend(s, [Blame(true)], Moving(s, to));
    }
  }

  lemma ThreeAllowed(s: Status, a: Write, b: Write, c: Write)
    requires Allowed(s, a) && Allowed(Do(s, a), b) && Allowed(Do(Do(s, a), b), c)
    ensures AllAllowed(s, [a, b, c]) && Play(s, [a, b, c]) == Do(Do(Do(s, a), b), c)
  {
    AllowedTwo(s, a, b);
    AllowedOne(Do(Do(s, a), b), c);
    AllowedAppend(s, [a, b], [c]);
    assert [a, b] + [c] == [a, b, c];
    PlayThree(s, a, b, c);
  }

  lemma CallSettles(s: Status, offline: bool, started: bool, call: Call)
    requires Settled(s, offline, started)
    ensures AllAllowed(s, Calling(s, offline, started, call))
    ensures Settled(Play(s, Calling(s, offline, started, call)), offline, started || call.Start?)
  {
    match call
    case AddCallback => AllowedOne(s, Subscribe);
    case Start(stored, response) =>
      if !started && !offline {
        var t := Play(s, Loading(stored));
        if stored.Some? { AllowedOne(s, Store(stored.value)); }
        FetchSettles(t, response);
        AllowedAppend(s, Loading(stored), Fetching(t, response));
        PlayAppend(s, Loading(stored), Fetching(t, response));
      }
    case Refresh(response) => if started && !offline { FetchSettles(s, response); }
  }

  lemma {:induction false} LifeSettles(o: Options, calls: seq<Call>)
    ensures AllAllowed(Fresh(), Life(o, calls))
    ensures Settled(After(o, calls), o.offline, Started(calls))
  {
    if calls == [] {
      OpeningSettles(o);
    } else {
      var before, call := calls[..|calls| - 1], calls[|calls| - 1];
      LifeSettles(o, before);
      var s := After(o, before);
      CallSettles(s, o.offline, Started(before), call);
      var ws := Calling(s, o.offline, Started(before), call);
      AllowedAppend(Fresh(), Life(o, before), ws);
      PlayAppend(Fresh(), Life(o, before), ws);
      assert Started(calls) <==> Started(before) || call.Start? by {
        if i :| 0 <= i < |calls| && calls[i].Start? { assert i < |before| ==> before[i].Start?; }
        if i :| 0 <= i < |before| && before[i].Start? { assert calls[i].Start?; }
      }
    }
  }

  // ---------- What readers see at any moment

  /** The state changes that can happen at all. */
  predicate Edge(a: State, b: State) {
    match a
    case Initializing => !b.Initializing?
    case Connected => b.Stale? || b.Offline?
    case Stale => b.Connected?
    case Error => b.Connected?
    case Offline => false
  }

  predicate IsPath(path: seq<State>) {
    && path != [] && path[0].Initializing?
    && (forall i | 0 < i < |path| :: Edge(path[i - 1], path[i]))
    && (forall i | 0 <= i < |path| && path[i].Offline? :: i <= 2)
  }

  predicate Suffix(log: seq<State>, path: seq<State>) {
    |log| < |path| && log == path[|path| - |log|..]
  }

  /** All changes since the callback was added, but for the one it has not yet been told of. */
  predicate OneBehind(log: seq<State>, path: seq<State>) {
    path != [] && Suffix(log, path[..|path| - 1])
  }

  /** How many callbacks know the present state. */
  function Told(s: Status): nat {
    match s.turn
    case Idle => |s.heard|
    case Closing => 0
    case Telling(next) => next
  }

  predicate Observable(s: Status) {
    && (s.state.Connected? || s.state.Stale? ==> s.cache.Some?)
    && (s.readyClosed <==> !s.state.Initializing? && !s.turn.Closing?)
    && (s.turn.Closing? ==> !s.state.Initializing?)
    && IsPath(s.path) && s.state == s.path[|s.path| - 1]
    && (s.turn.Telling? ==> s.turn.next < |s.heard| && !s.state.Initializing?)
    && (forall i | 0 <= i < |s.heard| :: if i < Told(s) then Suffix(s.heard[i], s.path) else OneBehind(s.heard[i], s.path))
  }

  lemma SetStateKeepsObservable(s: Status, to: State)
    requires Observable(s) && s.turn.Idle? && MoveOk(s, to)
    ensures Observable(Do(s, SetState(to)))
  {
    var t := Do(s, SetState(to));
    assert t.path[..|t.path| - 1] == s.path;
    assert forall i | 0 <= i < |s.heard| :: Suffix(s.heard[i], s.path) && OneBehind(s.heard[i], t.path);
  }

  lemma NotifyKeepsObservable(s: Status)
    requires Observable(s) && s.turn.Telling?
    ensures Observable(Do(s, Notify(s.turn.next)))
  {
    TellingCatchesUp(s.heard[s.turn.next], s.path);
  }

  lemma TellingCatchesUp(log: seq<State>, path: seq<State>)
    requires OneBehind(log, path)
    ensures Suffix(log + [path[|path| - 1]], path)
  {
    var front := path[..|path| - 1];
    assert path == front + [path[|path| - 1]];
    assert path[|path| - |log| - 1..] == front[|front| - |log|..] + [path[|path| - 1]];
  }

  lemma AllowedKeepsObservable(s: Status, w: Write)
    requires Observable(s) && Allowed(s, w)
    ensures Observable(Do(s, w))
  {
    match w
    case SetState(to) => SetStateKeepsObservable(s, to);
    case Notify(_) => NotifyKeepsObservable(s);
    case Subscribe => assert Suffix([], s.path);
    case _ =>
  }

  lemma AllowedKeepsData(s: Status, w: Write)
    requires Allowed(s, w) && s.cache.Some?
    ensures Do(s, w).cache.Some? && (Do(s, w).state.Error? ==> s.state.Error?)
  {
  }

  lemma {:induction false} AlwaysObservable(s: Status, ws: seq<Write>, k: nat)
    requires Observable(s) && AllAllowed(s, ws) && k <= |ws|
    ensures Observable(Play(s, ws[..k]))
    decreases |ws|
  {
    if k > 0 {
      AllowedKeepsObservable(s, ws[0]);
      AlwaysObservable(Do(s, ws[0]), ws[1..], k - 1);
      assert ws[..k][1..] == ws[1..][..k - 1];
    }
  }

  /** Over every life of a client and after any one of its writes: Connected and Stale have data; the states so
      far form a path of possible changes (so Initializing is never re-entered, and Offline comes from New
      alone and is never left); a closed ready channel means a state other than Initializing, and the other
      way round but for the moment in a transition before the channel is closed; and every callback heard
      each change since it was added, in order, but for the present one while a transition has yet to tell it. */
  lemma ReadersAreNeverMisled(o: Options, calls: seq<Call>, k: nat)
    requires k <= |Life(o, calls)|
    ensures Observable(Play(Fresh(), Life(o, calls)[..k]))
  {
    LifeSettles(o, calls);
    AlwaysObservable(Fresh(), Life(o, calls), k);
  }

  /** Between calls no transition is at work: the channel is closed exactly outside Initializing, and every
      callback is up to date. */
  lemma SettledReadersKnowAll(o: Options, calls: seq<Call>)
    ensures var s := After(o, calls);
      && (s.readyClosed <==> !s.state.Initializing?)
      && forall i | 0 <= i < |s.heard| :: Suffix(s.heard[i], s.path)
  {
    LifeSettles(o, calls);
    ReadersAreNeverMisled(o, calls, |Life(o, calls)|);
    assert Life(o, calls)[..|Life(o, calls)|] == Life(o, calls);
  }

  /** No callback is told the same state twice in a row, or Initializing, and the last it was told is the
      present state, or the one before while a transition has yet to tell it. */
  lemma CallbacksHearChanges(s: Status, i: nat, j: nat)
    requires Observable(s) && i < |s.heard| && j < |s.heard[i]|
    ensures j > 0 ==> s.heard[i][j] != s.heard[i][j - 1]
    ensures !s.heard[i][j].Initializing?
    ensures |s.path| >= 2 && s.heard[i][|s.heard[i]| - 1] == if i < Told(s) then s.state else s.path[|s.path| - 2]
  {
    var path := if i < Told(s) then s.path else s.path[..|s.path| - 1];
    HeardIsChange(s.heard[i], path, j);
  }

  lemma HeardIsChange(log: seq<State>, path: seq<State>, j: nat)
    requires Suffix(log, path) && j < |log| && forall i | 0 < i < |path| :: Edge(path[i - 1], path[i])
    ensures j > 0 ==> log[j] != log[j - 1]
    ensures !log[j].Initializing? && log[|log| - 1] == path[|path| - 1]
  {
    var from := |path| - |log|;
    assert log[j] == path[from + j] && Edge(path[from + j - 1], path[from + j]);
    if j > 0 { assert log[j - 1] == path[from + j - 1]; }
  }

  lemma {:induction false} DataStays(s: Status, ws: seq<Write>, j: nat, k: nat)
    requires AllAllowed(s, ws) && j <= k <= |ws| && Play(s, ws[..j]).cache.Some?
    ensures var was, now := Play(s, ws[..j]), Play(s, ws[..k]);
      now.cache.Some? && (now.state.Error? ==> was.state.Error?)
    decreases |ws|
  {
    if k > 0 {
      assert ws[..k][1..] == ws[1..][..k - 1];
      if j > 0 {
        assert ws[..j][1..] == ws[1..][..j - 1];
        DataStays(Do(s, ws[0]), ws[1..], j - 1, k - 1);
      } else {
        AllowedKeepsData(s, ws[0]);
        assert ws[1..][..0] == [];
        DataStays(Do(s, ws[0]), ws[1..], 0, k - 1);
      }
    }
  }

  /** A cache, once loaded, stays loaded, and the client does not go to Error any more. */
  lemma LoadedNeverTurnsToError(o: Options, calls: seq<Call>, j: nat, k: nat)
    requires j <= k <= |Life(o, calls)|
    requires Play(Fresh(), Life(o, calls)[..j]).cache.Some?
    ensures var was, now := Play(Fresh(), Life(o, calls)[..j]), Play(Fresh(), Life(o, calls)[..k]);
      now.cache.Some? && (now.state.Error? ==> was.state.Error?)
  {
    LifeSettles(o, calls);
    DataStays(Fresh(), Life(o, calls), j, k);
  }

  /** Between calls the state says exactly how the client stands. */
  lemma SettledStateTellsAll(o: Options, calls: seq<Call>)
    ensures var s := After(o, calls);
      && (s.state.Offline? <==> o.offline)
      && (s.state.Error? <==> s.failing && s.cache.None?)
      && (s.state.Stale? <==> s.failing && s.cache.Some?)
      && (Started(calls) || o.bootstrap.Some? || o.offline <==> !s.state.Initializing?)
  {
    LifeSettles(o, calls);
    if !Started(calls) { UnstartedState(o, calls); }
  }

  lemma {:induction false} UnstartedState(o: Options, calls: seq<Call>)
    requires !Started(calls)
    ensures After(o, calls).state.Initializing? <==> o.bootstrap.None? && !o.offline
  {
    if calls == [] {
      OpeningSettles(o);
    } else {
      var before := calls[..|calls| - 1];
      assert forall i | 0 <= i < |before| :: before[i] == calls[i];
      UnstartedState(o, before);
      var last := calls[|calls| - 1];
      assert !last.Start?;
      PlayAppend(Fresh(), Life(o, before), Calling(After(o, before), o.offline, false, last));
      PlayOne(After(o, before), Subscribe);
    }
  }

  // ---------- Error beside data

  predicate Odd(s: Status) {
    s.state.Error? && s.cache.Some?
  }

  lemma {:induction false} TellsChangeNoData(s: Status, next: nat, n: nat, p: nat)
    requires p <= |Tells(next, n)|
    ensures var t := Play(s, Tells(next, n)[..p]); t.state == s.state && t.cache == s.cache
    decreases n - next
  {
    var ws := Tells(next, n);
    if p > 0 {
      PlayOne(s, ws[0]);
      assert ws[..p] == [ws[0]] + Tells(next + 1, n)[..p - 1];
      PlayAppend(s, [ws[0]], Tells(next + 1, n)[..p - 1]);
      TellsChangeNoData(Do(s, ws[0]), next + 1, n, p - 1);
    }
  }

  lemma FirstThen(s: Status, first: seq<Write>, more: seq<Write>, p: nat)
    requires |first| <= p <= |first| + |more|
    ensures Play(s, (first + more)[..p]) == Play(Play(s, first), more[..p - |first|])
  {
    assert (first + more)[..p] == first + more[..p - |first|];
    PlayAppend(s, first, more[..p - |first|]);
  }

  /** A transition stores its state first and touches neither state nor cache after that. */
  lemma TransitionPrefix(s: Status, to: State, p: nat)
    requires p <= |Moving(s, to)|
    ensures var t := Play(s, Moving(s, to)[..p]);
      t.cache == s.cache && t.state == if p == 0 then s.state else to
  {
    if p > 0 {
      PlayOne(s, SetState(to));
      var rest := (if s.state.Initializing? then [CloseReady] else []) + Tells(0, |s.heard|);
      assert Moving(s, to) == [SetState(to)] + rest;
      FirstThen(s, [SetState(to)], rest, p);
      RestChangesNoData(Do(s, SetState(to)), s.state.Initializing?, |s.heard|, p - 1);
    }
  }

  lemma RestChangesNoData(s: Status, close: bool, n: nat, p: nat)
    requires p <= |(if close then [CloseReady] else []) + Tells(0, n)|
    ensures var t := Play(s, ((if close then [CloseReady] else []) + Tells(0, n))[..p]); t.state == s.state && t.cache == s.cache
  {
    if close && p > 0 {
      PlayOne(s, CloseReady);
      FirstThen(s, [CloseReady], Tells(0, n), p);
      TellsChangeNoData(Do(s, CloseReady), 0, n, p - 1);
    } else if !close {
      assert [] + Tells(0, n) == Tells(0, n);
      TellsChangeNoData(s, 0, n, p);
    }
  }

  /** In a fetch begun without oddity, a reader finds one exactly between a successful fetch's Store and its
      move to Connected, when the client was in Error. */
  lemma FetchIsOddIff(s: Status, response: Option<CachedSnapshot>, p: nat)
    requires p <= |Fetching(s, response)| && (s.state.Error? ==> s.cache.None?)
    ensures Odd(Play(s, Fetching(s, response)[..p])) <==> s.state.Error? && response.Some? && 1 <= p <= 3
  {
    if response.Some? {
      SuccessIsOddIff(s, response.value, p);
    } else {
      FailureIsNotOdd(s, p);
    }
  }

  lemma FailureIsNotOdd(s: Status, p: nat)
    requires s.state.Error? ==> s.cache.None?
    requires p <= |[Blame(true)] + Moving(s, if s.cache.Some? then Stale else Error)|
    ensures !Odd(Play(s, ([Blame(true)] + Moving(s, if s.cache.Some? then Stale else Error))[..p]))
  {
    var to := if s.cache.Some? then Stale else Error;
    if p > 0 {
      PlayOne(s, Blame(true));
      FirstThen(s, [Blame(true)], Moving(s, to), p);
      assert Moving(Do(s, Blame(true)), to) == Moving(s, to);
      TransitionPrefix(Do(s, Blame(true)), to, p - 1);
    }
  }

  lemma HeadPrefix(s: Status, snapshot: CachedSnapshot, p: nat)
    requires p <= 3
    ensures var t := Play(s, [Store(snapshot), Touch, Blame(false)][..p]);
      t.state == s.state && t.cache == if p == 0 then s.cache else Some(snapshot)
  {
    var head := [Store(snapshot), Touch, Blame(false)];
    if p == 1 {
      assert head[..1] == [head[0]];
      PlayOne(s, head[0]);
    } else if p == 2 {
      assert head[..2] == [head[0], head[1]];
      PlayTwo(s, head[0], head[1]);
    } else if p == 3 {
      assert head[..3] == head;
      PlayThree(s, head[0], head[1], head[2]);
    }
  }

  lemma SuccessIsOddIff(s: Status, snapshot: CachedSnapshot, p: nat)
    requires p <= 3 + |Moving(s, Connected)| && (s.state.Error? ==> s.cache.None?)
    ensures Odd(Play(s, ([Store(snapshot), Touch, Blame(false)] + Moving(s, Connected))[..p])) <==> s.state.Error? && 1 <= p <= 3
  {
    var head, rest := [Store(snapshot), Touch, Blame(false)], Moving(s, Connected);
    if p <= 3 {
      assert (head + rest)[..p] == head[..p];
      HeadPrefix(s, snapshot, p);
    } else {
      FirstThen(s, head, rest, p);
      RecoveredIsNotOdd(s, snapshot, p - 3);
    }
  }

  lemma RecoveredIsNotOdd(s: Status, snapshot: CachedSnapshot, p: nat)
    requires 0 < p <= |Moving(s, Connected)|
    ensures !Odd(Play(Play(s, [Store(snapshot), Touch, Blame(false)]), Moving(s, Connected)[..p]))
  {
    PlayThree(s, Store(snapshot), Touch, Blame(false));
    var t := Play(s, [Store(snapshot), Touch, Blame(false)]);
    assert Moving(t, Connected) == Moving(s, Connected);
    TransitionPrefix(t, Connected, p);
  }

  /** Position k of the life is inside the successful fetch of the m-th call, begun in Error, after its Store
      and before its move to Connected. */
  predicate InsideRecovery(o: Options, calls: seq<Call>, m: nat, k: nat) {
    && m < |calls| && calls[m].Refresh? && calls[m].response.Some?
    && Started(calls[..m]) && !o.offline && After(o, calls[..m]).state.Error?
    && |Life(o, calls[..m])| < k <= |Life(o, calls[..m])| + 3
  }

  lemma CallIsOddIff(s: Status, offline: bool, started: bool, call: Call, p: nat)
    requires Settled(s, offline, started) && p <= |Calling(s, offline, started, call)|
    ensures Odd(Play(s, Calling(s, offline, started, call)[..p])) <==>
      call.Refresh? && started && !offline && s.state.Error? && call.response.Some? && 1 <= p <= 3
  {
    var ws := Calling(s, offline, started, call);
    match call
    case AddCallback =>
      PlayOne(s, Subscribe);
      assert ws[..p] == if p == 0 then [] else [Subscribe];
    case Refresh(response) => if started && !offline { FetchIsOddIff(s, response, p); }
    case Start(stored, response) => if !started && !offline { StartIsNotOdd(s, stored, response, p); }
  }

  lemma StartIsNotOdd(s: Status, stored: Option<CachedSnapshot>, response: Option<CachedSnapshot>, p: nat)
    requires !s.state.Error? && p <= |Loading(stored) + Fetching(Play(s, Loading(stored)), response)|
    ensures !Odd(Play(s, (Loading(stored) + Fetching(Play(s, Loading(stored)), response))[..p]))
  {
    if stored.Some? {
      PlayOne(s, Store(stored.value));
      LoadThenFetchIsNotOdd(s, stored.value, response, p);
    } else {
      assert [] + Fetching(s, response) == Fetching(s, response);
      FetchIsOddIff(s, response, p);
    }
  }

  lemma LoadThenFetchIsNotOdd(s: Status, stored: CachedSnapshot, response: Option<CachedSnapshot>, p: nat)
    requires !s.state.Error? && p <= 1 + |Fetching(s.(cache := Some(stored)), response)|
    ensures !Odd(Play(s, ([Store(stored)] + Fetching(s.(cache := Some(stored)), response))[..p]))
  {
    if p > 0 {
      var t, more := s.(cache := Some(stored)), Fetching(s.(cache := Some(stored)), response);
      PlayOne(s, Store(stored));
      FirstThen(s, [Store(stored)], more, p);
      assert Play(s, ([Store(stored)] + more)[..p]) == Play(t, more[..p - 1]);
      FetchIsOddIff(t, response, p - 1);
    }
  }

  lemma LifeStep(o: Options, calls: seq<Call>, before: seq<Call>)
    requires calls != [] && before == calls[..|calls| - 1]
    ensures |Life(o, calls)| == |Life(o, before)| + |Calling(After(o, before), o.offline, Started(before), calls[|calls| - 1])|
  {
  }

  lemma {:induction false} LifeIsLongEnough(o: Options, calls: seq<Call>, m: nat, sofar: seq<Call>)
    requires m < |calls| && sofar == calls[..m]
    ensures |Life(o, sofar)| + |Calling(After(o, sofar), o.offline, Started(sofar), calls[m])| <= |Life(o, calls)|
    decreases |calls|
  {
    var before := calls[..|calls| - 1];
    LifeStep(o, calls, before);
    if m < |calls| - 1 {
      assert sofar == before[..m] && calls[m] == before[m];
      LifeIsLongEnough(o, before, m, sofar);
    } else {
      assert sofar == before;
    }
  }

  ghost predicate SetsNoError(ws: seq<Write>) {
    forall w | w in ws :: w != SetState(Error)
  }

  lemma {:induction false} NoErrorIsSet(s: Status, ws: seq<Write>, k: nat)
    requires !s.state.Error? && SetsNoError(ws) && k <= |ws|
    ensures !Play(s, ws[..k]).state.Error?
    decreases |ws|
  {
    if k > 0 {
      assert ws[0] in ws && forall w | w in ws[1..] :: w in ws;
      NoErrorIsSet(Do(s, ws[0]), ws[1..], k - 1);
      assert ws[..k][1..] == ws[1..][..k - 1];
    }
  }

  lemma {:induction false} TellsSetNothing(next: nat, n: nat)
    ensures forall w | w in Tells(next, n) :: w.Notify?
    decreases n - next
  {
    if next < n { TellsSetNothing(next + 1, n); }
  }

  lemma MovingSetsOne(s: Status, to: State)
    requires !to.Error?
    ensures SetsNoError(Moving(s, to))
  {
    TellsSetNothing(0, |s.heard|);
  }

  /** No write of New sets Error. */
  lemma OpeningIsNotOdd(o: Options, k: nat)
    requires k <= |Life(o, [])|
    ensures !Odd(Play(Fresh(), Life(o, [])[..k]))
  {
    OpeningSetsNoError(o);
    NoErrorIsSet(Fresh(), Life(o, []), k);
  }

  lemma OpeningSetsNoError(o: Options)
    ensures SetsNoError(Life(o, []))
  {
    var subs := Subscribing(o.callbacks);
    var s := Play(Fresh(), subs);
    MovingSetsOne(s, Connected);
    assert SetsNoError(subs) && SetsNoError(Booting(s, o.bootstrap));
    var booted := subs + Booting(s, o.bootstrap);
    MovingSetsOne(Play(Fresh(), booted), Offline);
  }

  /** The exact condition: after any one write of any life, Error stands beside a loaded cache if and only if a
      client in Error is in the middle of a successful refresh, between its Store and its move to Connected. */
  lemma {:induction false} ErrorBesideDataIff(o: Options, calls: seq<Call>, k: nat)
    requires k <= |Life(o, calls)|
    ensures Odd(Play(Fresh(), Life(o, calls)[..k])) <==> exists m: nat :: InsideRecovery(o, calls, m, k)
    decreases |calls|
  {
    if calls == [] {
      OpeningIsNotOdd(o, k);
    } else {
      var last := |calls| - 1;
      var before := calls[..last];
      var ws := Life(o, before);
      if k <= |ws| {
        assert Life(o, calls)[..k] == ws[..k];
        ErrorBesideDataIff(o, before, k);
        InsideRecoveryBefore(o, calls, before, k);
      } else {
        var s := After(o, before);
        var more := Calling(s, o.offline, Started(before), calls[last]);
        assert Life(o, calls)[..k] == ws + more[..k - |ws|];
        PlayAppend(Fresh(), ws, more[..k - |ws|]);
        LifeSettles(o, before);
        CallIsOddIff(s, o.offline, Started(before), calls[last], k - |ws|);
        InsideRecoveryLast(o, calls, k);
      }
    }
  }

  lemma InsideRecoveryBefore(o: Options, calls: seq<Call>, before: seq<Call>, k: nat)
    requires calls != [] && before == calls[..|calls| - 1] && k <= |Life(o, before)|
    ensures (exists m: nat :: InsideRecovery(o, calls, m, k)) <==> exists m: nat :: InsideRecovery(o, before, m, k)
  {
    forall m: nat ensures InsideRecovery(o, calls, m, k) <==> InsideRecovery(o, before, m, k) {
      InsideRecoverySame(o, calls, before, m, k);
    }
  }

  lemma InsideRecoverySame(o: Options, calls: seq<Call>, before: seq<Call>, m: nat, k: nat)
    requires calls != [] && before == calls[..|calls| - 1] && k <= |Life(o, before)|
    ensures InsideRecovery(o, calls, m, k) <==> InsideRecovery(o, before, m, k)
  {
    if m < |before| {
      assert before[..m] == calls[..m] && before[m] == calls[m];
    } else if m == |before| {
      assert calls[..m] == before;
    }
  }

  lemma RecoveryEnds(o: Options, calls: seq<Call>, m: nat, k: nat)
    requires m + 1 < |calls| && InsideRecovery(o, calls, m, k)
    ensures k <= |Life(o, calls[..|calls| - 1])|
  {
    var before := calls[..|calls| - 1];
    assert before[..m] == calls[..m] && before[m] == calls[m];
    LifeIsLongEnough(o, before, m, calls[..m]);
    assert |Calling(After(o, calls[..m]), o.offline, Started(calls[..m]), calls[m])| >= 3;
  }

  lemma InsideRecoveryLast(o: Options, calls: seq<Call>, k: nat)
    requires calls != [] && k > |Life(o, calls[..|calls| - 1])|
    ensures (exists m: nat :: InsideRecovery(o, calls, m, k)) <==> InsideRecovery(o, calls, |calls| - 1, k)
  {
    var last := |calls| - 1;
    var before := calls[..last];
    forall m: nat | m < last ensures !InsideRecovery(o, calls, m, k) {
      if InsideRecovery(o, calls, m, k) { RecoveryEnds(o, calls, m, k); }
    }
  }

  /** Such a moment exists: a first fetch that failed, then a refresh that succeeds. */
  lemma ErrorBesideDataIsSeen(snapshot: CachedSnapshot)
    ensures var o, calls := Options(false, None, 0), [Start(None, None), Refresh(Some(snapshot))];
      4 <= |Life(o, calls)| && Odd(Play(Fresh(), Life(o, calls)[..4]))
  {
    var o, first := Options(false, None, 0), [Start(None, None)];
    var both := first + [Refresh(Some(snapshot))];
    assert both == [Start(None, None), Refresh(Some(snapshot))];
    FailedStart(o);
    assert both[..1] == first && first[0].Start?;
    assert |Life(o, both)| >= 4;
    assert InsideRecovery(o, both, 1, 4);
    ErrorBesideDataIff(o, both, 4);
  }

  lemma FailedStart(o: Options)
    requires o == Options(false, None, 0)
    ensures |Life(o, [Start(None, None)])| == 3 && After(o, [Start(None, None)]).state.Error?
  {
    var first := [Start(None, None)];
    assert first[..0] == [] && Life(o, []) == [];
    assert Life(o, first) == [Blame(true), SetState(Error), CloseReady];
    PlayThree(Fresh(), Blame(true), SetState(Error), CloseReady);
  }
}
