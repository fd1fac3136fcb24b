/** The fixed-window limiter per client IP, `internal/api/middleware/rate_limit.go`. Times are integers on one
    non-decreasing clock. */
module RateLimit {
  import opened Timeline

  type IP = string

  datatype Entry = Entry(count: nat, resetAt: Time)

  datatype Config = Config(limit: int, window: nat)

  /** One request: the new table and the answer. */
  function AllowStep(c: Config, entries: map<IP, Entry>, ip: IP, now: Time): (map<IP, Entry>, bool) {
    if ip !in entries || now > entries[ip].resetAt then (entries[ip := Entry(1, now + c.window)], true)
    else
      var e := entries[ip];
      (entries[ip := Entry(e.count + 1, e.resetAt)], e.count + 1 <= c.limit)
  }

  /** One pass of the cleanup ticker. */
  function CleanupStep(entries: map<IP, Entry>, now: Time): map<IP, Entry> {
    map ip | ip in entries && !(now > entries[ip].resetAt) :: entries[ip]
  }

  class IPRateLimiter {
    const config: Config
    var entries: map<IP, Entry>

    constructor (limit: int, window: nat)
      ensures config == Config(limit, window) && entries == map[]
    {
      config, entries := Config(limit, window), map[];
    }

    /** A denied request leaves the time at which the block ends where it was. */
    method Allow(ip: IP, now: Time) returns (ok: bool)
      modifies this
      ensures (entries, ok) == AllowStep(config, old(entries), ip, now)
      ensures !ok ==> ip in old(entries) && ip in entries && entries[ip].resetAt == old(entries)[ip].resetAt
    {
      if ip !in entries || now > entries[ip].resetAt {
        entries := entries[ip := Entry(1, now + config.window)];
        return true;
      }
      var e := entries[ip];
      entries := entries[ip := Entry(e.count + 1, e.resetAt)];
      return e.count + 1 <= config.limit;
    }

    method Cleanup(now: Time)
      modifies this
      ensures entries == CleanupStep(old(entries), now)
    {
      var todo := entries.Keys;
      while todo != {}
        invariant todo <= entries.Keys
        invariant entries == map ip | ip in old(entries) && (ip in todo || !(now > old(entries)[ip].resetAt)) :: old(entries)[ip]
      {
        var ip :| ip in todo;
        if now > entries[ip].resetAt { entries := entries - {ip}; }
        todo := todo - {ip};
      }
    }
  }

  // ---------- Runs

  datatype Event = Request(ip: IP, at: Time) | Cleanup(at: Time)

  /** The table with its history: every admitted request, and the start of every window. */
  datatype State = State(entries: map<IP, Entry>, admitted: seq<Stamp<IP>>, windows: seq<Stamp<IP>>, now: Time)

  function Next(c: Config, s: State, ev: Event): State {
    match ev
    case Cleanup(at) => s.(entries := CleanupStep(s.entries, at), now := at)
    case Request(ip, at) =>
      var (entries, ok) := AllowStep(c, s.entries, ip, at);
      var starts := ip !in s.entries || at > s.entries[ip].resetAt;
      State(entries, if ok then s.admitted + [Stamp(ip, at)] else s.admitted,
            if starts then s.windows + [Stamp(ip, at)] else s.windows, at)
  }

  function Play(c: Config, s: State, events: seq<Event>): State {
    if events == [] then s else Next(c, Play(c, s, events[..|events| - 1]), events[|events| - 1])
  }

  /** What the limit amounts to: the first request of a window is admitted unasked. */
  function Quota(c: Config): int {
    if c.limit < 1 then 1 else c.limit
  }

  /** How many in the closed interval of one window length that begins at `from`. */
  function InInterval(c: Config, log: seq<Stamp<IP>>, ip: IP, from: Time): nat {
    Count(log, ip, from, from + c.window + 1)
  }

  function Min(a: int, b: int): int {
    if a < b then a else b
  }

  /** With an entry: its window holds min(count, quota) admissions, none lie after it, and at most the quota lies
      within one window length before it. Without: none lie at now or later, and at most the quota within one
      window length before. */
  ghost predicate EntryOk(c: Config, s: State, ip: IP) {
    if ip in s.entries then
      var start := s.entries[ip].resetAt - c.window;
      && s.entries[ip].count >= 1 && start <= s.now && Since(s.admitted, ip, s.entries[ip].resetAt + 1) == 0
      && Since(s.admitted, ip, start) == Min(s.entries[ip].count, Quota(c))
      && forall from | start - c.window <= from <= start :: Count(s.admitted, ip, from, start) <= Quota(c)
    else QuietSince(c, s, ip)
  }

  ghost predicate QuietSince(c: Config, s: State, ip: IP) {
    Since(s.admitted, ip, s.now) == 0 && forall from | s.now - c.window <= from :: Since(s.admitted, ip, from) <= Quota(c)
  }

  /** A window ever started holds at most the quota; if it is not the current one, it is over. */
  ghost predicate WindowOk(c: Config, s: State, w: Stamp<IP>) {
    && InInterval(c, s.admitted, w.key, w.at) <= Quota(c) && w.at <= s.now
    && (w.at + c.window < s.now || (w.key in s.entries && s.entries[w.key].resetAt == w.at + c.window))
  }

  ghost predicate LogOk(c: Config, s: State) {
    && (forall i | 0 <= i < |s.admitted| :: s.admitted[i].at <= s.now)
    && (forall ip, from :: InInterval(c, s.admitted, ip, from) <= 2 * Quota(c))
  }

  ghost predicate Inv(c: Config, s: State) {
    && LogOk(c, s)
    && (forall ip :: EntryOk(c, s, ip))
    && (forall i | 0 <= i < |s.windows| :: WindowOk(c, s, s.windows[i]))
  }

  /** Moving the clock alone. */
  lemma TickKeepsInv(c: Config, s: State, at: Time)
    requires Inv(c, s) && s.now <= at
    ensures Inv(c, s.(now := at))
  {
    forall ip ensures EntryOk(c, s.(now := at), ip) {
      assert EntryOk(c, s, ip);
      CountAndSince(s.admitted, ip, s.now, at);
    }
    forall i | 0 <= i < |s.windows| ensures WindowOk(c, s.(now := at), s.windows[i]) {
      assert WindowOk(c, s, s.windows[i]);
    }
  }

  /** Once a window is over, what lies within its length before now was all admitted in it. */
  lemma ExpiredIsQuiet(c: Config, s: State, ip: IP)
    requires EntryOk(c, s, ip) && (ip in s.entries ==> s.now > s.entries[ip].resetAt)
    ensures QuietSince(c, s, ip)
  {
    if ip in s.entries {
      var start := s.entries[ip].resetAt - c.window;
      CountAndSince(s.admitted, ip, s.entries[ip].resetAt + 1, s.now);
      forall from | s.now - c.window <= from ensures Since(s.admitted, ip, from) <= Quota(c) {
        CountAndSince(s.admitted, ip, start, from);
      }
    }
  }

  lemma CleanupKeepsInv(c: Config, s: State)
    requires Inv(c, s)
    ensures Inv(c, s.(entries := CleanupStep(s.entries, s.now)))
  {
    var t := s.(entries := CleanupStep(s.entries, s.now));
    forall ip ensures EntryOk(c, t, ip) {
      assert EntryOk(c, s, ip);
      if ip in s.entries && ip !in t.entries { ExpiredIsQuiet(c, s, ip); }
    }
    forall i | 0 <= i < |s.windows| ensures WindowOk(c, t, s.windows[i]) {
      assert WindowOk(c, s, s.windows[i]);
    }
  }

  /** One more admission now, when less than the quota of the current window and at most the quota of the time before it
      can share an interval with it. */
  lemma AdmitKeepsLogOk(c: Config, s: State, ip: IP, start: Time)
    requires LogOk(c, s) && start <= s.now <= start + c.window
    requires Since(s.admitted, ip, start) < Quota(c)
    requires forall from | start - c.window <= from <= start :: Count(s.admitted, ip, from, start) <= Quota(c)
    ensures LogOk(c, s.(admitted := s.admitted + [Stamp(ip, s.now)]))
  {
    var log := s.admitted + [Stamp(ip, s.now)];
    forall p, from ensures InInterval(c, log, p, from) <= 2 * Quota(c) {
      assert InInterval(c, s.admitted, p, from) <= 2 * Quota(c);
      if p == ip { AdmitKeepsInterval(c, s.admitted, Stamp(ip, s.now), start, from); } else { Push(s.admitted, Stamp(ip, s.now), p, from); }
    }
  }

  lemma AdmitKeepsInterval(c: Config, log: seq<Stamp<IP>>, s: Stamp<IP>, start: Time, from: Time)
    requires InInterval(c, log, s.key, from) <= 2 * Quota(c) && start <= s.at <= start + c.window
    requires Since(log, s.key, start) < Quota(c)
    requires forall f | start - c.window <= f <= start :: Count(log, s.key, f, start) <= Quota(c)
    ensures InInterval(c, log + [s], s.key, from) <= 2 * Quota(c)
  {
    Push(log, s, s.key, from);
    if from <= s.at <= from + c.window {
      CountAndSince(log, s.key, from, from + c.window + 1);
      if from <= start { CountAndSince(log, s.key, from, start); } else { CountAndSince(log, s.key, start, from); }
    }
  }

  /** A request that starts a window. */
  ghost predicate Starts(c: Config, s: State, ip: IP) {
    Inv(c, s) && (ip in s.entries ==> s.now > s.entries[ip].resetAt)
  }

  lemma StartKeepsEntries(c: Config, s: State, ip: IP, p: IP)
    requires Starts(c, s, ip)
    ensures EntryOk(c, Next(c, s, Request(ip, s.now)), p)
  {
    var t := Next(c, s, Request(ip, s.now));
    assert EntryOk(c, s, ip) && EntryOk(c, s, p);
    ExpiredIsQuiet(c, s, ip);
    forall from ensures Since(t.admitted, p, from) == Since(s.admitted, p, from) + if ip == p && from <= s.now then 1 else 0
      ensures forall to | to <= s.now :: Count(t.admitted, p, from, to) == Count(s.admitted, p, from, to)
      ensures Count(s.admitted, p, from, s.now) <= Since(s.admitted, p, from)
    {
      Push(s.admitted, Stamp(ip, s.now), p, from);
      CountAndSince(s.admitted, p, from, s.now);
    }
    if p == ip { CountAndSince(s.admitted, p, s.now, s.now + c.window + 1); }
  }

  lemma StartKeepsOldWindow(c: Config, s: State, ip: IP, w: Stamp<IP>)
    requires Starts(c, s, ip) && w in s.windows
    ensures WindowOk(c, Next(c, s, Request(ip, s.now)), w)
  {
    assert EntryOk(c, s, ip) && WindowOk(c, s, w);
    Push(s.admitted, Stamp(ip, s.now), w.key, w.at);
  }

  lemma StartOpensWindow(c: Config, s: State, ip: IP)
    requires Starts(c, s, ip)
    ensures WindowOk(c, Next(c, s, Request(ip, s.now)), Stamp(ip, s.now))
  {
    assert EntryOk(c, s, ip);
    ExpiredIsQuiet(c, s, ip);
    OneInNewWindow(c, s.admitted, ip, s.now);
  }

  lemma OneInNewWindow(c: Config, log: seq<Stamp<IP>>, ip: IP, at: Time)
    requires Since(log, ip, at) == 0
    ensures InInterval(c, log + [Stamp(ip, at)], ip, at) == 1
  {
    Push(log, Stamp(ip, at), ip, at);
    CountAndSince(log, ip, at, at + c.window + 1);
  }

  lemma StartKeepsInv(c: Config, s: State, ip: IP)
    requires Starts(c, s, ip)
    ensures Inv(c, Next(c, s, Request(ip, s.now)))
  {
    var t := Next(c, s, Request(ip, s.now));
    assert EntryOk(c, s, ip);
    ExpiredIsQuiet(c, s, ip);
    forall from | s.now - c.window <= from <= s.now ensures Count(s.admitted, ip, from, s.now) <= Quota(c) {
      CountAndSince(s.admitted, ip, from, s.now);
    }
    AdmitKeepsLogOk(c, s, ip, s.now);
    forall p ensures EntryOk(c, t, p) { StartKeepsEntries(c, s, ip, p); }
    forall i | 0 <= i < |t.windows| ensures WindowOk(c, t, t.windows[i]) {
      if i < |s.windows| { StartKeepsOldWindow(c, s, ip, s.windows[i]); } else { StartOpensWindow(c, s, ip); }
    }
  }

  /** A request inside the current window, admitted or not. */
  ghost predicate Inside(c: Config, s: State, ip: IP) {
    Inv(c, s) && ip in s.entries && s.now <= s.entries[ip].resetAt
  }

  lemma InsideKeepsEntries(c: Config, s: State, ip: IP, p: IP)
    requires Inside(c, s, ip)
    ensures EntryOk(c, Next(c, s, Request(ip, s.now)), p)
  {
    assert EntryOk(c, s, ip) && EntryOk(c, s, p);
    if p == ip { InsideKeepsOwnEntry(c, s, ip); } else { RequestKeepsOtherEntry(c, s, ip, p); }
  }

  /** A request does not touch what concerns another address. */
  lemma RequestKeepsOtherEntry(c: Config, s: State, ip: IP, p: IP)
    requires p != ip && EntryOk(c, s, p)
    ensures EntryOk(c, Next(c, s, Request(ip, s.now)), p)
  {
    forall from, to
      ensures Count(s.admitted + [Stamp(ip, s.now)], p, from, to) == Count(s.admitted, p, from, to)
      ensures Since(s.admitted + [Stamp(ip, s.now)], p, from) == Since(s.admitted, p, from)
    { Push(s.admitted, Stamp(ip, s.now), p, from); }
  }

  lemma InsideKeepsOwnEntry(c: Config, s: State, ip: IP)
    requires ip in s.entries && s.now <= s.entries[ip].resetAt && EntryOk(c, s, ip)
    ensures EntryOk(c, Next(c, s, Request(ip, s.now)), ip)
  {
    var e := s.entries[ip];
    var start := e.resetAt - c.window;
    if e.count < Quota(c) {
      Push(s.admitted, Stamp(ip, s.now), ip, start);
      Push(s.admitted, Stamp(ip, s.now), ip, e.resetAt + 1);
      forall from ensures Count(s.admitted + [Stamp(ip, s.now)], ip, from, start) == Count(s.admitted, ip, from, start) {
        Push(s.admitted, Stamp(ip, s.now), ip, from);
      }
    }
  }

  lemma InsideKeepsWindows(c: Config, s: State, ip: IP, w: Stamp<IP>)
    requires Inside(c, s, ip) && w in s.windows
    ensures WindowOk(c, Next(c, s, Request(ip, s.now)), w)
  {
    assert EntryOk(c, s, ip) && WindowOk(c, s, w);
    Push(s.admitted, Stamp(ip, s.now), w.key, w.at);
    CountAndSince(s.admitted, ip, w.at, w.at + c.window + 1);
  }

  lemma InsideKeepsInv(c: Config, s: State, ip: IP)
    requires Inside(c, s, ip)
    ensures Inv(c, Next(c, s, Request(ip, s.now)))
  {
    var e := s.entries[ip];
    var t := Next(c, s, Request(ip, s.now));
    assert EntryOk(c, s, ip);
    if e.count < Quota(c) { AdmitKeepsLogOk(c, s, ip, e.resetAt - c.window); }
    forall p ensures EntryOk(c, t, p) { InsideKeepsEntries(c, s, ip, p); }
    forall i | 0 <= i < |t.windows| ensures WindowOk(c, t, t.windows[i]) { InsideKeepsWindows(c, s, ip, t.windows[i]); }
  }

  // ---------- Every run

  const EMPTY := State(map[], [], [], 0)

  ghost predicate Ordered(start: Time, events: seq<Event>) {
    && (forall i | 0 <= i < |events| :: start <= events[i].at)
    && (forall i, j | 0 <= i < j < |events| :: events[i].at <= events[j].at)
  }

  lemma {:induction false} RunKeepsInv(c: Config, start: Time, events: seq<Event>)
    requires Ordered(start, events)
    ensures var s := Play(c, EMPTY.(now := start), events);
      Inv(c, s) && (events != [] ==> s.now == events[|events| - 1].at)
  {
    if events != [] {
      var front, ev := events[..|events| - 1], events[|events| - 1];
      RunKeepsInv(c, start, front);
      var s := Play(c, EMPTY.(now := start), front);
      TickKeepsInv(c, s, ev.at);
      var ticked := s.(now := ev.at);
      match ev
      case Cleanup(_) => CleanupKeepsInv(c, ticked);
      case Request(ip, _) =>
        if ip in s.entries && !(ev.at > s.entries[ip].resetAt) { InsideKeepsInv(c, ticked, ip); } else { StartKeepsInv(c, ticked, ip); }
    }
  }

  /** The main result, for every limit: over any run, each window admits at most max(1, limit) requests of an
      address, and any closed interval one window long at most twice that. */
  lemma AdmissionsAreBounded(c: Config, start: Time, events: seq<Event>)
    requires Ordered(start, events)
    ensures var s := Play(c, EMPTY.(now := start), events);
      && (forall w | w in s.windows :: InInterval(c, s.admitted, w.key, w.at) <= Quota(c))
      && (forall ip, from :: InInterval(c, s.admitted, ip, from) <= 2 * Quota(c))
  {
    RunKeepsInv(c, start, events);
    var s := Play(c, EMPTY.(now := start), events);
    forall w | w in s.windows ensures InInterval(c, s.admitted, w.key, w.at) <= Quota(c) { assert WindowOk(c, s, w); }
  }

  ghost predicate KeepsLimit(c: Config, start: Time, events: seq<Event>) {
    var s := Play(c, EMPTY.(now := start), events);
    forall w | w in s.windows :: InInterval(c, s.admitted, w.key, w.at) <= c.limit
  }

  /** The limit itself is kept in every run if and only if it is at least 1. */
  lemma LimitIsKeptIffPositive(c: Config)
    ensures (forall start, events | Ordered(start, events) :: KeepsLimit(c, start, events)) <==> c.limit >= 1
  {
    forall start, events | c.limit >= 1 && Ordered(start, events) ensures KeepsLimit(c, start, events) {
      AdmissionsAreBounded(c, start, events);
    }
    var request := [Request("ip", 0)];
    FirstRequestIsAdmitted(c, "ip", 0);
    assert Ordered(0, request) && (KeepsLimit(c, 0, request) ==> c.limit >= 1);
  }

  /** The first request of an address is admitted whatever the limit. */
  lemma FirstRequestIsAdmitted(c: Config, ip: IP, at: Time)
    ensures var s := Play(c, EMPTY.(now := at), [Request(ip, at)]);
      s.windows == [Stamp(ip, at)] && InInterval(c, s.admitted, ip, at) == 1
  {
    var run := [Request(ip, at)];
    assert run[..0] == [] && Play(c, EMPTY.(now := at), []) == EMPTY.(now := at);
    var s := Play(c, EMPTY.(now := at), run);
    assert s.windows == [] + [Stamp(ip, at)] && s.admitted == [] + [Stamp(ip, at)];
    Push([], Stamp(ip, at), ip, at);
    assert Stamp(ip, at) in s.windows;
  }

  // ---------- Cleanup is unobservable

  /** The same table, but for entries whose window is over. */
  ghost predicate Same(now: Time, a: map<IP, Entry>, b: map<IP, Entry>) {
    forall ip | ip in a || ip in b ::
      if ip in a && ip in b && a[ip] == b[ip] then true
      else (ip in a ==> now > a[ip].resetAt) && (ip in b ==> now > b[ip].resetAt)
  }

  function Requests(events: seq<Event>): seq<Event> {
    if events == [] then []
    else
      var rest := Requests(events[..|events| - 1]);
      if events[|events| - 1].Request? then rest + [events[|events| - 1]] else rest
  }

  lemma RequestKeepsSame(c: Config, s: State, t: State, before: Time, ip: IP, at: Time)
    requires Same(before, s.entries, t.entries) && before <= at && s.admitted == t.admitted
    ensures var s1, t1 := Next(c, s, Request(ip, at)), Next(c, t, Request(ip, at));
      Same(at, s1.entries, t1.entries) && s1.admitted == t1.admitted
  {
  }

  lemma CleanupKeepsSame(a: map<IP, Entry>, b: map<IP, Entry>, before: Time, at: Time)
    requires Same(before, a, b) && before <= at
    ensures Same(at, CleanupStep(a, at), b)
  {
  }

  lemma {:induction false} CleanupLeavesTableSame(c: Config, start: Time, events: seq<Event>)
    requires Ordered(start, events)
    ensures var s, t := Play(c, EMPTY.(now := start), events), Play(c, EMPTY.(now := start), Requests(events));
      Same(if events == [] then start else events[|events| - 1].at, s.entries, t.entries) && s.admitted == t.admitted
  {
    if events != [] {
      var front, ev := events[..|events| - 1], events[|events| - 1];
      CleanupLeavesTableSame(c, start, front);
      var s, t := Play(c, EMPTY.(now := start), front), Play(c, EMPTY.(now := start), Requests(front));
      var before := if front == [] then start else front[|front| - 1].at;
      match ev
      case Request(ip, at) =>
        assert Requests(events)[..|Requests(events)| - 1] == Requests(front);
        RequestKeepsSame(c, s, t, before, ip, at);
      case Cleanup(at) => CleanupKeepsSame(s.entries, t.entries, before, at);
    }
  }

  /** Running the cleanup at any times changes no answer: after any run, the next request is answered as if
      no cleanup had ever run, and the same requests have been admitted. */
  lemma CleanupIsUnobservable(c: Config, start: Time, events: seq<Event>, ip: IP, at: Time)
    requires Ordered(start, events + [Request(ip, at)])
    ensures var s, t := Play(c, EMPTY.(now := start), events), Play(c, EMPTY.(now := start), Requests(events));
      && AllowStep(c, s.entries, ip, at).1 == AllowStep(c, t.entries, ip, at).1
      && s.admitted == t.admitted
  {
    var all := events + [Request(ip, at)];
    assert forall i | 0 <= i < |events| :: events[i] == all[i];
    assert all[|events|].at == at;
    CleanupLeavesTableSame(c, start, events);
  }
}
