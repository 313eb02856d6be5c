/** The rate limiter (apis/middlewares_rate_limit.go): a client per key that refills once it has
    accepted nothing for an interval, and a cleanup that drops clients idle for long enough. */
module RateLimiter {

  datatype Config = Config(maxAllowed: int, interval: int, minDeleteInterval: int)

  /** `available` tokens are left, `lastConsume` is the time of the last accepted request. */
  datatype Client = Client(available: int, lastConsume: int)

  type Clients = map<string, Client>

  /** What reaches a limiter: a request of a key, or the cleanup job, at a time in seconds. */
  datatype Event = Request(key: string, now: int) | Clean(now: int)

  // ---- the specification ------------------------------------------------------------------------------

  const NEW_CLIENT: Client := Client(0, 0)

  function Consumed(cfg: Config, c: Client, now: int): (Client, bool) {
    var available := if now - c.lastConsume >= cfg.interval then cfg.maxAllowed else c.available;
    if available > 0 then (Client(available - 1, now), true) else (Client(available, c.lastConsume), false)
  }

  predicate Expired(c: Client, now: int, minElapsed: int) {
    now - c.lastConsume > minElapsed
  }

  function Lookup(clients: Clients, key: string): Client {
    if key in clients then clients[key] else NEW_CLIENT
  }

  function Allowed(cfg: Config, clients: Clients, key: string, now: int): (Clients, bool) {
    var (c, ok) := Consumed(cfg, Lookup(clients, key), now);
    (clients[key := c], ok)
  }

  function Cleaned(cfg: Config, clients: Clients, now: int): Clients {
    map key | key in clients && !Expired(clients[key], now, cfg.minDeleteInterval) :: clients[key]
  }

  /** The accept or deny decisions of a run. */
  function Decisions(cfg: Config, clients: Clients, events: seq<Event>): seq<bool>
    decreases events
  {
    if events == [] then []
    else
      match events[0]
      case Request(key, now) =>
        var (next, ok) := Allowed(cfg, clients, key, now);
        [ok] + Decisions(cfg, next, events[1..])
      case Clean(now) => Decisions(cfg, Cleaned(cfg, clients, now), events[1..])
  }

  /** The times at which requests of a key are accepted. */
  function Accepted(cfg: Config, clients: Clients, events: seq<Event>, key: string): seq<int>
    decreases events
  {
    if events == [] then []
    else
      match events[0]
      case Request(k, now) =>
        var (next, ok) := Allowed(cfg, clients, k, now);
        (if ok && k == key then [now] else []) + Accepted(cfg, next, events[1..], key)
      case Clean(now) => Accepted(cfg, Cleaned(cfg, clients, now), events[1..], key)
  }

  /** Times never decrease, and never lie before the epoch or `from`. */
  predicate Ordered(events: seq<Event>, from: int) {
    events == [] || (0 <= from <= events[0].now && Ordered(events[1..], events[0].now))
  }

  // ---- each decision follows from the accepted requests alone -----------------------------------------

  /** The number of accepted requests at the end of the history with gaps below the interval. */
  function TrailingRun(cfg: Config, history: seq<int>): (n: nat)
    ensures history != [] <==> n > 0
    ensures n <= |history|
  {
    var k := |history|;
    if k == 0 then 0
    else if k == 1 || history[k - 1] - history[k - 2] >= cfg.interval then 1
    else 1 + TrailingRun(cfg, history[..k - 1])
  }

  /** The history rule: accept if nothing was accepted within the last interval, or if the run of
      accepted requests that ends there is still shorter than allowed. */
  predicate RuleAccepts(cfg: Config, history: seq<int>, now: int) {
    var last := if history == [] then 0 else history[|history| - 1];
    if now - last >= cfg.interval then 0 < cfg.maxAllowed
    else history != [] && TrailingRun(cfg, history) < cfg.maxAllowed
  }

  /** A client whose state belongs to the history. */
  predicate Remembers(cfg: Config, c: Client, history: seq<int>, now: int) {
    if history == [] then c.lastConsume == 0 && (c.available == 0 || now >= cfg.interval)
    else
      && c.lastConsume == history[|history| - 1]
      && (now - c.lastConsume < cfg.interval ==> c.available == cfg.maxAllowed - TrailingRun(cfg, history))
  }

  lemma TrailingRunStep(cfg: Config, history: seq<int>, now: int)
    ensures TrailingRun(cfg, history + [now]) ==
            if history != [] && now - history[|history| - 1] < cfg.interval then TrailingRun(cfg, history) + 1 else 1
  {
    var extended := history + [now];
    assert extended[..|extended| - 1] == history;
    if history != [] {
      assert extended[|extended| - 2] == history[|history| - 1];
    }
  }

  /** A request is accepted exactly when the history rule says so, and the client keeps
      remembering its history. */
  lemma ConsumeFollowsTheRule(cfg: Config, c: Client, history: seq<int>, now: int, later: int)
    requires Remembers(cfg, c, history, now) && now <= later && 1 <= cfg.interval
    ensures var (next, ok) := Consumed(cfg, c, now);
      && (ok <==> RuleAccepts(cfg, history, now))
      && Remembers(cfg, next, if ok then history + [now] else history, later)
      && (ok ==> TrailingRun(cfg, history + [now]) <= cfg.maxAllowed)
  {
    hide TrailingRun;
    TrailingRunStep(cfg, history, now);
    assert (history + [now])[|history + [now]| - 1] == now;
  }

  // ---- cleaning up cannot be observed -----------------------------------------------------------------

  predicate Idle(cfg: Config, c: Client, now: int) {
    now - c.lastConsume >= cfg.interval
  }

  /** Two clients no request from `now` on can tell apart. */
  predicate Alike(cfg: Config, a: Client, b: Client, now: int) {
    a == b || (Idle(cfg, a, now) && Idle(cfg, b, now))
  }

  ghost predicate AllAlike(cfg: Config, a: Clients, b: Clients, now: int) {
    && (forall key :: Alike(cfg, Lookup(a, key), Lookup(b, key), now))
    && (forall key :: key in a ==> 0 <= a[key].lastConsume)
  }

  lemma AllowedAlike(cfg: Config, a: Clients, b: Clients, key: string, from: int, now: int)
    requires AllAlike(cfg, a, b, from) && 0 <= from <= now && 1 <= cfg.interval
    ensures var (x, ok) := Allowed(cfg, a, key, now);
      var (y, ok') := Allowed(cfg, b, key, now);
      ok == ok' && AllAlike(cfg, x, y, now)
  {
    var (x, ok) := Allowed(cfg, a, key, now);
    var (y, ok') := Allowed(cfg, b, key, now);
    assert Alike(cfg, Lookup(a, key), Lookup(b, key), from);
    forall k ensures Alike(cfg, Lookup(x, k), Lookup(y, k), now) {
      assert Alike(cfg, Lookup(a, k), Lookup(b, k), from);
    }
  }

  /** What the cleanup drops has been idle for an interval, as has the fresh client that will
      take its place. */
  lemma CleanedAlike(cfg: Config, a: Clients, b: Clients, from: int, now: int)
    requires AllAlike(cfg, a, b, from) && 0 <= from <= now
    requires cfg.minDeleteInterval + 1 >= cfg.interval
    ensures AllAlike(cfg, Cleaned(cfg, a, now), b, now)
  {
    var x := Cleaned(cfg, a, now);
    forall k ensures Alike(cfg, Lookup(x, k), Lookup(b, k), now) {
      assert Alike(cfg, Lookup(a, k), Lookup(b, k), from);
    }
  }

  function Requests(events: seq<Event>): seq<Event> {
    if events == [] then []
    else (if events[0].Request? then [events[0]] else []) + Requests(events[1..])
  }

  lemma {:induction false} SameDecisions(cfg: Config, a: Clients, b: Clients, events: seq<Event>, from: int,
                                         key: string)
    requires AllAlike(cfg, a, b, from) && Ordered(events, from) && 0 <= from && 1 <= cfg.interval
    requires cfg.minDeleteInterval + 1 >= cfg.interval
    ensures Decisions(cfg, a, events) == Decisions(cfg, b, Requests(events))
    ensures Accepted(cfg, a, events, key) == Accepted(cfg, b, Requests(events), key)
    decreases events
  {
    hide AllAlike, Allowed, Cleaned;
    if events != [] {
      var now := events[0].now;
      var rest := Requests(events[1..]);
      match events[0]
      case Request(k, _) =>
        AllowedAlike(cfg, a, b, k, from, now);
        SameDecisions(cfg, Allowed(cfg, a, k, now).0, Allowed(cfg, b, k, now).0, events[1..], now, key);
        assert Requests(events) == [events[0]] + rest;
        assert Requests(events)[1..] == rest;
      case Clean(_) =>
        CleanedAlike(cfg, a, b, from, now);
        SameDecisions(cfg, Cleaned(cfg, a, now), b, events[1..], now, key);
        assert Requests(events) == rest;
    }
  }

  /** A limiter that cleans up at any times decides like one that never does, provided a dropped
      client was idle for at least the rate interval. */
  lemma CleaningIsUnobservable(cfg: Config, events: seq<Event>, key: string)
    requires Ordered(events, 0) && 1 <= cfg.interval
    requires cfg.minDeleteInterval + 1 >= cfg.interval
    ensures Decisions(cfg, map[], events) == Decisions(cfg, map[], Requests(events))
    ensures Accepted(cfg, map[], events, key) == Accepted(cfg, map[], Requests(events), key)
  {
    SameDecisions(cfg, map[], map[], events, 0, key);
  }

  /** The limiters of the rules are made with a margin of half an hour, so theirs always is. */
  lemma RuleLimitersCleanUnobservably(maxRequests: int, duration: int, events: seq<Event>)
    requires Ordered(events, 0) && 1 <= duration
    ensures var cfg := Config(maxRequests, duration, duration + 1800);
      Decisions(cfg, map[], events) == Decisions(cfg, map[], Requests(events))
  {
    CleaningIsUnobservable(Config(maxRequests, duration, duration + 1800), events, "");
  }

  // ---- the cleanup interval is exact ------------------------------------------------------------------

  function Burst(key: string, now: int, n: nat): seq<Event> {
    if n == 0 then [] else [Request(key, now)] + Burst(key, now, n - 1)
  }

  lemma {:induction false} BurstIsOrdered(key: string, now: int, n: nat, tail: seq<Event>, from: int)
    requires 0 <= from <= now && Ordered(tail, now)
    ensures Ordered(Burst(key, now, n) + tail, from)
    decreases n
  {
    if n == 0 {
      assert Burst(key, now, n) + tail == tail;
    } else {
      BurstIsOrdered(key, now, n - 1, tail, now);
      assert (Burst(key, now, n) + tail)[1..] == Burst(key, now, n - 1) + tail;
    }
  }

  lemma {:induction false} BurstEmpties(cfg: Config, clients: Clients, key: string, now: int, n: nat, tail: seq<Event>)
    requires key in clients && clients[key] == Client(n, now) && 1 <= cfg.interval
    ensures Decisions(cfg, clients, Burst(key, now, n) + tail) ==
            seq(n, i => true) + Decisions(cfg, clients[key := Client(0, now)], tail)
    decreases n
  {
    if n == 0 {
      assert Burst(key, now, n) + tail == tail && clients[key := Client(0, now)] == clients;
    } else {
      var events := Burst(key, now, n) + tail;
      assert events[0] == Request(key, now) && events[1..] == Burst(key, now, n - 1) + tail;
      var next := clients[key := Client(n - 1, now)];
      assert Allowed(cfg, clients, key, now) == (next, true);
      BurstEmpties(cfg, next, key, now, n - 1, tail);
      assert next[key := Client(0, now)] == clients[key := Client(0, now)];
      assert [true] + seq(n - 1, i => true) == seq(n, i => true);
    }
  }

  /** With a shorter cleanup interval cleaning shows: use up the allowance, wait until the client
      is dropped but the interval has not passed, and the next request is accepted. */
  lemma ShorterCleanupIsObservable(cfg: Config, key: string) returns (events: seq<Event>)
    requires 1 <= cfg.maxAllowed && 0 <= cfg.minDeleteInterval && cfg.minDeleteInterval + 1 < cfg.interval
    ensures Ordered(events, 0)
    ensures Decisions(cfg, map[], events) != Decisions(cfg, map[], Requests(events))
  {
    var now, n := cfg.interval, cfg.maxAllowed;
    var later := now + cfg.minDeleteInterval + 1;
    var ask := Request(key, later);
    events := Burst(key, now, n) + [Clean(later), ask];
    BurstIsOrdered(key, now, n, [Clean(later), ask], 0);
    RequestsOfBurst(key, now, n, later);
    AfterBurst(cfg, key, [Clean(later), ask]);
    AfterBurst(cfg, key, [ask]);
    var full := map[key := Client(0, now)];
    assert Cleaned(cfg, full, later) == map[];
    assert [Clean(later), ask][1..] == [ask] && [ask][1..] == [];
    assert Decisions(cfg, map[], [ask]) == [true];
    assert Decisions(cfg, full, [ask]) == [false];
    assert Decisions(cfg, full, [Clean(later), ask]) == [true];
    assert Decisions(cfg, map[], events)[n] == true;
    assert Decisions(cfg, map[], Requests(events))[n] == false;
  }

  lemma {:induction false} RequestsOfBurst(key: string, now: int, n: nat, later: int)
    ensures Requests(Burst(key, now, n) + [Clean(later), Request(key, later)])
            == Burst(key, now, n) + [Request(key, later)]
    decreases n
  {
    var tail := [Clean(later), Request(key, later)];
    if n == 0 {
      assert Burst(key, now, n) + tail == tail && tail[1..] == [Request(key, later)];
      assert Requests([Request(key, later)]) == [Request(key, later)] + Requests([]);
    } else {
      RequestsOfBurst(key, now, n - 1, later);
      assert (Burst(key, now, n) + tail)[1..] == Burst(key, now, n - 1) + tail;
    }
  }

  lemma AfterBurst(cfg: Config, key: string, tail: seq<Event>)
    requires 1 <= cfg.maxAllowed && 1 <= cfg.interval
    ensures Decisions(cfg, map[], Burst(key, cfg.interval, cfg.maxAllowed) + tail) ==
            seq(cfg.maxAllowed, i => true) + Decisions(cfg, map[key := Client(0, cfg.interval)], tail)
  {
    var n, now := cfg.maxAllowed, cfg.interval;
    var events := Burst(key, now, n) + tail;
    assert events[0] == Request(key, now) && events[1..] == Burst(key, now, n - 1) + tail;
    var next: Clients := map[key := Client(n - 1, now)];
    assert Allowed(cfg, map[], key, now) == (next, true);
    BurstEmpties(cfg, next, key, now, n - 1, tail);
    assert next[key := Client(0, now)] == map[key := Client(0, now)];
    assert [true] + seq(n - 1, i => true) == seq(n, i => true);
  }

  // ---- the history rule, over whole runs --------------------------------------------------------------

  type Histories = map<string, seq<int>>

  function HistoryOf(histories: Histories, key: string): seq<int> {
    if key in histories then histories[key] else []
  }

  /** A limiter without any state but the accepted requests of each key. */
  function RuleDecisions(cfg: Config, histories: Histories, events: seq<Event>): seq<bool>
    decreases events
  {
    if events == [] then []
    else
      match events[0]
      case Request(key, now) =>
        var history := HistoryOf(histories, key);
        var ok := RuleAccepts(cfg, history, now);
        [ok] + RuleDecisions(cfg, if ok then histories[key := history + [now]] else histories, events[1..])
      case Clean(_) => RuleDecisions(cfg, histories, events[1..])
  }

  ghost predicate AllRemember(cfg: Config, clients: Clients, histories: Histories, now: int) {
    forall key :: Remembers(cfg, Lookup(clients, key), HistoryOf(histories, key), now)
  }

  lemma AllowedRemembers(cfg: Config, clients: Clients, histories: Histories, key: string, from: int, now: int)
    requires AllRemember(cfg, clients, histories, from) && from <= now && 1 <= cfg.interval
    ensures
      var (next, ok) := Allowed(cfg, clients, key, now);
      var history := HistoryOf(histories, key);
      && (ok <==> RuleAccepts(cfg, history, now))
      && AllRemember(cfg, next, if ok then histories[key := history + [now]] else histories, now)
  {
    hide TrailingRun;
    var (next, ok) := Allowed(cfg, clients, key, now);
    var history := HistoryOf(histories, key);
    var after := if ok then histories[key := history + [now]] else histories;
    RememberedLater(cfg, Lookup(clients, key), history, from, now);
    ConsumeFollowsTheRule(cfg, Lookup(clients, key), history, now, now);
    forall k ensures Remembers(cfg, Lookup(next, k), HistoryOf(after, k), now) {
      RememberedLater(cfg, Lookup(clients, k), HistoryOf(histories, k), from, now);
    }
  }

  lemma RememberedLater(cfg: Config, c: Client, history: seq<int>, from: int, now: int)
    requires Remembers(cfg, c, history, from) && from <= now
    ensures Remembers(cfg, c, history, now)
  {
  }

  lemma {:induction false} RequestsFollowTheRule(cfg: Config, clients: Clients, histories: Histories,
                                                 events: seq<Event>, from: int)
    requires AllRemember(cfg, clients, histories, from) && Ordered(events, from) && 1 <= cfg.interval
    requires forall i :: 0 <= i < |events| ==> events[i].Request?
    ensures Decisions(cfg, clients, events) == RuleDecisions(cfg, histories, events)
    decreases events
  {
    if events != [] {
      hide AllRemember, RuleAccepts, Allowed;
      var now := events[0].now;
      AllowedRemembers(cfg, clients, histories, events[0].key, from, now);
      var (next, ok) := Allowed(cfg, clients, events[0].key, now);
      var history := HistoryOf(histories, events[0].key);
      var after := if ok then histories[events[0].key := history + [now]] else histories;
      RequestsFollowTheRule(cfg, next, after, events[1..], now);
    }
  }

  lemma {:induction false} RequestsOrdered(events: seq<Event>, from: int, later: int)
    requires Ordered(events, later) && 0 <= from <= later
    ensures Ordered(Requests(events), from)
    ensures forall i :: 0 <= i < |Requests(events)| ==> Requests(events)[i].Request?
    decreases events
  {
    if events != [] {
      var now := events[0].now;
      RequestsOrdered(events[1..], if events[0].Request? then now else from, now);
      if events[0].Request? {
        assert Requests(events)[1..] == Requests(events[1..]);
      } else {
        assert Requests(events) == Requests(events[1..]);
      }
    }
  }

  lemma {:induction false} RuleIgnoresCleaning(cfg: Config, histories: Histories, events: seq<Event>)
    ensures RuleDecisions(cfg, histories, events) == RuleDecisions(cfg, histories, Requests(events))
    decreases events
  {
    if events != [] {
      hide RuleAccepts;
      match events[0]
      case Request(key, now) =>
        var history := HistoryOf(histories, key);
        var after := if RuleAccepts(cfg, history, now) then histories[key := history + [now]] else histories;
        RuleIgnoresCleaning(cfg, after, events[1..]);
        assert Requests(events)[0] == events[0] && Requests(events)[1..] == Requests(events[1..]);
      case Clean(_) =>
        RuleIgnoresCleaning(cfg, histories, events[1..]);
        assert Requests(events) == Requests(events[1..]);
    }
  }

  /** Every decision of a limiter, cleaning up included, is that of the history rule. */
  lemma DecisionsFollowTheRule(cfg: Config, events: seq<Event>)
    requires Ordered(events, 0) && 1 <= cfg.interval && cfg.minDeleteInterval + 1 >= cfg.interval
    ensures Decisions(cfg, map[], events) == RuleDecisions(cfg, map[], events)
  {
    CleaningIsUnobservable(cfg, events, "");
    RequestsOrdered(events, 0, 0);
    RequestsFollowTheRule(cfg, map[], map[], Requests(events), 0);
    RuleIgnoresCleaning(cfg, map[], events);
  }

  // ---- the sliding window bound -----------------------------------------------------------------------

  predicate Sorted(history: seq<int>) {
    forall i, j :: 0 <= i < j < |history| ==> history[i] <= history[j]
  }

  /** The number of accepted requests in the half-open window of one interval that starts at w. */
  function InWindow(cfg: Config, history: seq<int>, w: int): (n: nat) {
    var k := |history|;
    if k == 0 then 0
    else InWindow(cfg, history[..k - 1], w) + if w <= history[k - 1] < w + cfg.interval then 1 else 0
  }

  /** No run of accepted requests was ever longer than allowed. */
  ghost predicate RunsBounded(cfg: Config, history: seq<int>) {
    forall k :: 0 < k <= |history| ==> TrailingRun(cfg, history[..k]) <= cfg.maxAllowed
  }

  lemma {:induction false} NoneBefore(cfg: Config, history: seq<int>, w: int)
    requires forall i :: 0 <= i < |history| ==> history[i] < w
    ensures InWindow(cfg, history, w) == 0
  {
    if history != [] {
      NoneBefore(cfg, history[..|history| - 1], w);
    }
  }

  /** Requests in one window are less than an interval apart, so they belong to one run. */
  lemma {:induction false} WindowWithinRun(cfg: Config, history: seq<int>, w: int)
    requires history != [] && Sorted(history)
    requires w <= history[|history| - 1] < w + cfg.interval
    ensures InWindow(cfg, history, w) <= TrailingRun(cfg, history)
  {
    var init := history[..|history| - 1];
    if init != [] {
      assert Sorted(init);
      if w <= init[|init| - 1] {
        WindowWithinRun(cfg, init, w);
      } else {
        NoneBefore(cfg, init, w);
      }
    }
  }

  lemma {:induction false} WindowBounded(cfg: Config, history: seq<int>, w: int)
    requires Sorted(history) && RunsBounded(cfg, history)
    ensures InWindow(cfg, history, w) <= if history == [] then 0 else cfg.maxAllowed
  {
    if history != [] {
      var k := |history|;
      var init := history[..k - 1];
      assert history[..k] == history;
      assert forall i :: 0 < i <= |init| ==> init[..i] == history[..i];
      assert TrailingRun(cfg, history) <= cfg.maxAllowed;
      if w <= history[k - 1] < w + cfg.interval {
        WindowWithinRun(cfg, history, w);
      } else {
        WindowBounded(cfg, init, w);
      }
    }
  }

  lemma ExtendedBounded(cfg: Config, history: seq<int>, now: int)
    requires Sorted(history) && RunsBounded(cfg, history)
    requires forall i :: 0 <= i < |history| ==> history[i] <= now
    requires TrailingRun(cfg, history + [now]) <= cfg.maxAllowed
    ensures Sorted(history + [now]) && RunsBounded(cfg, history + [now])
  {
    var extended := history + [now];
    forall k | 0 < k <= |extended| ensures TrailingRun(cfg, extended[..k]) <= cfg.maxAllowed {
      if k <= |history| {
        assert extended[..k] == history[..k];
      } else {
        assert extended[..k] == extended;
      }
    }
  }

  /** What one request does to the history of a key: nothing, or it is accepted and extends it. */
  lemma RequestExtends(cfg: Config, clients: Clients, k: string, now: int, key: string, history: seq<int>, from: int)
    requires Remembers(cfg, Lookup(clients, key), history, from) && from <= now && 1 <= cfg.interval
    requires Sorted(history) && RunsBounded(cfg, history)
    requires forall i :: 0 <= i < |history| ==> history[i] <= from
    ensures
      var (next, ok) := Allowed(cfg, clients, k, now);
      var extended := history + if ok && k == key then [now] else [];
      && Remembers(cfg, Lookup(next, key), extended, now)
      && Sorted(extended) && RunsBounded(cfg, extended)
      && forall i :: 0 <= i < |extended| ==> extended[i] <= now
  {
    hide TrailingRun, RunsBounded, Sorted, RuleAccepts;
    RememberedLater(cfg, Lookup(clients, key), history, from, now);
    ConsumeFollowsTheRule(cfg, Lookup(clients, key), history, now, now);
    if Allowed(cfg, clients, k, now).1 && k == key {
      ExtendedBounded(cfg, history, now);
    } else {
      assert history + [] == history;
    }
  }

  lemma {:induction false} AcceptedBounded(cfg: Config, clients: Clients, events: seq<Event>, key: string,
                                           history: seq<int>, from: int)
    requires Ordered(events, from) && 1 <= cfg.interval
    requires forall i :: 0 <= i < |events| ==> events[i].Request?
    requires Remembers(cfg, Lookup(clients, key), history, from)
    requires Sorted(history) && RunsBounded(cfg, history)
    requires forall i :: 0 <= i < |history| ==> history[i] <= from
    ensures Sorted(history + Accepted(cfg, clients, events, key))
    ensures RunsBounded(cfg, history + Accepted(cfg, clients, events, key))
    decreases events
  {
    hide RunsBounded, Sorted, Remembers, Allowed, Lookup;
    if events == [] {
      assert history + Accepted(cfg, clients, events, key) == history;
    } else {
      var k, now := events[0].key, events[0].now;
      var (next, ok) := Allowed(cfg, clients, k, now);
      var first := if ok && k == key then [now] else [];
      var rest := Accepted(cfg, next, events[1..], key);
      RequestExtends(cfg, clients, k, now, key, history, from);
      AcceptedBounded(cfg, next, events[1..], key, history + first, now);
      assert history + (first + rest) == history + first + rest;
    }
  }

  /** In no window of one interval, wherever it starts, are more requests of a key accepted than
      allowed, whatever the requests of other keys and the cleanups do. */
  lemma SlidingWindowBound(cfg: Config, events: seq<Event>, key: string, w: int)
    requires Ordered(events, 0) && 1 <= cfg.interval && 0 <= cfg.maxAllowed
    requires cfg.minDeleteInterval + 1 >= cfg.interval
    ensures InWindow(cfg, Accepted(cfg, map[], events, key), w) <= cfg.maxAllowed
  {
    CleaningIsUnobservable(cfg, events, key);
    RequestsOrdered(events, 0, 0);
    var accepted := Accepted(cfg, map[], Requests(events), key);
    AcceptedBounded(cfg, map[], Requests(events), key, [], 0);
    assert [] + accepted == accepted;
    WindowBounded(cfg, accepted, w);
  }

  // ---- the code ---------------------------------------------------------------------------------------

  class RateClient {
    const maxAllowed: int
    const interval: int
    var available: int
    var lastConsume: int

    constructor (maxAllowed: int, interval: int)
      ensures this.maxAllowed == maxAllowed && this.interval == interval && State() == NEW_CLIENT
    {
      this.maxAllowed, this.interval := maxAllowed, interval;
      available, lastConsume := 0, 0;
    }

    function State(): Client
      reads this
    {
      Client(available, lastConsume)
    }

    method HasExpired(now: int, minElapsed: int) returns (expired: bool)
      ensures expired <==> Expired(State(), now, minElapsed)
    {
      return now - lastConsume > minElapsed;
    }

    method Consume(now: int) returns (ok: bool)
      modifies this
      ensures (State(), ok) == Consumed(Config(maxAllowed, interval, 0), old(State()), now)
    {
      if now - lastConsume >= interval {
        available := maxAllowed;
      }
      if available > 0 {
        available := available - 1;
        lastConsume := now;
        return true;
      }
      return false;
    }
  }

  class Limiter {
    const cfg: Config
    var clients: map<string, RateClient>
    var totalDeleted: nat

    constructor (cfg: Config)
      ensures this.cfg == cfg && Valid() && View() == map[] && fresh(Repr())
    {
      this.cfg := cfg;
      clients, totalDeleted := map[], 0;
    }

    ghost function Repr(): set<RateClient>
      reads this
    {
      set key | key in clients :: clients[key]
    }

    /** Every key has its own client, made with the limits of the limiter. */
    ghost predicate Valid()
      reads this
    {
      && (forall k, l :: k in clients && l in clients && k != l ==> clients[k] != clients[l])
      && (forall k :: k in clients ==> clients[k].maxAllowed == cfg.maxAllowed && clients[k].interval == cfg.interval)
    }

    ghost function View(): Clients
      reads this, Repr()
    {
      map key | key in clients :: clients[key].State()
    }

    method GetOrAdd(key: string)
      requires Valid()
      modifies this
      ensures Valid() && fresh(Repr() - old(Repr()))
      ensures key in clients && View() == old(View())[key := Lookup(old(View()), key)]
      ensures totalDeleted == old(totalDeleted)
    {
      ghost var was := View();
      if key !in clients {
        var client := new RateClient(cfg.maxAllowed, cfg.interval);
        clients := clients[key := client];
      }
      assert View() == was[key := Lookup(was, key)];
    }

    method IsAllowed(key: string, now: int) returns (ok: bool)
      requires Valid()
      modifies this, Repr()
      ensures Valid() && fresh(Repr() - old(Repr()))
      ensures (View(), ok) == Allowed(cfg, old(View()), key, now)
      ensures totalDeleted == old(totalDeleted)
    {
      ghost var before := View();
      GetOrAdd(key);
      ghost var was := View();
      assert clients[key].State() == was[key] == Lookup(before, key);
      ok := clients[key].Consume(now);
      assert (clients[key].State(), ok) == Consumed(cfg, Lookup(before, key), now);
      assert View() == was[key := clients[key].State()];
      assert was[key := clients[key].State()] == before[key := clients[key].State()];
    }

    /** Drops the clients that expired; after enough of them the map is rebuilt, to give its
        memory back. */
    method Clean(now: int)
      requires Valid()
      modifies this
      ensures Valid() && Repr() <= old(Repr())
      ensures View() == Cleaned(cfg, old(View()), now)
    {
      DropExpired(now);
      if totalDeleted >= 300 {
        Shrink();
        totalDeleted := 0;
      }
    }

    method DropExpired(now: int)
      modifies this
      ensures clients.Keys <= old(clients.Keys)
      ensures forall k :: k in clients ==> clients[k] == old(clients[k])
      ensures forall k :: k in old(clients) ==>
        (k in clients <==> !Expired(old(clients[k].State()), now, cfg.minDeleteInterval))
    {
      ghost var was := clients;
      var keys := clients.Keys;
      while keys != {}
        invariant keys <= clients.Keys <= was.Keys
        invariant forall k :: k in clients ==> clients[k] == was[k]
        invariant forall k :: k in was && k !in keys ==>
          (k in clients <==> !Expired(was[k].State(), now, cfg.minDeleteInterval))
        decreases |keys|
      {
        var k :| k in keys;
        keys := keys - {k};
        var expired := clients[k].HasExpired(now, cfg.minDeleteInterval);
        if expired {
          clients := clients - {k};
          totalDeleted := totalDeleted + 1;
        }
      }
    }

    method Shrink()
      modifies `clients
      ensures clients == old(clients)
    {
      var shrunk: map<string, RateClient> := map[];
      var keys := clients.Keys;
      while keys != {}
        invariant clients == old(clients)
        invariant keys <= clients.Keys
        invariant shrunk.Keys == clients.Keys - keys
        invariant forall k :: k in shrunk ==> shrunk[k] == clients[k]
        decreases |keys|
      {
        var k :| k in keys;
        keys := keys - {k};
        shrunk := shrunk[k := clients[k]];
      }
      clients := shrunk;
    }
  }
}
