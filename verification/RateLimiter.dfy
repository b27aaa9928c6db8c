/**
 * The fixed-window rate limiter of src/embedding/rate-limiter/impl/memory-limiter.ts.
 */
module RateLimiters {
  import opened Wrappers
  import opened WindowLog
  import opened Keys

  datatype Scope = TenantScope | UserScope | ApiKeyScope | IpScope

  datatype RateLimitKey = RateLimitKey(scope: Scope, identifier: string, resource: string)

  function ScopeName(s: Scope): string {
    match s case TenantScope => "tenant" case UserScope => "user" case ApiKeyScope => "api_key" case IpScope => "ip"
  }

  function CompositeKey(k: RateLimitKey): string {
    ScopeName(k.scope) + ":" + (k.identifier + ":" + k.resource)
  }

  datatype Window = Window(count: int, windowStart: int)

  type Store = map<string, Window>

  datatype Config = Config(limit: int, windowMs: int)

  datatype Result = Result(allowed: bool, remaining: int, limit: int, windowMs: int, retryAfterMs: Option<int>)

  // ---------- What each operation does ----------

  predicate Expired(cfg: Config, w: Window, now: int) {
    cfg.windowMs <= now - w.windowStart
  }

  /** The window a request at `now` counts against: the stored one, or a new one that starts now. */
  function Current(cfg: Config, s: Store, ck: string, now: int): Window {
    if ck !in s || Expired(cfg, s[ck], now) then Window(0, now) else s[ck]
  }

  function Verdict(cfg: Config, w: Window, need: int, now: int): Result {
    var allowed := w.count + need <= cfg.limit;
    Result(allowed, Max(0, cfg.limit - w.count - if allowed then need else 0), cfg.limit, cfg.windowMs,
           if allowed then None else Some(Max(0, w.windowStart + cfg.windowMs - now)))
  }

  function Evaluate(cfg: Config, s: Store, ck: string, need: int, mutate: bool, now: int): (Store, Result) {
    var w := Current(cfg, s, ck, now);
    var r := Verdict(cfg, w, need, now);
    (if mutate && r.allowed then s[ck := Window(w.count + need, w.windowStart)] else s, r)
  }

  function Swept(cfg: Config, s: Store, now: int): Store {
    map ck | ck in s && !Expired(cfg, s[ck], now) :: s[ck]
  }

  // ---------- The class ----------

  class MemoryRateLimiter {
    var store: Store
    const cfg: Config

    constructor (defaultLimit: int, defaultWindowMs: int)
      ensures store == map[] && cfg == Config(defaultLimit, defaultWindowMs)
    {
      store, cfg := map[], Config(defaultLimit, defaultWindowMs);
    }

    method EvaluateRequest(key: RateLimitKey, need: int, mutate: bool, now: int) returns (r: Result)
      modifies this
      ensures (store, r) == Evaluate(cfg, old(store), CompositeKey(key), need, mutate, now)
    {
      var ck := CompositeKey(key);
      var windowStart, baseCount;
      if ck !in store || now - store[ck].windowStart >= cfg.windowMs {
        windowStart, baseCount := now, 0;
      } else {
        windowStart, baseCount := store[ck].windowStart, store[ck].count;
      }
      var allowed := baseCount + need <= cfg.limit;
      var retryAfterMs := if allowed then None else Some(Max(0, windowStart + cfg.windowMs - now));
      var remaining := Max(0, cfg.limit - baseCount - if allowed then need else 0);
      if mutate && allowed {
        store := store[ck := Window(baseCount + need, windowStart)];
      }
      r := Result(allowed, remaining, cfg.limit, cfg.windowMs, retryAfterMs);
    }

    method Check(key: RateLimitKey, now: int) returns (r: Result)
      modifies this
      ensures store == old(store) && r == Evaluate(cfg, old(store), CompositeKey(key), 1, false, now).1
    {
      r := EvaluateRequest(key, 1, false, now);
    }

    method Consume(key: RateLimitKey, tokens: Option<int>, now: int) returns (r: Result)
      modifies this
      ensures (store, r) == Evaluate(cfg, old(store), CompositeKey(key), tokens.GetOr(1), true, now)
    {
      r := EvaluateRequest(key, tokens.GetOr(1), true, now);
    }

    method Reset(key: RateLimitKey)
      modifies this
      ensures store == old(store) - {CompositeKey(key)}
    {
      store := store - {CompositeKey(key)};
    }

    method CleanupExpired(now: int)
      modifies this
      ensures store == Swept(cfg, old(store), now)
    {
      var todo := store.Keys;
      while todo != {}
        invariant todo <= old(store).Keys
        invariant store
          == map ck | ck in old(store) && (ck in todo || !Expired(cfg, old(store)[ck], now)) :: old(store)[ck]
        decreases todo
      {
        var ck :| ck in todo;
        if now - store[ck].windowStart >= cfg.windowMs {
          store := store - {ck};
        }
        todo := todo - {ck};
      }
    }
  }

  // ---------- Runs ----------

  datatype Op = DoConsume(ck: string, tokens: int) | DoCheck(ck: string) | DoReset(ck: string) | DoCleanup

  datatype Event = Event(at: int, op: Op)

  /** The store, what was granted to each key, and every answer given. */
  datatype World = World(store: Store, log: map<string, seq<Grant>>, answers: seq<Result>)

  function LogOf(w: World, ck: string): seq<Grant> {
    if ck in w.log then w.log[ck] else []
  }

  function Step(cfg: Config, w: World, e: Event): World {
    match e.op
    case DoConsume(ck, tokens) =>
      var (store, r) := Evaluate(cfg, w.store, ck, tokens, true, e.at);
      var log := if r.allowed then w.log[ck := LogOf(w, ck) + [Grant(e.at, store[ck].windowStart, tokens)]] else w.log;
      World(store, log, w.answers + [r])
    case DoCheck(ck) => w.(answers := w.answers + [Evaluate(cfg, w.store, ck, 1, false, e.at).1])
    case DoReset(ck) => w.(store := w.store - {ck})
    case DoCleanup => w.(store := Swept(cfg, w.store, e.at))
  }

  function Run(cfg: Config, es: seq<Event>): World {
    if es == [] then World(map[], map[], []) else Step(cfg, Run(cfg, es[..|es| - 1]), es[|es| - 1])
  }

  /** The clock never runs backwards. */
  ghost predicate Monotone(es: seq<Event>) {
    forall i, j :: 0 <= i < j < |es| ==> es[i].at <= es[j].at
  }

  // ---------- The bound over any interval ----------

  /** Requests ask for a positive number of tokens, and no window is reset. */
  ghost predicate Regular(es: seq<Event>) {
    forall i :: 0 <= i < |es| ==> !es[i].op.DoReset? && (es[i].op.DoConsume? ==> 1 <= es[i].op.tokens)
  }

  /** What the store and the log of one key say about each other at time `now`. */
  ghost predicate KeyInv(cfg: Config, s: Store, log: seq<Grant>, ck: string, now: int) {
    && Windowed(log, cfg.windowMs) && Opened(log) && WithinLimit(cfg, log)
    && (if ck in s then
          && s[ck].windowStart <= now && SumWindow(log, s[ck].windowStart) == s[ck].count
          && HasOpener(log, s[ck].windowStart) && Latest(cfg, log, s[ck].windowStart)
        else AllOver(cfg, log, now))
  }

  ghost predicate WithinLimit(cfg: Config, log: seq<Grant>) {
    forall w :: SumWindow(log, w) <= Max(0, cfg.limit)
  }

  /** No window of the log is later than, or overlaps, the one that starts at `start`. */
  ghost predicate Latest(cfg: Config, log: seq<Grant>, start: int) {
    forall i :: 0 <= i < |log| ==> log[i].window == start || log[i].window + cfg.windowMs <= start
  }

  ghost predicate AllOver(cfg: Config, log: seq<Grant>, now: int) {
    forall i :: 0 <= i < |log| ==> log[i].window + cfg.windowMs <= now
  }

  lemma OpenersKept(log: seq<Grant>, g: Grant)
    requires Opened(log) && (IsOpener(g, g.window) || HasOpener(log, g.window))
    ensures Opened(log + [g]) && HasOpener(log + [g], g.window)
  {
    var r := log + [g];
    assert r[|log|] == g;
    forall i | 0 <= i < |r| ensures HasOpener(r, r[i].window) {
      if HasOpener(log, r[i].window) {
        var k :| 0 <= k < |log| && IsOpener(log[k], r[i].window);
        assert r[k] == log[k];
      }
    }
  }

  lemma WindowedKept(log: seq<Grant>, g: Grant, width: int)
    requires Windowed(log, width) && g.window <= g.at < g.window + width && 0 <= g.amount
    requires forall i :: 0 <= i < |log| ==> log[i].window == g.window || log[i].window + width <= g.window
    ensures Windowed(log + [g], width)
  {
  }

  /** Whichever window the request counts against, it is the latest one of the key. */
  lemma CurrentIsLatest(cfg: Config, s: Store, log: seq<Grant>, ck: string, before: int, now: int)
    requires 0 < cfg.windowMs && before <= now && KeyInv(cfg, s, log, ck, before)
    ensures var w := Current(cfg, s, ck, now);
      && w.windowStart <= now < w.windowStart + cfg.windowMs
      && SumWindow(log, w.windowStart) == w.count
      && (w.windowStart == now || HasOpener(log, w.windowStart))
      && Latest(cfg, log, w.windowStart)
  {
    if ck !in s || Expired(cfg, s[ck], now) {
      assert AllOver(cfg, log, now);
      UnusedWindow(log, now);
    }
  }

  /** Counting tokens against the key's latest window. */
  lemma GrantKeepsKeyInv(cfg: Config, s: Store, log: seq<Grant>, ck: string, w: Window, tokens: int, now: int)
    requires 1 <= tokens && w.count + tokens <= cfg.limit && w.windowStart <= now < w.windowStart + cfg.windowMs
    requires Windowed(log, cfg.windowMs) && Opened(log) && WithinLimit(cfg, log)
    requires SumWindow(log, w.windowStart) == w.count && (w.windowStart == now || HasOpener(log, w.windowStart))
    requires Latest(cfg, log, w.windowStart)
    requires ck in s && s[ck] == Window(w.count + tokens, w.windowStart)
    ensures KeyInv(cfg, s, log + [Grant(now, w.windowStart, tokens)], ck, now)
  {
    var g := Grant(now, w.windowStart, tokens);
    WindowedKept(log, g, cfg.windowMs);
    OpenersKept(log, g);
    WithinLimitKept(cfg, log, g);
    SumWindowGrown(log, g, w.windowStart);
    LatestKept(cfg, log, g);
  }

  lemma WithinLimitKept(cfg: Config, log: seq<Grant>, g: Grant)
    requires WithinLimit(cfg, log) && SumWindow(log, g.window) + g.amount <= cfg.limit
    ensures WithinLimit(cfg, log + [g])
  {
    forall v ensures SumWindow(log + [g], v) <= Max(0, cfg.limit) {
      SumWindowGrown(log, g, v);
    }
  }

  lemma LatestKept(cfg: Config, log: seq<Grant>, g: Grant)
    requires Latest(cfg, log, g.window)
    ensures Latest(cfg, log + [g], g.window)
  {
  }

  lemma ConsumeKeepsKeyInv(cfg: Config, s: Store, log: seq<Grant>, ck: string, tokens: int, before: int, now: int)
    requires 0 < cfg.windowMs && 1 <= tokens && before <= now && KeyInv(cfg, s, log, ck, before)
    requires Evaluate(cfg, s, ck, tokens, true, now).1.allowed
    ensures var s' := Evaluate(cfg, s, ck, tokens, true, now).0;
      ck in s' && KeyInv(cfg, s', log + [Grant(now, s'[ck].windowStart, tokens)], ck, now)
  {
    CurrentIsLatest(cfg, s, log, ck, before, now);
    GrantKeepsKeyInv(cfg, Evaluate(cfg, s, ck, tokens, true, now).0, log, ck, Current(cfg, s, ck, now), tokens, now);
  }

  lemma StepKeepsKeyInv(cfg: Config, w: World, e: Event, ck: string, before: int)
    requires 0 < cfg.windowMs && Regular([e]) && before <= e.at && KeyInv(cfg, w.store, LogOf(w, ck), ck, before)
    ensures KeyInv(cfg, Step(cfg, w, e).store, LogOf(Step(cfg, w, e), ck), ck, e.at)
  {
    assert [e][0] == e;
    if e.op.DoConsume? && e.op.ck == ck && Evaluate(cfg, w.store, ck, e.op.tokens, true, e.at).1.allowed {
      ConsumeKeepsKeyInv(cfg, w.store, LogOf(w, ck), ck, e.op.tokens, before, e.at);
    }
  }

  lemma {:induction false} RunKeepsKeyInv(cfg: Config, es: seq<Event>, ck: string, now: int)
    requires 0 < cfg.windowMs && Regular(es) && Monotone(es) && (es != [] ==> es[|es| - 1].at <= now)
    ensures KeyInv(cfg, Run(cfg, es).store, LogOf(Run(cfg, es), ck), ck, now)
  {
    if es != [] {
      var e := es[|es| - 1];
      RunKeepsKeyInv(cfg, es[..|es| - 1], ck, e.at);
      StepKeepsKeyInv(cfg, Run(cfg, es[..|es| - 1]), e, ck, e.at);
    }
  }

  /**
   * A window grants a key at most `limit` tokens, and any interval of a window's length at
   * most 2 * limit - 1.
   */
  lemma RateBound(cfg: Config, es: seq<Event>, ck: string, a: int, w: int)
    requires Regular(es) && Monotone(es)
    ensures SumIn(LogOf(Run(cfg, es), ck), a, a + cfg.windowMs) <= Max(0, 2 * cfg.limit - 1)
    ensures 0 < cfg.windowMs ==> SumWindow(LogOf(Run(cfg, es), ck), w) <= Max(0, cfg.limit)
  {
    var log := LogOf(Run(cfg, es), ck);
    if 0 < cfg.windowMs {
      RunKeepsKeyInv(cfg, es, ck, if es == [] then 0 else es[|es| - 1].at);
      OpenedIntervalBound(log, cfg.windowMs, Max(0, cfg.limit), a);
    } else {
      EmptyInterval(log, a, a + cfg.windowMs);
    }
  }

  function LateBurst(limit: int, windowMs: int): seq<Event> {
    [Event(0, DoConsume("k", 1)), Event(windowMs - 1, DoConsume("k", limit - 1)),
     Event(windowMs, DoConsume("k", limit))]
  }

  /** The bound is attained: a late burst in one window, a full one at the start of the next. */
  lemma RateBoundIsTight(limit: int, windowMs: int)
    requires 2 <= limit && 2 <= windowMs
    ensures var cfg := Config(limit, windowMs);
      var es := LateBurst(limit, windowMs);
      && Regular(es) && Monotone(es)
      && SumIn(LogOf(Run(cfg, es), "k"), windowMs - 1, windowMs - 1 + windowMs) == 2 * limit - 1
  {
    var cfg := Config(limit, windowMs);
    var e0 := Event(0, DoConsume("k", 1));
    var e1 := Event(windowMs - 1, DoConsume("k", limit - 1));
    var e2 := Event(windowMs, DoConsume("k", limit));
    assert [e0, e1, e2][..2] == [e0, e1] && [e0, e1][..1] == [e0] && [e0][..0] == [];
    var w0 := Run(cfg, []);
    var w1 := Step(cfg, w0, e0);
    var w2 := Step(cfg, w1, e1);
    var w3 := Step(cfg, w2, e2);
    var g0, g1, g2 := Grant(0, 0, 1), Grant(windowMs - 1, 0, limit - 1), Grant(windowMs, windowMs, limit);
    assert LogOf(w1, "k") == [g0];
    assert LogOf(w2, "k") == [g0] + [g1];
    assert LogOf(w3, "k") == [g0] + [g1] + [g2];
    SumInGrown([], g0, windowMs - 1, windowMs - 1 + windowMs);
    SumInGrown([g0], g1, windowMs - 1, windowMs - 1 + windowMs);
    SumInGrown([g0] + [g1], g2, windowMs - 1, windowMs - 1 + windowMs);
    assert [] + [g0] == [g0];
    assert Run(cfg, [e0]) == w1;
    assert Run(cfg, [e0, e1]) == w2;
    assert Run(cfg, [e0, e1, e2]) == w3;
  }

  /** In the interval of a window's length that starts at a, the key gets no more than the limit. */
  ghost predicate IntervalOk(cfg: Config, es: seq<Event>, ck: string, a: int) {
    SumIn(LogOf(Run(cfg, es), ck), a, a + cfg.windowMs) <= Max(0, cfg.limit)
  }

  /** So does every such interval of the run. */
  ghost predicate WithinLimitEverywhere(cfg: Config, es: seq<Event>) {
    forall ck, a :: IntervalOk(cfg, es, ck, a)
  }

  lemma SingleInstant(log: seq<Grant>, limit: nat, a: int)
    requires Windowed(log, 1) && forall w :: SumWindow(log, w) <= limit
    ensures SumIn(log, a, a + 1) <= limit
  {
    assert forall i :: 0 <= i < |log| && a <= log[i].at < a + 1 ==> log[i].window == a;
    SumInCovered(log, a, a + 1, a, a);
  }

  /** The limit holds in every interval, whatever the run, exactly when it or the window is at most 1. */
  lemma LimitHoldsEverywhereExactly(cfg: Config)
    requires 0 < cfg.windowMs
    ensures (forall es: seq<Event> :: Regular(es) && Monotone(es) ==> WithinLimitEverywhere(cfg, es))
      <==> cfg.limit <= 1 || cfg.windowMs <= 1
  {
    if cfg.limit <= 1 || cfg.windowMs <= 1 {
      forall es: seq<Event> | Regular(es) && Monotone(es) ensures WithinLimitEverywhere(cfg, es) {
        forall ck, a ensures IntervalOk(cfg, es, ck, a) {
          RateBound(cfg, es, ck, a, 0);
          if cfg.windowMs == 1 {
            RunKeepsKeyInv(cfg, es, ck, if es == [] then 0 else es[|es| - 1].at);
            SingleInstant(LogOf(Run(cfg, es), ck), Max(0, cfg.limit), a);
          }
        }
      }
    } else {
      RateBoundIsTight(cfg.limit, cfg.windowMs);
      var es := LateBurst(cfg.limit, cfg.windowMs);
      assert !IntervalOk(Config(cfg.limit, cfg.windowMs), es, "k", cfg.windowMs - 1);
      assert !WithinLimitEverywhere(cfg, es);
    }
  }

  // ---------- Cleanup is invisible ----------

  function WithoutCleanup(es: seq<Event>): seq<Event> {
    if es == [] then []
    else
      var front := WithoutCleanup(es[..|es| - 1]);
      if es[|es| - 1].op.DoCleanup? then front else front + [es[|es| - 1]]
  }

  /** The two stores answer every request from `now` on in the same way. */
  ghost predicate Indistinguishable(cfg: Config, s: Store, s': Store, now: int) {
    forall ck, t :: now <= t ==> Current(cfg, s, ck, t) == Current(cfg, s', ck, t)
  }

  lemma StepsAgree(cfg: Config, w: World, w': World, e: Event)
    requires Indistinguishable(cfg, w.store, w'.store, e.at) && w.log == w'.log && w.answers == w'.answers
    ensures var (v, v') := (Step(cfg, w, e), if e.op.DoCleanup? then w' else Step(cfg, w', e));
      Indistinguishable(cfg, v.store, v'.store, e.at) && v.log == v'.log && v.answers == v'.answers
  {
    var (v, v') := (Step(cfg, w, e), if e.op.DoCleanup? then w' else Step(cfg, w', e));
    if !e.op.DoCleanup? && !e.op.DoReset? {
      assert Current(cfg, w.store, e.op.ck, e.at) == Current(cfg, w'.store, e.op.ck, e.at);
    }
    forall ck, t | e.at <= t ensures Current(cfg, v.store, ck, t) == Current(cfg, v'.store, ck, t) {
      assert Current(cfg, w.store, ck, t) == Current(cfg, w'.store, ck, t);
    }
  }

  /** Cleanups, wherever they happen in a run, change no answer and no grant. */
  lemma {:induction false} CleanupInvisible(cfg: Config, es: seq<Event>)
    requires Monotone(es)
    ensures Run(cfg, es).answers == Run(cfg, WithoutCleanup(es)).answers
    ensures Run(cfg, es).log == Run(cfg, WithoutCleanup(es)).log
    ensures es != [] ==> Indistinguishable(cfg, Run(cfg, es).store, Run(cfg, WithoutCleanup(es)).store, es[|es| - 1].at)
  {
    if es != [] {
      var front, e := es[..|es| - 1], es[|es| - 1];
      CleanupInvisible(cfg, front);
      StepsAgree(cfg, Run(cfg, front), Run(cfg, WithoutCleanup(front)), e);
      assert (WithoutCleanup(front) + [e])[..|WithoutCleanup(front)|] == WithoutCleanup(front);
    }
  }

  // ---------- retryAfterMs ----------

  /** Nothing in the run consumes from the key or resets it. */
  ghost predicate LeavesAlone(es: seq<Event>, ck: string) {
    forall i :: 0 <= i < |es| ==> !((es[i].op.DoConsume? || es[i].op.DoReset?) && es[i].op.ck == ck)
  }

  function Continue(cfg: Config, w: World, es: seq<Event>): World {
    if es == [] then w else Step(cfg, Continue(cfg, w, es[..|es| - 1]), es[|es| - 1])
  }

  lemma {:induction false} UntouchedKey(cfg: Config, w: World, es: seq<Event>, ck: string, t: int)
    requires LeavesAlone(es, ck) && Monotone(es) && (es != [] ==> es[|es| - 1].at <= t)
    ensures Current(cfg, Continue(cfg, w, es).store, ck, t) == Current(cfg, w.store, ck, t)
  {
    if es != [] {
      UntouchedKey(cfg, w, es[..|es| - 1], ck, t);
    }
  }

  /**
   * A request that was denied, with an attainable need, is denied again before now +
   * retryAfterMs and allowed from exactly then on, if nothing else uses the key meanwhile.
   */
  lemma {:induction false} RetryAfterIsExact(cfg: Config, w: World, ck: string, need: int, now: int, es: seq<Event>,
                                             t: int)
    requires need <= cfg.limit && !Evaluate(cfg, w.store, ck, need, true, now).1.allowed
    requires LeavesAlone(es, ck) && Monotone(es) && now <= t && (es != [] ==> es[|es| - 1].at <= t)
    ensures var retry := Evaluate(cfg, w.store, ck, need, true, now).1.retryAfterMs;
      && retry.Some? && 0 < retry.value
      && (Evaluate(cfg, Continue(cfg, w, es).store, ck, need, true, t).1.allowed <==> now + retry.value <= t)
  {
    UntouchedKey(cfg, w, es, ck, t);
  }

  /** A need beyond the limit is never met, whatever retryAfterMs says, as long as counts are not negative. */
  lemma OverLimitNeverAllowed(cfg: Config, s: Store, ck: string, need: int, t: int)
    requires cfg.limit < need && (ck in s ==> 0 <= s[ck].count)
    ensures !Evaluate(cfg, s, ck, need, true, t).1.allowed
  {
  }

  // ---------- Keys ----------

  /** Two keys share a window exactly when they have one scope and their other parts clash. */
  lemma CompositeKeysClashExactly(k: RateLimitKey, l: RateLimitKey)
    ensures CompositeKey(k) == CompositeKey(l)
      <==> k.scope == l.scope && SameJoined(k.identifier, k.resource, l.identifier, l.resource)
  {
    JoinsClashExactly(k.identifier, k.resource, l.identifier, l.resource);
    if CompositeKey(k) == CompositeKey(l) {
      SplitFirst(ScopeName(k.scope), k.identifier + ":" + k.resource,
                 ScopeName(l.scope), l.identifier + ":" + l.resource);
      assert ScopeName(k.scope)[0] == ScopeName(l.scope)[0];
    }
    assert CompositeKey(k) == ScopeName(k.scope) + ":" + (k.identifier + ":" + k.resource);
    assert CompositeKey(l) == ScopeName(l.scope) + ":" + (l.identifier + ":" + l.resource);
  }

  /** Keys with a colon-free identifier have windows of their own. */
  lemma CompositeKeyInjective(k: RateLimitKey, l: RateLimitKey)
    requires NoColon(k.identifier) && NoColon(l.identifier) && CompositeKey(k) == CompositeKey(l)
    ensures k == l
  {
    SplitFirst(ScopeName(k.scope), k.identifier + ":" + k.resource,
               ScopeName(l.scope), l.identifier + ":" + l.resource);
    SplitFirst(k.identifier, k.resource, l.identifier, l.resource);
    assert ScopeName(k.scope)[0] == ScopeName(l.scope)[0];
  }

  /** Without that, two identities can share one window. */
  lemma CompositeKeyClash()
    ensures CompositeKey(RateLimitKey(IpScope, "a:b", "c")) == CompositeKey(RateLimitKey(IpScope, "a", "b:c"))
  {
    assert "a:b" + ":" + "c" == "a" + ":" + "b:c";
  }

  // ---------- What an answer tells ----------

  /**
   * After a granted request, exactly the amounts up to `remaining` would be granted at once; a check
   * tells what would remain after one token.
   */
  lemma RemainingIsExact(cfg: Config, s: Store, ck: string, need: int, mutate: bool, now: int, more: int)
    requires Evaluate(cfg, s, ck, need, mutate, now).1.allowed && 0 <= more
    requires 0 < cfg.windowMs
    ensures var (s', r) := Evaluate(cfg, s, ck, need, mutate, now);
      Evaluate(cfg, s', ck, if mutate then more else need + more, true, now).1.allowed <==> more <= r.remaining
  {
  }

  /** A denial tells what is left without the request; every answer tells the configuration. */
  lemma AnswerTells(cfg: Config, s: Store, ck: string, need: int, mutate: bool, now: int, more: int)
    ensures var (s', r) := Evaluate(cfg, s, ck, need, mutate, now);
      && r.limit == cfg.limit && r.windowMs == cfg.windowMs && 0 <= r.remaining
      && (r.retryAfterMs.Some? <==> !r.allowed)
      && (!r.allowed && cfg.windowMs <= 0 && (ck in s ==> s[ck].windowStart <= now) ==> r.retryAfterMs == Some(0))
      && (!r.allowed ==>
            && s' == s
            && (0 < more ==> (Evaluate(cfg, s, ck, more, mutate, now).1.allowed <==> more <= r.remaining)))
  {
  }

  /** A sweep takes away exactly the windows that are over. */
  lemma SweepsExactly(cfg: Config, s: Store, ck: string, now: int)
    ensures ck in Swept(cfg, s, now) <==> ck in s && now < s[ck].windowStart + cfg.windowMs
    ensures ck in Swept(cfg, s, now) ==> Swept(cfg, s, now)[ck] == s[ck]
  {
  }

  /** How a key is written. */
  lemma KeyText(k: RateLimitKey)
    ensures CompositeKey(k) == (match k.scope
      case TenantScope => "tenant"
      case UserScope => "user"
      case ApiKeyScope => "api_key"
      case IpScope => "ip") + ":" + k.identifier + ":" + k.resource
  {
    var text := ScopeName(k.scope) + ":" + k.identifier + ":" + k.resource;
    assert CompositeKey(k) == text;
  }
}
