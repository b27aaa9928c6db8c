/**
 * Whole runs of the token quota: the cache is invisible, counters equal what was granted, and
 * grants are bounded over every interval.
 */
module QuotaRuns {
  import opened Wrappers
  import opened WindowLog
  import opened Keys
  import opened Quotas

  datatype Event = Event(req: Request, limitAnswer: Option<real>, c: Clock)

  /** One successful consumption: of which key, against which window, and the limit it was held to. */
  datatype LedgerEntry = LedgerEntry(tenant: string, key: QuotaKey, grant: Grant, limit: nat)

  datatype World = World(s: State, ledger: seq<LedgerEntry>, answers: seq<Answer>)

  /** Keys that say the same: a missing scope id is stored like an empty one. */
  predicate SameQuota(k: QuotaKey, l: QuotaKey) {
    k.scopeType == l.scopeType && k.scopeId.GetOr("") == l.scopeId.GetOr("") && k.resourceType == l.resourceType
  }

  /** The parts of the key that callers choose freely hold no separator. */
  predicate Tidy(k: QuotaKey) {
    NoColon(k.scopeId.GetOr("")) && NoColon(k.resourceType)
  }

  function Granted(o: Options, s: State, e: Event): Option<LedgerEntry>
    requires 0 < o.windowMs
  {
    match e.req
    case Consume(tenant, key, amount) =>
      var limit := ResolveLimit(o, e.limitAnswer);
      if 0 < amount && DoConsume(o, s, tenant, key, amount, limit, e.c).1.allowed
      then Some(LedgerEntry(tenant, key, Grant(e.c.call, WindowStart(e.c.call, o.windowMs), amount), limit)) else None
    case _ => None
  }

  function Step(o: Options, w: World, e: Event): World
    requires 0 < o.windowMs
  {
    var (s, a) := Serve(o, w.s, e.req, ResolveLimit(o, e.limitAnswer), e.c);
    var g := Granted(o, w.s, e);
    World(s, if g.Some? then w.ledger + [g.value] else w.ledger, w.answers + [a])
  }

  function Run(o: Options, es: seq<Event>): World
    requires 0 < o.windowMs
  {
    if es == [] then World(State(map[], map[]), [], []) else Step(o, Run(o, es[..|es| - 1]), es[|es| - 1])
  }

  ghost predicate AllTidy(es: seq<Event>) {
    forall i :: 0 <= i < |es| ==> Tidy(es[i].req.key)
  }

  // ---------- Keys ----------

  lemma {:induction false} RecordKeyColons(k: QuotaKey, ws: int)
    requires Tidy(k)
    ensures Colons(RecordKey(k, ws)) == 3
  {
    var d := Decimal(ws);
    DecimalHasNoColon(ws);
    NoColonsCount(d);
    var r := k.resourceType + ":" + d;
    OneMoreColon(k.resourceType, d);
    var t := k.scopeId.GetOr("") + ":" + r;
    OneMoreColon(k.scopeId.GetOr(""), r);
    OneMoreColon(ScopeName(k.scopeType), t);
    assert RecordKey(k, ws) == ScopeName(k.scopeType) + ":" + t;
  }

  lemma {:induction false} OneMoreColon(a: string, b: string)
    requires NoColon(a)
    ensures Colons(a + ":" + b) == 1 + Colons(b)
  {
    NoColonsCount(a);
    ColonsConcat(a, ":");
    ColonsConcat(a + ":", b);
  }

  /** Two quotas share a row exactly when scope type and window are one and their other parts clash. */
  lemma {:induction false} RecordKeysClashExactly(k: QuotaKey, v: int, l: QuotaKey, w: int)
    ensures RecordKey(k, v) == RecordKey(l, w)
      <==> && k.scopeType == l.scopeType && v == w
           && SameJoined(k.scopeId.GetOr(""), k.resourceType, l.scopeId.GetOr(""), l.resourceType)
  {
    JoinsClashExactly(k.scopeId.GetOr(""), k.resourceType, l.scopeId.GetOr(""), l.resourceType);
    RecordKeyParts(k, v, l, w, k.scopeId.GetOr("") + ":" + k.resourceType, l.scopeId.GetOr("") + ":" + l.resourceType);
  }

  lemma {:induction false} RecordKeyParts(k: QuotaKey, v: int, l: QuotaKey, w: int, a: string, b: string)
    requires a == k.scopeId.GetOr("") + ":" + k.resourceType && b == l.scopeId.GetOr("") + ":" + l.resourceType
    ensures RecordKey(k, v) == RecordKey(l, w) <==> k.scopeType == l.scopeType && v == w && a == b
  {
    RecordKeyJoined(k, v, a);
    RecordKeyJoined(l, w, b);
    if RecordKey(k, v) == RecordKey(l, w) {
      SplitFirst(ScopeName(k.scopeType), a + ":" + Decimal(v), ScopeName(l.scopeType), b + ":" + Decimal(w));
      ScopeNamesDiffer(k.scopeType, l.scopeType);
      SplitDecimal(a, v, b, w);
    }
  }

  lemma {:induction false} ScopeNamesDiffer(s: ScopeType, t: ScopeType)
    ensures ScopeName(s) == ScopeName(t) ==> s == t
  {
    assert ScopeName(s) == ScopeName(t) ==> ScopeName(s)[0] == ScopeName(t)[0];
  }

  lemma {:induction false} SplitDecimal(a: string, v: int, b: string, w: int)
    requires a + ":" + Decimal(v) == b + ":" + Decimal(w)
    ensures a == b && v == w
  {
    DecimalHasNoColon(v);
    DecimalHasNoColon(w);
    NoColonsCount(Decimal(v));
    NoColonsCount(Decimal(w));
    SplitLast(a, Decimal(v), b, Decimal(w));
    DecimalInjective(v, w);
  }

  lemma {:induction false} RecordKeyJoined(k: QuotaKey, v: int, a: string)
    requires a == k.scopeId.GetOr("") + ":" + k.resourceType
    ensures RecordKey(k, v) == ScopeName(k.scopeType) + ":" + (a + ":" + Decimal(v))
  {
    assert k.scopeId.GetOr("") + ":" + (k.resourceType + ":" + Decimal(v)) == a + ":" + Decimal(v);
  }

  /** With tidy keys, different quotas and different windows have different rows. */
  lemma {:induction false} RecordKeyInjective(k: QuotaKey, v: int, l: QuotaKey, w: int)
    requires Tidy(k) && Tidy(l) && RecordKey(k, v) == RecordKey(l, w)
    ensures SameQuota(k, l) && v == w
  {
    var (kt, lt) := (k.resourceType + ":" + Decimal(v), l.resourceType + ":" + Decimal(w));
    SplitFirst(ScopeName(k.scopeType), k.scopeId.GetOr("") + ":" + kt,
               ScopeName(l.scopeType), l.scopeId.GetOr("") + ":" + lt);
    SplitFirst(k.scopeId.GetOr(""), kt, l.scopeId.GetOr(""), lt);
    SplitFirst(k.resourceType, Decimal(v), l.resourceType, Decimal(w));
    DecimalInjective(v, w);
    assert ScopeName(k.scopeType)[0] == ScopeName(l.scopeType)[0];
  }

  /** Without that, two quotas can share one counter. */
  lemma {:induction false} RecordKeyClash(w: int)
    ensures RecordKey(QuotaKey(UserScope, Some("a:b"), "c"), w) == RecordKey(QuotaKey(UserScope, Some("a"), "b:c"), w)
  {
    assert "a:b" + ":" + ("c" + ":" + Decimal(w)) == "a" + ":" + ("b:c" + ":" + Decimal(w));
  }

  /** Cache keys of rows are distinct whatever the tenants are called. */
  lemma {:induction false} CacheKeyInjective(t: string, rk: string, t': string, rk': string)
    requires Colons(rk) == 3 && Colons(rk') == 3 && CacheKey(t, rk) == CacheKey(t', rk')
    ensures t == t' && rk == rk'
  {
    SplitLast("token-quota:" + t, rk, "token-quota:" + t', rk');
    assert t == ("token-quota:" + t)[|"token-quota:"|..] && t' == ("token-quota:" + t')[|"token-quota:"|..];
  }

  // ---------- The cache is invisible ----------

  /** Whatever the cache holds for a row is what the row holds. */
  ghost predicate Agree(s: State) {
    forall t, rk :: Colons(rk) == 3 && CacheKey(t, rk) in s.cache ==> s.cache[CacheKey(t, rk)].value == Stored(s, t, rk)
  }

  lemma {:induction false} WriteKeepsAgree(o: Options, s: State, tenant: string, rk: string, used: int, we: int,
                                           c: Clock)
    requires Colons(rk) == 3 && Stored(s, tenant, rk) == used
    requires forall t, k :: Colons(k) == 3 && CacheKey(t, k) in s.cache && (t, k) != (tenant, rk)
               ==> s.cache[CacheKey(t, k)].value == Stored(s, t, k)
    requires !o.cached ==> Agree(s)
    ensures Agree(WriteCacheUsed(o, s, tenant, rk, used, we, c))
  {
    var s' := WriteCacheUsed(o, s, tenant, rk, used, we, c);
    forall t, k | Colons(k) == 3 && CacheKey(t, k) in s'.cache
      ensures s'.cache[CacheKey(t, k)].value == Stored(s', t, k)
    {
      if o.cached && CacheKey(t, k) == CacheKey(tenant, rk) {
        CacheKeyInjective(t, k, tenant, rk);
      }
    }
  }

  lemma {:induction false} ReadIsStored(o: Options, s: State, tenant: string, rk: string, we: int, c: Clock)
    requires Agree(s) && Colons(rk) == 3
    ensures var (s', used) := ReadUsed(o, s, tenant, rk, we, c);
      used == Stored(s, tenant, rk) && Agree(s') && s'.usage == s.usage
  {
    WriteKeepsAgree(o, s, tenant, rk, Stored(s, tenant, rk), we, c);
  }

  lemma {:induction false} ReadAgrees(o: Options, o': Options, s: State, s': State, tenant: string, rk: string,
                                      we: int, c: Clock)
    requires o' == o.(cached := false) && o.cached && Agree(s) && s.usage == s'.usage && Colons(rk) == 3
    ensures var (v, used) := ReadUsed(o, s, tenant, rk, we, c);
      && Agree(v) && v.usage == s.usage && ReadUsed(o', s', tenant, rk, we, c) == (s', used)
      && used == Stored(s, tenant, rk)
  {
    ReadIsStored(o, s, tenant, rk, we, c);
  }

  lemma {:induction false} GrantAgrees(o: Options, s: State, tenant: string, rk: string, next: int, we: int, c: Clock)
    requires o.cached && Agree(s) && Colons(rk) == 3
    ensures Agree(WriteCacheUsed(o, s.(usage := s.usage[(tenant, rk) := next]), tenant, rk, next, we, c))
  {
    WriteKeepsAgree(o, s.(usage := s.usage[(tenant, rk) := next]), tenant, rk, next, we, c);
  }

  /** With a cache that agrees or without any, a call gives the same answer and leaves the same counters. */
  lemma {:induction false} ServeAgrees(o: Options, o': Options, s: State, s': State, r: Request, limit: nat, c: Clock)
    requires 0 < o.windowMs && o' == o.(cached := false) && o.cached
    requires Agree(s) && s'.cache == map[] && s.usage == s'.usage && Tidy(r.key)
    ensures var (v, a) := Serve(o, s, r, limit, c); var (v', a') := Serve(o', s', r, limit, c);
      Agree(v) && v'.cache == map[] && v.usage == v'.usage && a == a'
  {
    var ws := WindowStart(c.call, o.windowMs);
    var we := ws + o.windowMs;
    var rk := RecordKey(r.key, ws);
    RecordKeyColons(r.key, ws);
    ReadAgrees(o, o', s, s', r.tenant, rk, we, c);
    match r
    case Check(_, _) =>
    case Consume(tenant, key, amount) => ConsumeAgrees(o, o', s, s', tenant, key, amount, limit, c);
    case GetUsage(_, _) =>
  }

  lemma {:induction false} ConsumeAgrees(o: Options, o': Options, s: State, s': State, tenant: string, key: QuotaKey,
                                         amount: int, limit: nat, c: Clock)
    requires 0 < o.windowMs && o' == o.(cached := false) && o.cached
    requires Agree(s) && s'.cache == map[] && s.usage == s'.usage && Tidy(key)
    ensures var (v, a) := DoConsume(o, s, tenant, key, amount, limit, c);
      var (v', a') := DoConsume(o', s', tenant, key, amount, limit, c);
      Agree(v) && v'.cache == map[] && v.usage == v'.usage && a == a'
  {
    var ws := WindowStart(c.call, o.windowMs);
    var rk := RecordKey(key, ws);
    RecordKeyColons(key, ws);
    if amount <= 0 || limit == 0 || Stored(s, tenant, rk) + amount > limit {
      ReadAgrees(o, o', s, s', tenant, rk, ws + o.windowMs, c);
    } else {
      GrantAgrees(o, s, tenant, rk, Stored(s, tenant, rk) + amount, ws + o.windowMs, c);
    }
  }

  lemma {:induction false} NoCacheNoEntries(o: Options, es: seq<Event>)
    requires 0 < o.windowMs && !o.cached
    ensures Run(o, es).s.cache == map[]
  {
    if es != [] {
      NoCacheNoEntries(o, es[..|es| - 1]);
    }
  }

  /** The manager answers every request of every run exactly as one without a cache. */
  lemma {:induction false} CacheTransparent(o: Options, es: seq<Event>)
    requires 0 < o.windowMs && o.cached && AllTidy(es)
    ensures var w := Run(o, es); var w' := Run(o.(cached := false), es);
      w.answers == w'.answers && w.s.usage == w'.s.usage && w.ledger == w'.ledger && Agree(w.s)
  {
    var o' := o.(cached := false);
    NoCacheNoEntries(o', es);
    if es != [] {
      var front, e := es[..|es| - 1], es[|es| - 1];
      CacheTransparent(o, front);
      NoCacheNoEntries(o', front);
      ServeAgrees(o, o', Run(o, front).s, Run(o', front).s, e.req, ResolveLimit(o, e.limitAnswer), e.c);
    }
  }

  /** `check` says yes exactly when consuming one token would succeed. */
  lemma {:induction false} CheckPredictsConsume(o: Options, es: seq<Event>, tenant: string, key: QuotaKey, limit: nat,
                                                c: Clock)
    requires 0 < o.windowMs && AllTidy(es) && Tidy(key)
    ensures var s := Run(o, es).s;
      DoCheck(o, s, tenant, key, limit, c).1.allowed <==> DoConsume(o, s, tenant, key, 1, limit, c).1.allowed
  {
    var s := Run(o, es).s;
    var ws := WindowStart(c.call, o.windowMs);
    if o.cached {
      CacheTransparent(o, es);
    } else {
      NoCacheNoEntries(o, es);
    }
    RecordKeyColons(key, ws);
    ReadIsStored(o, s, tenant, RecordKey(key, ws), ws + o.windowMs, c);
    CountersMatch(o, es, tenant, key, ws);
  }

  // ---------- Conservation ----------

  /** The grants of one quota, in order. */
  function ForKey(ledger: seq<LedgerEntry>, tenant: string, key: QuotaKey): seq<Grant> {
    if ledger == [] then []
    else
      var front := ForKey(ledger[..|ledger| - 1], tenant, key);
      var e := ledger[|ledger| - 1];
      if e.tenant == tenant && SameQuota(e.key, key) then front + [e.grant] else front
  }

  /** The largest limit under which anything was granted against the window. */
  function Ceiling(ledger: seq<LedgerEntry>, tenant: string, key: QuotaKey, window: int): nat {
    if ledger == [] then 0
    else
      var front := Ceiling(ledger[..|ledger| - 1], tenant, key, window);
      var e := ledger[|ledger| - 1];
      if Concerns(e, tenant, key, window) then Max(front, e.limit) else front
  }

  predicate Aligned(g: Grant, width: int)
    requires 0 < width
  {
    g.window == WindowStart(g.at, width) && 1 <= g.amount
  }

  predicate AllAligned(log: seq<Grant>, width: int)
    requires 0 < width
  {
    log == [] || (AllAligned(log[..|log| - 1], width) && Aligned(log[|log| - 1], width))
  }

  lemma {:induction false} AlignedAt(log: seq<Grant>, width: int, i: nat)
    requires 0 < width && AllAligned(log, width) && i < |log|
    ensures Aligned(log[i], width)
  {
    if i < |log| - 1 {
      AlignedAt(log[..|log| - 1], width, i);
    }
  }

  /** A served request changes a counter only by what it grants. */
  lemma {:induction false} ServeMovesCounter(o: Options, s: State, e: Event, tenant: string, key: QuotaKey, w: int)
    requires 0 < o.windowMs && Tidy(e.req.key) && Tidy(key)
    ensures var v := Serve(o, s, e.req, ResolveLimit(o, e.limitAnswer), e.c).0;
      var g := Granted(o, s, e);
      var mine := g.Some? && Concerns(g.value, tenant, key, w);
      && Stored(v, tenant, RecordKey(key, w))
         == Stored(s, tenant, RecordKey(key, w)) + (if mine then g.value.grant.amount else 0)
      && (mine ==> Stored(v, tenant, RecordKey(key, w)) <= g.value.limit)
      && (g.Some? ==> Aligned(g.value.grant, o.windowMs))
  {
    var ws := WindowStart(e.c.call, o.windowMs);
    if RecordKey(e.req.key, ws) == RecordKey(key, w) {
      RecordKeyInjective(e.req.key, ws, key, w);
    }
  }

  /** The counter is the sum of the grants, and within the largest limit they were held to. */
  ghost predicate Counted(counter: int, ledger: seq<LedgerEntry>, tenant: string, key: QuotaKey, w: int) {
    0 <= counter == SumWindow(ForKey(ledger, tenant, key), w) && counter <= Ceiling(ledger, tenant, key, w)
  }

  predicate Concerns(e: LedgerEntry, tenant: string, key: QuotaKey, w: int) {
    e.tenant == tenant && SameQuota(e.key, key) && e.grant.window == w
  }

  lemma {:induction false} LedgerGrown(l: seq<LedgerEntry>, e: LedgerEntry, tenant: string, key: QuotaKey, w: int)
    ensures var mine := Concerns(e, tenant, key, w);
      && SumWindow(ForKey(l + [e], tenant, key), w)
         == SumWindow(ForKey(l, tenant, key), w) + (if mine then e.grant.amount else 0)
      && Ceiling(l + [e], tenant, key, w)
         == if mine then Max(Ceiling(l, tenant, key, w), e.limit) else Ceiling(l, tenant, key, w)
  {
    assert (l + [e])[..|l|] == l;
    SumWindowGrown(ForKey(l, tenant, key), e.grant, w);
  }

  lemma {:induction false} GrantCounts(counter: int, counter': int, ledger: seq<LedgerEntry>, g: Option<LedgerEntry>,
                                       tenant: string, key: QuotaKey, w: int)
    requires Counted(counter, ledger, tenant, key, w)
    requires var mine := g.Some? && Concerns(g.value, tenant, key, w);
      && counter' == counter + (if mine then g.value.grant.amount else 0)
      && (mine ==> counter' <= g.value.limit && 0 <= g.value.grant.amount)
    ensures Counted(counter', if g.Some? then ledger + [g.value] else ledger, tenant, key, w)
  {
    if g.Some? {
      LedgerGrown(ledger, g.value, tenant, key, w);
    }
  }

  lemma {:induction false} StepCounts(o: Options, r: World, e: Event, tenant: string, key: QuotaKey, w: int)
    requires 0 < o.windowMs && Tidy(e.req.key) && Tidy(key)
    requires Counted(Stored(r.s, tenant, RecordKey(key, w)), r.ledger, tenant, key, w)
    ensures Counted(Stored(Step(o, r, e).s, tenant, RecordKey(key, w)), Step(o, r, e).ledger, tenant, key, w)
  {
    ServeMovesCounter(o, r.s, e, tenant, key, w);
    GrantCounts(Stored(r.s, tenant, RecordKey(key, w)), Stored(Step(o, r, e).s, tenant, RecordKey(key, w)),
                r.ledger, Granted(o, r.s, e), tenant, key, w);
  }

  /**
   * The stored counter of a quota and window is the sum of what was granted, and never more
   * than the largest limit it was held to.
   */
  lemma {:induction false} CountersMatch(o: Options, es: seq<Event>, tenant: string, key: QuotaKey, w: int)
    requires 0 < o.windowMs && AllTidy(es) && Tidy(key)
    ensures Counted(Stored(Run(o, es).s, tenant, RecordKey(key, w)), Run(o, es).ledger, tenant, key, w)
  {
    if es != [] {
      CountersMatch(o, es[..|es| - 1], tenant, key, w);
      StepCounts(o, Run(o, es[..|es| - 1]), es[|es| - 1], tenant, key, w);
    }
  }

  // ---------- The bound over any interval ----------

  lemma {:induction false} AlignedGrown(ledger: seq<LedgerEntry>, g: LedgerEntry, tenant: string, key: QuotaKey,
                                        width: int)
    requires 0 < width && Aligned(g.grant, width) && AllAligned(ForKey(ledger, tenant, key), width)
    ensures AllAligned(ForKey(ledger + [g], tenant, key), width)
  {
    assert (ledger + [g])[..|ledger|] == ledger;
    var front := ForKey(ledger, tenant, key);
    assert (front + [g.grant])[..|front|] == front;
  }

  lemma {:induction false} StepAligns(o: Options, r: World, e: Event, tenant: string, key: QuotaKey)
    requires 0 < o.windowMs && Tidy(e.req.key) && Tidy(key)
    requires AllAligned(ForKey(r.ledger, tenant, key), o.windowMs)
    ensures AllAligned(ForKey(Step(o, r, e).ledger, tenant, key), o.windowMs)
  {
    ServeMovesCounter(o, r.s, e, tenant, key, 0);
    var g := Granted(o, r.s, e);
    if g.Some? {
      AlignedGrown(r.ledger, g.value, tenant, key, o.windowMs);
    }
  }

  lemma {:induction false} GrantsAligned(o: Options, es: seq<Event>, tenant: string, key: QuotaKey)
    requires 0 < o.windowMs && AllTidy(es) && Tidy(key)
    ensures AllAligned(ForKey(Run(o, es).ledger, tenant, key), o.windowMs)
  {
    if es != [] {
      GrantsAligned(o, es[..|es| - 1], tenant, key);
      StepAligns(o, Run(o, es[..|es| - 1]), es[|es| - 1], tenant, key);
    }
  }

  lemma {:induction false} PositiveMultiple(d: int, width: int)
    requires 0 < width && 0 < d * width
    ensures width <= d * width
  {
    assert 0 < d;
    assert (d - 1) * width >= 0;
  }

  lemma {:induction false} AlignedApart(m: int, n: int, width: int)
    requires 0 < width && m * width < n * width
    ensures m * width + width <= n * width
  {
    assert (n - m) * width == n * width - m * width;
    PositiveMultiple(n - m, width);
  }

  lemma {:induction false} AlignedIsWindowed(log: seq<Grant>, width: int)
    requires 0 < width && AllAligned(log, width)
    ensures Windowed(log, width)
  {
    forall i | 0 <= i < |log|
      ensures log[i].window <= log[i].at < log[i].window + width && 0 <= log[i].amount
    {
      AlignedAt(log, width, i);
    }
    forall i, j | 0 <= i < |log| && 0 <= j < |log| && log[i].window < log[j].window
      ensures log[i].window + width <= log[j].window
    {
      AlignedAt(log, width, i);
      AlignedAt(log, width, j);
      AlignedApart(log[i].at / width, log[j].at / width, width);
    }
  }

  lemma {:induction false} CeilingBelow(ledger: seq<LedgerEntry>, tenant: string, key: QuotaKey, w: int, limit: nat)
    requires forall i :: 0 <= i < |ledger| ==> ledger[i].limit <= limit
    ensures Ceiling(ledger, tenant, key, w) <= limit
  {
    if ledger != [] {
      CeilingBelow(ledger[..|ledger| - 1], tenant, key, w, limit);
    }
  }

  lemma {:induction false} LimitsInLedger(o: Options, es: seq<Event>, limit: nat)
    requires 0 < o.windowMs && forall i :: 0 <= i < |es| ==> ResolveLimit(o, es[i].limitAnswer) <= limit
    ensures forall i :: 0 <= i < |Run(o, es).ledger| ==> Run(o, es).ledger[i].limit <= limit
  {
    if es != [] {
      LimitsInLedger(o, es[..|es| - 1], limit);
    }
  }

  lemma {:induction false} WindowWithinLimit(o: Options, es: seq<Event>, tenant: string, key: QuotaKey, limit: nat,
                                             w: int)
    requires 0 < o.windowMs && AllTidy(es) && Tidy(key)
    requires forall i :: 0 <= i < |es| ==> ResolveLimit(o, es[i].limitAnswer) <= limit
    ensures SumWindow(ForKey(Run(o, es).ledger, tenant, key), w) <= limit
  {
    LimitsInLedger(o, es, limit);
    CountersMatch(o, es, tenant, key, w);
    CeilingBelow(Run(o, es).ledger, tenant, key, w, limit);
  }

  /** While limits stay at or below `limit`, any interval of a window's length grants at most 2 * limit. */
  lemma {:induction false} QuotaBound(o: Options, es: seq<Event>, tenant: string, key: QuotaKey, limit: nat, a: int)
    requires 0 < o.windowMs && AllTidy(es) && Tidy(key)
    requires forall i :: 0 <= i < |es| ==> ResolveLimit(o, es[i].limitAnswer) <= limit
    ensures SumIn(ForKey(Run(o, es).ledger, tenant, key), a, a + o.windowMs) <= 2 * limit
  {
    GrantsAligned(o, es, tenant, key);
    forall w ensures SumWindow(ForKey(Run(o, es).ledger, tenant, key), w) <= limit {
      WindowWithinLimit(o, es, tenant, key, limit, w);
    }
    AlignedBound(ForKey(Run(o, es).ledger, tenant, key), o.windowMs, limit, a);
  }

  lemma {:induction false} AlignedBound(log: seq<Grant>, width: int, limit: nat, a: int)
    requires 0 < width && AllAligned(log, width) && forall w :: SumWindow(log, w) <= limit
    ensures SumIn(log, a, a + width) <= 2 * limit
  {
    AlignedIsWindowed(log, width);
    IntervalBound(log, width, limit, a);
  }
}
