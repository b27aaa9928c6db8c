/**
 * What the quota manager tells its callers, in terms of the grants made so far: which limit is in
 * force, what is granted under it, and what the fields of an answer mean.
 */
module QuotaAnswers {
  import opened Wrappers
  import opened WindowLog
  import opened Keys
  import opened Caches
  import opened Quotas
  import opened QuotaRuns
  import SplitUpdates

  // ---------- The limit in force ----------

  /** n is the whole part of the resolver's answer, or, without a usable one, of the default, at least 0. */
  predicate InForce(n: int, o: Options, answer: Option<real>) {
    if answer.Some? && 0.0 <= answer.value then n as real <= answer.value < n as real + 1.0
    else if o.defaultLimit < 0.0 then n == 0
    else n as real <= o.defaultLimit < n as real + 1.0
  }

  lemma {:induction false} ResolvedIsInForce(o: Options, answer: Option<real>)
    ensures InForce(ResolveLimit(o, answer), o, answer)
  {
  }

  /** At most one whole number is in force. */
  lemma {:induction false} InForceIsUnique(m: int, n: int, o: Options, answer: Option<real>)
    requires InForce(m, o, answer) && InForce(n, o, answer)
    ensures m == n
  {
    if answer.Some? && 0.0 <= answer.value {
      SameFloor(m, n, answer.value);
    } else if 0.0 <= o.defaultLimit {
      SameFloor(m, n, o.defaultLimit);
    }
  }

  lemma {:induction false} SameFloor(m: int, n: int, x: real)
    requires m as real <= x < m as real + 1.0 && n as real <= x < n as real + 1.0
    ensures m == n
  {
    assert m == x.Floor && n == x.Floor;
  }

  // ---------- Windows ----------

  /** The window [ws, ws + width), one of those counted from time 0, holds `now`. */
  predicate IsWindow(ws: int, now: int, width: int)
    requires 0 < width
  {
    ws <= now < ws + width && ws % width == 0
  }

  lemma {:induction false} WindowStartIsWindow(now: int, width: int)
    requires 0 < width
    ensures IsWindow(WindowStart(now, width), now, width)
  {
    Multiples(now / width, width);
  }

  lemma {:induction false} Multiples(k: int, width: int)
    requires 0 < width
    ensures k * width % width == 0
  {
    var r := k * width % width;
    assert (k - k * width / width) * width == r;
    SmallMultiple(k - k * width / width, width, r);
  }

  lemma {:induction false} SmallMultiple(d: int, width: int, r: int)
    requires 0 <= r < width && d * width == r
    ensures r == 0
  {
    if d > 0 {
      PositiveMultiple(d, width);
    } else if d < 0 {
      PositiveMultiple(-d, width);
    }
  }

  lemma {:induction false} WindowIsUnique(a: int, b: int, now: int, width: int)
    requires 0 < width && IsWindow(a, now, width) && IsWindow(b, now, width)
    ensures a == b
  {
    assert a == a / width * width && b == b / width * width;
    if a < b {
      AlignedApart(a / width, b / width, width);
    } else if b < a {
      AlignedApart(b / width, a / width, width);
    }
  }

  // ---------- What is granted ----------

  /** What the quota has been granted in the window so far. */
  function Used(w: World, tenant: string, key: QuotaKey, ws: int): int {
    SumWindow(ForKey(w.ledger, tenant, key), ws)
  }

  /** In a reachable state every read gives the grants of the window. */
  lemma {:induction false} ReadsGrants(o: Options, es: seq<Event>, tenant: string, key: QuotaKey, ws: int, c: Clock)
    requires 0 < o.windowMs && AllTidy(es) && Tidy(key)
    ensures var w := Run(o, es);
      && ReadUsed(o, w.s, tenant, RecordKey(key, ws), ws + o.windowMs, c).1 == Used(w, tenant, key, ws)
      && Stored(w.s, tenant, RecordKey(key, ws)) == Used(w, tenant, key, ws) && 0 <= Used(w, tenant, key, ws)
  {
    if o.cached {
      CacheTransparent(o, es);
    } else {
      NoCacheNoEntries(o, es);
    }
    RecordKeyColons(key, ws);
    ReadIsStored(o, Run(o, es).s, tenant, RecordKey(key, ws), ws + o.windowMs, c);
    CountersMatch(o, es, tenant, key, ws);
  }

  /** What the answer to a request says of the limit, what is left, when that changes, and how much is used. */
  predicate Tells(r: CheckResult, used: int, o: Options, answer: Option<real>, end: int) {
    && InForce(r.limit, o, answer)
    && r.remaining == (if used < r.limit then r.limit - used else 0)
    && r.resetAt == end
    && (if r.limit == 0 then r.percentUsed == (if used > 0 then 100.0 else 0.0)
        else if used < r.limit then r.percentUsed * r.limit as real == 100.0 * used as real
        else r.percentUsed == 100.0)
  }

  lemma {:induction false} ResultTells(used: int, o: Options, answer: Option<real>, end: int, allowed: bool)
    requires 0 <= used
    ensures var r := ToCheckResult(used, ResolveLimit(o, answer), end, allowed);
      Tells(r, used, o, answer, end) && r.allowed == allowed
  {
    ResolvedIsInForce(o, answer);
    var n := ResolveLimit(o, answer);
    if 0 < n {
      Percent(used, n);
    }
  }

  lemma {:induction false} Percent(used: int, n: int)
    requires 0 <= used && 0 < n
    ensures var p := used as real / n as real * 100.0;
      (used < n ==> p * n as real == 100.0 * used as real && p <= 100.0) && (n <= used ==> 100.0 <= p)
  {
    var q := used as real / n as real;
    assert q * n as real == used as real;
    if used < n {
      assert q <= 1.0;
    } else {
      assert 1.0 <= q;
    }
  }

  /** The last answer of a world. */
  function LastAnswer(w: World): Answer
    requires w.answers != []
  {
    w.answers[|w.answers| - 1]
  }

  /**
   * In every reachable state a positive amount is granted exactly when the earlier grants of the
   * window and the amount together stay within the limit in force, n; the answer tells how things
   * stand after the call, and the grant is entered in the ledger at the time of the call.
   */
  lemma {:induction false} ConsumeGrantsExactly(o: Options, es: seq<Event>, tenant: string, key: QuotaKey, amount: int,
                                                answer: Option<real>, c: Clock, ws: int, n: int)
    requires 0 < o.windowMs && AllTidy(es) && Tidy(key) && 0 < amount
    requires IsWindow(ws, c.call, o.windowMs) && InForce(n, o, answer)
    ensures var w := Run(o, es); var v := Step(o, w, Event(Consume(tenant, key, amount), answer, c));
      var used := Used(w, tenant, key, ws);
      && v.answers != [] && LastAnswer(v).Checked?
      && LastAnswer(v).r.allowed == (used + amount <= n)
      && Tells(LastAnswer(v).r, if used + amount <= n then used + amount else used, o, answer, ws + o.windowMs)
      && (if used + amount <= n
          then v.ledger == w.ledger + [LedgerEntry(tenant, key, Grant(c.call, ws, amount), n)]
          else v.ledger == w.ledger)
  {
    WindowStartIsWindow(c.call, o.windowMs);
    WindowIsUnique(ws, WindowStart(c.call, o.windowMs), c.call, o.windowMs);
    ResolvedIsInForce(o, answer);
    InForceIsUnique(n, ResolveLimit(o, answer), o, answer);
    ReadsGrants(o, es, tenant, key, ws, c);
    ConsumeTells(o, Run(o, es).s, tenant, key, amount, answer, c, Used(Run(o, es), tenant, key, ws));
    ConsumeStep(o, Run(o, es), tenant, key, amount, answer, c);
  }

  lemma {:induction false} ConsumeStep(o: Options, w: World, tenant: string, key: QuotaKey, amount: int,
                                       answer: Option<real>, c: Clock)
    requires 0 < o.windowMs && 0 < amount
    ensures var v := Step(o, w, Event(Consume(tenant, key, amount), answer, c)); var n := ResolveLimit(o, answer);
      var r := DoConsume(o, w.s, tenant, key, amount, n, c).1;
      && v.answers == w.answers + [Checked(r)] && LastAnswer(v) == Checked(r)
      && v.ledger == if r.allowed
         then w.ledger + [LedgerEntry(tenant, key, Grant(c.call, WindowStart(c.call, o.windowMs), amount), n)]
         else w.ledger
  {
  }

  lemma {:induction false} ConsumeTells(o: Options, s: State, tenant: string, key: QuotaKey, amount: int,
                                        answer: Option<real>, c: Clock, used: int)
    requires 0 < o.windowMs && 0 < amount && 0 <= used
    requires var ws := WindowStart(c.call, o.windowMs); var rk := RecordKey(key, ws);
      Stored(s, tenant, rk) == used && ReadUsed(o, s, tenant, rk, ws + o.windowMs, c).1 == used
    ensures var ws := WindowStart(c.call, o.windowMs); var n := ResolveLimit(o, answer);
      var r := DoConsume(o, s, tenant, key, amount, n, c).1;
      && r.allowed == (used + amount <= n)
      && Tells(r, if used + amount <= n then used + amount else used, o, answer, ws + o.windowMs)
  {
    var ws := WindowStart(c.call, o.windowMs);
    ResultTells(used, o, answer, ws + o.windowMs, false);
    ResultTells(used + amount, o, answer, ws + o.windowMs, true);
  }

  /** Consuming nothing, or less, is always allowed, and grants nothing. */
  lemma {:induction false} ConsumeNothing(o: Options, es: seq<Event>, tenant: string, key: QuotaKey, amount: int,
                                          answer: Option<real>, c: Clock, ws: int)
    requires 0 < o.windowMs && AllTidy(es) && Tidy(key) && amount <= 0 && IsWindow(ws, c.call, o.windowMs)
    ensures var w := Run(o, es); var v := Step(o, w, Event(Consume(tenant, key, amount), answer, c));
      && v.answers != [] && LastAnswer(v).Checked? && LastAnswer(v).r.allowed && v.ledger == w.ledger
      && Tells(LastAnswer(v).r, Used(w, tenant, key, ws), o, answer, ws + o.windowMs)
  {
    WindowStartIsWindow(c.call, o.windowMs);
    WindowIsUnique(ws, WindowStart(c.call, o.windowMs), c.call, o.windowMs);
    ReadsGrants(o, es, tenant, key, ws, c);
    ResultTells(Used(Run(o, es), tenant, key, ws), o, answer, ws + o.windowMs, true);
  }

  /** A check allows exactly when something is left of the limit in force, and changes no grant. */
  lemma {:induction false} CheckTells(o: Options, es: seq<Event>, tenant: string, key: QuotaKey, answer: Option<real>,
                                      c: Clock, ws: int, n: int)
    requires 0 < o.windowMs && AllTidy(es) && Tidy(key)
    requires IsWindow(ws, c.call, o.windowMs) && InForce(n, o, answer)
    ensures var w := Run(o, es); var v := Step(o, w, Event(Check(tenant, key), answer, c));
      var used := Used(w, tenant, key, ws);
      && v.answers != [] && LastAnswer(v).Checked? && LastAnswer(v).r.allowed == (used < n)
      && Tells(LastAnswer(v).r, used, o, answer, ws + o.windowMs) && v.ledger == w.ledger
  {
    WindowStartIsWindow(c.call, o.windowMs);
    WindowIsUnique(ws, WindowStart(c.call, o.windowMs), c.call, o.windowMs);
    ResolvedIsInForce(o, answer);
    InForceIsUnique(n, ResolveLimit(o, answer), o, answer);
    ReadsGrants(o, es, tenant, key, ws, c);
    CheckedTells(o, Run(o, es).s, tenant, key, answer, c, Used(Run(o, es), tenant, key, ws));
    CheckStep(o, Run(o, es), tenant, key, answer, c);
  }

  lemma {:induction false} CheckStep(o: Options, w: World, tenant: string, key: QuotaKey, answer: Option<real>,
                                     c: Clock)
    requires 0 < o.windowMs
    ensures var v := Step(o, w, Event(Check(tenant, key), answer, c));
      var r := DoCheck(o, w.s, tenant, key, ResolveLimit(o, answer), c).1;
      v.answers == w.answers + [Checked(r)] && LastAnswer(v) == Checked(r) && v.ledger == w.ledger
  {
  }

  lemma {:induction false} CheckedTells(o: Options, s: State, tenant: string, key: QuotaKey, answer: Option<real>,
                                        c: Clock, used: int)
    requires 0 < o.windowMs && 0 <= used
    requires var ws := WindowStart(c.call, o.windowMs);
      ReadUsed(o, s, tenant, RecordKey(key, ws), ws + o.windowMs, c).1 == used
    ensures var ws := WindowStart(c.call, o.windowMs); var n := ResolveLimit(o, answer);
      var r := DoCheck(o, s, tenant, key, n, c).1;
      r.allowed == (used < n) && Tells(r, used, o, answer, ws + o.windowMs)
  {
    var ws := WindowStart(c.call, o.windowMs);
    ResultTells(used, o, answer, ws + o.windowMs, used < ResolveLimit(o, answer));
  }

  /** The usage is what was granted in the window, under the limit in force. */
  lemma {:induction false} UsageTells(o: Options, es: seq<Event>, tenant: string, key: QuotaKey, answer: Option<real>,
                                      c: Clock, ws: int, n: int)
    requires 0 < o.windowMs && AllTidy(es) && Tidy(key)
    requires IsWindow(ws, c.call, o.windowMs) && InForce(n, o, answer)
    ensures var w := Run(o, es); var v := Step(o, w, Event(GetUsage(tenant, key), answer, c));
      && v.answers != [] && v.ledger == w.ledger
      && LastAnswer(v) == Answer.Used(Usage(Used(w, tenant, key, ws), n, ws, ws + o.windowMs))
  {
    WindowStartIsWindow(c.call, o.windowMs);
    WindowIsUnique(ws, WindowStart(c.call, o.windowMs), c.call, o.windowMs);
    ResolvedIsInForce(o, answer);
    InForceIsUnique(n, ResolveLimit(o, answer), o, answer);
    ReadsGrants(o, es, tenant, key, ws, c);
  }

  /** Whatever the resolver answered in the run, no window was granted more than the largest of its answers. */
  lemma {:induction false} GrantsWithinAnswers(o: Options, es: seq<Event>, tenant: string, key: QuotaKey, ws: int,
                                               bound: real)
    requires 0 < o.windowMs && AllTidy(es) && Tidy(key) && 0.0 <= bound
    requires forall i :: 0 <= i < |es| ==>
      if es[i].limitAnswer.Some? && 0.0 <= es[i].limitAnswer.value then es[i].limitAnswer.value <= bound
      else o.defaultLimit <= bound
    ensures Used(Run(o, es), tenant, key, ws) as real <= bound
  {
    forall i | 0 <= i < |es| ensures ResolveLimit(o, es[i].limitAnswer) <= bound.Floor {
      ResolvedIsInForce(o, es[i].limitAnswer);
    }
    WindowWithinLimit(o, es, tenant, key, bound.Floor, ws);
  }

  // ---------- The cache's expiry ----------

  /** What is cached before its window ends is found until then only; what is cached later is found for good. */
  lemma {:induction false} CachedForTheWindow(o: Options, s: State, tenant: string, rk: string, used: int, end: int,
                                              c: Clock, t: int)
    requires o.cached
    ensures var v := WriteCacheUsed(o, s, tenant, rk, used, end, c);
      Lookup(v.cache, CacheKey(tenant, rk), t)
      == if end <= c.ttl || t <= c.stamp + (end - c.ttl) then Some(used) else None
  {
  }

  // ---------- The update of `consume` ----------

  /** Uninterrupted, a consumption is the update that overlaps in the split machine. */
  lemma {:induction false} ConsumeIsUpdate(o: Options, s: State, tenant: string, key: QuotaKey, amount: int,
                                           limit: nat, c: Clock)
    requires 0 < o.windowMs && 0 < amount && 0 <= Stored(s, tenant, RecordKey(key, WindowStart(c.call, o.windowMs)))
    ensures var row := (tenant, RecordKey(key, WindowStart(c.call, o.windowMs)));
      var written := SplitUpdates.Consumer(amount, limit)(if row in s.usage then Some(s.usage[row]) else None);
      var (v, r) := DoConsume(o, s, tenant, key, amount, limit, c);
      && (r.allowed <==> written.Some?)
      && v.usage == if written.Some? then s.usage[row := written.value] else s.usage
  {
  }
}
