/**
 * The token quota of src/governance/quota/impl/token-quota.ts: a usage counter per key and
 * aligned time window in storage, with a cache in front of the counters.
 *
 * One manager call is one step, so `atomicUpdate` is atomic here; what happens when it is not
 * is the subject of SplitUpdates.
 */
module Quotas {
  import opened Wrappers
  import opened Keys
  import opened Caches

  datatype ScopeType = TenantScope | UserScope | RoleScope | AgentScope

  datatype QuotaKey = QuotaKey(scopeType: ScopeType, scopeId: Option<string>, resourceType: string)

  datatype Options = Options(cached: bool, windowMs: int, defaultLimit: real)

  datatype CheckResult = CheckResult(allowed: bool, remaining: int, limit: int, resetAt: int, percentUsed: real)

  datatype Usage = Usage(usedValue: int, maxValue: int, windowStart: int, windowEnd: int)

  function ScopeName(s: ScopeType): string {
    match s case TenantScope => "tenant" case UserScope => "user" case RoleScope => "role" case AgentScope => "agent"
  }

  /** JavaScript's Math.floor(now / width) * width, for a positive width. */
  function WindowStart(now: int, width: int): int
    requires 0 < width
  {
    now / width * width
  }

  function RecordKey(k: QuotaKey, windowStart: int): string {
    ScopeName(k.scopeType) + ":" + (k.scopeId.GetOr("") + ":" + (k.resourceType + ":" + Decimal(windowStart)))
  }

  function CacheKey(tenant: string, recordKey: string): string {
    ("token-quota:" + tenant) + ":" + recordKey
  }

  /** `answer` is what resolveLimit gives, None when there is none or it is not finite. */
  function ResolveLimit(o: Options, answer: Option<real>): nat {
    if answer.Some? && 0.0 <= answer.value then answer.value.Floor else Max(0, o.defaultLimit.Floor)
  }

  function ToCheckResult(used: int, limit: int, windowEnd: int, allowed: bool): CheckResult {
    CheckResult(allowed, Max(0, limit - used), limit, windowEnd,
                if limit == 0 then (if used > 0 then 100.0 else 0.0)
                else
                  var percent := used as real / limit as real * 100.0;
                  if percent > 100.0 then 100.0 else percent)
  }

  // ---------- What each call does ----------

  /** The usage counters by tenant and record key, and the cache. */
  datatype State = State(usage: map<(string, string), int>, cache: Cache<int>)

  /** The clock readings of one call, in order. */
  datatype Clock = Clock(call: int, lookup: int, ttl: int, stamp: int)

  datatype Request =
    | Check(tenant: string, key: QuotaKey)
    | Consume(tenant: string, key: QuotaKey, amount: int)
    | GetUsage(tenant: string, key: QuotaKey)

  datatype Answer = Checked(r: CheckResult) | Used(u: Usage)

  function Stored(s: State, tenant: string, rk: string): int {
    if (tenant, rk) in s.usage then s.usage[(tenant, rk)] else 0
  }

  function WriteCacheUsed(o: Options, s: State, tenant: string, rk: string, used: int, windowEnd: int,
                          c: Clock): State {
    if !o.cached then s
    else
      var ttlMs := Max(0, windowEnd - c.ttl);
      s.(cache := Put(s.cache, CacheKey(tenant, rk), used, if ttlMs == 0 then None else Some(ttlMs), c.stamp))
  }

  function ReadUsed(o: Options, s: State, tenant: string, rk: string, windowEnd: int, c: Clock): (State, int) {
    var ck := CacheKey(tenant, rk);
    var hit := if o.cached then Lookup(s.cache, ck, c.lookup) else None;
    if hit.Some? then (s, hit.value)
    else
      var used := Stored(s, tenant, rk);
      (WriteCacheUsed(o, s, tenant, rk, used, windowEnd, c), used)
  }

  function DoCheck(o: Options, s: State, tenant: string, key: QuotaKey, limit: nat, c: Clock): (State, CheckResult)
    requires 0 < o.windowMs
  {
    var ws := WindowStart(c.call, o.windowMs);
    var (s', used) := ReadUsed(o, s, tenant, RecordKey(key, ws), ws + o.windowMs, c);
    (s', ToCheckResult(used, limit, ws + o.windowMs, used < limit))
  }

  function DoConsume(o: Options, s: State, tenant: string, key: QuotaKey, amount: int, limit: nat,
                     c: Clock): (State, CheckResult)
    requires 0 < o.windowMs
  {
    var ws := WindowStart(c.call, o.windowMs);
    var we := ws + o.windowMs;
    var rk := RecordKey(key, ws);
    var used := Stored(s, tenant, rk);
    if amount <= 0 || limit == 0 || used + amount > limit then
      var (s', seen) := ReadUsed(o, s, tenant, rk, we, c);
      (s', ToCheckResult(seen, limit, we, amount <= 0))
    else
      var next := used + amount;
      (WriteCacheUsed(o, s.(usage := s.usage[(tenant, rk) := next]), tenant, rk, next, we, c),
       ToCheckResult(next, limit, we, true))
  }

  function DoGetUsage(o: Options, s: State, tenant: string, key: QuotaKey, limit: nat, c: Clock): (State, Usage)
    requires 0 < o.windowMs
  {
    var ws := WindowStart(c.call, o.windowMs);
    var (s', used) := ReadUsed(o, s, tenant, RecordKey(key, ws), ws + o.windowMs, c);
    (s', Usage(used, limit, ws, ws + o.windowMs))
  }

  function Serve(o: Options, s: State, r: Request, limit: nat, c: Clock): (State, Answer)
    requires 0 < o.windowMs
  {
    match r
    case Check(tenant, key) => var (s', a) := DoCheck(o, s, tenant, key, limit, c); (s', Checked(a))
    case Consume(tenant, key, amount) => var (s', a) := DoConsume(o, s, tenant, key, amount, limit, c); (s', Checked(a))
    case GetUsage(tenant, key) => var (s', a) := DoGetUsage(o, s, tenant, key, limit, c); (s', Used(a))
  }

  // ---------- The class ----------

  /** The usage collection of the storage backend, one row per tenant and record key. */
  class UsageStorage {
    var rows: map<(string, string), int>

    constructor ()
      ensures rows == map[]
    {
      rows := map[];
    }
  }

  class TokenQuotaManager {
    const storage: UsageStorage
    const cache: MemoryCacheBackend<int>
    const opts: Options

    constructor (storage: UsageStorage, cache: MemoryCacheBackend<int>, opts: Options)
      ensures this.storage == storage && this.cache == cache && this.opts == opts
    {
      this.storage, this.cache, this.opts := storage, cache, opts;
    }

    ghost function View(): State
      reads storage, cache
    {
      State(storage.rows, cache.store)
    }

    method WriteCacheUsedTo(tenant: string, rk: string, used: int, windowEnd: int, c: Clock)
      modifies cache
      ensures View() == WriteCacheUsed(opts, old(View()), tenant, rk, used, windowEnd, c)
    {
      if !opts.cached {
        return;
      }
      var ttlMs := Max(0, windowEnd - c.ttl);
      cache.Set(CacheKey(tenant, rk), used, if ttlMs == 0 then None else Some(ttlMs), c.stamp);
    }

    method ReadUsedFrom(tenant: string, rk: string, windowEnd: int, c: Clock) returns (used: int)
      modifies cache
      ensures (View(), used) == ReadUsed(opts, old(View()), tenant, rk, windowEnd, c)
    {
      var ck := CacheKey(tenant, rk);
      if opts.cached {
        var hit := cache.Get(ck, c.lookup);
        if hit.Some? {
          return hit.value;
        }
      }
      used := if (tenant, rk) in storage.rows then storage.rows[(tenant, rk)] else 0;
      WriteCacheUsedTo(tenant, rk, used, windowEnd, c);
      assert opts.cached ==> cache.store == old(cache.store)[ck := cache.store[ck]];
    }

    method CheckQuota(tenant: string, key: QuotaKey, answer: Option<real>, c: Clock) returns (r: CheckResult)
      requires 0 < opts.windowMs
      modifies cache
      ensures (View(), r) == DoCheck(opts, old(View()), tenant, key, ResolveLimit(opts, answer), c)
    {
      var ws := WindowStart(c.call, opts.windowMs);
      var limit := ResolveLimit(opts, answer);
      var used := ReadUsedFrom(tenant, RecordKey(key, ws), ws + opts.windowMs, c);
      r := ToCheckResult(used, limit, ws + opts.windowMs, used < limit);
    }

    method ConsumeQuota(tenant: string, key: QuotaKey, amount: int, answer: Option<real>,
                        c: Clock) returns (r: CheckResult)
      requires 0 < opts.windowMs
      modifies cache, storage
      ensures (View(), r) == DoConsume(opts, old(View()), tenant, key, amount, ResolveLimit(opts, answer), c)
    {
      var ws := WindowStart(c.call, opts.windowMs);
      var we := ws + opts.windowMs;
      var limit := ResolveLimit(opts, answer);
      var rk := RecordKey(key, ws);
      if amount <= 0 {
        var used := ReadUsedFrom(tenant, rk, we, c);
        return ToCheckResult(used, limit, we, true);
      }
      if limit == 0 {
        var used := ReadUsedFrom(tenant, rk, we, c);
        return ToCheckResult(used, limit, we, false);
      }
      var current := if (tenant, rk) in storage.rows then storage.rows[(tenant, rk)] else 0;
      if current + amount > limit {
        var used := ReadUsedFrom(tenant, rk, we, c);
        return ToCheckResult(used, limit, we, false);
      }
      var next := current + amount;
      storage.rows := storage.rows[(tenant, rk) := next];
      WriteCacheUsedTo(tenant, rk, next, we, c);
      r := ToCheckResult(next, limit, we, true);
    }

    method GetQuotaUsage(tenant: string, key: QuotaKey, answer: Option<real>, c: Clock) returns (u: Usage)
      requires 0 < opts.windowMs
      modifies cache
      ensures (View(), u) == DoGetUsage(opts, old(View()), tenant, key, ResolveLimit(opts, answer), c)
    {
      var ws := WindowStart(c.call, opts.windowMs);
      var limit := ResolveLimit(opts, answer);
      var used := ReadUsedFrom(tenant, RecordKey(key, ws), ws + opts.windowMs, c);
      u := Usage(used, limit, ws, ws + opts.windowMs);
    }
  }

  /** How a row's key is written. */
  lemma RecordKeyText(k: QuotaKey, windowStart: int)
    ensures RecordKey(k, windowStart) == (match k.scopeType
      case TenantScope => "tenant"
      case UserScope => "user"
      case RoleScope => "role"
      case AgentScope => "agent") + ":" + k.scopeId.GetOr("") + ":" + k.resourceType + ":" + Decimal(windowStart)
  {
    var text := ScopeName(k.scopeType) + ":" + k.scopeId.GetOr("") + ":" + k.resourceType + ":" + Decimal(windowStart);
    assert RecordKey(k, windowStart) == text;
  }
}
