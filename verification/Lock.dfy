/**
 * The lease table of src/kernel-impl/memory/lock.ts, and mutual exclusion over all its runs.
 */
module Locks {
  import opened Wrappers

  type Token = nat  // a random UUID

  datatype Lock = Lock(token: Token, expiresAt: int)

  type Table = map<string, Lock>

  // ---------- What each operation does to the table ----------

  function Evict(locks: Table, now: int): Table {
    map k | k in locks && now < locks[k].expiresAt :: locks[k]
  }

  /** The expiry of the lease obtained, or None when the key is held. */
  function Attempt(locks: Table, key: string, ttlMs: int, token: Token, evictAt: int, now: int): (Table, Option<int>) {
    var live := Evict(locks, evictAt);
    if key in live then (live, None) else (live[key := Lock(token, now + ttlMs)], Some(now + ttlMs))
  }

  predicate Recorded(locks: Table, key: string, token: Token) {
    key in locks && locks[key].token == token
  }

  function Release(locks: Table, key: string, token: Token): Table {
    if Recorded(locks, key, token) then locks - {key} else locks
  }

  function Extend(locks: Table, key: string, token: Token, extensionMs: int, now: int): (Table, bool) {
    if Recorded(locks, key, token) then (locks[key := Lock(token, now + extensionMs)], true) else (locks, false)
  }

  // ---------- The classes ----------

  class LockHandle {
    const key: string
    const token: Token
    var expiresAt: int

    constructor (key: string, token: Token, expiresAt: int)
      ensures this.key == key && this.token == token && this.expiresAt == expiresAt
    {
      this.key, this.token, this.expiresAt := key, token, expiresAt;
    }
  }

  /** What a waiting caller finds when it wakes up: the time, and the table as others have left it. */
  datatype Moment = Moment(now: int, locks: Table)

  /** The waiter's loop stops at moment i: the first one past the deadline, or with the key free. */
  ghost predicate StopsAt(env: seq<Moment>, key: string, deadline: int, i: nat) {
    && i < |env|
    && (forall k :: 0 <= k < i ==> env[k].now < deadline && key in Evict(env[k].locks, env[k].now))
    && (deadline <= env[i].now || key !in Evict(env[i].locks, env[i].now))
  }

  class InProcessLockBackend {
    var locks: Table

    constructor ()
      ensures locks == map[]
    {
      locks := map[];
    }

    method EvictExpired(now: int)
      modifies this
      ensures locks == Evict(old(locks), now)
    {
      var todo := locks.Keys;
      while todo != {}
        invariant todo <= old(locks).Keys
        invariant locks == map k | k in old(locks) && (k in todo || now < old(locks)[k].expiresAt) :: old(locks)[k]
        decreases todo
      {
        var key :| key in todo;
        if locks[key].expiresAt <= now {
          locks := locks - {key};
        }
        todo := todo - {key};
      }
    }

    /** `acquire` without waiting: eviction reads the clock before the lease's expiry is computed. */
    method TryAcquire(key: string, ttlMs: int, token: Token, first: int, second: int) returns (h: LockHandle?)
      modifies this
      ensures locks == Attempt(old(locks), key, ttlMs, token, first, second).0
      ensures h != null <==> Attempt(old(locks), key, ttlMs, token, first, second).1.Some?
      ensures h != null ==> fresh(h) && h.key == key && h.token == token && h.expiresAt == second + ttlMs
    {
      EvictExpired(first);
      if key in locks {
        return null;
      }
      var expiresAt := second + ttlMs;
      locks := locks[key := Lock(token, expiresAt)];
      h := new LockHandle(key, token, expiresAt);
    }

    /** `acquire` with a wait: between polls the table is whatever `env` says others made of it. */
    method AcquireWithRetry(key: string, ttlMs: int, deadline: int, token: Token, env: seq<Moment>)
      returns (h: LockHandle?, ghost stop: nat)
      requires env != [] && deadline <= env[|env| - 1].now
      modifies this
      ensures StopsAt(env, key, deadline, stop)
      ensures h != null <==> env[stop].now < deadline
      ensures h != null ==>
        && locks == Attempt(env[stop].locks, key, ttlMs, token, env[stop].now, env[stop].now).0
        && fresh(h) && h.key == key && h.token == token && h.expiresAt == env[stop].now + ttlMs
      ensures h == null ==> locks == env[stop].locks
    {
      var i := 0;
      locks := env[0].locks;
      while env[i].now < deadline
        invariant i < |env| && locks == env[i].locks
        invariant forall k :: 0 <= k < i ==> env[k].now < deadline && key in Evict(env[k].locks, env[k].now)
        decreases |env| - i
      {
        EvictExpired(env[i].now);
        if key !in locks {
          assert Evict(Evict(env[i].locks, env[i].now), env[i].now) == Evict(env[i].locks, env[i].now);
          h := TryAcquire(key, ttlMs, token, env[i].now, env[i].now);
          return h, i;
        }
        i := i + 1;
        locks := env[i].locks;
      }
      return null, i;
    }

    /** `acquire`: a held key is waited for only when the caller asked to wait. */
    method Acquire(key: string, ttlMs: int, waitMs: Option<int>, token: Token, first: int, second: int,
                   env: seq<Moment>)
      returns (h: LockHandle?, ghost stop: nat)
      requires env != [] && second + waitMs.GetOr(0) <= env[|env| - 1].now
      modifies this
      ensures var held := key in Evict(old(locks), first); var deadline := second + waitMs.GetOr(0);
        if held && waitMs.GetOr(0) > 0 then
          && StopsAt(env, key, deadline, stop)
          && (h != null <==> env[stop].now < deadline)
          && locks == (if h == null then env[stop].locks
                       else Attempt(env[stop].locks, key, ttlMs, token, env[stop].now, env[stop].now).0)
          && (h != null ==> h.key == key && h.token == token && h.expiresAt == env[stop].now + ttlMs)
        else
          && locks == Attempt(old(locks), key, ttlMs, token, first, second).0
          && (h != null <==> !held)
          && (h != null ==> h.key == key && h.token == token && h.expiresAt == second + ttlMs)
    {
      EvictExpired(first);
      if key in locks && waitMs.Some? && waitMs.value > 0 {
        h, stop := AcquireWithRetry(key, ttlMs, second + waitMs.value, token, env);
      } else {
        assert Evict(Evict(old(locks), first), first) == Evict(old(locks), first);
        h := TryAcquire(key, ttlMs, token, first, second);
        stop := 0;
      }
    }

    method ReleaseLock(h: LockHandle)
      modifies this
      ensures locks == Release(old(locks), h.key, h.token)
    {
      if h.key in locks && locks[h.key].token == h.token {
        locks := locks - {h.key};
      }
    }

    method ExtendLock(h: LockHandle, extensionMs: int, now: int) returns (ok: bool)
      modifies this, h`expiresAt
      ensures (locks, ok) == Extend(old(locks), h.key, h.token, extensionMs, now)
      ensures h.expiresAt == if ok then now + extensionMs else old(h.expiresAt)
    {
      if h.key !in locks || locks[h.key].token != h.token {
        return false;
      }
      locks := locks[h.key := Lock(h.token, now + extensionMs)];
      h.expiresAt := now + extensionMs;
      return true;
    }
  }

  // ---------- Runs ----------

  datatype Handle = Handle(key: string, expiresAt: int, released: bool)

  /** The table, and every handle ever given out. */
  datatype World = World(locks: Table, clock: int, next: Token, handles: map<Token, Handle>)

  /** `dt` passes before a step; `skew` between the eviction and the rest of an acquisition. */
  datatype Event =
    | DoAcquire(key: string, ttlMs: int, dt: nat, skew: nat)
    | DoRelease(token: Token, dt: nat)
    | DoExtend(token: Token, extensionMs: int, dt: nat)
    | Sweep(dt: nat)

  function Init(t: int): World {
    World(map[], t, 0, map[])
  }

  function Step(w: World, e: Event): World {
    var now := w.clock + e.dt;
    match e
    case DoAcquire(key, ttlMs, _, skew) =>
      var (locks, expiry) := Attempt(w.locks, key, ttlMs, w.next, now, now + skew);
      var handles := if expiry.Some? then w.handles[w.next := Handle(key, expiry.value, false)] else w.handles;
      World(locks, now + skew, w.next + 1, handles)
    case DoRelease(t, _) =>
      if t !in w.handles then w.(clock := now) else
      var h := w.handles[t];
      w.(locks := Release(w.locks, h.key, t), clock := now, handles := w.handles[t := h.(released := true)])
    case DoExtend(t, ms, _) =>
      if t !in w.handles then w.(clock := now) else
      var h := w.handles[t];
      var (locks, ok) := Extend(w.locks, h.key, t, ms, now);
      w.(locks := locks, clock := now, handles := if ok then w.handles[t := h.(expiresAt := now + ms)] else w.handles)
    case Sweep(_) => w.(locks := Evict(w.locks, now), clock := now)
  }

  function Run(w: World, es: seq<Event>): World {
    if es == [] then w else Step(Run(w, es[..|es| - 1]), es[|es| - 1])
  }

  /** The handle t is the one the table records. */
  predicate Holds(w: World, t: Token) {
    t in w.handles && Recorded(w.locks, w.handles[t].key, t)
  }

  /** The handle t was not released and has not expired by its own reckoning. */
  predicate Live(w: World, t: Token) {
    t in w.handles && !w.handles[t].released && w.clock < w.handles[t].expiresAt
  }

  ghost predicate Inv(w: World) {
    && (forall k :: k in w.locks ==>
          var t := w.locks[k].token;
          t in w.handles && w.handles[t] == Handle(k, w.locks[k].expiresAt, false))
    && (forall t :: t in w.handles ==> t < w.next)
    && (forall t :: Live(w, t) ==> Holds(w, t))
  }

  lemma StepKeepsInv(w: World, e: Event)
    requires Inv(w)
    ensures Inv(Step(w, e))
  {
    var v := Step(w, e);
    forall t | Live(v, t) ensures Holds(v, t) {
      if t in w.handles && Live(w, t) {
        assert Holds(w, t);
      }
    }
  }

  lemma {:induction false} RunKeepsInv(w: World, es: seq<Event>)
    requires Inv(w)
    ensures Inv(Run(w, es))
  {
    if es != [] {
      RunKeepsInv(w, es[..|es| - 1]);
      StepKeepsInv(Run(w, es[..|es| - 1]), es[|es| - 1]);
    }
  }

  /**
   * In every reachable state a live handle is the one recorded for its key, with the same
   * expiry, so no two live handles share a key.
   */
  lemma MutualExclusion(start: int, es: seq<Event>, t: Token, u: Token)
    requires var w := Run(Init(start), es); Live(w, t)
    ensures var w := Run(Init(start), es);
      && Holds(w, t) && w.locks[w.handles[t].key].expiresAt == w.handles[t].expiresAt
      && (Live(w, u) && w.handles[u].key == w.handles[t].key ==> u == t)
  {
    RunKeepsInv(Init(start), es);
  }

  /** A handle that is not recorded can do nothing: its use changes no lease and no handle's expiry. */
  lemma StaleHandleIsHarmless(w: World, t: Token, ms: int, dt: nat)
    requires Inv(w) && !Holds(w, t)
    ensures Step(w, DoRelease(t, dt)).locks == w.locks == Step(w, DoExtend(t, ms, dt)).locks
    ensures Step(w, DoExtend(t, ms, dt)).handles == w.handles
    ensures forall u :: u in w.handles ==> u in Step(w, DoRelease(t, dt)).handles
    ensures forall u :: u in w.handles && u != t ==> Step(w, DoRelease(t, dt)).handles[u] == w.handles[u]
  {
  }

  /** A step changes no handle but the one it uses, and never a handle's key. */
  lemma OtherHandlesKept(w: World, e: Event, t: Token)
    requires Inv(w) && t in w.handles
    ensures t in Step(w, e).handles && Step(w, e).handles[t].key == w.handles[t].key
    ensures (e.DoRelease? || e.DoExtend? ==> e.token != t) ==> Step(w, e).handles[t] == w.handles[t]
  {
  }

  lemma LostOnce(w: World, e: Event, t: Token)
    requires Inv(w) && t in w.handles && !Holds(w, t)
    ensures !Holds(Step(w, e), t)
  {
  }

  /** A handle that has lost its key to eviction, release or a takeover never holds it again. */
  lemma {:induction false} LostForever(w: World, t: Token, es: seq<Event>)
    requires Inv(w) && t in w.handles && !Holds(w, t)
    ensures !Holds(Run(w, es), t) && t in Run(w, es).handles && Run(w, es).handles[t].key == w.handles[t].key
  {
    if es != [] {
      LostForever(w, t, es[..|es| - 1]);
      RunKeepsInv(w, es[..|es| - 1]);
      LostOnce(Run(w, es[..|es| - 1]), es[|es| - 1], t);
    }
  }

  /**
   * Until the table drops it a lease can be extended, even past its expiry; the extension
   * succeeds exactly then, and makes the handle live for the whole extension.
   */
  lemma ExtensionRevives(w: World, t: Token, ms: int, dt: nat)
    requires Inv(w) && t in w.handles && 0 < ms
    ensures var v := Step(w, DoExtend(t, ms, dt));
      if Holds(w, t) then Live(v, t) && v.handles[t].expiresAt == w.clock + dt + ms
      else v.handles == w.handles && !Holds(v, t)
  {
  }

  /** A key is granted exactly when no lease on it outlasts the clock. */
  lemma GrantedExactlyWhenFree(w: World, key: string, ttlMs: int, dt: nat, skew: nat)
    requires Inv(w)
    ensures w.next in Step(w, DoAcquire(key, ttlMs, dt, skew)).handles
            <==> !(exists t :: t in w.handles && Holds(w, t) && w.handles[t].key == key
                               && w.clock + dt < w.handles[t].expiresAt)
  {
    var now := w.clock + dt;
    if key in w.locks && now < w.locks[key].expiresAt {
      assert Holds(w, w.locks[key].token);
    }
  }

  /** A granted lease runs from the moment it is recorded for exactly its time to live. */
  lemma GrantLasts(w: World, key: string, ttlMs: int, dt: nat, skew: nat)
    ensures var v := Step(w, DoAcquire(key, ttlMs, dt, skew));
      && v.clock == w.clock + dt + skew && v.next == w.next + 1
      && (w.next in v.handles && w.next !in w.handles ==>
            v.handles[w.next] == Handle(key, v.clock + ttlMs, false) && Holds(v, w.next))
  {
  }

  /** Releasing the recorded handle frees its key at once. */
  lemma ReleaseFrees(w: World, t: Token, dt: nat, ttlMs: int)
    requires Inv(w) && Holds(w, t)
    ensures var v := Step(w, DoRelease(t, dt));
      && v.handles[t].released && !Holds(v, t)
      && w.next in Step(v, DoAcquire(w.handles[t].key, ttlMs, 0, 0)).handles
  {
    StepKeepsInv(w, DoRelease(t, dt));
    var v := Step(w, DoRelease(t, dt));
    assert w.handles[t].key !in v.locks;
  }

  /** A sweep takes away no lease that still runs, and every one that does not. */
  lemma SweepTakesExpired(w: World, t: Token, dt: nat)
    requires Inv(w) && Holds(w, t)
    ensures Holds(Step(w, Sweep(dt)), t) <==> w.clock + dt < w.handles[t].expiresAt
  {
  }
}
