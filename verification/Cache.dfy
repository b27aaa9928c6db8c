/**
 * The TTL cache of src/kernel-impl/memory/cache.ts.
 */
module Caches {
  import opened Wrappers

  datatype Entry<V> = Entry(value: V, expiresAt: Option<int>)

  type Cache<V> = map<string, Entry<V>>

  /** An entry still counts at the very millisecond it expires. */
  predicate Expired<V>(e: Entry<V>, now: int) {
    e.expiresAt.Some? && e.expiresAt.value < now
  }

  function Lookup<V>(c: Cache<V>, key: string, now: int): Option<V> {
    if key in c && !Expired(c[key], now) then Some(c[key].value) else None
  }

  /** `get` drops the entry it finds expired. */
  function AfterGet<V>(c: Cache<V>, key: string, now: int): Cache<V> {
    if key in c && Expired(c[key], now) then c - {key} else c
  }

  /** A missing or zero TTL means the entry never expires. */
  function Put<V>(c: Cache<V>, key: string, value: V, ttlMs: Option<int>, now: int): Cache<V> {
    c[key := Entry(value, if ttlMs.GetOr(0) == 0 then None else Some(now + ttlMs.value))]
  }

  function Swept<V>(c: Cache<V>, now: int): Cache<V> {
    map k | k in c && !Expired(c[k], now) :: c[k]
  }

  class MemoryCacheBackend<V> {
    var store: Cache<V>

    constructor ()
      ensures store == map[]
    {
      store := map[];
    }

    method Get(key: string, now: int) returns (r: Option<V>)
      modifies this
      ensures r == Lookup(old(store), key, now) && store == AfterGet(old(store), key, now)
    {
      if key !in store {
        return None;
      }
      if store[key].expiresAt.Some? && now > store[key].expiresAt.value {
        store := store - {key};
        return None;
      }
      return Some(store[key].value);
    }

    method Set(key: string, value: V, ttlMs: Option<int>, now: int)
      modifies this
      ensures store == Put(old(store), key, value, ttlMs, now)
    {
      var expiresAt := if ttlMs.Some? && ttlMs.value != 0 then Some(now + ttlMs.value) else None;
      store := store[key := Entry(value, expiresAt)];
    }

    method EvictExpired(now: int)
      modifies this
      ensures store == Swept(old(store), now)
    {
      var todo := store.Keys;
      while todo != {}
        invariant todo <= old(store).Keys
        invariant store == map k | k in old(store) && (k in todo || !Expired(old(store)[k], now)) :: old(store)[k]
        decreases todo
      {
        var key :| key in todo;
        if Expired(store[key], now) {
          store := store - {key};
        }
        todo := todo - {key};
      }
    }
  }

  /** Dropping expired entries, by `get` or by a sweep, changes no later lookup. */
  lemma ExpiryInvisible<V>(c: Cache<V>, key: string, k: string, now: int, t: int)
    requires now <= t
    ensures Lookup(AfterGet(c, key, now), k, t) == Lookup(c, k, t) == Lookup(Swept(c, now), k, t)
  {
  }

  /** What was set is found until its time to live has passed, and for good without one; other keys are as before. */
  lemma SetThenGet<V>(c: Cache<V>, key: string, value: V, ttlMs: Option<int>, now: int, k: string, t: int)
    ensures var found := Lookup(Put(c, key, value, ttlMs, now), k, t);
      if k != key then found == Lookup(c, k, t)
      else if ttlMs == None || ttlMs == Some(0) || t <= now + ttlMs.value then found == Some(value)
      else found == None
  {
  }

  /** A sweep takes away exactly what can no longer be found, and so does a lookup of the key it looks up. */
  lemma SweepsExactly<V>(c: Cache<V>, key: string, k: string, now: int)
    ensures k in Swept(c, now) <==> Lookup(c, k, now).Some?
    ensures k in AfterGet(c, key, now) <==> k in c && !(k == key && Lookup(c, k, now).None?)
  {
  }
}
