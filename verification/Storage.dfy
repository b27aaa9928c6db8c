/**
 * The in-memory storage backend of src/kernel-impl/memory/storage.ts.
 */
module Storage {
  import opened Wrappers
  import opened Sorting

  datatype Entry<V> = Entry(key: string, value: V, createdAt: int, updatedAt: int)

  /** A JavaScript Map: keys in the order of their first insertion. */
  type Collection<V> = seq<Entry<V>>

  ghost predicate KeysUnique<V>(c: Collection<V>) {
    forall i, j :: 0 <= i < j < |c| ==> c[i].key != c[j].key
  }

  function IndexOf<V>(c: Collection<V>, key: string): (i: nat)
    ensures i <= |c| && (i < |c| ==> c[i].key == key) && forall k :: 0 <= k < i ==> c[k].key != key
  {
    if c == [] || c[0].key == key then 0 else 1 + IndexOf(c[1..], key)
  }

  function Lookup<V>(c: Collection<V>, key: string): Option<V> {
    var i := IndexOf(c, key);
    if i < |c| then Some(c[i].value) else None
  }

  function Put<V>(c: Collection<V>, key: string, value: V, now: int): Collection<V> {
    var i := IndexOf(c, key);
    if i < |c| then c[i := Entry(key, value, c[i].createdAt, now)] else c + [Entry(key, value, now, now)]
  }

  function Remove<V>(c: Collection<V>, key: string): Collection<V> {
    var i := IndexOf(c, key);
    if i < |c| then c[..i] + c[i + 1..] else c
  }

  // ---------- A collection is a map ----------

  lemma FoundAt<V>(c: Collection<V>, i: nat)
    requires KeysUnique(c) && i < |c|
    ensures IndexOf(c, c[i].key) == i && Lookup(c, c[i].key) == Some(c[i].value)
  {
    var j := IndexOf(c, c[i].key);
    assert j <= i;
    assert c[j].key == c[i].key;
  }

  /** The collection as a map from keys to values. */
  ghost function AsMap<V>(c: Collection<V>): map<string, V> {
    map k | k in (set e <- c :: e.key) && IndexOf(c, k) < |c| :: c[IndexOf(c, k)].value
  }

  lemma MapLookup<V>(c: Collection<V>, k: string)
    ensures Lookup(c, k) == if k in AsMap(c) then Some(AsMap(c)[k]) else None
  {
    var i := IndexOf(c, k);
    if i < |c| {
      assert c[i] in c;
    }
  }

  lemma FoundIffInMap<V>(c: Collection<V>, k: string)
    ensures IndexOf(c, k) < |c| <==> k in AsMap(c)
  {
    MapLookup(c, k);
  }

  lemma MapAt<V>(c: Collection<V>, i: nat)
    requires KeysUnique(c) && i < |c|
    ensures c[i].key in AsMap(c) && AsMap(c)[c[i].key] == c[i].value
  {
    FoundAt(c, i);
    MapLookup(c, c[i].key);
  }

  lemma LookupPut<V>(c: Collection<V>, key: string, value: V, now: int, k: string)
    requires KeysUnique(c)
    ensures KeysUnique(Put(c, key, value, now))
    ensures Lookup(Put(c, key, value, now), k) == if k == key then Some(value) else Lookup(c, k)
  {
    var r := Put(c, key, value, now);
    var i := IndexOf(c, key);
    assert i < |r| && r[i].key == key && r[i].value == value;
    FoundAt(r, i);
    if k != key {
      var j := IndexOf(c, k);
      if j < |c| {
        assert r[j] == c[j];
        FoundAt(r, j);
      } else {
        assert forall m :: 0 <= m < |r| ==> r[m].key != k;
      }
    }
  }

  lemma LookupRemove<V>(c: Collection<V>, key: string, k: string)
    requires KeysUnique(c)
    ensures KeysUnique(Remove(c, key))
    ensures Lookup(Remove(c, key), k) == if k == key then None else Lookup(c, k)
  {
    var i, j := IndexOf(c, key), IndexOf(c, k);
    if i < |c| {
      RemovedUnique(c, key);
      if k != key && j < |c| {
        KeyStays(c, key, k);
      } else {
        KeyGone(c, key, k);
      }
    }
  }

  lemma KeyStays<V>(c: Collection<V>, key: string, k: string)
    requires KeysUnique(c) && IndexOf(c, key) < |c| && k != key && IndexOf(c, k) < |c|
    ensures Lookup(Remove(c, key), k) == Lookup(c, k)
  {
    var i, j := IndexOf(c, key), IndexOf(c, k);
    var m := if j < i then j else j - 1;
    RemovedUnique(c, key);
    RemovedPlace(c, key, m);
    FoundAt(Remove(c, key), m);
  }

  /** What stands at a place after the removal. */
  lemma RemovedPlace<V>(c: Collection<V>, key: string, m: nat)
    requires IndexOf(c, key) < |c| && m < |c| - 1
    ensures |Remove(c, key)| == |c| - 1
    ensures Remove(c, key)[m] == if m < IndexOf(c, key) then c[m] else c[m + 1]
  {
  }

  lemma RemovedUnique<V>(c: Collection<V>, key: string)
    requires KeysUnique(c) && IndexOf(c, key) < |c|
    ensures KeysUnique(Remove(c, key))
  {
    var r := Remove(c, key);
    forall a, b | 0 <= a < b < |r| ensures r[a].key != r[b].key {
      RemovedPlace(c, key, a);
      RemovedPlace(c, key, b);
    }
  }

  lemma KeyGone<V>(c: Collection<V>, key: string, k: string)
    requires KeysUnique(c) && IndexOf(c, key) < |c| && (k == key || IndexOf(c, k) == |c|)
    ensures IndexOf(Remove(c, key), k) == |Remove(c, key)| && Lookup(Remove(c, key), k) == None
  {
    var r := Remove(c, key);
    forall m | 0 <= m < |r| ensures r[m].key != k {
      RemovedPlace(c, key, m);
    }
  }

  /** Setting a key updates the map and nothing else. */
  lemma PutIsUpdate<V>(c: Collection<V>, key: string, value: V, now: int)
    requires KeysUnique(c)
    ensures KeysUnique(Put(c, key, value, now)) && AsMap(Put(c, key, value, now)) == AsMap(c)[key := value]
  {
    var r := Put(c, key, value, now);
    LookupPut(c, key, value, now, key);
    forall k ensures (k in AsMap(r) <==> k in AsMap(c)[key := value])
      ensures k in AsMap(r) ==> AsMap(r)[k] == AsMap(c)[key := value][k]
    {
      LookupPut(c, key, value, now, k);
      MapLookup(r, k);
      MapLookup(c, k);
    }
  }

  /** Deleting a key takes it out of the map and nothing else. */
  lemma RemoveIsDeletion<V>(c: Collection<V>, key: string)
    requires KeysUnique(c)
    ensures KeysUnique(Remove(c, key)) && AsMap(Remove(c, key)) == AsMap(c) - {key}
  {
    var r := Remove(c, key);
    LookupRemove(c, key, key);
    forall k ensures (k in AsMap(r) <==> k in AsMap(c) - {key})
      ensures k in AsMap(r) ==> AsMap(r)[k] == (AsMap(c) - {key})[k]
    {
      LookupRemove(c, key, k);
      MapLookup(r, k);
      MapLookup(c, k);
    }
  }

  // ---------- Listing ----------

  datatype Query = Query(prefix: string, ascending: bool, offset: nat, limit: nat)

  datatype Page<V> = Page(items: seq<V>, total: nat, hasMore: bool)

  predicate Matches<V>(c: Collection<V>, prefix: string, i: nat) {
    i < |c| && prefix <= c[i].key
  }

  function ByUpdate<V>(c: Collection<V>, ascending: bool): Key {
    (i: nat) => if i < |c| then (if ascending then c[i].updatedAt else -c[i].updatedAt, 0) else (0, 0)
  }

  /** The matching positions in the order `list` gives them: by update time, ties in Map order. */
  function Listing<V>(c: Collection<V>, prefix: string, ascending: bool): seq<nat> {
    StableSort(Positions(|c|, (i: nat) => Matches(c, prefix, i)), ByUpdate(c, ascending))
  }

  function Values<V>(c: Collection<V>, at: seq<nat>): (r: seq<V>)
    requires forall k :: 0 <= k < |at| ==> at[k] < |c|
    ensures |r| == |at| && forall k :: 0 <= k < |at| ==> r[k] == c[at[k]].value
  {
    seq(|at|, (k: nat) requires k < |at| => c[at[k]].value)
  }

  function All<V>(c: Collection<V>, prefix: string, ascending: bool): (r: seq<V>)
    ensures |r| == |Listing(c, prefix, ascending)|
  {
    ListingIsExact(c, prefix, ascending);
    Values(c, Listing(c, prefix, ascending))
  }

  /** JavaScript's slice on a non-negative range. */
  function Slice<T>(s: seq<T>, lo: nat, hi: nat): seq<T> {
    if hi <= lo || |s| <= lo then [] else if |s| <= hi then s[lo..] else s[lo..hi]
  }

  function ListPage<V>(c: Collection<V>, q: Query): Page<V> {
    var all := All(c, q.prefix, q.ascending);
    Page(Slice(all, q.offset, q.offset + q.limit), |all|, q.offset + q.limit < |all|)
  }

  /** Every matching position occurs in the listing exactly once, and nothing else does; the order is by update time. */
  lemma ListingIsExact<V>(c: Collection<V>, prefix: string, ascending: bool)
    ensures var l := Listing(c, prefix, ascending);
      && (forall k :: 0 <= k < |l| ==> Matches(c, prefix, l[k]))
      && (forall i: nat :: Matches(c, prefix, i) ==> i in l)
      && (forall j, k :: 0 <= j < k < |l| ==> l[j] != l[k] && Before(ByUpdate(c, ascending), l[j], l[k]))
  {
    var keep := (i: nat) => Matches(c, prefix, i);
    var p := Positions(|c|, keep);
    SortIsStable(p, ByUpdate(c, ascending));
    SortKeepsPositions(p, ByUpdate(c, ascending));
    var l := Listing(c, prefix, ascending);
    forall k | 0 <= k < |l| ensures Matches(c, prefix, l[k]) {
      assert l[k] in p;
      assert keep(l[k]);
    }
    forall i: nat | Matches(c, prefix, i) ensures i in l {
      assert keep(i) && i in p;
    }
  }

  /** The values listed are those of the keys with the prefix. */
  lemma ListsMatchingKeys<V(!new)>(c: Collection<V>, prefix: string, ascending: bool, value: V)
    requires KeysUnique(c)
    ensures value in All(c, prefix, ascending) <==> exists k :: k in AsMap(c) && prefix <= k && AsMap(c)[k] == value
  {
    ListingIsExact(c, prefix, ascending);
    var l := Listing(c, prefix, ascending);
    var all := All(c, prefix, ascending);
    if value in all {
      var k :| 0 <= k < |all| && all[k] == value;
      assert Matches(c, prefix, l[k]);
      MapAt(c, l[k]);
    }
    if exists k :: k in AsMap(c) && prefix <= k && AsMap(c)[k] == value {
      var key :| key in AsMap(c) && prefix <= key && AsMap(c)[key] == value;
      var i := IndexOf(c, key);
      assert Matches(c, prefix, i);
      var k :| 0 <= k < |l| && l[k] == i;
      assert all[k] == value;
    }
  }

  /** What is left from an offset on is the page at that offset and what is left after it. */
  lemma PageSplits<V>(c: Collection<V>, prefix: string, offset: nat, limit: nat)
    requires offset <= |All(c, prefix, false)|
    ensures var all := All(c, prefix, false); var page := ListPage(c, Query(prefix, false, offset, limit));
      if page.hasMore then offset + limit <= |all| && all[offset..] == page.items + all[offset + limit..]
      else all[offset..] == page.items
  {
  }

  lemma InListingIsPosition<V>(c: Collection<V>, prefix: string, ascending: bool)
    ensures forall k :: 0 <= k < |Listing(c, prefix, ascending)| ==> Listing(c, prefix, ascending)[k] < |c|
  {
    ListingIsExact(c, prefix, ascending);
  }

  /** Slicing positions is slicing what stands there. */
  lemma SliceOfValues<V>(c: Collection<V>, at: seq<nat>, lo: nat, hi: nat)
    requires forall k :: 0 <= k < |at| ==> at[k] < |c|
    ensures forall k :: 0 <= k < |Slice(at, lo, hi)| ==> Slice(at, lo, hi)[k] < |c|
    ensures Values(c, Slice(at, lo, hi)) == Slice(Values(c, at), lo, hi)
  {
  }

  // ---------- Looking for an id ----------

  /** The first of the rows with the id. */
  function FirstWith<V>(rows: seq<V>, idOf: V -> string, id: string): Option<V> {
    if rows == [] then None else if idOf(rows[0]) == id then Some(rows[0]) else FirstWith(rows[1..], idOf, id)
  }

  lemma {:induction false} FirstWithSplit<V>(a: seq<V>, b: seq<V>, idOf: V -> string, id: string)
    ensures FirstWith(a + b, idOf, id)
      == if FirstWith(a, idOf, id).Some? then FirstWith(a, idOf, id) else FirstWith(b, idOf, id)
  {
    if a == [] {
      assert a + b == b;
    } else {
      assert (a + b)[1..] == a[1..] + b;
      FirstWithSplit(a[1..], b, idOf, id);
    }
  }

  lemma {:induction false} FirstWithFinds<V>(rows: seq<V>, idOf: V -> string, id: string)
    ensures match FirstWith(rows, idOf, id)
      case None => forall k :: 0 <= k < |rows| ==> idOf(rows[k]) != id
      case Some(r) => r in rows && idOf(r) == id
  {
    if rows != [] {
      FirstWithFinds(rows[1..], idOf, id);
    }
  }

  /** Looking from an offset on is looking on the page there, and then from the next page on. */
  lemma FirstOnPage<V>(c: Collection<V>, offset: nat, limit: nat, idOf: V -> string, id: string)
    requires offset <= |All(c, "", false)|
    ensures var all := All(c, "", false); var page := ListPage(c, Query("", false, offset, limit));
      && (page.hasMore ==> offset + limit <= |all|)
      && FirstWith(all[offset..], idOf, id)
         == if FirstWith(page.items, idOf, id).Some? then FirstWith(page.items, idOf, id)
            else if page.hasMore then FirstWith(all[offset + limit..], idOf, id) else None
  {
    PageSplits(c, "", offset, limit);
    var all, page := All(c, "", false), ListPage(c, Query("", false, offset, limit));
    if page.hasMore {
      FirstWithSplit(page.items, all[offset + limit..], idOf, id);
    }
  }

  // ---------- The class ----------

  class MemoryStorageBackend<V> {
    var store: map<string, map<string, Collection<V>>>

    constructor ()
      ensures store == map[] && Valid()
    {
      store := map[];
    }

    function Contents(tenant: string, collection: string): Collection<V>
      reads this
    {
      if tenant in store && collection in store[tenant] then store[tenant][collection] else []
    }

    /** Keys are unique, as in any Map. */
    ghost predicate Valid()
      reads this
    {
      forall t, c :: KeysUnique(Contents(t, c))
    }

    ghost function Table(tenant: string, collection: string): map<string, V>
      reads this
    {
      AsMap(Contents(tenant, collection))
    }

    /** Nothing but one tenant's collection differs from what it was. */
    twostate predicate OnlyChanges(tenant: string, collection: string)
      reads this
    {
      forall t, c :: (t, c) != (tenant, collection) ==> Contents(t, c) == old(Contents(t, c))
    }

    method GetCollection(tenant: string, collection: string) returns (c: Collection<V>)
      modifies this
      ensures c == old(Contents(tenant, collection)) == Contents(tenant, collection)
      ensures tenant in store && collection in store[tenant]
      ensures OnlyChanges(tenant, collection) && (old(Valid()) ==> Valid())
    {
      if tenant !in store {
        store := store[tenant := map[]];
      }
      if collection !in store[tenant] {
        store := store[tenant := store[tenant][collection := []]];
      }
      c := store[tenant][collection];
    }

    /** The Map of one collection after a change to it. */
    method Replace(tenant: string, collection: string, c: Collection<V>)
      requires Valid() && KeysUnique(c) && tenant in store && collection in store[tenant]
      modifies this
      ensures Valid() && OnlyChanges(tenant, collection) && Contents(tenant, collection) == c
    {
      store := store[tenant := store[tenant][collection := c]];
      forall t, d ensures KeysUnique(Contents(t, d)) {
        assert (t, d) != (tenant, collection) ==> Contents(t, d) == old(Contents(t, d));
        assert KeysUnique(old(Contents(t, d)));
      }
    }

    method Get(tenant: string, collection: string, key: string) returns (r: Option<V>)
      modifies this
      ensures r == Lookup(old(Contents(tenant, collection)), key)
      ensures r == if key in old(Table(tenant, collection)) then Some(old(Table(tenant, collection))[key]) else None
      ensures Contents(tenant, collection) == old(Contents(tenant, collection)) && OnlyChanges(tenant, collection)
    {
      var c := GetCollection(tenant, collection);
      var i := IndexOf(c, key);
      MapLookup(c, key);
      r := if i < |c| then Some(c[i].value) else None;
    }

    method Set(tenant: string, collection: string, key: string, value: V, now: int)
      requires Valid()
      modifies this
      ensures Valid() && OnlyChanges(tenant, collection)
      ensures Contents(tenant, collection) == Put(old(Contents(tenant, collection)), key, value, now)
      ensures Table(tenant, collection) == old(Table(tenant, collection))[key := value]
    {
      PutIsUpdate(Contents(tenant, collection), key, value, now);
      var c := GetCollection(tenant, collection);
      var i := IndexOf(c, key);
      if i < |c| {
        c := c[i := Entry(key, value, c[i].createdAt, now)];
      } else {
        c := c + [Entry(key, value, now, now)];
      }
      Replace(tenant, collection, c);
    }

    method Delete(tenant: string, collection: string, key: string) returns (found: bool)
      requires Valid()
      modifies this
      ensures Valid() && OnlyChanges(tenant, collection)
      ensures found <==> key in old(Table(tenant, collection))
      ensures Contents(tenant, collection) == Remove(old(Contents(tenant, collection)), key)
      ensures Table(tenant, collection) == old(Table(tenant, collection)) - {key}
    {
      RemoveIsDeletion(Contents(tenant, collection), key);
      FoundIffInMap(Contents(tenant, collection), key);
      var c := GetCollection(tenant, collection);
      var i := IndexOf(c, key);
      found := i < |c|;
      if found {
        Replace(tenant, collection, c[..i] + c[i + 1..]);
      }
    }

    method List(tenant: string, collection: string, q: Query) returns (page: Page<V>)
      modifies this
      ensures page == ListPage(old(Contents(tenant, collection)), q)
      ensures Contents(tenant, collection) == old(Contents(tenant, collection)) && OnlyChanges(tenant, collection)
      ensures old(Valid()) ==> Valid()
    {
      var c := GetCollection(tenant, collection);
      page := SelectPage(c, q);
    }

    /** What `list` does with the collection it has found. */
    static method SelectPage(c: Collection<V>, q: Query) returns (page: Page<V>)
      ensures page == ListPage(c, q)
    {
      var entries := Positions(|c|, (i: nat) => Matches(c, q.prefix, i));
      entries := StableSort(entries, ByUpdate(c, q.ascending));
      var total := |entries|;
      assert entries == Listing(c, q.prefix, q.ascending);
      InListingIsPosition(c, q.prefix, q.ascending);
      var sliced := Slice(entries, q.offset, q.offset + q.limit);
      SliceOfValues(c, entries, q.offset, q.offset + q.limit);
      page := Page(Values(c, sliced), total, q.offset + q.limit < total);
    }

    /** The update as one step, `updater` giving None where the source's updater throws. */
    method AtomicUpdate(tenant: string, collection: string, key: string, updater: Option<V> -> Option<V>, now: int)
      returns (r: Option<V>)
      requires Valid()
      modifies this
      ensures Valid() && OnlyChanges(tenant, collection)
      ensures r == updater(Lookup(old(Contents(tenant, collection)), key))
      ensures Table(tenant, collection)
           == if r.Some? then old(Table(tenant, collection))[key := r.value] else old(Table(tenant, collection))
    {
      var current := Get(tenant, collection, key);
      r := updater(current);
      if r.Some? {
        Set(tenant, collection, key, r.value, now);
      }
    }

    method BatchSet(tenant: string, collection: string, entries: seq<(string, V)>, now: int)
      requires Valid()
      modifies this
      ensures Valid() && OnlyChanges(tenant, collection)
      ensures Table(tenant, collection) == Updated(old(Table(tenant, collection)), entries)
    {
      for k := 0 to |entries|
        invariant Valid() && OnlyChanges(tenant, collection)
        invariant Table(tenant, collection) == Updated(old(Table(tenant, collection)), entries[..k])
      {
        Set(tenant, collection, entries[k].0, entries[k].1, now);
        assert entries[..k + 1][..k] == entries[..k];
      }
      assert entries[..|entries|] == entries;
    }

    method BatchGet(tenant: string, collection: string, keys: seq<string>) returns (found: map<string, V>)
      modifies this
      ensures Contents(tenant, collection) == old(Contents(tenant, collection)) && OnlyChanges(tenant, collection)
      ensures forall k :: k in found <==> k in keys && Lookup(old(Contents(tenant, collection)), k).Some?
      ensures forall k :: k in found ==> Some(found[k]) == Lookup(old(Contents(tenant, collection)), k)
    {
      var c := GetCollection(tenant, collection);
      found := SelectKeys(c, keys);
    }

    /** What `batchGet` does with the collection it has found. */
    static method SelectKeys(c: Collection<V>, keys: seq<string>) returns (found: map<string, V>)
      ensures forall k :: k in found <==> k in keys && Lookup(c, k).Some?
      ensures forall k :: k in found ==> Some(found[k]) == Lookup(c, k)
    {
      found := map[];
      for n := 0 to |keys|
        invariant forall k :: k in found <==> k in keys[..n] && Lookup(c, k).Some?
        invariant forall k :: k in found ==> Some(found[k]) == Lookup(c, k)
      {
        var i := IndexOf(c, keys[n]);
        if i < |c| {
          found := found[keys[n] := c[i].value];
        }
        assert keys[..n + 1] == keys[..n] + [keys[n]];
      }
      assert keys[..|keys|] == keys;
    }

    /** The managers' paging loop: pages of `pageSize` until there is no more. */
    method ReadAllPages(tenant: string, collection: string, prefix: string, pageSize: nat) returns (rows: seq<V>)
      requires 1 <= pageSize
      modifies this
      ensures rows == All(old(Contents(tenant, collection)), prefix, false)
      ensures Contents(tenant, collection) == old(Contents(tenant, collection)) && OnlyChanges(tenant, collection)
      ensures old(Valid()) ==> Valid()
    {
      rows := [];
      var offset := 0;
      ghost var all := All(old(Contents(tenant, collection)), prefix, false);
      while true
        invariant Contents(tenant, collection) == old(Contents(tenant, collection)) && OnlyChanges(tenant, collection)
        invariant old(Valid()) ==> Valid()
        invariant offset <= |all| && rows == all[..offset]
        decreases |all| - offset
      {
        var page := List(tenant, collection, Query(prefix, false, offset, pageSize));
        PagesJoin(all, offset, pageSize);
        rows := rows + page.items;
        if !page.hasMore {
          break;
        }
        offset := offset + pageSize;
      }
    }
  }

  lemma PagesJoin<T>(s: seq<T>, offset: nat, limit: nat)
    requires offset <= |s|
    ensures s[..offset] + Slice(s, offset, offset + limit) == if offset + limit < |s| then s[..offset + limit] else s
  {
  }

  /** Setting entries one after the other, later ones over earlier ones. */
  ghost function Updated<V>(m: map<string, V>, entries: seq<(string, V)>): map<string, V> {
    if entries == [] then m
    else
      var last := entries[|entries| - 1];
      Updated(m, entries[..|entries| - 1])[last.0 := last.1]
  }

  // ---------- What a page and an entry tell ----------

  /** The total counts the keys with the prefix; there is more exactly when the page ends before the last. */
  lemma PageTells<V>(c: Collection<V>, q: Query)
    ensures var page := ListPage(c, q); var n := |Positions(|c|, (i: nat) => Matches(c, q.prefix, i))|;
      && page.total == n && (page.hasMore <==> q.offset + q.limit < n)
      && |page.items| == (if n <= q.offset then 0 else if n - q.offset <= q.limit then n - q.offset else q.limit)
      && forall k :: 0 <= k < |page.items| ==> page.items[k] == All(c, q.prefix, q.ascending)[q.offset + k]
  {
    SortKeepsPositions(Positions(|c|, (i: nat) => Matches(c, q.prefix, i)), ByUpdate(c, q.ascending));
  }

  /** From the latest update to the earliest, ascending the other way; equal times in Map order. */
  lemma ListingGoesByUpdate<V>(c: Collection<V>, prefix: string, j: nat, k: nat, ascending: bool)
    requires j < k < |Listing(c, prefix, ascending)|
    ensures var l := Listing(c, prefix, ascending);
      && l[j] < |c| && l[k] < |c|
      && (if ascending then c[l[j]].updatedAt <= c[l[k]].updatedAt else c[l[k]].updatedAt <= c[l[j]].updatedAt)
      && (c[l[j]].updatedAt == c[l[k]].updatedAt ==> l[j] < l[k])
  {
    ListingIsExact(c, prefix, ascending);
    var l := Listing(c, prefix, ascending);
    assert Matches(c, prefix, l[j]) && Matches(c, prefix, l[k]) && Before(ByUpdate(c, ascending), l[j], l[k]);
  }

  /** A new key goes to the end; an old one keeps its place and creation time, and is updated now. */
  lemma PutStamps<V>(c: Collection<V>, key: string, value: V, now: int)
    ensures var r := Put(c, key, value, now); var i := IndexOf(c, key);
      && i < |r| && r[i].key == key && r[i].value == value && r[i].updatedAt == now
      && (if i < |c| then |r| == |c| && r[i].createdAt == c[i].createdAt else |r| == |c| + 1 && r[i].createdAt == now)
      && forall k :: 0 <= k < |c| && k != i ==> r[k] == c[k]
  {
  }

  /** Pair i is the last of the pairs with its key. */
  predicate IsLast<V(!new)>(entries: seq<(string, V)>, i: nat) {
    i < |entries| && forall j :: i < j < |entries| ==> entries[j].0 != entries[i].0
  }

  /** Of several pairs with one key the last counts. */
  lemma {:induction false} LastPairCounts<V(!new)>(m: map<string, V>, entries: seq<(string, V)>, i: nat)
    requires IsLast(entries, i)
    ensures entries[i].0 in Updated(m, entries) && Updated(m, entries)[entries[i].0] == entries[i].1
  {
    if i < |entries| - 1 {
      assert IsLast(entries[..|entries| - 1], i);
      LastPairCounts(m, entries[..|entries| - 1], i);
      assert entries[|entries| - 1].0 != entries[i].0;
    }
  }

  lemma {:induction false} OtherKeysStay<V(!new)>(m: map<string, V>, entries: seq<(string, V)>, key: string)
    requires forall i :: 0 <= i < |entries| ==> entries[i].0 != key
    ensures key in Updated(m, entries) <==> key in m
    ensures key in m ==> Updated(m, entries)[key] == m[key]
  {
    if entries != [] {
      OtherKeysStay(m, entries[..|entries| - 1], key);
    }
  }
}
