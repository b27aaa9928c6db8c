/**
 * The knowledge store over the storage backend: src/collaboration/knowledge/impl/storage-knowledge.ts.
 */
module Knowledge {
  import opened Wrappers
  import opened Keys
  import opened Storage

  const COLLECTION := "knowledge_entries"
  const BATCH := 500

  datatype Input = Input(namespace: Option<string>, key: string, content: string, contentType: Option<string>,
                         tags: Option<seq<string>>, metadata: Option<map<string, string>>)

  datatype Item = Item(id: string, tenantId: string, namespace: string, key: string, content: string,
                       contentType: string,
                       tags: seq<string>, metadata: map<string, string>, createdBy: Option<string>,
                       createdAt: int, updatedAt: int)

  /** `text` stands for the free-text match, which depends on Unicode case folding. */
  datatype Query = Query(namespace: Option<string>, tags: seq<string>, text: Item -> bool, offset: nat, limit: nat)

  type Table = map<string, Item>

  function CompositeKey(namespace: string, key: string): string {
    namespace + ":" + key
  }

  function KeyOf(e: Item): string {
    CompositeKey(e.namespace, e.key)
  }

  function Or<T>(a: Option<T>, b: Option<T>, c: T): T {
    if a.Some? then a.value else b.GetOr(c)
  }

  /** The entry `set` saves, given what is already stored under the composite key. */
  function Saved(tenant: string, user: Option<string>, i: Input, prev: Option<Item>, newId: string, now: int): Item {
    Item(if prev.Some? then prev.value.id else newId, tenant, i.namespace.GetOr("default"), i.key, i.content,
         Or(i.contentType, if prev.Some? then Some(prev.value.contentType) else None, "text/plain"),
         Or(i.tags, if prev.Some? then Some(prev.value.tags) else None, []),
         Or(i.metadata, if prev.Some? then Some(prev.value.metadata) else None, map[]),
         if prev.Some? && prev.value.createdBy.Some? then prev.value.createdBy else user,
         if prev.Some? then prev.value.createdAt else now, now)
  }

  function IdOf(x: Item): string {
    x.id
  }

  predicate Selects(q: Query, e: Item) {
    && (q.namespace.Some? ==> e.namespace == q.namespace.value)
    && (forall t :: t in q.tags ==> t in e.tags)
    && q.text(e)
  }

  function Filter(rows: seq<Item>, q: Query): seq<Item> {
    if rows == [] then []
    else
      var front := Filter(rows[..|rows| - 1], q);
      if Selects(q, rows[|rows| - 1]) then front + [rows[|rows| - 1]] else front
  }

  // ---------- The class ----------

  class StorageKnowledgeStore {
    const storage: MemoryStorageBackend<Item>

    constructor (storage: MemoryStorageBackend<Item>)
      ensures this.storage == storage
    {
      this.storage := storage;
    }

    function Rows(tenant: string): Collection<Item>
      reads storage
    {
      storage.Contents(tenant, COLLECTION)
    }

    method Get(tenant: string, namespace: string, key: string) returns (r: Option<Item>)
      modifies storage
      ensures var t := old(AsMap(Rows(tenant))); var ck := CompositeKey(namespace, key);
        r == if ck in t then Some(t[ck]) else None
      ensures Rows(tenant) == old(Rows(tenant)) && storage.OnlyChanges(tenant, COLLECTION)
    {
      r := storage.Get(tenant, COLLECTION, CompositeKey(namespace, key));
    }

    method Set(tenant: string, user: Option<string>, input: Input, newId: string, now: int) returns (saved: Item)
      requires storage.Valid()
      modifies storage
      ensures storage.Valid() && storage.OnlyChanges(tenant, COLLECTION)
      ensures var t := old(AsMap(Rows(tenant))); var ck := CompositeKey(input.namespace.GetOr("default"), input.key);
        && saved == Saved(tenant, user, input, if ck in t then Some(t[ck]) else None, newId, now)
        && AsMap(Rows(tenant)) == t[ck := saved]
    {
      var namespace := input.namespace.GetOr("default");
      var ck := CompositeKey(namespace, input.key);
      var prev := storage.Get(tenant, COLLECTION, ck);
      saved := Saved(tenant, user, input, prev, newId, now);
      storage.Set(tenant, COLLECTION, ck, saved, now);
    }

    /** One page of `delete`. */
    static method ScanPage(items: seq<Item>, id: string) returns (r: Option<Item>)
      ensures r == FirstWith(items, IdOf, id)
    {
      for k := 0 to |items|
        invariant FirstWith(items, IdOf, id) == FirstWith(items[k..], IdOf, id)
      {
        if items[k].id == id {
          return Some(items[k]);
        }
      }
      return None;
    }

    method Delete(tenant: string, id: string) returns (found: bool)
      requires storage.Valid()
      modifies storage
      ensures storage.Valid() && storage.OnlyChanges(tenant, COLLECTION)
      ensures var hit := FirstWith(All(old(Rows(tenant)), "", false), IdOf, id);
        if hit.None? then !found && AsMap(Rows(tenant)) == old(AsMap(Rows(tenant)))
        else (found <==> KeyOf(hit.value) in old(AsMap(Rows(tenant))))
             && AsMap(Rows(tenant)) == old(AsMap(Rows(tenant))) - {KeyOf(hit.value)}
    {
      var offset := 0;
      ghost var all := All(old(Rows(tenant)), "", false);
      while true
        invariant Rows(tenant) == old(Rows(tenant)) && storage.OnlyChanges(tenant, COLLECTION) && storage.Valid()
        invariant offset <= |all| && FirstWith(all, IdOf, id) == FirstWith(all[offset..], IdOf, id)
        decreases |all| - offset
      {
        var page := storage.List(tenant, COLLECTION, Storage.Query("", false, offset, BATCH));
        FirstOnPage(old(Rows(tenant)), offset, BATCH, IdOf, id);
        var hit := ScanPage(page.items, id);
        if hit.Some? {
          found := storage.Delete(tenant, COLLECTION, CompositeKey(hit.value.namespace, hit.value.key));
          return;
        }
        if !page.hasMore {
          return false;
        }
        offset := offset + BATCH;
      }
    }

    method Search(tenant: string, q: Query) returns (page: Page<Item>)
      modifies storage
      ensures var hits := Filter(All(old(Rows(tenant)), "", false), q);
        page == Page(Slice(hits, q.offset, q.offset + q.limit), |hits|, q.offset + q.limit < |hits|)
      ensures Rows(tenant) == old(Rows(tenant)) && storage.OnlyChanges(tenant, COLLECTION)
    {
      var all := storage.ReadAllPages(tenant, COLLECTION, "", BATCH);
      var entries := Filter(all, q);
      page := Page(Slice(entries, q.offset, q.offset + q.limit), |entries|, q.offset + q.limit < |entries|);
    }
  }

  // ---------- Keys ----------

  /** Two entries share a composite key exactly when their parts clash. */
  lemma {:induction false} CompositeKeysClashExactly(n: string, k: string, m: string, l: string)
    ensures CompositeKey(n, k) == CompositeKey(m, l) <==> SameJoined(n, k, m, l)
  {
    JoinsClashExactly(n, k, m, l);
  }

  lemma {:induction false} PlainNamespacesNeverClash(n: string, k: string, m: string, l: string)
    requires NoColon(n) && NoColon(m) && CompositeKey(n, k) == CompositeKey(m, l)
    ensures n == m && k == l
  {
    SplitFirst(n, k, m, l);
  }

  // ---------- Runs ----------

  /** The table, and the store as its users think of it: a map from namespace and key. */
  datatype World = World(table: Table, store: map<(string, string), Item>)

  datatype Op =
    | DoSet(tenant: string, user: Option<string>, input: Input, newId: string, now: int)
    | DoDelete(id: string)

  function Target(i: Input): (string, string) {
    (i.namespace.GetOr("default"), i.key)
  }

  /** Where the id is in use. */
  ghost predicate IdAt(store: map<(string, string), Item>, id: string, at: (string, string)) {
    at in store && store[at].id == id
  }

  ghost predicate IdUsed(store: map<(string, string), Item>, id: string) {
    exists at :: IdAt(store, id, at)
  }

  /** What each call does to the table the class keeps; `set` draws an id that is in use nowhere. */
  ghost function TableStep(t: Table, op: Op): Table {
    match op
    case DoSet(tenant, user, input, newId, now) =>
      var ck := CompositeKey(Target(input).0, Target(input).1);
      t[ck := Saved(tenant, user, input, if ck in t then Some(t[ck]) else None, newId, now)]
    case DoDelete(id) => map k | k in t && t[k].id != id :: t[k]
  }

  /** What the same call does to a plain map. */
  ghost function StoreStep(s: map<(string, string), Item>, op: Op): map<(string, string), Item> {
    match op
    case DoSet(tenant, user, input, newId, now) =>
      var at := Target(input);
      s[at := Saved(tenant, user, input, if at in s then Some(s[at]) else None, newId, now)]
    case DoDelete(id) => map at | at in s && s[at].id != id :: s[at]
  }

  ghost function Run(ops: seq<Op>): World {
    if ops == [] then World(map[], map[])
    else
      var w := Run(ops[..|ops| - 1]);
      var op := ops[|ops| - 1];
      if op.DoSet? && IdUsed(w.store, op.newId) then w else World(TableStep(w.table, op), StoreStep(w.store, op))
  }

  ghost predicate PlainNamespaces(ops: seq<Op>) {
    forall i :: 0 <= i < |ops| && ops[i].DoSet? ==> NoColon(Target(ops[i].input).0)
  }

  /** The table is the map, with its keys written as strings. */
  ghost predicate Refines(w: World) {
    && (forall at :: at in w.store ==>
          NoColon(at.0) && CompositeKey(at.0, at.1) in w.table && w.table[CompositeKey(at.0, at.1)] == w.store[at]
          && at == (w.store[at].namespace, w.store[at].key))
    && (forall k :: k in w.table ==>
          k == KeyOf(w.table[k]) && (w.table[k].namespace, w.table[k].key) in w.store)
    && (forall a, b :: a in w.store && b in w.store && w.store[a].id == w.store[b].id ==> a == b)
  }

  lemma {:induction false} SetKeepsRefines(w: World, op: Op)
    requires Refines(w) && op.DoSet? && NoColon(Target(op.input).0) && !IdUsed(w.store, op.newId)
    ensures Refines(World(TableStep(w.table, op), StoreStep(w.store, op)))
  {
    var at := Target(op.input);
    var ck := CompositeKey(at.0, at.1);
    var v := World(TableStep(w.table, op), StoreStep(w.store, op));
    assert ck in w.table <==> at in w.store by {
      if ck in w.table {
        PlainNamespacesNeverClash(at.0, at.1, w.table[ck].namespace, w.table[ck].key);
      }
    }
    forall b | b in v.store
      ensures NoColon(b.0) && CompositeKey(b.0, b.1) in v.table && v.table[CompositeKey(b.0, b.1)] == v.store[b]
      ensures b == (v.store[b].namespace, v.store[b].key)
    {
      if b != at && CompositeKey(b.0, b.1) == ck {
        PlainNamespacesNeverClash(b.0, b.1, at.0, at.1);
      }
    }
    SetKeepsIdsUnique(w.store, op);
  }

  lemma {:induction false} SetKeepsIdsUnique(s: map<(string, string), Item>, op: Op)
    requires op.DoSet? && !IdUsed(s, op.newId)
    requires forall a, b :: a in s && b in s && s[a].id == s[b].id ==> a == b
    ensures var v := StoreStep(s, op); forall a, b :: a in v && b in v && v[a].id == v[b].id ==> a == b
  {
    var v := StoreStep(s, op);
    forall a, b | a in v && b in v && v[a].id == v[b].id ensures a == b {
      assert !IdAt(s, op.newId, a) && !IdAt(s, op.newId, b);
    }
  }

  lemma {:induction false} DeleteKeepsRefines(w: World, id: string)
    requires Refines(w)
    ensures Refines(World(TableStep(w.table, DoDelete(id)), StoreStep(w.store, DoDelete(id))))
  {
  }

  /**
   * With colon-free namespaces the store refines a map from (namespace, key), and ids are
   * unique in every reachable state.
   */
  lemma {:induction false} RunRefines(ops: seq<Op>)
    requires PlainNamespaces(ops)
    ensures Refines(Run(ops))
  {
    if ops != [] {
      var w, op := Run(ops[..|ops| - 1]), ops[|ops| - 1];
      RunRefines(ops[..|ops| - 1]);
      if op.DoSet? {
        if !IdUsed(w.store, op.newId) {
          SetKeepsRefines(w, op);
        }
      } else {
        DeleteKeepsRefines(w, op.id);
      }
    }
  }

  /** Overwriting keeps the entry's id, creation time and creator; a new entry gets the new id. */
  lemma {:induction false} SetKeepsIdentity(s: map<(string, string), Item>, op: Op)
    requires op.DoSet?
    ensures var v := StoreStep(s, op); var at := Target(op.input);
      && at in v && v[at].content == op.input.content && v[at].updatedAt == op.now
      && (if at in s then v[at].id == s[at].id && v[at].createdAt == s[at].createdAt
                          && (s[at].createdBy.Some? ==> v[at].createdBy == s[at].createdBy)
          else v[at].id == op.newId && v[at].createdAt == op.now)
      && forall b :: b != at ==> (b in v <==> b in s) && (b in s ==> v[b] == s[b])
  {
  }

  // ---------- What deletion and search mean ----------

  ghost predicate Holds(c: Collection<Item>, w: World) {
    KeysUnique(c) && AsMap(c) == w.table
  }

  /** The entry that paging finds under an id is the only one with that id. */
  lemma {:induction false} HitIsTheEntry(w: World, c: Collection<Item>, id: string, hit: Item)
    requires Refines(w) && Holds(c, w) && FirstWith(All(c, "", false), IdOf, id) == Some(hit)
    ensures hit.id == id && KeyOf(hit) in w.table && w.table[KeyOf(hit)] == hit
    ensures IdAt(w.store, id, (hit.namespace, hit.key))
    ensures forall k :: k in w.table && w.table[k].id == id ==> k == KeyOf(hit)
    ensures forall at :: at in w.store && w.store[at].id == id ==> at == (hit.namespace, hit.key)
  {
    FirstWithFinds(All(c, "", false), IdOf, id);
    ListsMatchingKeys(c, "", false, hit);
    OnlyEntryWithId(w, KeyOf(hit), hit);
  }

  lemma {:induction false} OnlyEntryWithId(w: World, k: string, e: Item)
    requires Refines(w) && k in w.table && w.table[k] == e
    ensures k == KeyOf(e) && IdAt(w.store, e.id, (e.namespace, e.key))
    ensures forall l :: l in w.table && w.table[l].id == e.id ==> l == k
    ensures forall at :: at in w.store && w.store[at].id == e.id ==> at == (e.namespace, e.key)
  {
    var at := (e.namespace, e.key);
    assert w.store[at] == e;
    forall l | l in w.table && w.table[l].id == e.id ensures l == k {
      assert (w.table[l].namespace, w.table[l].key) == at;
    }
  }

  lemma {:induction false} MissMeansUnused(w: World, c: Collection<Item>, id: string)
    requires Refines(w) && Holds(c, w) && FirstWith(All(c, "", false), IdOf, id) == None
    ensures !IdUsed(w.store, id) && forall k :: k in w.table ==> w.table[k].id != id
  {
    FirstWithFinds(All(c, "", false), IdOf, id);
    forall k | k in w.table ensures w.table[k].id != id {
      RowIsListed(w, c, k);
    }
    UnusedIfNotInTable(w, id);
  }

  lemma {:induction false} RowIsListed(w: World, c: Collection<Item>, k: string)
    requires Holds(c, w) && k in w.table
    ensures w.table[k] in All(c, "", false)
  {
    assert "" <= k;
    ListsMatchingKeys(c, "", false, w.table[k]);
  }

  lemma {:induction false} UnusedIfNotInTable(w: World, id: string)
    requires Refines(w) && forall k :: k in w.table ==> w.table[k].id != id
    ensures !IdUsed(w.store, id)
  {
    forall at | at in w.store ensures !IdAt(w.store, id, at) {
      assert CompositeKey(at.0, at.1) in w.table;
    }
  }

  /** Deleting the only key whose item has the id, and only that. */
  lemma {:induction false} DeletesOnly(w: World, id: string, key: string, at: (string, string))
    requires key in w.table && at in w.store && w.table[key].id == id && w.store[at].id == id
    requires forall k :: k in w.table && w.table[k].id == id ==> k == key
    requires forall b :: b in w.store && w.store[b].id == id ==> b == at
    ensures TableStep(w.table, DoDelete(id)) == w.table - {key}
    ensures StoreStep(w.store, DoDelete(id)) == w.store - {at}
  {
  }

  /**
   * Deleting by id removes exactly the one entry with that id: what the class does to the
   * table is the run's deletion step, and it reports whether there was such an entry.
   */
  lemma {:induction false} DeleteRemovesOne(ops: seq<Op>, c: Collection<Item>, id: string)
    requires PlainNamespaces(ops) && Holds(c, Run(ops))
    ensures var w := Run(ops);
      match FirstWith(All(c, "", false), IdOf, id)
      case None => !IdUsed(w.store, id) && TableStep(w.table, DoDelete(id)) == w.table
      case Some(hit) =>
        && IdUsed(w.store, id) && KeyOf(hit) in w.table
        && TableStep(w.table, DoDelete(id)) == w.table - {KeyOf(hit)}
        && StoreStep(w.store, DoDelete(id)) == w.store - {(hit.namespace, hit.key)}
  {
    RunRefines(ops);
    var w := Run(ops);
    match FirstWith(All(c, "", false), IdOf, id)
    case None => MissMeansUnused(w, c, id);
    case Some(hit) =>
      HitIsTheEntry(w, c, id, hit);
      DeletesOnly(w, id, KeyOf(hit), (hit.namespace, hit.key));
  }

  lemma {:induction false} FilterExactly(rows: seq<Item>, q: Query, e: Item)
    ensures e in Filter(rows, q) <==> e in rows && Selects(q, e)
  {
    if rows != [] {
      FilterExactly(rows[..|rows| - 1], q, e);
      assert rows == rows[..|rows| - 1] + [rows[|rows| - 1]];
    }
  }

  /** Before paging, a search has found exactly the stored entries the query selects. */
  lemma {:induction false} SearchFindsExactly(ops: seq<Op>, c: Collection<Item>, q: Query, e: Item)
    requires PlainNamespaces(ops) && Holds(c, Run(ops))
    ensures e in Filter(All(c, "", false), q)
      <==> (e.namespace, e.key) in Run(ops).store && Run(ops).store[(e.namespace, e.key)] == e && Selects(q, e)
  {
    var w := Run(ops);
    RunRefines(ops);
    FilterExactly(All(c, "", false), q, e);
    ListsMatchingKeys(c, "", false, e);
    if (e.namespace, e.key) in w.store && w.store[(e.namespace, e.key)] == e {
      assert "" <= KeyOf(e) && KeyOf(e) in w.table;
    }
  }

  /** With a colon in a namespace one entry can overwrite another and take over its id. */
  lemma {:induction false} ColonsMixNamespaces(tenant: string, a: string, b: string, now: int)
    ensures var first := DoSet(tenant, None, Input(Some("n:m"), "k", a, None, None, None), "id1", now);
      var second := DoSet(tenant, None, Input(Some("n"), "m:k", b, None, None, None), "id2", now);
      var t := TableStep(TableStep(map[], first), second);
      |t| == 1 && CompositeKey("n", "m:k") in t && t[CompositeKey("n", "m:k")].id == "id1"
  {
    assert CompositeKey("n", "m:k") == CompositeKey("n:m", "k");
    var first := DoSet(tenant, None, Input(Some("n:m"), "k", a, None, None, None), "id1", now);
    var second := DoSet(tenant, None, Input(Some("n"), "m:k", b, None, None, None), "id2", now);
    var t1 := TableStep(map[], first);
    var ck := CompositeKey("n:m", "k");
    assert t1.Keys == {ck};
    assert TableStep(t1, second).Keys == {ck};
    assert |TableStep(t1, second).Keys| == 1;
  }

  /** What is saved: the input, then what was there, then the defaults. */
  lemma {:induction false} SavedSays(tenant: string, user: Option<string>, i: Input, prev: Option<Item>, newId: string,
                                     now: int)
    ensures var e := Saved(tenant, user, i, prev, newId, now);
      && e.tenantId == tenant && e.key == i.key && e.content == i.content && e.updatedAt == now
      && e.namespace == (match i.namespace case Some(n) => n case None => "default")
      && (i.contentType.Some? ==> e.contentType == i.contentType.value)
      && (i.tags.Some? ==> e.tags == i.tags.value)
      && (i.metadata.Some? ==> e.metadata == i.metadata.value)
      && match prev
         case None =>
           && e.id == newId && e.createdAt == now && e.createdBy == user
           && (i.contentType.None? ==> e.contentType == "text/plain")
           && (i.tags.None? ==> e.tags == []) && (i.metadata.None? ==> e.metadata == map[])
         case Some(p) =>
           && e.id == p.id && e.createdAt == p.createdAt
           && e.createdBy == (if p.createdBy.Some? then p.createdBy else user)
           && (i.contentType.None? ==> e.contentType == p.contentType)
           && (i.tags.None? ==> e.tags == p.tags) && (i.metadata.None? ==> e.metadata == p.metadata)
  {
  }

  /** A query selects by namespace if it names one, by all of its tags, and by its text. */
  lemma {:induction false} SelectsSays(q: Query, e: Item)
    ensures Selects(q, e) <==>
      && (q.namespace == None || q.namespace == Some(e.namespace))
      && (forall k :: 0 <= k < |q.tags| ==> q.tags[k] in e.tags)
      && q.text(e)
  {
    assert (forall t :: t in q.tags ==> t in e.tags) <==> (forall k :: 0 <= k < |q.tags| ==> q.tags[k] in e.tags);
  }

  /** What a search finds, it finds in the order of the listing and as often as it is listed. */
  lemma {:induction false} FilterConcat(a: seq<Item>, b: seq<Item>, q: Query)
    ensures Filter(a + b, q) == Filter(a, q) + Filter(b, q)
    ensures |b| == 1 ==> Filter(b, q) == if Selects(q, b[0]) then b else []
    decreases |b|
  {
    if b == [] {
      assert a + b == a;
    } else {
      assert (a + b)[..|a + b| - 1] == a + b[..|b| - 1];
      FilterConcat(a, b[..|b| - 1], q);
      if |b| == 1 {
        assert b[..0] == [] && b == [b[0]];
      }
    }
  }
}
