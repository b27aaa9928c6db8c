/**
 * API keys over the storage backend: src/embedding/api-key/impl/storage-api-key.ts.  A key has
 * a row `k:<id>` and an index entry `h:<hash of the raw key>`.
 */
module ApiKeys {
  import opened Wrappers
  import opened Sorting
  import opened Storage

  const COLLECTION := "api_keys"
  const RAW_PREFIX := "oc_live_"

  datatype Input = Input(name: string, scopes: seq<string>, expiresAt: Option<int>, metadata: Option<string>)

  datatype Row =
    | KeyRow(id: string, tenantId: string, keyHash: string, prefix: string, name: string, scopes: seq<string>,
             expiresAt: Option<int>, createdAt: int, revokedAt: Option<int>, lastUsedAt: Option<int>,
             metadata: Option<string>)
    | HashRow(id: string)

  datatype Created = Created(id: string, rawKey: string, prefix: string, name: string, scopes: seq<string>,
                             expiresAt: Option<int>, createdAt: int)

  datatype Validation =
    | Valid(keyId: string, tenantId: string, scopes: seq<string>)
    | UnknownKey
    | Revoked(keyId: string, tenantId: string)
    | Expired(keyId: string, tenantId: string)

  type Hash = string -> string

  function RowKey(id: string): string {
    "k:" + id
  }

  function HashKey(h: string): string {
    "h:" + h
  }

  lemma KeysApart(id: string, h: string)
    ensures RowKey(id) != HashKey(h)
  {
    assert RowKey(id)[0] == 'k' && HashKey(h)[0] == 'h';
  }

  lemma SameKey(a: string, b: string)
    ensures RowKey(a) == RowKey(b) ==> a == b
    ensures HashKey(a) == HashKey(b) ==> a == b
  {
    assert a == RowKey(a)[2..] == HashKey(a)[2..] && b == RowKey(b)[2..] == HashKey(b)[2..];
  }

  // ---------- What each operation does to a tenant's rows ----------

  type Table = map<string, Row>

  function NewRow(tenant: string, input: Input, id: string, h: string, now: int): Row {
    KeyRow(id, tenant, h, RAW_PREFIX, input.name, input.scopes, input.expiresAt, now, None, None, input.metadata)
  }

  function Create(t: Table, tenant: string, input: Input, id: string, h: string, now: int): Table {
    t[RowKey(id) := NewRow(tenant, input, id, h, now)][HashKey(h) := HashRow(id)]
  }

  /** A hash leads to a key row of the tenant. */
  predicate Resolves(t: Table, tenant: string, h: string) {
    HashKey(h) in t && RowKey(t[HashKey(h)].id) in t
    && t[RowKey(t[HashKey(h)].id)].KeyRow? && t[RowKey(t[HashKey(h)].id)].tenantId == tenant
  }

  function Resolved(t: Table, tenant: string, h: string): (row: Row)
    requires Resolves(t, tenant, h)
    ensures row.KeyRow?
  {
    t[RowKey(t[HashKey(h)].id)]
  }

  predicate PastExpiry(expiresAt: Option<int>, now: int) {
    expiresAt.Some? && expiresAt.value <= now
  }

  function Verdict(t: Table, tenant: string, h: string, now: int): Validation {
    if !Resolves(t, tenant, h) then UnknownKey
    else
      var row := Resolved(t, tenant, h);
      if row.revokedAt.Some? then Revoked(row.id, row.tenantId)
      else if PastExpiry(row.expiresAt, now) then Expired(row.id, row.tenantId)
      else Valid(row.id, row.tenantId, row.scopes)
  }

  function Touched(row: Row, now: int): Row {
    if row.KeyRow? then row.(lastUsedAt := Some(now)) else row
  }

  /** The updater of `validate`. */
  function Touch(row: Row, now: int): Option<Row> -> Option<Row> {
    (cur: Option<Row>) => if cur.None? then Some(row) else Some(Touched(cur.value, now))
  }

  /** A successful validation stamps the last use, on the row stored under the row's own id. */
  function AfterValidate(t: Table, tenant: string, h: string, now: int): Table {
    if !Verdict(t, tenant, h, now).Valid? then t
    else
      var row := Resolved(t, tenant, h);
      t[RowKey(row.id) := if RowKey(row.id) in t then Touched(t[RowKey(row.id)], now) else row]
  }

  function Revoke(t: Table, id: string, now: int): Table {
    if RowKey(id) in t && t[RowKey(id)].KeyRow? && t[RowKey(id)].revokedAt.None?
    then t[RowKey(id) := t[RowKey(id)].(revokedAt := Some(now))] else t
  }

  function InputOf(row: Row): Input
    requires row.KeyRow?
  {
    Input(row.name, row.scopes, row.expiresAt, row.metadata)
  }

  // ---------- The class ----------

  class StorageApiKeyManager {
    const storage: MemoryStorageBackend<Row>
    const hash: Hash

    constructor (storage: MemoryStorageBackend<Row>, hash: Hash)
      ensures this.storage == storage && this.hash == hash
    {
      this.storage, this.hash := storage, hash;
    }

    ghost function Rows(tenant: string): Table
      reads storage
    {
      storage.Table(tenant, COLLECTION)
    }

    method CreateKey(tenant: string, input: Input, id: string, rawKey: string, now: int) returns (r: Created)
      requires storage.Valid()
      modifies storage
      ensures storage.Valid() && storage.OnlyChanges(tenant, COLLECTION)
      ensures Rows(tenant) == Create(old(Rows(tenant)), tenant, input, id, hash(rawKey), now)
      ensures r == Created(id, rawKey, RAW_PREFIX, input.name, input.scopes, input.expiresAt, now)
    {
      var keyHash := hash(rawKey);
      var row := KeyRow(id, tenant, keyHash, RAW_PREFIX, input.name, input.scopes, input.expiresAt,
                        now, None, None, input.metadata);
      storage.Set(tenant, COLLECTION, RowKey(id), row, now);
      storage.Set(tenant, COLLECTION, HashKey(keyHash), HashRow(id), now);
      r := Created(id, rawKey, RAW_PREFIX, input.name, input.scopes, input.expiresAt, now);
    }

    method Validate(tenant: string, rawKey: string, now: int) returns (v: Validation)
      requires storage.Valid()
      modifies storage
      ensures storage.Valid() && storage.OnlyChanges(tenant, COLLECTION)
      ensures v == Verdict(old(Rows(tenant)), tenant, hash(rawKey), now)
      ensures Rows(tenant) == AfterValidate(old(Rows(tenant)), tenant, hash(rawKey), now)
    {
      var idx := storage.Get(tenant, COLLECTION, HashKey(hash(rawKey)));
      if idx.None? {
        return UnknownKey;
      }
      var found := storage.Get(tenant, COLLECTION, RowKey(idx.value.id));
      if found.None? || !found.value.KeyRow? || found.value.tenantId != tenant {
        return UnknownKey;
      }
      var row := found.value;
      if row.revokedAt.Some? {
        return Revoked(row.id, row.tenantId);
      }
      if row.expiresAt.Some? && row.expiresAt.value <= now {
        return Expired(row.id, row.tenantId);
      }
      MapLookup(storage.Contents(tenant, COLLECTION), RowKey(row.id));
      var _ := storage.AtomicUpdate(tenant, COLLECTION, RowKey(row.id),
        Touch(row, now), now);
      return Valid(row.id, row.tenantId, row.scopes);
    }

    method RevokeKey(tenant: string, keyId: string, now: int) returns (known: bool)
      requires storage.Valid()
      modifies storage
      ensures storage.Valid() && storage.OnlyChanges(tenant, COLLECTION)
      ensures known == (RowKey(keyId) in old(Rows(tenant)))
      ensures Rows(tenant) == Revoke(old(Rows(tenant)), keyId, now)
    {
      var existing := storage.Get(tenant, COLLECTION, RowKey(keyId));
      if existing.None? {
        return false;
      }
      // In every reachable table a "k:" key holds a key row.
      if !existing.value.KeyRow? || existing.value.revokedAt.Some? {
        return true;
      }
      storage.Set(tenant, COLLECTION, RowKey(keyId), existing.value.(revokedAt := Some(now)), now);
      return true;
    }

    /** None where the source throws for an unknown key. */
    method RotateKey(tenant: string, keyId: string, newId: string, newRaw: string,
                     now: int) returns (r: Option<Created>)
      requires storage.Valid()
      modifies storage
      ensures storage.Valid() && storage.OnlyChanges(tenant, COLLECTION)
      ensures var t := old(Rows(tenant));
        if RowKey(keyId) in t && t[RowKey(keyId)].KeyRow? then
          var row := t[RowKey(keyId)];
          && Rows(tenant) == Create(Revoke(t, keyId, now), tenant, InputOf(row), newId, hash(newRaw), now)
          && r == Some(Created(newId, newRaw, RAW_PREFIX, row.name, row.scopes, row.expiresAt, now))
        else Rows(tenant) == t && r == None
    {
      var existing := storage.Get(tenant, COLLECTION, RowKey(keyId));
      if existing.None? || !existing.value.KeyRow? {
        return None;
      }
      var _ := RevokeKey(tenant, keyId, now);
      var created := CreateKey(tenant, InputOf(existing.value), newId, newRaw, now);
      r := Some(created);
    }

    method ListKeys(tenant: string, includeRevoked: bool, offset: nat, limit: nat) returns (page: Page<Row>)
      modifies storage
      ensures var listed := Listed(old(storage.Contents(tenant, COLLECTION)), includeRevoked);
        page == Page(Slice(listed, offset, offset + limit), |listed|, offset + limit < |listed|)
      ensures Rows(tenant) == old(Rows(tenant)) && storage.OnlyChanges(tenant, COLLECTION)
    {
      var rows := storage.ReadAllPages(tenant, COLLECTION, "k:", 200);
      var filtered := NewestFirst(rows, Shown(rows, includeRevoked));
      var total := |filtered|;
      page := Page(Slice(filtered, offset, offset + limit), total, offset + limit < total);
    }
  }

  // ---------- Listing ----------

  predicate IsShown(row: Row, includeRevoked: bool) {
    includeRevoked || !(row.KeyRow? && row.revokedAt.Some?)
  }

  function Shown(rows: seq<Row>, includeRevoked: bool): (p: seq<nat>)
    ensures Ascending(p) && forall k :: 0 <= k < |p| ==> p[k] < |rows|
    ensures forall i: nat :: i in p <==> i < |rows| && IsShown(rows[i], includeRevoked)
  {
    Positions(|rows|, (i: nat) => i < |rows| && IsShown(rows[i], includeRevoked))
  }

  function ByCreation(rows: seq<Row>): Key {
    (i: nat) => if i < |rows| && rows[i].KeyRow? then (-rows[i].createdAt, 0) else (0, 0)
  }

  function NewestFirst(rows: seq<Row>, p: seq<nat>): (r: seq<Row>)
    requires Ascending(p) && forall k :: 0 <= k < |p| ==> p[k] < |rows|
    ensures |r| == |p|
  {
    SortKeepsPositions(p, ByCreation(rows));
    var s := StableSort(p, ByCreation(rows));
    seq(|s|, (k: nat) requires k < |s| => rows[s[k]])
  }

  /** What `list` pages through. */
  function Listed(c: Collection<Row>, includeRevoked: bool): seq<Row> {
    var rows := All(c, "k:", false);
    NewestFirst(rows, Shown(rows, includeRevoked))
  }

  lemma ListedAreShown(c: Collection<Row>, includeRevoked: bool, row: Row)
    ensures row in Listed(c, includeRevoked) <==> row in All(c, "k:", false) && IsShown(row, includeRevoked)
  {
    var rows := All(c, "k:", false);
    var p := Shown(rows, includeRevoked);
    var s := StableSort(p, ByCreation(rows));
    var listed := Listed(c, includeRevoked);
    SortKeepsPositions(p, ByCreation(rows));
    if row in listed {
      var k :| 0 <= k < |listed| && listed[k] == row;
      assert s[k] in p;
    }
    if row in rows && IsShown(row, includeRevoked) {
      var i :| 0 <= i < |rows| && rows[i] == row;
      assert i in p;
      var k :| 0 <= k < |s| && s[k] == i;
      assert listed[k] == row;
    }
  }

  /** Where the listed rows stand in the Map: different places, newest first. */
  lemma ListedInOrder(c: Collection<Row>, includeRevoked: bool) returns (at: seq<nat>)
    ensures |at| == |Listed(c, includeRevoked)|
    ensures forall k :: 0 <= k < |at| ==> Matches(c, "k:", at[k]) && Listed(c, includeRevoked)[k] == c[at[k]].value
    ensures forall j, k :: 0 <= j < k < |at| ==> at[j] != at[k] && NotOlder(c[at[j]].value, c[at[k]].value)
  {
    var l := Listing(c, "k:", false);
    var rows := All(c, "k:", false);
    ListingIsExact(c, "k:", false);
    var s := ShownSorted(rows, includeRevoked);
    assert |rows| == |l|;
    at := Through(l, s);
    forall j, k | 0 <= j < k < |at| ensures at[j] != at[k] {
      var m, n := s[j], s[k];
      assert if m < n then l[m] != l[n] else l[n] != l[m];
    }
  }

  predicate NotOlder(a: Row, b: Row) {
    a.KeyRow? && b.KeyRow? ==> b.createdAt <= a.createdAt
  }

  lemma ShownSorted(rows: seq<Row>, includeRevoked: bool) returns (s: seq<nat>)
    ensures var list := NewestFirst(rows, Shown(rows, includeRevoked));
      |s| == |list| && forall k :: 0 <= k < |s| ==> s[k] < |rows| && list[k] == rows[s[k]]
    ensures forall j, k :: 0 <= j < k < |s| ==> s[j] != s[k] && NotOlder(rows[s[j]], rows[s[k]])
  {
    var p := Shown(rows, includeRevoked);
    s := StableSort(p, ByCreation(rows));
    SortIsStable(p, ByCreation(rows));
    SortKeepsPositions(p, ByCreation(rows));
    forall k | 0 <= k < |s| ensures s[k] < |rows| {
      assert s[k] in p;
    }
    forall j, k | 0 <= j < k < |s| ensures NotOlder(rows[s[j]], rows[s[k]]) {
      assert Before(ByCreation(rows), s[j], s[k]);
    }
  }
}
