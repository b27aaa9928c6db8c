/**
 * Checkpoints over the storage backend: src/reliability/checkpoint/impl/storage-checkpoint.ts.
 */
module Checkpoints {
  import opened Wrappers
  import opened Sorting
  import opened Keys
  import opened Storage

  const COLLECTION := "checkpoints"
  const LIST_PAGE := 200

  datatype Input = Input(targetId: string, targetType: string, state: string, stepIndex: Option<int>,
                         completedSteps: Option<seq<string>>, pendingSteps: Option<seq<string>>,
                         metadata: Option<map<string, string>>)

  datatype Checkpoint = Checkpoint(id: string, tenantId: string, targetId: string, targetType: string, state: string,
                                   stepIndex: Option<int>, completedSteps: seq<string>, pendingSteps: seq<string>,
                                   metadata: map<string, string>, createdAt: int)

  type Table = map<string, Checkpoint>

  function StorageKey(targetType: string, targetId: string, id: string): string {
    targetType + ":" + (targetId + ":" + id)
  }

  function KeyOf(c: Checkpoint): string {
    StorageKey(c.targetType, c.targetId, c.id)
  }

  function TargetPrefix(targetType: string, targetId: string): string {
    targetType + ":" + (targetId + ":")
  }

  function NewCheckpoint(tenant: string, i: Input, id: string, now: int): Checkpoint {
    Checkpoint(id, tenant, i.targetId, i.targetType, i.state, i.stepIndex,
               i.completedSteps.GetOr([]), i.pendingSteps.GetOr([]), i.metadata.GetOr(map[]), now)
  }

  function IdOf(x: Checkpoint): string {
    x.id
  }

  function ByCreation(rows: seq<Checkpoint>): Key {
    (i: nat) => if i < |rows| then (-rows[i].createdAt, 0) else (0, 0)
  }

  function Everything(rows: seq<Checkpoint>): (p: seq<nat>)
    ensures Ascending(p) && forall i: nat :: i in p <==> i < |rows|
  {
    Positions(|rows|, (i: nat) => true)
  }

  function NewestFirst(rows: seq<Checkpoint>): (r: seq<Checkpoint>)
    ensures |r| == |Everything(rows)|
  {
    SortKeepsPositions(Everything(rows), ByCreation(rows));
    var s := StableSort(Everything(rows), ByCreation(rows));
    seq(|s|, (k: nat) requires k < |s| => rows[s[k]])
  }

  /** What `list` returns for a target. */
  function ListFor(c: Collection<Checkpoint>, targetType: string, targetId: string): seq<Checkpoint> {
    NewestFirst(All(c, TargetPrefix(targetType, targetId), false))
  }

  // ---------- The class ----------

  class StorageCheckpointManager {
    const storage: MemoryStorageBackend<Checkpoint>

    constructor (storage: MemoryStorageBackend<Checkpoint>)
      ensures this.storage == storage
    {
      this.storage := storage;
    }

    function Rows(tenant: string): Collection<Checkpoint>
      reads storage
    {
      storage.Contents(tenant, COLLECTION)
    }

    method Save(tenant: string, input: Input, id: string, created: int, stored: int) returns (c: Checkpoint)
      requires storage.Valid()
      modifies storage
      ensures storage.Valid() && storage.OnlyChanges(tenant, COLLECTION)
      ensures c == NewCheckpoint(tenant, input, id, created)
      ensures Rows(tenant) == Put(old(Rows(tenant)), KeyOf(c), c, stored)
      ensures AsMap(Rows(tenant)) == old(AsMap(Rows(tenant)))[KeyOf(c) := c]
    {
      var key := StorageKey(input.targetType, input.targetId, id);
      c := Checkpoint(id, tenant, input.targetId, input.targetType, input.state, input.stepIndex,
                      input.completedSteps.GetOr([]), input.pendingSteps.GetOr([]),
                      input.metadata.GetOr(map[]), created);
      storage.Set(tenant, COLLECTION, key, c, stored);
    }

    /** One page of `load`. */
    static method ScanPage(items: seq<Checkpoint>, checkpointId: string) returns (r: Option<Checkpoint>)
      ensures r == FirstWith(items, IdOf, checkpointId)
    {
      for k := 0 to |items|
        invariant FirstWith(items, IdOf, checkpointId) == FirstWith(items[k..], IdOf, checkpointId)
      {
        if items[k].id == checkpointId {
          return Some(items[k]);
        }
      }
      return None;
    }

    /** Reads one page and looks through it. */
    method LoadPage(tenant: string, checkpointId: string, offset: nat) returns (r: Option<Checkpoint>, hasMore: bool)
      requires offset <= |All(Rows(tenant), "", false)|
      modifies storage
      ensures Rows(tenant) == old(Rows(tenant)) && storage.OnlyChanges(tenant, COLLECTION)
      ensures old(storage.Valid()) ==> storage.Valid()
      ensures var all := All(old(Rows(tenant)), "", false); var rest := FirstWith(all[offset..], IdOf, checkpointId);
        if r.Some? || !hasMore then r == rest
        else offset + LIST_PAGE <= |all| && rest == FirstWith(all[offset + LIST_PAGE..], IdOf, checkpointId)
    {
      FirstOnPage(Rows(tenant), offset, LIST_PAGE, IdOf, checkpointId);
      var page := storage.List(tenant, COLLECTION, Query("", false, offset, LIST_PAGE));
      r := ScanPage(page.items, checkpointId);
      hasMore := page.hasMore;
    }

    /** Pages through everything until the id turns up. */
    method Load(tenant: string, checkpointId: string) returns (r: Option<Checkpoint>)
      modifies storage
      ensures r == FirstWith(All(old(Rows(tenant)), "", false), IdOf, checkpointId)
      ensures Rows(tenant) == old(Rows(tenant)) && storage.OnlyChanges(tenant, COLLECTION)
      ensures old(storage.Valid()) ==> storage.Valid()
    {
      var offset := 0;
      ghost var all := All(Rows(tenant), "", false);
      ghost var goal := FirstWith(all, IdOf, checkpointId);
      assert all[0..] == all;
      while true
        invariant Rows(tenant) == old(Rows(tenant)) && storage.OnlyChanges(tenant, COLLECTION)
        invariant old(storage.Valid()) ==> storage.Valid()
        invariant offset <= |all| && goal == FirstWith(all[offset..], IdOf, checkpointId)
        decreases |all| - offset
      {
        var hasMore;
        r, hasMore := LoadPage(tenant, checkpointId, offset);
        if r.Some? || !hasMore {
          return;
        }
        offset := offset + LIST_PAGE;
      }
    }

    method List(tenant: string, targetId: string, targetType: string) returns (out: seq<Checkpoint>)
      modifies storage
      ensures out == ListFor(old(Rows(tenant)), targetType, targetId)
      ensures Rows(tenant) == old(Rows(tenant)) && storage.OnlyChanges(tenant, COLLECTION)
    {
      var rows := storage.ReadAllPages(tenant, COLLECTION, TargetPrefix(targetType, targetId), LIST_PAGE);
      out := NewestFirst(rows);
    }

    method LoadLatest(tenant: string, targetId: string, targetType: string) returns (r: Option<Checkpoint>)
      modifies storage
      ensures var listed := ListFor(old(Rows(tenant)), targetType, targetId);
        r == if listed == [] then None else Some(listed[0])
      ensures Rows(tenant) == old(Rows(tenant)) && storage.OnlyChanges(tenant, COLLECTION)
    {
      var listed := List(tenant, targetId, targetType);
      r := if |listed| == 0 then None else Some(listed[0]);
    }

    method Delete(tenant: string, checkpointId: string) returns (found: bool)
      requires storage.Valid()
      modifies storage
      ensures storage.Valid() && storage.OnlyChanges(tenant, COLLECTION)
      ensures var existing := FirstWith(All(old(Rows(tenant)), "", false), IdOf, checkpointId);
        if existing.None? then !found && AsMap(Rows(tenant)) == old(AsMap(Rows(tenant)))
        else (found <==> KeyOf(existing.value) in old(AsMap(Rows(tenant))))
             && AsMap(Rows(tenant)) == old(AsMap(Rows(tenant))) - {KeyOf(existing.value)}
    {
      var existing := Load(tenant, checkpointId);
      if existing.None? {
        return false;
      }
      var e := existing.value;
      found := storage.Delete(tenant, COLLECTION, StorageKey(e.targetType, e.targetId, e.id));
    }
  }

  // ---------- Keys ----------

  /**
   * Which keys a target's prefix picks out: those of the same type whose target id is the
   * same or continues it after a colon.
   */
  lemma {:induction false} PrefixMatchesExactly(targetType: string, targetId: string, c: Checkpoint)
    requires NoColon(targetType) && NoColon(c.targetType) && NoColon(c.id)
    ensures TargetPrefix(targetType, targetId) <= KeyOf(c)
      <==> c.targetType == targetType && (c.targetId == targetId || targetId + ":" <= c.targetId)
  {
    if TargetPrefix(targetType, targetId) <= KeyOf(c) {
      PrefixOnlyOfTarget(targetType, targetId, c);
    }
    if c.targetType == targetType && c.targetId == targetId {
      assert KeyOf(c) == TargetPrefix(targetType, targetId) + c.id;
    }
    if c.targetType == targetType && targetId + ":" <= c.targetId {
      PrefixOfContinuation(targetType, targetId, c);
    }
  }

  lemma {:induction false} PrefixOnlyOfTarget(targetType: string, targetId: string, c: Checkpoint)
    requires NoColon(targetType) && NoColon(c.targetType) && NoColon(c.id)
    requires TargetPrefix(targetType, targetId) <= KeyOf(c)
    ensures c.targetType == targetType && (c.targetId == targetId || targetId + ":" <= c.targetId)
  {
    var k := KeyOf(c);
    var tail := c.targetId + ":" + c.id;
    var p := TargetPrefix(targetType, targetId);
    var rest := k[|targetType| + 1..];
    assert k[..|targetType|] == p[..|targetType|] == targetType && k[|targetType|] == p[|targetType|] == ':';
    assert k == targetType + ":" + rest;
    SplitFirst(targetType, rest, c.targetType, tail);
    assert p[|targetType| + 1..] == targetId + ":";
    assert targetId + ":" == tail[..|targetId| + 1];
    InTargetPart(targetId, c.targetId, c.id);
  }

  lemma {:induction false} PrefixOfContinuation(targetType: string, targetId: string, c: Checkpoint)
    requires c.targetType == targetType && targetId + ":" <= c.targetId
    ensures TargetPrefix(targetType, targetId) <= KeyOf(c)
  {
    var more := c.targetId[|targetId| + 1..];
    assert c.targetId == targetId + ":" + more;
    assert KeyOf(c) == TargetPrefix(targetType, targetId) + (more + ":" + c.id);
  }

  lemma {:induction false} InTargetPart(targetId: string, other: string, id: string)
    requires NoColon(id) && targetId + ":" <= other + ":" + id
    ensures other == targetId || targetId + ":" <= other
  {
    var s := other + ":" + id;
    var p := targetId + ":";
    assert s[|targetId|] == p[|targetId|] == ':';
    assert forall m :: |other| < m < |s| ==> s[m] == id[m - |other| - 1] && s[m] != ':';
    assert |targetId| <= |other|;
    if |other| == |targetId| {
      assert other == s[..|other|] == p[..|other|] == targetId;
    } else {
      assert p == s[..|p|] == other[..|p|];
    }
  }

  /** So without colons in target ids a prefix picks out exactly its own target; with them it may not. */
  lemma {:induction false} ColonsMixTargets(id: string)
    ensures TargetPrefix("task", "a") <= StorageKey("task", "a:b", id)
  {
    assert StorageKey("task", "a:b", id) == TargetPrefix("task", "a") + ("b:" + id);
  }

  // ---------- Runs ----------

  /** The table, and the checkpoints that were saved and not deleted, by id. */
  datatype World = World(table: Table, saved: map<string, Checkpoint>)

  datatype Op = DoSave(c: Checkpoint, stored: int) | DoDelete(id: string)

  /** Saving uses an id that is in use nowhere; deleting goes through what `load` finds. */
  function Step(w: World, op: Op): World {
    match op
    case DoSave(c, _) =>
      if c.id in w.saved then w else World(w.table[KeyOf(c) := c], w.saved[c.id := c])
    case DoDelete(id) =>
      if id in w.saved then World(w.table - {KeyOf(w.saved[id])}, w.saved - {id}) else w
  }

  function Run(ops: seq<Op>): World {
    if ops == [] then World(map[], map[]) else Step(Run(ops[..|ops| - 1]), ops[|ops| - 1])
  }

  /** Ids are UUIDs and types are one of three words: neither has a colon. */
  ghost predicate PlainNames(ops: seq<Op>) {
    forall i :: 0 <= i < |ops| && ops[i].DoSave? ==> NoColon(ops[i].c.id) && NoColon(ops[i].c.targetType)
  }

  ghost predicate Inv(w: World) {
    && (forall k :: k in w.table ==>
          && k == KeyOf(w.table[k])
          && w.table[k].id in w.saved && w.saved[w.table[k].id] == w.table[k])
    && (forall id :: id in w.saved ==>
          && w.saved[id].id == id && NoColon(id) && NoColon(w.saved[id].targetType)
          && KeyOf(w.saved[id]) in w.table && w.table[KeyOf(w.saved[id])] == w.saved[id])
  }

  lemma {:induction false} KeyHasId(c: Checkpoint, d: Checkpoint)
    requires NoColon(c.id) && NoColon(d.id) && KeyOf(c) == KeyOf(d)
    ensures c.id == d.id
  {
    NoColonsCount(c.id);
    NoColonsCount(d.id);
    assert KeyOf(c) == (c.targetType + ":" + c.targetId) + ":" + c.id;
    assert KeyOf(d) == (d.targetType + ":" + d.targetId) + ":" + d.id;
    SplitLast(c.targetType + ":" + c.targetId, c.id, d.targetType + ":" + d.targetId, d.id);
  }

  lemma {:induction false} RunKeepsInv(ops: seq<Op>)
    requires PlainNames(ops)
    ensures Inv(Run(ops))
  {
    if ops != [] {
      var w, op := Run(ops[..|ops| - 1]), ops[|ops| - 1];
      RunKeepsInv(ops[..|ops| - 1]);
      var v := Step(w, op);
      if v != w {
        var mine := if op.DoSave? then op.c else w.saved[op.id];
        forall id | id in w.saved && id != mine.id ensures KeyOf(w.saved[id]) != KeyOf(mine) {
          if KeyOf(w.saved[id]) == KeyOf(mine) {
            KeyHasId(w.saved[id], mine);
          }
        }
      }
    }
  }

  // ---------- What the manager's reads mean ----------

  /** A collection that holds the table reached by the run. */
  ghost predicate Holds(c: Collection<Checkpoint>, w: World) {
    KeysUnique(c) && AsMap(c) == w.table
  }

  /** `load` finds exactly the checkpoint saved under the id, so `delete` removes exactly that one. */
  lemma {:induction false} LoadIsLookup(ops: seq<Op>, c: Collection<Checkpoint>, id: string)
    requires PlainNames(ops) && Holds(c, Run(ops))
    ensures var w := Run(ops);
      FirstWith(All(c, "", false), IdOf, id) == if id in w.saved then Some(w.saved[id]) else None
  {
    var w := Run(ops);
    var rows := All(c, "", false);
    RunKeepsInv(ops);
    FirstWithFinds(rows, IdOf, id);
    if FirstWith(rows, IdOf, id).Some? {
      ListsMatchingKeys(c, "", false, FirstWith(rows, IdOf, id).value);
    } else if id in w.saved {
      assert "" <= KeyOf(w.saved[id]);
      ListsMatchingKeys(c, "", false, w.saved[id]);
    }
  }

  lemma {:induction false} SortedRows(rows: seq<Checkpoint>, x: Checkpoint)
    ensures x in NewestFirst(rows) <==> x in rows
  {
    var p := Everything(rows);
    var s := StableSort(p, ByCreation(rows));
    SortKeepsPositions(p, ByCreation(rows));
    if x in NewestFirst(rows) {
      var k :| 0 <= k < |s| && NewestFirst(rows)[k] == x;
      assert s[k] in p;
    }
    if x in rows {
      var i :| 0 <= i < |rows| && rows[i] == x;
      assert i in p;
      var k :| 0 <= k < |s| && s[k] == i;
      assert NewestFirst(rows)[k] == x;
    }
  }

  /**
   * `list` returns exactly the saved checkpoints of the type whose target id is the given one
   * or continues it after a colon; for colon-free target ids, exactly those of the target.
   */
  lemma {:induction false} ListsExactly(ops: seq<Op>, c: Collection<Checkpoint>, targetType: string, targetId: string,
                                        x: Checkpoint)
    requires PlainNames(ops) && Holds(c, Run(ops)) && NoColon(targetType)
    ensures x in ListFor(c, targetType, targetId)
      <==> x.id in Run(ops).saved && Run(ops).saved[x.id] == x && x.targetType == targetType
           && (x.targetId == targetId || targetId + ":" <= x.targetId)
    ensures NoColon(x.targetId) ==>
      (x in ListFor(c, targetType, targetId)
       <==> x.id in Run(ops).saved && Run(ops).saved[x.id] == x && x.targetType == targetType && x.targetId == targetId)
  {
    var w := Run(ops);
    var prefix := TargetPrefix(targetType, targetId);
    RunKeepsInv(ops);
    SortedRows(All(c, prefix, false), x);
    ListsMatchingKeys(c, prefix, false, x);
    if x.id in w.saved && w.saved[x.id] == x {
      PrefixMatchesExactly(targetType, targetId, x);
    }
    if targetId + ":" <= x.targetId {
      assert x.targetId[|targetId|] == (targetId + ":")[|targetId|] == ':';
    }
  }

  /** Position i comes before j for `loadLatest`: created later, or stored later, or (a tie) earlier in the Map. */
  predicate Later(c: Collection<Checkpoint>, i: nat, j: nat)
    requires i < |c| && j < |c|
  {
    || c[i].value.createdAt > c[j].value.createdAt
    || (c[i].value.createdAt == c[j].value.createdAt && c[i].updatedAt > c[j].updatedAt)
    || (c[i].value.createdAt == c[j].value.createdAt && c[i].updatedAt == c[j].updatedAt && i < j)
  }

  /** Where the listed checkpoints stand in the Map: every match once, each later than all that follow. */
  ghost predicate ListedAt(c: Collection<Checkpoint>, targetType: string, targetId: string, at: seq<nat>) {
    var list, prefix := ListFor(c, targetType, targetId), TargetPrefix(targetType, targetId);
    && |at| == |list|
    && (forall k :: 0 <= k < |at| ==> Matches(c, prefix, at[k]) && list[k] == c[at[k]].value)
    && (forall j, k :: 0 <= j < k < |at| ==> Later(c, at[j], at[k]))
    && (forall i: nat :: Matches(c, prefix, i) ==> i in at)
  }

  lemma {:induction false} ThroughCovers(l: seq<nat>, s: seq<nat>, i: nat)
    requires forall k :: 0 <= k < |s| ==> s[k] < |l|
    requires (forall m: nat :: m < |l| ==> m in s) && i in l
    ensures i in Through(l, s)
  {
    var m: nat :| m < |l| && l[m] == i;
    assert m in s;
    var k :| 0 <= k < |s| && s[k] == m;
    assert Through(l, s)[k] == i;
  }

  /** `list` gives every match exactly once, newest first. */
  lemma {:induction false} ListInOrder(c: Collection<Checkpoint>, targetType: string,
                                       targetId: string) returns (at: seq<nat>)
    ensures ListedAt(c, targetType, targetId, at)
  {
    var prefix := TargetPrefix(targetType, targetId);
    var l := Listing(c, prefix, false);
    var rows := All(c, prefix, false);
    var s := SortedByCreation(rows);
    at := Through(l, s);
    MatchesMeanListed(c, prefix);
    forall j, k | 0 <= j < k < |at| ensures Later(c, at[j], at[k]) {
      ListingIsLater(c, prefix, s[j], s[k]);
    }
    forall i: nat | Matches(c, prefix, i) ensures i in at {
      ThroughCovers(l, s, i);
    }
  }

  lemma {:induction false} MatchesMeanListed(c: Collection<Checkpoint>, prefix: string)
    ensures forall k :: 0 <= k < |Listing(c, prefix, false)| ==> Matches(c, prefix, Listing(c, prefix, false)[k])
    ensures forall i: nat :: Matches(c, prefix, i) ==> i in Listing(c, prefix, false)
    ensures |All(c, prefix, false)| == |Listing(c, prefix, false)|
    ensures forall k :: 0 <= k < |Listing(c, prefix, false)| ==>
      All(c, prefix, false)[k] == c[Listing(c, prefix, false)[k]].value
  {
    ListingIsExact(c, prefix, false);
  }

  lemma {:induction false} ListingIsLater(c: Collection<Checkpoint>, prefix: string, m: nat, n: nat)
    requires m < |All(c, prefix, false)| && n < |All(c, prefix, false)| && m != n
    requires var rows := All(c, prefix, false);
      rows[m].createdAt > rows[n].createdAt || (rows[m].createdAt == rows[n].createdAt && m < n)
    ensures var l := Listing(c, prefix, false);
      Matches(c, prefix, l[m]) && Matches(c, prefix, l[n]) && Later(c, l[m], l[n])
  {
    ListingIsExact(c, prefix, false);
    if m < n {
      assert Before(ByUpdate(c, false), Listing(c, prefix, false)[m], Listing(c, prefix, false)[n]);
    }
  }

  /** The positions of the rows from the newest to the oldest, rows of one age in the given order. */
  lemma {:induction false} SortedByCreation(rows: seq<Checkpoint>) returns (s: seq<nat>)
    ensures |s| == |rows| == |NewestFirst(rows)|
    ensures forall k :: 0 <= k < |s| ==> s[k] < |rows| && NewestFirst(rows)[k] == rows[s[k]]
    ensures forall j, k :: 0 <= j < k < |s| ==>
      || rows[s[j]].createdAt > rows[s[k]].createdAt
      || (rows[s[j]].createdAt == rows[s[k]].createdAt && s[j] < s[k])
    ensures forall m: nat :: m < |rows| ==> m in s
  {
    s := StableSort(Everything(rows), ByCreation(rows));
    SortIsStable(Everything(rows), ByCreation(rows));
    SortCovers(rows);
    OrderMeansAge(rows, s);
  }

  lemma {:induction false} SortCovers(rows: seq<Checkpoint>)
    ensures var s := StableSort(Everything(rows), ByCreation(rows));
      |s| == |rows| && (forall k :: 0 <= k < |s| ==> s[k] < |rows|) && forall m: nat :: m < |rows| ==> m in s
  {
    var p := Everything(rows);
    var s := StableSort(p, ByCreation(rows));
    SortKeepsPositions(p, ByCreation(rows));
    AllPositions(|rows|, (i: nat) => true);
    forall k | 0 <= k < |s| ensures s[k] < |rows| {
      assert s[k] in p;
    }
    forall m: nat | m < |rows| ensures m in s {
      assert m in p;
    }
  }

  lemma {:induction false} OrderMeansAge(rows: seq<Checkpoint>, s: seq<nat>)
    requires Ordered(ByCreation(rows), s) && forall k :: 0 <= k < |s| ==> s[k] < |rows|
    ensures forall j, k :: 0 <= j < k < |s| ==>
      || rows[s[j]].createdAt > rows[s[k]].createdAt
      || (rows[s[j]].createdAt == rows[s[k]].createdAt && s[j] < s[k])
  {
    forall j, k | 0 <= j < k < |s|
      ensures || rows[s[j]].createdAt > rows[s[k]].createdAt
              || (rows[s[j]].createdAt == rows[s[k]].createdAt && s[j] < s[k])
    {
      assert Before(ByCreation(rows), s[j], s[k]);
    }
  }

  /** In a reachable store no checkpoint is listed twice. */
  lemma {:induction false} ListsOnce(ops: seq<Op>, c: Collection<Checkpoint>, targetType: string, targetId: string)
    requires PlainNames(ops) && Holds(c, Run(ops))
    ensures var list := ListFor(c, targetType, targetId);
      forall j, k :: 0 <= j < k < |list| ==> list[j].id != list[k].id && list[j].createdAt >= list[k].createdAt
  {
    RunKeepsInv(ops);
    var list := ListFor(c, targetType, targetId);
    var at := ListInOrder(c, targetType, targetId);
    forall j, k | 0 <= j < k < |list| ensures list[j].id != list[k].id {
      assert Later(c, at[j], at[k]);
      DifferentIds(c, Run(ops), at[j], at[k]);
    }
  }

  lemma {:induction false} DifferentIds(c: Collection<Checkpoint>, w: World, i: nat, j: nat)
    requires Inv(w) && Holds(c, w) && i < |c| && j < |c| && i != j
    ensures c[i].value.id in w.saved && c[i].value.id != c[j].value.id
  {
    MapAt(c, i);
    MapAt(c, j);
    assert c[i].key != c[j].key;
  }

  /**
   * The head of the list is the newest of the listed checkpoints; of several created and
   * stored in the same millisecond it is the first in the Map.
   */
  lemma {:induction false} LatestExactly(c: Collection<Checkpoint>, targetType: string,
                                         targetId: string) returns (i: nat)
    requires ListFor(c, targetType, targetId) != []
    ensures Matches(c, TargetPrefix(targetType, targetId), i) && ListFor(c, targetType, targetId)[0] == c[i].value
    ensures forall j: nat :: Matches(c, TargetPrefix(targetType, targetId), j) && j != i ==> Later(c, i, j)
  {
    var at := ListInOrder(c, targetType, targetId);
    i := at[0];
    forall j: nat | Matches(c, TargetPrefix(targetType, targetId), j) && j != i ensures Later(c, i, j) {
      var k :| 0 <= k < |at| && at[k] == j;
    }
  }

  // ---------- Map order is the order of saving ----------

  /** The Map after a run. */
  function MapAfter(ops: seq<Op>): Collection<Checkpoint> {
    if ops == [] then []
    else
      var pre := ops[..|ops| - 1];
      match ops[|ops| - 1]
      case DoSave(c, stored) =>
        if c.id in Run(pre).saved then MapAfter(pre) else Put(MapAfter(pre), KeyOf(c), c, stored)
      case DoDelete(id) =>
        if id in Run(pre).saved then Remove(MapAfter(pre), KeyOf(Run(pre).saved[id])) else MapAfter(pre)
  }

  /** Which operation of the run saved the checkpoint that has the id. */
  function SavedAt(ops: seq<Op>, id: string): nat {
    if ops == [] then 0
    else
      var pre, op := ops[..|ops| - 1], ops[|ops| - 1];
      if op.DoSave? && op.c.id == id && id !in Run(pre).saved then |pre| else SavedAt(pre, id)
  }

  ghost predicate InSaveOrder(ops: seq<Op>, c: Collection<Checkpoint>) {
    && (forall i :: 0 <= i < |c| ==> SavedAt(ops, c[i].value.id) < |ops|)
    && (forall i, j :: 0 <= i < j < |c| ==> SavedAt(ops, c[i].value.id) < SavedAt(ops, c[j].value.id))
  }

  lemma {:induction false} NewKey(w: World, c: Collection<Checkpoint>, x: Checkpoint)
    requires Inv(w) && Holds(c, w) && NoColon(x.id) && x.id !in w.saved
    ensures IndexOf(c, KeyOf(x)) == |c|
  {
    var i := IndexOf(c, KeyOf(x));
    if i < |c| {
      MapAt(c, i);
      KeyHasId(c[i].value, x);
    }
  }

  lemma {:induction false} OldIds(w: World, c: Collection<Checkpoint>)
    requires Inv(w) && Holds(c, w)
    ensures forall i :: 0 <= i < |c| ==> c[i].value.id in w.saved
  {
    forall i | 0 <= i < |c| ensures c[i].value.id in w.saved {
      MapAt(c, i);
    }
  }

  lemma {:induction false} MapHolds(ops: seq<Op>)
    requires PlainNames(ops)
    ensures Holds(MapAfter(ops), Run(ops))
  {
    if ops != [] {
      var pre := ops[..|ops| - 1];
      MapHolds(pre);
      match ops[|ops| - 1]
      case DoSave(c, stored) => PutIsUpdate(MapAfter(pre), KeyOf(c), c, stored);
      case DoDelete(id) =>
        if id in Run(pre).saved {
          RemoveIsDeletion(MapAfter(pre), KeyOf(Run(pre).saved[id]));
        }
    }
  }

  lemma {:induction false} SaveOrderKept(ops: seq<Op>)
    requires PlainNames(ops)
    ensures InSaveOrder(ops, MapAfter(ops))
  {
    if ops != [] {
      var pre := ops[..|ops| - 1];
      SaveOrderKept(pre);
      MapHolds(pre);
      RunKeepsInv(pre);
      match ops[|ops| - 1]
      case DoSave(c, stored) =>
        if c.id !in Run(pre).saved {
          NewKey(Run(pre), MapAfter(pre), c);
          OldIds(Run(pre), MapAfter(pre));
          SaveComesLast(ops, MapAfter(pre), stored);
        } else {
          IdleKeepsOrder(ops, MapAfter(pre));
        }
      case DoDelete(id) =>
        if id in Run(pre).saved {
          DeleteKeepsOrder(ops, MapAfter(pre), KeyOf(Run(pre).saved[id]));
        } else {
          IdleKeepsOrder(ops, MapAfter(pre));
        }
    }
  }

  lemma {:induction false} IdleKeepsOrder(ops: seq<Op>, m: Collection<Checkpoint>)
    requires ops != [] && InSaveOrder(ops[..|ops| - 1], m)
    requires var op := ops[|ops| - 1]; op.DoSave? ==> op.c.id in Run(ops[..|ops| - 1]).saved
    ensures InSaveOrder(ops, m)
  {
    assert forall id :: SavedAt(ops, id) == SavedAt(ops[..|ops| - 1], id);
  }

  lemma {:induction false} SaveComesLast(ops: seq<Op>, m: Collection<Checkpoint>, stored: int)
    requires ops != [] && ops[|ops| - 1].DoSave? && InSaveOrder(ops[..|ops| - 1], m)
    requires ops[|ops| - 1].c.id !in Run(ops[..|ops| - 1]).saved
    requires forall i :: 0 <= i < |m| ==> m[i].value.id in Run(ops[..|ops| - 1]).saved
    requires IndexOf(m, KeyOf(ops[|ops| - 1].c)) == |m|
    ensures InSaveOrder(ops, Put(m, KeyOf(ops[|ops| - 1].c), ops[|ops| - 1].c, stored))
  {
    var c := ops[|ops| - 1].c;
    forall i | 0 <= i < |m| ensures SavedAt(ops, m[i].value.id) == SavedAt(ops[..|ops| - 1], m[i].value.id) {
      assert m[i].value.id != c.id;
    }
    assert Put(m, KeyOf(c), c, stored) == m + [Entry(KeyOf(c), c, stored, stored)];
  }

  lemma {:induction false} DeleteKeepsOrder(ops: seq<Op>, m: Collection<Checkpoint>, key: string)
    requires ops != [] && ops[|ops| - 1].DoDelete? && InSaveOrder(ops[..|ops| - 1], m)
    ensures InSaveOrder(ops, Remove(m, key))
  {
    var r, x := Remove(m, key), IndexOf(m, key);
    assert forall id :: SavedAt(ops, id) == SavedAt(ops[..|ops| - 1], id);
    forall i | 0 <= i < |r| ensures r[i] == m[if i < x then i else i + 1] {
    }
  }

  /**
   * After a run, the head of the list was created later than every other, or stored later in the
   * same millisecond, or, if both times agree, saved earlier.
   */
  lemma {:induction false} LatestInRun(ops: seq<Op>, targetType: string, targetId: string) returns (i: nat)
    requires PlainNames(ops) && ListFor(MapAfter(ops), targetType, targetId) != []
    ensures var m := MapAfter(ops); var prefix := TargetPrefix(targetType, targetId);
      && Matches(m, prefix, i) && ListFor(m, targetType, targetId)[0] == m[i].value
      && forall j: nat :: Matches(m, prefix, j) && j != i ==>
           || m[i].value.createdAt > m[j].value.createdAt
           || (m[i].value.createdAt == m[j].value.createdAt && m[i].updatedAt > m[j].updatedAt)
           || (m[i].value.createdAt == m[j].value.createdAt && m[i].updatedAt == m[j].updatedAt
               && SavedAt(ops, m[i].value.id) < SavedAt(ops, m[j].value.id))
  {
    SaveOrderKept(ops);
    i := LatestExactly(MapAfter(ops), targetType, targetId);
  }

  /** Two checkpoints of a target created and stored at the same time: the older one is the latest. */
  lemma {:induction false} LatestIsFirstSaved(x: Checkpoint, y: Checkpoint, now: int)
    requires x.targetType == y.targetType && x.targetId == y.targetId && x.id != y.id
    requires x.createdAt == y.createdAt && NoColon(x.id) && NoColon(y.id) && NoColon(x.targetType)
    ensures var list := ListFor(MapAfter([DoSave(x, now), DoSave(y, now)]), x.targetType, x.targetId);
      list != [] && list[0] == x
  {
    var a, b := DoSave(x, now), DoSave(y, now);
    assert [a, b][..1] == [a] && [a][..0] == [];
    if KeyOf(x) == KeyOf(y) {
      KeyHasId(x, y);
    }
    var m := MapAfter([a, b]);
    assert MapAfter([a]) == [Entry(KeyOf(x), x, now, now)];
    assert m == [Entry(KeyOf(x), x, now, now), Entry(KeyOf(y), y, now, now)];
    var prefix := TargetPrefix(x.targetType, x.targetId);
    assert KeyOf(x) == prefix + x.id && KeyOf(y) == prefix + y.id;
    assert Matches(m, prefix, 0) && Matches(m, prefix, 1);
    var at := ListInOrder(m, x.targetType, x.targetId);
    var i := LatestExactly(m, x.targetType, x.targetId);
  }

  /** A saved checkpoint holds what it was saved with, its id, its tenant and the time; lists left out are empty. */
  lemma {:induction false} SavedSays(tenant: string, i: Input, id: string, now: int)
    ensures var c := NewCheckpoint(tenant, i, id, now);
      && c.id == id && c.tenantId == tenant && c.targetId == i.targetId && c.targetType == i.targetType
      && c.state == i.state && c.stepIndex == i.stepIndex && c.createdAt == now
      && c.completedSteps == (if i.completedSteps.Some? then i.completedSteps.value else [])
      && c.pendingSteps == (if i.pendingSteps.Some? then i.pendingSteps.value else [])
      && c.metadata == (if i.metadata.Some? then i.metadata.value else map[])
      && KeyOf(c) == i.targetType + ":" + i.targetId + ":" + id
  {
    assert KeyOf(NewCheckpoint(tenant, i, id, now)) == i.targetType + ":" + i.targetId + ":" + id;
  }
}
