/**
 * Overlapping `set` calls of the knowledge store, which read the entry in one step and write it in
 * another (src/collaboration/knowledge/impl/storage-knowledge.ts:69-95): when an entry keeps its id.
 */
module Overwrites {
  import opened Wrappers
  import opened Knowledge
  import S = SplitUpdates

  type Action = S.Action<string, Item>

  /** A call of `set` as an updater of the entry's row. */
  function Setting(tenant: string, user: Option<string>, i: Input, newId: string, now: int): S.Updater<Item> {
    (prev: Option<Item>) => Some(Saved(tenant, user, i, prev, newId, now))
  }

  ghost predicate IsSetting(up: S.Updater<Item>) {
    exists tenant: string, user: Option<string>, i: Input, newId: string, now: int
      {:trigger Setting(tenant, user, i, newId, now)} :: up == Setting(tenant, user, i, newId, now)
  }

  /** The id a call would give to a new entry. */
  function DrawnId(up: S.Updater<Item>): Option<string> {
    match up(None)
    case None => None
    case Some(e) => Some(e.id)
  }

  /** Only `set` calls write the row, and each draws an id other than the one that is stored when it writes. */
  ghost predicate OnlySets(es: seq<Action>, key: string) {
    && (forall j: nat {:trigger es[j]} :: j < |es| ==> !(es[j].Write? && es[j].key == key))
    && (forall j: nat {:trigger S.Finishes(es, j, key)} :: j < |es| && S.Finishes(es, j, key) ==>
          var up := S.Split(es, j).inFlight[es[j].id].up; var row := S.RowAt(es, j, key);
          IsSetting(up) && (row.Some? ==> DrawnId(up) != Some(row.value.id)))
  }

  /** Action j finishes a call that saw no entry, although there is one by now. */
  ghost predicate TakesOver(es: seq<Action>, j: nat, key: string)
    requires j < |es|
  {
    S.Finishes(es, j, key) && S.RowAt(es, j, key).Some? && S.Split(es, j).inFlight[es[j].id].seen.None?
  }

  /** Once there is an entry, it keeps its id. */
  ghost predicate IdKept(es: seq<Action>, m: nat, n: nat, key: string)
    requires m <= n <= |es|
  {
    S.RowAt(es, m, key).Some? ==>
      S.RowAt(es, n, key).Some? && S.RowAt(es, n, key).value.id == S.RowAt(es, m, key).value.id
  }

  /** What a call writes: the id it saw, or the one it drew. */
  lemma SettingId(up: S.Updater<Item>, seen: Option<Item>)
    requires IsSetting(up)
    ensures up(seen).Some? && DrawnId(up).Some?
    ensures up(seen).value.id == if seen.Some? then seen.value.id else DrawnId(up).value
  {
  }

  lemma {:induction false} IdStays(es: seq<Action>, m: nat, n: nat, key: string)
    requires OnlySets(es, key) && m <= n <= |es| && forall j: nat :: j < |es| ==> !TakesOver(es, j, key)
    ensures IdKept(es, m, n, key)
    decreases n
  {
    if m < n && S.RowAt(es, m, key).Some? {
      var j := n - 1;
      IdStays(es, m, j, key);
      if S.Finishes(es, j, key) {
        var p := S.Split(es, j).inFlight[es[j].id];
        S.SeenAtBegin(es, j, es[j].id);
        assert !TakesOver(es, j, key);
        IdStays(es, p.at, j, key);
        SettingId(p.up, p.seen);
      } else {
        S.UnwrittenRow(es, j, key);
      }
    }
  }

  lemma TakeoverChangesId(es: seq<Action>, j: nat, key: string)
    requires OnlySets(es, key) && j < |es| && TakesOver(es, j, key)
    ensures !IdKept(es, j, j + 1, key)
  {
    SettingId(S.Split(es, j).inFlight[es[j].id].up, None);
  }

  /** An entry keeps its id for good exactly when no call that saw no entry writes over one. */
  lemma IdentityKeptExactly(es: seq<Action>, key: string)
    requires OnlySets(es, key)
    ensures (forall m: nat, n: nat :: m <= n <= |es| ==> IdKept(es, m, n, key))
      <==> (forall j: nat :: j < |es| ==> !TakesOver(es, j, key))
  {
    if forall j: nat :: j < |es| ==> !TakesOver(es, j, key) {
      forall m: nat, n: nat | m <= n <= |es| ensures IdKept(es, m, n, key) {
        IdStays(es, m, n, key);
      }
    } else {
      var j: nat :| j < |es| && TakesOver(es, j, key);
      TakeoverChangesId(es, j, key);
    }
  }

  /** Two callers set a new key at once: the first one's id is replaced. */
  lemma OverlappingSetsReplaceId(i: Input, a: string, b: string, now: int)
    requires a != b
    ensures var key := CompositeKey(i.namespace.GetOr("default"), i.key);
      var es := [S.Begin(0, key, Setting("t", None, i, a, now)), S.Begin(1, key, Setting("t", None, i, b, now)),
                 S.Finish(0), S.Finish(1)];
      && OnlySets(es, key) && TakesOver(es, 3, key)
      && S.RowAt(es, 3, key) == Some(Saved("t", None, i, None, a, now))
      && S.RowAt(es, 4, key) == Some(Saved("t", None, i, None, b, now))
  {
    var key := CompositeKey(i.namespace.GetOr("default"), i.key);
    var first, second := Setting("t", None, i, a, now), Setting("t", None, i, b, now);
    var es := [S.Begin(0, key, first), S.Begin(1, key, second), S.Finish(0), S.Finish(1)];
    var p, q := S.Pending(key, first, None, 0), S.Pending(key, second, None, 1);
    assert S.Split(es, 1) == S.World(map[], map[0 := p], []);
    assert S.Split(es, 2) == S.World(map[], map[0 := p, 1 := q], []);
    assert S.Split(es, 3).rows == map[key := Saved("t", None, i, None, a, now)];
    assert S.Split(es, 3).inFlight == map[1 := q];
    assert S.Split(es, 4).rows == map[key := Saved("t", None, i, None, b, now)];
  }
}
