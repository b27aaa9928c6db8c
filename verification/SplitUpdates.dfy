/**
 * `atomicUpdate` as it really runs (src/kernel-impl/memory/storage.ts:102-112): one step reads
 * the current value, a later step applies the updater to what was read and writes.  Other
 * calls may run in between.
 */
module SplitUpdates {
  import opened Wrappers

  /** An updater gives None where the source's updater throws, and then nothing is written. */
  type Updater<!V> = Option<V> -> Option<V>

  datatype Action<K, !V> =
    | Begin(id: nat, key: K, up: Updater<V>)
    | Finish(id: nat)
    | Write(key: K, value: Option<V>)  // a plain set, or a delete

  datatype Pending<K, !V> = Pending(key: K, up: Updater<V>, seen: Option<V>, at: nat)

  /** The rows, the updates in flight, and the outcome of every finished update. */
  datatype World<K, !V> = World(rows: map<K, V>, inFlight: map<nat, Pending<K, V>>, results: seq<(nat, Option<V>)>)

  function Row<K, V>(rows: map<K, V>, key: K): Option<V> {
    if key in rows then Some(rows[key]) else None
  }

  function Written<K, V>(rows: map<K, V>, key: K, value: Option<V>): map<K, V> {
    if value.Some? then rows[key := value.value] else rows - {key}
  }

  /** Finishing an update that saw `seen`. */
  ghost function Applied<K, V>(w: World<K, V>, id: nat, seen: Option<V>): World<K, V>
    requires id in w.inFlight
  {
    var p := w.inFlight[id];
    var r := p.up(seen);
    World(if r.Some? then w.rows[p.key := r.value] else w.rows, w.inFlight - {id}, w.results + [(id, r)])
  }

  /** The split machine, after the first n actions: an update is applied to what it read when it began. */
  ghost function Split<K, V>(es: seq<Action<K, V>>, n: nat): World<K, V>
    requires n <= |es|
  {
    if n == 0 then World(map[], map[], [])
    else
      var w := Split(es, n - 1);
      match es[n - 1]
      case Begin(id, key, up) => w.(inFlight := w.inFlight[id := Pending(key, up, Row(w.rows, key), n - 1)])
      case Finish(id) => if id in w.inFlight then Applied(w, id, w.inFlight[id].seen) else w
      case Write(key, value) => w.(rows := Written(w.rows, key, value))
  }

  /** The serial machine: each update happens all at once, at its write step. */
  ghost function Serial<K, V>(es: seq<Action<K, V>>, n: nat): World<K, V>
    requires n <= |es|
  {
    if n == 0 then World(map[], map[], [])
    else
      var w := Serial(es, n - 1);
      match es[n - 1]
      case Begin(id, key, up) => w.(inFlight := w.inFlight[id := Pending(key, up, Row(w.rows, key), n - 1)])
      case Finish(id) => if id in w.inFlight then Applied(w, id, Row(w.rows, w.inFlight[id].key)) else w
      case Write(key, value) => w.(rows := Written(w.rows, key, value))
  }

  /** Action k writes the row `key`. */
  ghost predicate WritesRow<K, V>(es: seq<Action<K, V>>, k: nat, key: K)
    requires k < |es|
  {
    match es[k]
    case Begin(_, _, _) => false
    case Finish(id) =>
      var w := Split(es, k);
      id in w.inFlight && w.inFlight[id].key == key && w.inFlight[id].up(w.inFlight[id].seen).Some?
    case Write(wk, _) => wk == key
  }

  /** No write to a row falls between the two steps of another update of that row. */
  ghost predicate Isolated<K, V>(es: seq<Action<K, V>>) {
    forall k, j :: 0 <= k < j < |es| && es[j].Finish? && es[j].id in Split(es, j).inFlight
                   && Split(es, j).inFlight[es[j].id].at < k
                   ==> !WritesRow(es, k, Split(es, j).inFlight[es[j].id].key)
  }

  ghost predicate SeenOrOverwritten<K, V>(es: seq<Action<K, V>>, n: nat, id: nat)
    requires n <= |es| && id in Split(es, n).inFlight
  {
    var w := Split(es, n);
    var p := w.inFlight[id];
    p.at < n && (p.seen == Row(w.rows, p.key) || exists k :: p.at < k < n && WritesRow(es, k, p.key))
  }

  /** What an update saw is still there unless someone has written the row since. */
  lemma {:induction false} StaleOnlyIfOverwritten<K, V>(es: seq<Action<K, V>>, n: nat, id: nat)
    requires n <= |es| && id in Split(es, n).inFlight
    ensures SeenOrOverwritten(es, n, id)
  {
    var e := es[n - 1];
    if e.Begin? && e.id == id {
      return;
    }
    var w := Split(es, n - 1);
    assert id in w.inFlight && w.inFlight[id] == Split(es, n).inFlight[id];
    StaleOnlyIfOverwritten(es, n - 1, id);
    var p := w.inFlight[id];
    if Row(Split(es, n).rows, p.key) != Row(w.rows, p.key) {
      assert WritesRow(es, n - 1, p.key);
    }
  }

  /** Isolated updates behave as if each had run at once, in the order of the write steps: same rows, same outcomes. */
  lemma {:induction false} IsolatedIsSerial<K, V>(es: seq<Action<K, V>>, n: nat)
    requires n <= |es| && Isolated(es)
    ensures Split(es, n) == Serial(es, n)
  {
    if n > 0 {
      IsolatedIsSerial(es, n - 1);
      var w, e := Split(es, n - 1), es[n - 1];
      if e.Finish? && e.id in w.inFlight {
        StaleOnlyIfOverwritten(es, n - 1, e.id);
        assert w.inFlight[e.id].seen == Row(w.rows, w.inFlight[e.id].key);
      }
    }
  }

  /** An update in flight holds what the row was when it began. */
  lemma {:induction false} SeenAtBegin<K, V>(es: seq<Action<K, V>>, n: nat, id: nat)
    requires n <= |es| && id in Split(es, n).inFlight
    ensures var p := Split(es, n).inFlight[id];
      p.at < n && es[p.at] == Begin(id, p.key, p.up) && p.seen == Row(Split(es, p.at).rows, p.key)
  {
    var e := es[n - 1];
    if !(e.Begin? && e.id == id) {
      SeenAtBegin(es, n - 1, id);
    }
  }

  /** The row that is stored after the first n actions. */
  ghost function RowAt<K, V>(es: seq<Action<K, V>>, n: nat, key: K): Option<V>
    requires n <= |es|
  {
    Row(Split(es, n).rows, key)
  }

  /** Action j finishes an update of the row. */
  ghost predicate Finishes<K, V>(es: seq<Action<K, V>>, j: nat, key: K)
    requires j < |es|
  {
    es[j].Finish? && es[j].id in Split(es, j).inFlight && Split(es, j).inFlight[es[j].id].key == key
  }

  /** An action that does not write a row leaves it as it is. */
  lemma UnwrittenRow<K, V>(es: seq<Action<K, V>>, k: nat, key: K)
    requires k < |es| && !WritesRow(es, k, key)
    ensures Row(Split(es, k + 1).rows, key) == Row(Split(es, k).rows, key)
  {
  }

  // ---------- The quota's updater ----------

  function Consumer(amount: int, limit: int): Updater<int> {
    (current: Option<int>) => if current.GetOr(0) + amount > limit then None else Some(current.GetOr(0) + amount)
  }

  /** Nothing but consumptions under one limit touches the rows. */
  ghost predicate OnlyConsumers(es: seq<Action<string, int>>, limit: int) {
    forall i :: 0 <= i < |es| ==>
      es[i].Finish? || (es[i].Begin? && exists amount :: es[i].up == Consumer(amount, limit))
  }

  /** However updates interleave, no stored counter exceeds the limit. */
  lemma {:induction false} StoredWithinLimit(es: seq<Action<string, int>>, n: nat, limit: int)
    requires n <= |es| && OnlyConsumers(es, limit)
    ensures forall key :: key in Split(es, n).rows ==> Split(es, n).rows[key] <= limit
    ensures forall id :: id in Split(es, n).inFlight ==>
      exists amount :: Split(es, n).inFlight[id].up == Consumer(amount, limit)
  {
    if n > 0 {
      StoredWithinLimit(es, n - 1, limit);
      var w, e := Split(es, n - 1), es[n - 1];
      if e.Finish? && e.id in w.inFlight {
        var amount :| w.inFlight[e.id].up == Consumer(amount, limit);
      }
    }
  }

  // ---------- When grants and counters agree ----------

  /** Nothing but consumptions of positive amounts, each under some limit. */
  ghost predicate Consuming(es: seq<Action<string, int>>) {
    forall i {:trigger es[i]} :: 0 <= i < |es| ==>
      es[i].Finish? || (es[i].Begin? && IsConsumer(es[i].up))
  }

  ghost predicate IsConsumer(up: Updater<int>) {
    exists amount, limit :: 0 < amount && up == Consumer(amount, limit)
  }

  /** Action j writes an update of the row that was granted: what it adds to what it had read. */
  ghost predicate GrantsOn(es: seq<Action<string, int>>, j: nat, key: string)
    requires j < |es|
  {
    Finishes(es, j, key) && var p := Split(es, j).inFlight[es[j].id]; p.up(p.seen).Some?
  }

  ghost function GrantAt(es: seq<Action<string, int>>, j: nat, key: string): int
    requires j < |es| && GrantsOn(es, j, key)
  {
    var p := Split(es, j).inFlight[es[j].id];
    p.up(p.seen).value - p.seen.GetOr(0)
  }

  ghost function GrantedTo(es: seq<Action<string, int>>, n: nat, key: string): int
    requires n <= |es|
  {
    if n == 0 then 0
    else GrantedTo(es, n - 1, key) + if GrantsOn(es, n - 1, key) then GrantAt(es, n - 1, key) else 0
  }

  ghost function Stored(es: seq<Action<string, int>>, n: nat, key: string): int
    requires n <= |es|
  {
    Row(Split(es, n).rows, key).GetOr(0)
  }

  ghost predicate MatchesAt(es: seq<Action<string, int>>, n: nat, key: string)
    requires n <= |es|
  {
    Stored(es, n, key) == GrantedTo(es, n, key)
  }

  /** Between the two steps of the update that action j grants, action k writes the row. */
  ghost predicate Disturbs(es: seq<Action<string, int>>, k: nat, j: nat, key: string)
    requires k < j < |es|
  {
    GrantsOn(es, j, key) && Split(es, j).inFlight[es[j].id].at < k && WritesRow(es, k, key)
  }

  /** What a granted consumer is counted for is the amount it asked for. */
  lemma GrantIsAmount(es: seq<Action<string, int>>, j: nat, key: string, amount: int, limit: int)
    requires j < |es| && GrantsOn(es, j, key) && Split(es, j).inFlight[es[j].id].up == Consumer(amount, limit)
    ensures GrantAt(es, j, key) == amount
  {
  }

  /** A consumption that writes is granted a positive amount, and leaves what it had read and that amount. */
  lemma GrantWrites(es: seq<Action<string, int>>, j: nat, key: string)
    requires j < |es| && Consuming(es) && WritesRow(es, j, key)
    ensures GrantsOn(es, j, key) && 0 < GrantAt(es, j, key)
    ensures var p := Split(es, j).inFlight[es[j].id];
      p.at < j && Stored(es, j + 1, key) == Stored(es, p.at, key) + GrantAt(es, j, key)
  {
    assert es[j].Finish?;
    SeenAtBegin(es, j, es[j].id);
    var p := Split(es, j).inFlight[es[j].id];
    assert IsConsumer(es[p.at].up);
    var amount, limit :| 0 < amount && p.up == Consumer(amount, limit);
  }

  lemma {:induction false} GrantsGrow(es: seq<Action<string, int>>, m: nat, n: nat, key: string)
    requires m <= n <= |es| && Consuming(es)
    ensures GrantedTo(es, m, key) <= GrantedTo(es, n, key)
    ensures (exists k :: m <= k < n && WritesRow(es, k, key)) ==> GrantedTo(es, m, key) < GrantedTo(es, n, key)
  {
    if m < n {
      GrantsGrow(es, m, n - 1, key);
      if WritesRow(es, n - 1, key) {
        GrantWrites(es, n - 1, key);
      } else {
        assert !GrantsOn(es, n - 1, key);
      }
    }
  }

  /** A write that nothing disturbed adds to the counter just what it grants. */
  lemma UndisturbedGrant(es: seq<Action<string, int>>, j: nat, key: string)
    requires j < |es| && Consuming(es) && WritesRow(es, j, key) && forall k: nat :: k < j ==> !Disturbs(es, k, j, key)
    ensures GrantsOn(es, j, key) && Stored(es, j + 1, key) == Stored(es, j, key) + GrantAt(es, j, key)
  {
    GrantWrites(es, j, key);
    SeenAtBegin(es, j, es[j].id);
    StaleOnlyIfOverwritten(es, j, es[j].id);
    var p := Split(es, j).inFlight[es[j].id];
    if p.seen != Row(Split(es, j).rows, key) {
      var k :| p.at < k < j && WritesRow(es, k, key);
      assert Disturbs(es, k, j, key);
    }
  }

  lemma {:induction false} UndisturbedMatch(es: seq<Action<string, int>>, n: nat, key: string)
    requires n <= |es| && Consuming(es)
    requires forall k: nat, j: nat :: k < j < |es| ==> !Disturbs(es, k, j, key)
    ensures MatchesAt(es, n, key)
  {
    if n > 0 {
      UndisturbedMatch(es, n - 1, key);
      if WritesRow(es, n - 1, key) {
        UndisturbedGrant(es, n - 1, key);
      } else {
        UnwrittenRow(es, n - 1, key);
        assert !GrantsOn(es, n - 1, key);
      }
    }
  }

  /** A disturbed grant makes the counter fall behind. */
  lemma DisturbedMismatch(es: seq<Action<string, int>>, k: nat, j: nat, key: string)
    requires k < j < |es| && Consuming(es) && Disturbs(es, k, j, key)
    ensures var at := Split(es, j).inFlight[es[j].id].at;
      at <= j && !(MatchesAt(es, at, key) && MatchesAt(es, j, key) && MatchesAt(es, j + 1, key))
  {
    GrantWrites(es, j, key);
    var at := Split(es, j).inFlight[es[j].id].at;
    GrantsGrow(es, at, j, key);
  }

  /**
   * Whatever limits they are held to, the counter always equals what the consumers were granted
   * exactly when no granted update had its row written between its two steps.
   */
  lemma GrantsMatchExactly(es: seq<Action<string, int>>, key: string)
    requires Consuming(es)
    ensures (forall n: nat :: n <= |es| ==> MatchesAt(es, n, key))
      <==> (forall k: nat, j: nat :: k < j < |es| ==> !Disturbs(es, k, j, key))
  {
    if forall k: nat, j: nat :: k < j < |es| ==> !Disturbs(es, k, j, key) {
      forall n: nat | n <= |es| ensures MatchesAt(es, n, key) {
        UndisturbedMatch(es, n, key);
      }
    } else {
      var k: nat, j: nat :| k < j < |es| && Disturbs(es, k, j, key);
      DisturbedMismatch(es, k, j, key);
    }
  }

  /** So isolated consumers under one limit are together granted what is stored, and no more than the limit. */
  lemma IsolatedGrantsWithinLimit(es: seq<Action<string, int>>, key: string, limit: nat)
    requires Consuming(es) && OnlyConsumers(es, limit) && Isolated(es)
    ensures GrantedTo(es, |es|, key) == Stored(es, |es|, key) <= limit
  {
    forall k: nat, j: nat | k < j < |es| ensures !Disturbs(es, k, j, key) {
    }
    UndisturbedMatch(es, |es|, key);
    StoredWithinLimit(es, |es|, limit);
  }

  // ---------- Without isolation ----------

  /** What the finished updates were granted, each asking for `amount`. */
  function Granted(results: seq<(nat, Option<int>)>, amount: int): int {
    if results == [] then 0
    else Granted(results[..|results| - 1], amount) + if results[|results| - 1].1.Some? then amount else 0
  }

  /** n callers all read before any of them writes. */
  function Stampede(n: nat, amount: int, limit: int): seq<Action<string, int>> {
    seq(n, (i: nat) => Begin(i, "row", Consumer(amount, limit))) + seq(n, (i: nat) => Finish(i))
  }

  ghost predicate SawNothing(w: World<string, int>, id: nat, limit: nat) {
    && id in w.inFlight && w.inFlight[id].key == "row" && w.inFlight[id].up == Consumer(limit, limit)
    && w.inFlight[id].seen == None
  }

  ghost predicate AllSawNothing(w: World<string, int>, m: nat, n: nat, limit: nat) {
    forall id: nat :: m <= id < n ==> SawNothing(w, id, limit)
  }

  lemma {:induction false} AllBegun(n: nat, k: nat, limit: nat)
    requires k <= n
    ensures var w := Split(Stampede(n, limit, limit), k);
      w.rows == map[] && w.results == [] && AllSawNothing(w, 0, k, limit)
  {
    if k > 0 {
      AllBegun(n, k - 1, limit);
      var w, v := Split(Stampede(n, limit, limit), k - 1), Split(Stampede(n, limit, limit), k);
      forall id: nat | id < k ensures SawNothing(v, id, limit) {
        assert id < k - 1 ==> SawNothing(w, id, limit);
      }
    }
  }

  lemma {:induction false} AllGranted(n: nat, m: nat, limit: nat)
    requires m <= n
    ensures var w := Split(Stampede(n, limit, limit), n + m);
      Granted(w.results, limit) == m * limit && AllSawNothing(w, m, n, limit)
  {
    var es := Stampede(n, limit, limit);
    if m == 0 {
      AllBegun(n, n, limit);
    } else {
      AllGranted(n, m - 1, limit);
      var w := Split(es, n + (m - 1));
      assert SawNothing(w, m - 1, limit);
      FinishApplies(es, n + (m - 1), m - 1);
      OneGranted(w, m - 1, n, limit);
      OneMore(m, limit);
    }
  }

  lemma FinishApplies<K, V>(es: seq<Action<K, V>>, k: nat, id: nat)
    requires k < |es| && es[k] == Finish(id) && id in Split(es, k).inFlight
    ensures Split(es, k + 1) == Applied(Split(es, k), id, Split(es, k).inFlight[id].seen)
  {
  }

  lemma OneMore(m: nat, limit: nat)
    requires 0 < m
    ensures m * limit == (m - 1) * limit + limit
  {
  }

  lemma OneGranted(w: World<string, int>, m: nat, n: nat, limit: nat)
    requires m < n && AllSawNothing(w, m, n, limit) && SawNothing(w, m, limit)
    ensures var v := Applied(w, m, None);
      Granted(v.results, limit) == Granted(w.results, limit) + limit && AllSawNothing(v, m + 1, n, limit)
  {
    var v := Applied(w, m, None);
    assert v.results == w.results + [(m, Some(limit))];
    assert v.results[..|w.results|] == w.results;
    forall id: nat | m < id < n ensures SawNothing(v, id, limit) {
      assert SawNothing(w, id, limit);
    }
  }

  /** But without isolation n callers can each be granted the whole limit. */
  lemma OvergrantUnbounded(n: nat, limit: nat)
    ensures Granted(Split(Stampede(n, limit, limit), 2 * n).results, limit) == n * limit
    ensures OnlyConsumers(Stampede(n, limit, limit), limit)
  {
    AllGranted(n, n, limit);
  }
}
