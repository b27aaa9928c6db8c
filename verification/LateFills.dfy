/**
 * The quota's cache under overlapping calls (src/governance/quota/impl/token-quota.ts:71-177): a
 * call sees the counter in one step and writes what it saw to the cache in a later one.  One row,
 * with `atomicUpdate` as one step.
 */
module LateFills {
  import opened Wrappers

  datatype Action =
    | Grant(id: nat, amount: int)  // consume: the counter grows, and the call holds the new value
    | Look(id: nat)                // a read that missed the cache holds the counter's value
    | Fill(id: nat)                // the call writes what it holds to the cache
    | Drop                         // the entry expires

  /** A value of the counter, and after how many actions it was seen. */
  datatype Seen = Seen(value: int, at: nat)

  datatype World = World(counter: int, entry: Option<Seen>, held: map<nat, Seen>)

  /** The row and its cache entry after the first n actions. */
  function At(es: seq<Action>, n: nat): World
    requires n <= |es|
  {
    if n == 0 then World(0, None, map[])
    else
      var w := At(es, n - 1);
      match es[n - 1]
      case Grant(id, amount) =>
        w.(counter := w.counter + amount, held := w.held[id := Seen(w.counter + amount, n)])
      case Look(id) => w.(held := w.held[id := Seen(w.counter, n)])
      case Fill(id) => if id in w.held then w.(entry := Some(w.held[id]), held := w.held - {id}) else w
      case Drop => w.(entry := None)
  }

  ghost predicate Genuine(es: seq<Action>, n: nat, s: Seen) {
    s.at <= n <= |es| && s.value == At(es, s.at).counter
  }

  /** Whatever is held or cached was the counter's value when it was seen. */
  lemma {:induction false} SeenWasStored(es: seq<Action>, n: nat)
    requires n <= |es|
    ensures forall id :: id in At(es, n).held ==> Genuine(es, n, At(es, n).held[id])
    ensures At(es, n).entry.Some? ==> Genuine(es, n, At(es, n).entry.value)
  {
    if n > 0 {
      SeenWasStored(es, n - 1);
    }
  }

  ghost predicate Positive(es: seq<Action>) {
    forall i :: 0 <= i < |es| && es[i].Grant? ==> 0 < es[i].amount
  }

  ghost predicate GrantIn(es: seq<Action>, m: nat, n: nat) {
    exists k :: m <= k < n <= |es| && es[k].Grant?
  }

  lemma {:induction false} CounterGrows(es: seq<Action>, m: nat, n: nat)
    requires m <= n <= |es| && Positive(es)
    ensures At(es, m).counter <= At(es, n).counter
    ensures At(es, m).counter < At(es, n).counter <==> GrantIn(es, m, n)
  {
    if m < n {
      CounterGrows(es, m, n - 1);
      assert GrantIn(es, m, n) <==> GrantIn(es, m, n - 1) || es[n - 1].Grant?;
    }
  }

  /**
   * The cache is never ahead of the counter, and it is behind exactly when something was granted
   * after the cached value had been seen.
   */
  lemma BehindExactly(es: seq<Action>, n: nat)
    requires n <= |es| && Positive(es) && At(es, n).entry.Some?
    ensures var w := At(es, n);
      w.entry.value.value <= w.counter && (w.entry.value.value < w.counter <==> GrantIn(es, w.entry.value.at, n))
  {
    SeenWasStored(es, n);
    CounterGrows(es, At(es, n).entry.value.at, n);
  }

  /** A slow reader writes an old value over the one a grant has just cached, and no call is left to correct it. */
  lemma LateFillLeavesOld(amount: int)
    requires 0 < amount
    ensures var w := At([Look(0), Grant(1, amount), Fill(1), Fill(0)], 4);
      w.counter == amount && w.entry == Some(Seen(0, 1)) && w.held == map[]
  {
    var es := [Look(0), Grant(1, amount), Fill(1), Fill(0)];
    assert At(es, 1) == World(0, None, map[0 := Seen(0, 1)]);
    assert At(es, 2) == World(amount, None, map[0 := Seen(0, 1), 1 := Seen(amount, 2)]);
    assert At(es, 3) == World(amount, Some(Seen(amount, 2)), map[0 := Seen(0, 1)]);
  }
}
