/**
 * Filtering and stably sorting an array, as positions: `Positions` is what `filter` keeps,
 * `StableSort` is what `Array.prototype.sort` makes of it when elements compare by a pair
 * of numbers, the second breaking ties of the first.
 */
module Sorting {
  type Key = nat -> (int, int)

  predicate KeyLess(a: (int, int), b: (int, int)) {
    a.0 < b.0 || (a.0 == b.0 && a.1 < b.1)
  }

  /** x must come before y: a smaller key, or the same key and an earlier position. */
  predicate Before(key: Key, x: nat, y: nat) {
    KeyLess(key(x), key(y)) || (key(x) == key(y) && x < y)
  }

  ghost predicate Ascending(s: seq<nat>) {
    forall i, j :: 0 <= i < j < |s| ==> s[i] < s[j]
  }

  ghost predicate Ordered(key: Key, s: seq<nat>) {
    forall i, j :: 0 <= i < j < |s| ==> Before(key, s[i], s[j])
  }

  /** The positions below n that `keep` accepts, in order. */
  function Positions(n: nat, keep: nat -> bool): (s: seq<nat>)
    ensures Ascending(s) && forall k :: 0 <= k < |s| ==> s[k] < n && keep(s[k])
    ensures forall i: nat :: i in s <==> i < n && keep(i)
  {
    if n == 0 then []
    else
      var front := Positions(n - 1, keep);
      if keep(n - 1) then front + [n - 1] else front
  }

  /** Every position is kept by a condition or by its opposite. */
  lemma {:induction false} PositionsPartition(n: nat, keep: nat -> bool, drop: nat -> bool)
    requires forall i :: 0 <= i < n ==> (keep(i) <==> !drop(i))
    ensures |Positions(n, keep)| + |Positions(n, drop)| == n
  {
    if n > 0 {
      PositionsPartition(n - 1, keep, drop);
      assert keep(n - 1) <==> !drop(n - 1);
    }
  }

  lemma {:induction false} SamePositions(n: nat, keep: nat -> bool, keep': nat -> bool)
    requires forall i :: 0 <= i < n ==> (keep(i) <==> keep'(i))
    ensures Positions(n, keep) == Positions(n, keep')
  {
    if n > 0 {
      SamePositions(n - 1, keep, keep');
      assert keep(n - 1) <==> keep'(n - 1);
    }
  }

  lemma {:induction false} AllPositions(n: nat, keep: nat -> bool)
    requires forall i :: keep(i)
    ensures |Positions(n, keep)| == n
  {
    if n > 0 {
      AllPositions(n - 1, keep);
    }
  }

  function Insert(x: nat, s: seq<nat>, key: Key): seq<nat> {
    if s == [] || !KeyLess(key(s[0]), key(x)) then [x] + s else [s[0]] + Insert(x, s[1..], key)
  }

  function StableSort(s: seq<nat>, key: Key): seq<nat> {
    if s == [] then [] else Insert(s[0], StableSort(s[1..], key), key)
  }

  lemma {:induction false} InsertKeeps(x: nat, s: seq<nat>, key: Key)
    requires Ordered(key, s) && forall k :: 0 <= k < |s| ==> x < s[k]
    ensures var r := Insert(x, s, key); Ordered(key, r) && multiset(r) == multiset(s) + multiset{x}
  {
    if s == [] || !KeyLess(key(s[0]), key(x)) {
      assert forall j :: 0 <= j < |s| ==> Before(key, x, s[j]);
      assert [x] + s == Insert(x, s, key);
    } else {
      InsertKeeps(x, s[1..], key);
      var r := Insert(x, s[1..], key);
      assert s == [s[0]] + s[1..];
      forall k | 0 <= k < |r| ensures Before(key, s[0], r[k]) {
        FromEither(r, s[1..], x, k);
      }
      FirstAdded(s[0], r, key);
    }
  }

  lemma FromEither(r: seq<nat>, s: seq<nat>, x: nat, k: nat)
    requires multiset(r) == multiset(s) + multiset{x} && k < |r|
    ensures r[k] == x || r[k] in s
  {
    assert r[k] in multiset(r);
  }

  lemma FirstAdded(x: nat, s: seq<nat>, key: Key)
    requires Ordered(key, s) && forall k :: 0 <= k < |s| ==> Before(key, x, s[k])
    ensures Ordered(key, [x] + s) && multiset([x] + s) == multiset(s) + multiset{x}
  {
  }

  /** Sorting kept positions gives the same positions, ordered by key and then by position. */
  lemma {:induction false} SortIsStable(s: seq<nat>, key: Key)
    requires Ascending(s)
    ensures Ordered(key, StableSort(s, key)) && multiset(StableSort(s, key)) == multiset(s)
  {
    if s != [] {
      SortIsStable(s[1..], key);
      var r := StableSort(s[1..], key);
      forall k | 0 <= k < |r| ensures s[0] < r[k] {
        assert r[k] in multiset(r);
        assert r[k] in s[1..];
      }
      InsertKeeps(s[0], r, key);
      assert s == [s[0]] + s[1..];
    }
  }

  /** Sorting neither loses nor invents nor repeats a position. */
  lemma SortKeepsPositions(s: seq<nat>, key: Key)
    requires Ascending(s)
    ensures |StableSort(s, key)| == |s|
    ensures forall i :: i in StableSort(s, key) <==> i in s
    ensures forall k :: 0 <= k < |StableSort(s, key)| ==> StableSort(s, key)[k] in s
    ensures forall j, k :: 0 <= j < k < |StableSort(s, key)| ==> StableSort(s, key)[j] != StableSort(s, key)[k]
  {
    SortIsStable(s, key);
    var r := StableSort(s, key);
    assert |multiset(r)| == |multiset(s)|;
    forall i ensures i in r <==> i in s {
      assert i in multiset(r) <==> i in multiset(s);
    }
  }

  /** Whatever algorithm the engine uses, a stable sort has only one possible outcome. */
  lemma {:induction false} StableSortIsUnique(a: seq<nat>, b: seq<nat>, key: Key)
    requires Ordered(key, a) && Ordered(key, b) && multiset(a) == multiset(b)
    ensures a == b
  {
    if a == [] || b == [] {
      assert |multiset(a)| == |a| && |multiset(b)| == |b|;
    } else {
      SameHead(a, b, key);
      SameTail(a, b);
      StableSortIsUnique(a[1..], b[1..], key);
      assert a == [a[0]] + a[1..] && b == [b[0]] + b[1..];
    }
  }

  lemma SameHead(a: seq<nat>, b: seq<nat>, key: Key)
    requires a != [] && b != [] && Ordered(key, a) && Ordered(key, b) && multiset(a) == multiset(b)
    ensures a[0] == b[0]
  {
    assert a[0] in multiset(b) && b[0] in multiset(a);
    var i :| 0 <= i < |b| && b[i] == a[0];
    var j :| 0 <= j < |a| && a[j] == b[0];
  }

  lemma SameTail(a: seq<nat>, b: seq<nat>)
    requires a != [] && b != [] && a[0] == b[0] && multiset(a) == multiset(b)
    ensures multiset(a[1..]) == multiset(b[1..])
  {
    assert a == [a[0]] + a[1..] && b == [b[0]] + b[1..];
    assert multiset(a[1..]) == multiset(a) - multiset{a[0]};
    assert multiset(b[1..]) == multiset(b) - multiset{b[0]};
  }

  /** The head of the sorted positions is the least kept position; there is none only when nothing is kept. */
  lemma SortedHead(n: nat, keep: nat -> bool, key: Key)
    ensures var r := StableSort(Positions(n, keep), key);
      if r == [] then forall i: nat :: i < n ==> !keep(i)
      else r[0] < n && keep(r[0]) && forall i: nat :: i < n && keep(i) && i != r[0] ==> Before(key, r[0], i)
  {
    var p := Positions(n, keep);
    SortIsStable(p, key);
    var r := StableSort(p, key);
    if r == [] {
      assert |multiset(p)| == |p|;
    } else {
      assert r[0] in multiset(p);
      forall i: nat | i < n && keep(i) && i != r[0] ensures Before(key, r[0], i) {
        assert i in multiset(r);
      }
    }
  }

  /** Positions of positions. */
  function Through(l: seq<nat>, s: seq<nat>): (r: seq<nat>)
    requires forall k :: 0 <= k < |s| ==> s[k] < |l|
    ensures |r| == |s| && forall k :: 0 <= k < |s| ==> r[k] == l[s[k]]
  {
    seq(|s|, (k: nat) requires k < |s| => l[s[k]])
  }
}
