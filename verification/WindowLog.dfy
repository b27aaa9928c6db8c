/**
 * Grants counted in windows: the arithmetic shared by the rate limiter and the token quota.
 */
module WindowLog {
  import opened Wrappers

  datatype Grant = Grant(at: int, window: int, amount: int)

  /** What was granted at times in [a, b). */
  function SumIn(log: seq<Grant>, a: int, b: int): int {
    if log == [] then 0
    else
      var g := log[|log| - 1];
      SumIn(log[..|log| - 1], a, b) + if a <= g.at < b then g.amount else 0
  }

  /** What was granted against the window that starts at w. */
  function SumWindow(log: seq<Grant>, w: int): int {
    if log == [] then 0
    else
      var g := log[|log| - 1];
      SumWindow(log[..|log| - 1], w) + if g.window == w then g.amount else 0
  }

  /** Grants fall into the window they count against, and different windows do not overlap. */
  ghost predicate Windowed(log: seq<Grant>, width: int) {
    && (forall i :: 0 <= i < |log| ==> log[i].window <= log[i].at < log[i].window + width && 0 <= log[i].amount)
    && (forall i, j :: 0 <= i < |log| && 0 <= j < |log| && log[i].window < log[j].window
          ==> log[i].window + width <= log[j].window)
  }

  /** Every window was opened by a positive grant at its very start. */
  ghost predicate Opened(log: seq<Grant>) {
    forall i {:trigger HasOpener(log, log[i].window)} :: 0 <= i < |log| ==> HasOpener(log, log[i].window)
  }

  ghost predicate HasOpener(log: seq<Grant>, w: int) {
    exists k :: 0 <= k < |log| && IsOpener(log[k], w)
  }

  predicate IsOpener(g: Grant, w: int) {
    g.at == g.window == w && 1 <= g.amount
  }

  lemma {:induction false} SumInCovered(log: seq<Grant>, a: int, b: int, v: int, w: int)
    requires forall i :: 0 <= i < |log| ==> 0 <= log[i].amount
    requires forall i :: 0 <= i < |log| && a <= log[i].at < b ==> log[i].window == v || log[i].window == w
    ensures 0 <= SumIn(log, a, b) <= SumWindow(log, v) + if v == w then 0 else SumWindow(log, w)
    ensures 0 <= SumWindow(log, v)
  {
    if log != [] {
      SumInCovered(log[..|log| - 1], a, b, v, w);
    }
  }

  /** A grant that counts against a covering window but lies outside the interval leaves room. */
  lemma {:induction false} SumInMisses(log: seq<Grant>, a: int, b: int, v: int, w: int, k: nat)
    requires forall i :: 0 <= i < |log| ==> 0 <= log[i].amount
    requires forall i :: 0 <= i < |log| && a <= log[i].at < b ==> log[i].window == v || log[i].window == w
    requires v != w && k < |log| && log[k].window == v && !(a <= log[k].at < b)
    ensures SumIn(log, a, b) + log[k].amount <= SumWindow(log, v) + SumWindow(log, w)
  {
    if k == |log| - 1 {
      SumInCovered(log[..k], a, b, v, w);
    } else {
      SumInMisses(log[..|log| - 1], a, b, v, w, k);
    }
  }

  /** An interval as long as a window meets at most two windows, v the earlier of them. */
  lemma TwoWindows(log: seq<Grant>, width: int, a: int) returns (v: int, w: int)
    requires Windowed(log, width)
    ensures v <= w
    ensures forall i :: 0 <= i < |log| && a <= log[i].at < a + width ==> log[i].window == v || log[i].window == w
    ensures v != w ==> v < a && exists i :: 0 <= i < |log| && log[i].window == v
  {
    if !exists i :: 0 <= i < |log| && a <= log[i].at < a + width {
      return 0, 0;
    }
    var i :| 0 <= i < |log| && a <= log[i].at < a + width;
    v, w := log[i].window, log[i].window;
    if exists j :: 0 <= j < |log| && a <= log[j].at < a + width && log[j].window != log[i].window {
      var j :| 0 <= j < |log| && a <= log[j].at < a + width && log[j].window != log[i].window;
      if log[j].window < v {
        v := log[j].window;
      } else {
        w := log[j].window;
      }
    }
  }

  /** If no window grants more than `limit`, no interval of a window's length grants more than twice that. */
  lemma IntervalBound(log: seq<Grant>, width: int, limit: nat, a: int)
    requires Windowed(log, width) && forall w :: SumWindow(log, w) <= limit
    ensures SumIn(log, a, a + width) <= 2 * limit
  {
    var v, w := TwoWindows(log, width, a);
    SumInCovered(log, a, a + width, v, w);
  }

  /** If windows open with their first positive grant, the bound improves by one. */
  lemma OpenedIntervalBound(log: seq<Grant>, width: int, limit: nat, a: int)
    requires Windowed(log, width) && Opened(log) && forall w :: SumWindow(log, w) <= limit
    ensures SumIn(log, a, a + width) <= Max(0, 2 * limit - 1)
  {
    var v, w := TwoWindows(log, width, a);
    SumInCovered(log, a, a + width, v, w);
    if v != w {
      var i :| 0 <= i < |log| && log[i].window == v;
      assert HasOpener(log, log[i].window);
      var k :| 0 <= k < |log| && IsOpener(log[k], v);
      SumInMisses(log, a, a + width, v, w, k);
    }
  }

  lemma {:induction false} EmptyInterval(log: seq<Grant>, a: int, b: int)
    requires b <= a
    ensures SumIn(log, a, b) == 0
  {
    if log != [] {
      EmptyInterval(log[..|log| - 1], a, b);
    }
  }

  lemma {:induction false} UnusedWindow(log: seq<Grant>, w: int)
    requires forall i :: 0 <= i < |log| ==> log[i].window != w
    ensures SumWindow(log, w) == 0
  {
    if log != [] {
      UnusedWindow(log[..|log| - 1], w);
    }
  }

  lemma SumWindowGrown(log: seq<Grant>, g: Grant, w: int)
    ensures SumWindow(log + [g], w) == SumWindow(log, w) + if g.window == w then g.amount else 0
  {
    assert (log + [g])[..|log|] == log;
  }

  lemma SumInGrown(log: seq<Grant>, g: Grant, a: int, b: int)
    ensures SumIn(log + [g], a, b) == SumIn(log, a, b) + if a <= g.at < b then g.amount else 0
  {
    assert (log + [g])[..|log|] == log;
  }
}
