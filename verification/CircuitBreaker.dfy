/**
 * The circuit breaker of src/reliability/circuit-breaker/circuit-breaker.ts.
 *
 * `Stats` is the breaker's whole mutable state; `Admit`, `Landed` and `Cleared` say what
 * the synchronous part of `execute`, the settling of a call and `reset` do to it.  The
 * class below performs the same changes field by field.  `World` adds what the breaker
 * itself does not keep (which calls are in flight, when they started, what has completed),
 * and the theorems quantify over every run of it.
 */
module CircuitBreakers {
  import opened Wrappers

  datatype Circuit = Closed | Open | HalfOpen

  datatype Options = Options(failureThreshold: int, successThreshold: int, halfOpenMaxCalls: int, resetTimeMs: int)

  datatype Stats = Stats(
    state: Circuit, failures: nat, successes: nat,
    consecutiveFailures: nat, consecutiveSuccesses: nat,
    lastFailureAt: Option<int>, lastSuccessAt: Option<int>, openedAt: Option<int>, halfOpenCalls: nat)

  datatype Admission = Admitted | Refused(retryAfterMs: int, stats: Stats)

  const FRESH: Stats := Stats(Closed, 0, 0, 0, 0, None, None, None, 0)

  // ---------- What each operation does ----------

  function Elapsed(s: Stats, now: int): int {
    now - s.openedAt.GetOr(0)
  }

  /** An open breaker whose reset time has passed counts as half-open. */
  function Promoted(o: Options, s: Stats, now: int): Stats {
    if s.state.Open? && Elapsed(s, now) >= o.resetTimeMs then s.(state := HalfOpen) else s
  }

  function Admit(o: Options, s: Stats, now: int): (Stats, Admission) {
    var p := Promoted(o, s, now);
    match p.state
    case Open => (p, Refused(o.resetTimeMs - Elapsed(s, now), p))
    case Closed => (p, Admitted)
    case HalfOpen =>
      if p.halfOpenCalls >= o.halfOpenMaxCalls then (p, Refused(o.resetTimeMs, p))
      else (p.(halfOpenCalls := p.halfOpenCalls + 1), Admitted)
  }

  function Landed(o: Options, s: Stats, ok: bool, now: int): Stats {
    if ok then
      var c := s.(successes := s.successes + 1, consecutiveSuccesses := s.consecutiveSuccesses + 1,
                  consecutiveFailures := 0, lastSuccessAt := Some(now));
      if s.state.HalfOpen? && c.consecutiveSuccesses >= o.successThreshold
      then c.(state := Closed, halfOpenCalls := 0) else c
    else
      var c := s.(failures := s.failures + 1, consecutiveFailures := s.consecutiveFailures + 1,
                  consecutiveSuccesses := 0, lastFailureAt := Some(now));
      match s.state
      case Closed => if c.consecutiveFailures >= o.failureThreshold then c.(state := Open, openedAt := Some(now)) else c
      case HalfOpen => c.(state := Open, openedAt := Some(now), halfOpenCalls := 0)
      case Open => c
  }

  function Cleared(s: Stats): Stats {
    FRESH.(lastFailureAt := s.lastFailureAt, lastSuccessAt := s.lastSuccessAt)
  }

  // ---------- The class ----------

  class CircuitBreaker {
    const opts: Options
    var state: Circuit
    var failures: nat
    var successes: nat
    var consecutiveFailures: nat
    var consecutiveSuccesses: nat
    var lastFailureAt: Option<int>
    var lastSuccessAt: Option<int>
    var openedAt: Option<int>
    var halfOpenCalls: nat

    constructor (options: Options)
      ensures opts == options && View() == FRESH
    {
      opts := options;
      state := Closed;
      failures, successes, consecutiveFailures, consecutiveSuccesses := 0, 0, 0, 0;
      lastFailureAt, lastSuccessAt, openedAt := None, None, None;
      halfOpenCalls := 0;
    }

    function View(): Stats
      reads this
    {
      Stats(state, failures, successes, consecutiveFailures, consecutiveSuccesses,
            lastFailureAt, lastSuccessAt, openedAt, halfOpenCalls)
    }

    method TransitionTo(next: Circuit)
      modifies this`state
      ensures state == next
    {
      if state == next {
        return;
      }
      state := next;
    }

    method CheckState(now: int)
      modifies this`state
      ensures View() == Promoted(opts, old(View()), now)
    {
      if state != Open {
        return;
      }
      if now - openedAt.GetOr(0) >= opts.resetTimeMs {
        TransitionTo(HalfOpen);
      }
    }

    /** `execute` up to its first await.  The clock is read twice; only the later reading matters. */
    method Enter(first: int, second: int) returns (a: Admission)
      requires first <= second
      modifies this
      ensures View() == Admit(opts, old(View()), second).0
      ensures a == Admit(opts, old(View()), second).1
    {
      CheckState(first);
      if state == Open {
        var elapsed := second - openedAt.GetOr(0);
        if elapsed < opts.resetTimeMs {
          return Refused(opts.resetTimeMs - elapsed, View());
        }
        TransitionTo(HalfOpen);
      }
      if state == HalfOpen && halfOpenCalls >= opts.halfOpenMaxCalls {
        return Refused(opts.resetTimeMs, View());
      }
      if state == HalfOpen {
        halfOpenCalls := halfOpenCalls + 1;
      }
      return Admitted;
    }

    method OnSuccess(now: int)
      modifies this
      ensures View() == Landed(opts, old(View()), true, now)
    {
      successes := successes + 1;
      consecutiveSuccesses := consecutiveSuccesses + 1;
      consecutiveFailures := 0;
      lastSuccessAt := Some(now);
      if state == HalfOpen && consecutiveSuccesses >= opts.successThreshold {
        TransitionTo(Closed);
        halfOpenCalls := 0;
      }
    }

    method OnFailure(now: int)
      modifies this
      ensures View() == Landed(opts, old(View()), false, now)
    {
      failures := failures + 1;
      consecutiveFailures := consecutiveFailures + 1;
      consecutiveSuccesses := 0;
      lastFailureAt := Some(now);
      if state == Closed && consecutiveFailures >= opts.failureThreshold {
        TransitionTo(Open);
        openedAt := Some(now);
      } else if state == HalfOpen {
        TransitionTo(Open);
        openedAt := Some(now);
        halfOpenCalls := 0;
      }
    }

    method Reset()
      modifies this
      ensures View() == Cleared(old(View()))
    {
      TransitionTo(Closed);
      failures, successes := 0, 0;
      consecutiveFailures, consecutiveSuccesses := 0, 0;
      halfOpenCalls := 0;
      openedAt := None;
    }
  }

  // ---------- Runs ----------

  /** A protected call; `episode` numbers the half-open episode it probes, 0 when it started while closed. */
  datatype Call = Call(startedAt: int, episode: nat)

  datatype Observation = Started(at: int, episode: nat) | Opened(at: int) | WasReset

  datatype World = World(
    s: Stats, clock: int, nextId: nat, inFlight: map<nat, Call>,
    episode: nat,            // half-open episodes begun so far
    probesDone: nat,         // calls of the current episode that have completed
    landedNow: nat,          // calls of any origin that have completed during the current episode
    log: seq<bool>,          // outcomes since the last reset
    closedLog: seq<bool>,    // outcomes since the breaker last became closed
    history: seq<Observation>)

  /** `dt` is the time that passes before the step, so the clock never runs backwards. */
  datatype Event = Start(dt: nat) | Finish(id: nat, ok: bool, dt: nat) | DoReset(dt: nat)

  function Init(t: int): World {
    World(FRESH, t, 0, map[], 0, 0, 0, [], [], [])
  }

  function Step(o: Options, w: World, e: Event): World {
    var now := w.clock + e.dt;
    match e
    case Start(_) =>
      var (s, a) := Admit(o, w.s, now);
      var begins := s.state.HalfOpen? && !w.s.state.HalfOpen?;
      var v := w.(s := s, clock := now, episode := if begins then w.episode + 1 else w.episode,
                  probesDone := if begins then 0 else w.probesDone,
                  landedNow := if begins then 0 else w.landedNow);
      if a.Refused? then v else
      var tag := if s.state.HalfOpen? then v.episode else 0;
      v.(nextId := w.nextId + 1, inFlight := w.inFlight[w.nextId := Call(now, tag)],
         history := w.history + [Started(now, tag)])
    case Finish(id, ok, _) =>
      if id !in w.inFlight then w.(clock := now) else
      var s := Landed(o, w.s, ok, now);
      var probe := w.s.state.HalfOpen? && w.inFlight[id].episode == w.episode;
      w.(s := s, clock := now, inFlight := w.inFlight - {id},
         probesDone := if probe then w.probesDone + 1 else w.probesDone,
         landedNow := w.landedNow + 1,
         log := w.log + [ok],
         closedLog := if w.s.state.Closed? then w.closedLog + [ok] else [],
         history := if s.state.Open? && !w.s.state.Open? then w.history + [Opened(now)] else w.history)
    case DoReset(_) =>
      w.(s := Cleared(w.s), clock := now, log := [], closedLog := [], history := w.history + [WasReset])
  }

  function Run(o: Options, w: World, es: seq<Event>): World {
    if es == [] then w else Step(o, Run(o, w, es[..|es| - 1]), es[|es| - 1])
  }

  // ---------- The counters summarise the run ----------

  /** The length of the longest suffix of `log` that consists of `b` only. */
  function Trailing(log: seq<bool>, b: bool): nat {
    if log != [] && log[|log| - 1] == b then 1 + Trailing(log[..|log| - 1], b) else 0
  }

  function Count(log: seq<bool>, b: bool): nat {
    if log == [] then 0 else Count(log[..|log| - 1], b) + if log[|log| - 1] == b then 1 else 0
  }

  lemma {:induction false} TrailingIsSuffix(log: seq<bool>, b: bool)
    ensures Trailing(log, b) <= |log|
    ensures forall i :: |log| - Trailing(log, b) <= i < |log| ==> log[i] == b
    ensures Trailing(log, b) < |log| ==> log[|log| - Trailing(log, b) - 1] != b
  {
    if log != [] && log[|log| - 1] == b {
      TrailingIsSuffix(log[..|log| - 1], b);
    }
  }

  ghost predicate CountersSummarise(o: Options, w: World) {
    && w.s.failures == Count(w.log, false) && w.s.successes == Count(w.log, true)
    && w.s.consecutiveFailures == Trailing(w.log, false)
    && w.s.consecutiveSuccesses == Trailing(w.log, true)
    && (w.s.state.Closed? ==>
          && w.s.consecutiveFailures == Trailing(w.closedLog, false)
          && w.s.consecutiveFailures < Max(1, o.failureThreshold))
  }

  ghost function Probes(w: World): set<nat> {
    set id | id in w.inFlight && w.inFlight[id].episode == w.episode
  }

  ghost predicate ProbesCounted(o: Options, w: World) {
    && (forall id <- w.inFlight :: id < w.nextId && w.inFlight[id].episode <= w.episode)
    && (if w.s.state.HalfOpen? then
          && 0 < w.episode
          && w.s.halfOpenCalls == w.probesDone + |Probes(w)|
          && w.probesDone <= w.landedNow <= w.s.consecutiveSuccesses
          && (0 < w.landedNow ==> w.s.consecutiveSuccesses < o.successThreshold)
        else w.s.halfOpenCalls == 0)
  }

  function StartsIn(h: seq<Observation>, episode: nat): nat {
    if h == [] then 0
    else StartsIn(h[..|h| - 1], episode) + if h[|h| - 1].Started? && h[|h| - 1].episode == episode then 1 else 0
  }

  ghost predicate EpisodesBounded(o: Options, w: World) {
    && (forall e: nat :: 0 < e ==> StartsIn(w.history, e) <= Max(0, o.halfOpenMaxCalls))
    && (forall e: nat :: w.episode < e ==> StartsIn(w.history, e) == 0)
    && (w.s.state.HalfOpen? ==> StartsIn(w.history, w.episode) == w.s.halfOpenCalls)
  }

  ghost predicate NoResetAfter(h: seq<Observation>, i: nat) {
    forall k :: i < k < |h| ==> !h[k].WasReset?
  }

  /** A call that starts after an opening, with no reset in between, starts at least the reset time later. */
  ghost predicate OpenWindowsRespected(o: Options, w: World) {
    forall i, j :: 0 <= i < j < |w.history| && w.history[i].Opened? && w.history[j].Started?
                   && NoResetAfter(w.history[..j], i)
                   ==> w.history[i].at + o.resetTimeMs <= w.history[j].at
  }

  ghost predicate OpeningsPending(o: Options, w: World) {
    && (w.s.state.Open? ==> w.s.openedAt.Some?)
    && forall i :: 0 <= i < |w.history| && w.history[i].Opened? && NoResetAfter(w.history, i) ==>
         || (w.s.state.Open? && w.history[i].at <= w.s.openedAt.GetOr(0))
         || w.history[i].at + o.resetTimeMs <= w.clock
  }

  ghost predicate Inv(o: Options, w: World) {
    CountersSummarise(o, w) && ProbesCounted(o, w) && EpisodesBounded(o, w)
    && OpenWindowsRespected(o, w) && OpeningsPending(o, w)
  }

  lemma {:induction false} Appended(log: seq<bool>, x: bool, b: bool)
    ensures Trailing(log + [x], b) == if x == b then 1 + Trailing(log, b) else 0
    ensures Count(log + [x], b) == Count(log, b) + if x == b then 1 else 0
  {
    assert (log + [x])[..|log|] == log;
  }

  /** What a landing does to the counters, whatever state it finds. */
  lemma {:induction false} LandedCounters(o: Options, s: Stats, ok: bool, now: int)
    ensures var r := Landed(o, s, ok, now);
      && r.consecutiveSuccesses == (if ok then s.consecutiveSuccesses + 1 else 0)
      && r.consecutiveFailures == (if ok then 0 else s.consecutiveFailures + 1)
      && r.successes == s.successes + (if ok then 1 else 0)
      && r.failures == s.failures + (if ok then 0 else 1)
      && (r.state.Closed? && !s.state.Closed? ==> ok)
      && (r.state.Closed? && s.state.Closed? && !ok ==> r.consecutiveFailures < o.failureThreshold)
      && r.halfOpenCalls == (if s.state.HalfOpen? && !r.state.HalfOpen? then 0 else s.halfOpenCalls)
      && (r.state.HalfOpen? ==> s.state.HalfOpen? && ok && r.consecutiveSuccesses < o.successThreshold)
  {
  }

  lemma {:induction false} CountersFinish(o: Options, w: World, id: nat, ok: bool, dt: nat)
    requires CountersSummarise(o, w) && id in w.inFlight
    ensures CountersSummarise(o, Step(o, w, Finish(id, ok, dt)))
  {
    LandedCounters(o, w.s, ok, w.clock + dt);
    Appended(w.log, ok, true);
    Appended(w.log, ok, false);
    Appended(w.closedLog, ok, false);
    var v := Step(o, w, Finish(id, ok, dt));
    assert v.s == Landed(o, w.s, ok, w.clock + dt) && v.log == w.log + [ok];
    assert v.closedLog == if w.s.state.Closed? then w.closedLog + [ok] else [];
  }

  lemma {:induction false} CountersStep(o: Options, w: World, e: Event)
    requires CountersSummarise(o, w)
    ensures CountersSummarise(o, Step(o, w, e))
  {
    match e
    case Start(_) =>
    case DoReset(_) =>
    case Finish(id, ok, dt) =>
      if id in w.inFlight {
        CountersFinish(o, w, id, ok, dt);
      }
  }

  lemma {:induction false} ProbesStart(o: Options, w: World, dt: nat)
    requires ProbesCounted(o, w)
    ensures ProbesCounted(o, Step(o, w, Start(dt)))
  {
    var v := Step(o, w, Start(dt));
    var kept := if w.s.state.HalfOpen? then Probes(w) else {};
    if v.s.state.HalfOpen? {
      if Admit(o, w.s, v.clock).1.Admitted? {
        assert Probes(v) == kept + {w.nextId};
      } else {
        assert Probes(v) == kept;
      }
    }
  }

  lemma {:induction false} ProbesFinish(o: Options, w: World, id: nat, ok: bool, dt: nat)
    requires ProbesCounted(o, w) && id in w.inFlight
    ensures ProbesCounted(o, Step(o, w, Finish(id, ok, dt)))
  {
    var v := Step(o, w, Finish(id, ok, dt));
    LandedCounters(o, w.s, ok, v.clock);
    assert v.inFlight == w.inFlight - {id};
    assert Probes(v) == Probes(w) - {id};
  }

  lemma {:induction false} ProbesStep(o: Options, w: World, e: Event)
    requires ProbesCounted(o, w)
    ensures ProbesCounted(o, Step(o, w, e))
  {
    match e
    case Start(dt) => ProbesStart(o, w, dt);
    case DoReset(_) =>
    case Finish(id, ok, dt) =>
      if id in w.inFlight {
        ProbesFinish(o, w, id, ok, dt);
      } else {
        assert Probes(Step(o, w, e)) == Probes(w);
      }
  }

  lemma {:induction false} EpisodesStep(o: Options, w: World, e: Event)
    requires ProbesCounted(o, w) && EpisodesBounded(o, w)
    ensures EpisodesBounded(o, Step(o, w, e))
  {
    var v := Step(o, w, e);
    if v.history != w.history {
      assert |v.history| == |w.history| + 1 && v.history[..|w.history|] == w.history;
    }
  }

  lemma {:induction false} WindowsStep(o: Options, w: World, e: Event)
    requires OpenWindowsRespected(o, w) && OpeningsPending(o, w)
    ensures OpenWindowsRespected(o, Step(o, w, e)) && OpeningsPending(o, Step(o, w, e))
  {
    var v := Step(o, w, e);
    assert e.DoReset? ==> v.history[|w.history|].WasReset?;
    forall i | 0 <= i < |v.history| && v.history[i].Opened? && NoResetAfter(v.history, i)
      ensures || (v.s.state.Open? && v.history[i].at <= v.s.openedAt.GetOr(0))
              || v.history[i].at + o.resetTimeMs <= v.clock
    {
      if i < |w.history| {
        assert forall k :: 0 <= k < |w.history| ==> v.history[k] == w.history[k];
        assert NoResetAfter(w.history, i);
      }
    }
    forall i, j | 0 <= i < j < |v.history| && v.history[i].Opened? && v.history[j].Started?
                  && NoResetAfter(v.history[..j], i)
      ensures v.history[i].at + o.resetTimeMs <= v.history[j].at
    {
      assert v.history[..j] == w.history[..j];
      if j == |w.history| {
        assert w.history[..j] == w.history;
      }
    }
  }

  /** What every run of the breaker keeps, whatever the options and however calls overlap. */
  lemma {:induction false} EveryRunKeepsInv(o: Options, t: int, es: seq<Event>)
    ensures Inv(o, Run(o, Init(t), es))
  {
    if es != [] {
      var w := Run(o, Init(t), es[..|es| - 1]);
      EveryRunKeepsInv(o, t, es[..|es| - 1]);
      var e := es[|es| - 1];
      CountersStep(o, w, e);
      ProbesStep(o, w, e);
      EpisodesStep(o, w, e);
      WindowsStep(o, w, e);
    }
  }

  // ---------- When the breaker opens ----------

  ghost predicate LastAllFailed(log: seq<bool>, n: nat) {
    n <= |log| && forall i :: |log| - n <= i < |log| ==> !log[i]
  }

  lemma {:induction false} TrailingReaches(log: seq<bool>, n: nat)
    ensures LastAllFailed(log, n) <==> n <= Trailing(log, false)
  {
    if n == 0 || n > |log| {
      TrailingIsSuffix(log, false);
    } else {
      var front := log[..|log| - 1];
      TrailingReaches(front, n - 1);
      if LastAllFailed(log, n) {
        assert LastAllFailed(front, n - 1);
      } else if LastAllFailed(front, n - 1) {
        assert log[|log| - 1];
      }
    }
  }

  /**
   * A closed breaker opens on a completion exactly when that completion is the last of
   * failureThreshold failures in a row since it became closed.
   */
  lemma {:induction false} OpensExactly(o: Options, t: int, es: seq<Event>, id: nat, ok: bool, dt: nat)
    requires var w := Run(o, Init(t), es); w.s.state.Closed? && id in w.inFlight
    ensures var w := Run(o, Init(t), es);
      Step(o, w, Finish(id, ok, dt)).s.state.Open? <==> LastAllFailed(w.closedLog + [ok], Max(1, o.failureThreshold))
  {
    EveryRunKeepsInv(o, t, es);
    var w := Run(o, Init(t), es);
    Appended(w.closedLog, ok, false);
    TrailingReaches(w.closedLog + [ok], Max(1, o.failureThreshold));
  }

  // ---------- No wedge ----------

  /** Half-open, with no probe of the current episode left that could still move it. */
  ghost predicate Quiescent(w: World) {
    w.s.state.HalfOpen? && Probes(w) == {}
  }

  ghost predicate Rejecting(o: Options, w: World) {
    forall now: int :: Admit(o, w.s, now).1.Refused?
  }

  ghost predicate CanRecover(o: Options) {
    1 <= o.halfOpenMaxCalls && o.successThreshold <= o.halfOpenMaxCalls
  }

  lemma {:induction false} NoWedge(o: Options, t: int, es: seq<Event>, now: int)
    requires CanRecover(o) && Quiescent(Run(o, Init(t), es))
    ensures Admit(o, Run(o, Init(t), es).s, now).1.Admitted?
  {
    EveryRunKeepsInv(o, t, es);
  }

  /** Nothing in flight and half-open with its probes used up: only `reset` changes this, ever. */
  ghost predicate Wedged(o: Options, w: World) {
    w.s.state.HalfOpen? && w.inFlight == map[] && o.halfOpenMaxCalls <= w.s.halfOpenCalls
  }

  lemma {:induction false} WedgedForever(o: Options, w: World, es: seq<Event>)
    requires Wedged(o, w) && forall i :: 0 <= i < |es| ==> !es[i].DoReset?
    ensures Wedged(o, Run(o, w, es)) && Run(o, w, es).history == w.history
  {
    if es != [] {
      WedgedForever(o, w, es[..|es| - 1]);
    }
  }

  lemma {:induction false} RunOneMore(o: Options, w: World, es: seq<Event>, e: Event)
    ensures Run(o, w, es + [e]) == Step(o, Run(o, w, es), e)
  {
    assert (es + [e])[..|es|] == es;
  }

  /** n failed calls, one after the other, on a fresh breaker. */
  lemma {:induction false} FailInARow(o: Options, n: nat) returns (es: seq<Event>)
    requires n <= Max(1, o.failureThreshold)
    ensures var w := Run(o, Init(0), es);
      && w.inFlight == map[] && w.clock == 0 && w.s.consecutiveFailures == n && w.s.halfOpenCalls == 0
      && w.s.consecutiveSuccesses == 0
      && (if n < Max(1, o.failureThreshold) then w.s.state.Closed? else w.s.state.Open? && w.s.openedAt == Some(0))
  {
    if n == 0 {
      return [];
    }
    es := FailInARow(o, n - 1);
    var w := Run(o, Init(0), es);
    RunOneMore(o, Init(0), es, Start(0));
    RunOneMore(o, Init(0), es + [Start(0)], Finish(w.nextId, false, 0));
    es := es + [Start(0)] + [Finish(w.nextId, false, 0)];
  }

  /** After the reset time, n probes that all succeed. */
  lemma {:induction false} ProbesInARow(o: Options, n: nat) returns (es: seq<Event>)
    requires n <= Max(0, o.halfOpenMaxCalls) < Max(1, o.successThreshold)
    ensures var w := Run(o, Init(0), es);
      && w.inFlight == map[] && w.s.halfOpenCalls == n && w.s.consecutiveSuccesses == n
      && (if n == 0 then w.s.state.Open? && w.s.openedAt == Some(0) && w.clock == 0 else w.s.state.HalfOpen?)
  {
    if n == 0 {
      es := FailInARow(o, Max(1, o.failureThreshold));
      return;
    }
    es := ProbesInARow(o, n - 1);
    var w := Run(o, Init(0), es);
    var start := Start(Max(0, o.resetTimeMs));
    RunOneMore(o, Init(0), es, start);
    RunOneMore(o, Init(0), es + [start], Finish(w.nextId, true, 0));
    es := es + [start] + [Finish(w.nextId, true, 0)];
  }

  /** With too few probes allowed, some run ends wedged. */
  lemma {:induction false} WedgeReached(o: Options) returns (es: seq<Event>)
    requires !CanRecover(o)
    ensures Wedged(o, Run(o, Init(0), es))
  {
    es := ProbesInARow(o, Max(0, o.halfOpenMaxCalls));
    var start := Start(Max(0, o.resetTimeMs));
    RunOneMore(o, Init(0), es, start);
    es := es + [start];
  }

  ghost predicate NotStuckAfter(o: Options, t: int, es: seq<Event>) {
    var w := Run(o, Init(t), es);
    Quiescent(w) ==> !Rejecting(o, w)
  }

  /** The breaker can never wedge exactly when it may start at least one probe, and enough of them to close. */
  lemma {:induction false} WedgeFreeExactly(o: Options)
    ensures CanRecover(o) <==> forall t, es :: NotStuckAfter(o, t, es)
  {
    if CanRecover(o) {
      forall t, es
        ensures NotStuckAfter(o, t, es)
      {
        if Quiescent(Run(o, Init(t), es)) {
          NoWedge(o, t, es, 0);
        }
      }
    } else {
      var es := WedgeReached(o);
      assert !NotStuckAfter(o, 0, es);
    }
  }

  // ---------- What a caller sees ----------

  /** While open, the last thing observed is the opening. */
  ghost predicate OpenSince(w: World) {
    w.s.state.Open? ==> w.history != [] && w.history[|w.history| - 1] == Opened(w.s.openedAt.GetOr(0))
  }

  lemma {:induction false} OpeningIsLast(o: Options, t: int, es: seq<Event>)
    ensures OpenSince(Run(o, Init(t), es))
  {
    if es != [] {
      OpeningIsLast(o, t, es[..|es| - 1]);
    }
  }

  /**
   * An open breaker starts a call exactly when the reset time has passed since it opened; until
   * then a call leaves no trace.
   */
  lemma {:induction false} OpenAdmitsExactly(o: Options, t: int, es: seq<Event>, dt: nat)
    requires Run(o, Init(t), es).s.state.Open? && 1 <= o.halfOpenMaxCalls
    ensures var w := Run(o, Init(t), es); var v := Step(o, w, Start(dt));
      && w.history != [] && w.history[|w.history| - 1].Opened?
      && (if w.history[|w.history| - 1].at + o.resetTimeMs <= w.clock + dt
          then v.history == w.history + [Started(w.clock + dt, w.episode + 1)] && v.s.state.HalfOpen?
          else v.history == w.history && v.s == w.s)
  {
    OpeningIsLast(o, t, es);
    EveryRunKeepsInv(o, t, es);
    OpenStarts(o, Run(o, Init(t), es), dt);
  }

  lemma {:induction false} OpenStarts(o: Options, w: World, dt: nat)
    requires w.s.state.Open? && w.s.openedAt.Some? && w.s.halfOpenCalls == 0 && 1 <= o.halfOpenMaxCalls
    ensures var v := Step(o, w, Start(dt));
      if w.s.openedAt.value + o.resetTimeMs <= w.clock + dt
      then v.history == w.history + [Started(w.clock + dt, w.episode + 1)] && v.s.state.HalfOpen?
      else v.history == w.history && v.s == w.s
  {
  }

  /** A half-open breaker starts a call exactly while its episode has started fewer than it may. */
  lemma {:induction false} HalfOpenAdmitsExactly(o: Options, t: int, es: seq<Event>, dt: nat)
    requires Run(o, Init(t), es).s.state.HalfOpen?
    ensures var w := Run(o, Init(t), es); var v := Step(o, w, Start(dt));
      if StartsIn(w.history, w.episode) < o.halfOpenMaxCalls
      then v.history == w.history + [Started(w.clock + dt, w.episode)] && v.s.state.HalfOpen?
      else v.history == w.history && v.s == w.s
  {
    EveryRunKeepsInv(o, t, es);
  }

  /** A closed breaker starts every call. */
  lemma {:induction false} ClosedAdmitsAlways(o: Options, w: World, dt: nat)
    requires w.s.state.Closed?
    ensures var v := Step(o, w, Start(dt)); v.history == w.history + [Started(w.clock + dt, 0)] && v.s == w.s
  {
  }

  /**
   * A refusal tells the truth: while open, the same call is started exactly from `now` plus the
   * retry delay on, which is positive; the refused caller gets the breaker's own state.
   */
  lemma {:induction false} RefusalIsExact(o: Options, t: int, es: seq<Event>, dt: nat, later: nat)
    requires var w := Run(o, Init(t), es); Admit(o, w.s, w.clock + dt).1.Refused?
    ensures var w := Run(o, Init(t), es); var now := w.clock + dt; var a := Admit(o, w.s, now).1;
      && a.stats == Step(o, w, Start(dt)).s && !w.s.state.Closed?
      && (a.stats.state.HalfOpen? ==> a.retryAfterMs == o.resetTimeMs)
      && (a.stats.state.Open? ==>
            && w.history != [] && w.history[|w.history| - 1].Opened?
            && 0 < a.retryAfterMs == w.history[|w.history| - 1].at + o.resetTimeMs - now
            && (1 <= o.halfOpenMaxCalls && dt <= later ==>
                  (Step(o, w, Start(later)).history != w.history <==> now + a.retryAfterMs <= w.clock + later)))
  {
    OpeningIsLast(o, t, es);
    EveryRunKeepsInv(o, t, es);
    var w := Run(o, Init(t), es);
    if w.s.state.Open? && 1 <= o.halfOpenMaxCalls {
      OpenAdmitsExactly(o, t, es, later);
    }
  }

  ghost predicate LastAllSucceeded(log: seq<bool>, n: nat) {
    n <= |log| && forall i :: |log| - n <= i < |log| ==> log[i]
  }

  lemma {:induction false} SuccessesReach(log: seq<bool>, n: nat)
    ensures LastAllSucceeded(log, n) <==> n <= Trailing(log, true)
  {
    if n == 0 || n > |log| {
      TrailingIsSuffix(log, true);
    } else {
      var front := log[..|log| - 1];
      SuccessesReach(front, n - 1);
      if LastAllSucceeded(log, n) {
        assert LastAllSucceeded(front, n - 1);
      } else if LastAllSucceeded(front, n - 1) {
        assert !log[|log| - 1];
      }
    }
  }

  /** In half-open a failure, and nothing else, opens the breaker, at once. */
  lemma {:induction false} HalfOpenReopensExactly(o: Options, w: World, id: nat, ok: bool, dt: nat)
    requires w.s.state.HalfOpen? && id in w.inFlight
    ensures var v := Step(o, w, Finish(id, ok, dt));
      && (v.s.state.Open? <==> !ok)
      && (!ok ==> v.s.openedAt == Some(w.clock + dt) && v.history == w.history + [Opened(w.clock + dt)])
  {
  }

  lemma {:induction false} HalfOpenCloses(o: Options, w: World, id: nat, ok: bool, dt: nat)
    requires w.s.state.HalfOpen? && id in w.inFlight
    ensures Step(o, w, Finish(id, ok, dt)).s.state.Closed?
      <==> ok && o.successThreshold <= w.s.consecutiveSuccesses + 1
  {
  }

  /** In half-open a completion closes the breaker exactly when the last successThreshold completions succeeded. */
  lemma {:induction false} HalfOpenClosesExactly(o: Options, t: int, es: seq<Event>, id: nat, ok: bool, dt: nat)
    requires var w := Run(o, Init(t), es); w.s.state.HalfOpen? && id in w.inFlight
    ensures var w := Run(o, Init(t), es);
      Step(o, w, Finish(id, ok, dt)).s.state.Closed?
      <==> ok && LastAllSucceeded(w.log + [ok], Max(1, o.successThreshold))
  {
    EveryRunKeepsInv(o, t, es);
    var w := Run(o, Init(t), es);
    HalfOpenCloses(o, w, id, ok, dt);
    Appended(w.log, ok, true);
    SuccessesReach(w.log + [ok], Max(1, o.successThreshold));
  }

  /** A late result never closes an open breaker or moves the moment it opened, and each result is stamped. */
  lemma {:induction false} LateResultsOnlyCount(o: Options, w: World, id: nat, ok: bool, dt: nat)
    requires id in w.inFlight
    ensures var v := Step(o, w, Finish(id, ok, dt)).s;
      && (w.s.state.Open? ==> v.state.Open? && v.openedAt == w.s.openedAt)
      && v.lastSuccessAt == (if ok then Some(w.clock + dt) else w.s.lastSuccessAt)
      && v.lastFailureAt == (if ok then w.s.lastFailureAt else Some(w.clock + dt))
  {
  }

  /** A reset closes the breaker and forgets everything but the two outcome times. */
  lemma {:induction false} ResetForgets(o: Options, w: World, dt: nat)
    ensures var v := Step(o, w, DoReset(dt)).s;
      && v.state.Closed? && v.failures == 0 && v.successes == 0
      && v.consecutiveFailures == 0 && v.consecutiveSuccesses == 0
      && v.halfOpenCalls == 0 && v.openedAt == None
      && v.lastFailureAt == w.s.lastFailureAt && v.lastSuccessAt == w.s.lastSuccessAt
  {
  }

  /** A new breaker is closed and has seen nothing. */
  lemma {:induction false} FreshSays(t: int)
    ensures var s := Init(t).s;
      && s.state.Closed? && s.failures == 0 && s.successes == 0 && s.halfOpenCalls == 0
      && s.consecutiveFailures == 0 && s.consecutiveSuccesses == 0
      && s.lastFailureAt == None && s.lastSuccessAt == None && s.openedAt == None
  {
  }
}
