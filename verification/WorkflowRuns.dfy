/**
 * Many workflow instances running interleaved, with signals and timeouts.
 */
module WorkflowRuns {
  import opened Wrappers
  import opened Globs
  import opened Workflows

  /** The await an instance stands at. */
  datatype Phase =
    | AtStep                   // executeStep is entered next
    | Marked                   // the step's id is stored, the switch is next
    | AboutToWait              // stored as waiting, not subscribed yet
    | Subscribing              // waiting for the signal event
    | Signalled(data: string)  // the event has come, the continuation is next
    | TimedOut                 // the wait was rejected, failInstance is next
    | Finished

  /** An instance in execution, and everything that was ever stored of it. */
  datatype Exec = Exec(d: Definition, i: Instance, phase: Phase, stored: seq<Instance>)

  datatype World = World(execs: map<string, Exec>, published: seq<(string, string)>)

  datatype Event =
    | Start(d: Definition, id: string, tenant: string, input: string, now: int)
    | Advance(id: string, now: int)
    | Publish(eventType: string, data: string)  // by `signal`, or by anyone on the bus
    | Timeout(id: string)

  const TIMEOUT_ERROR := "EventBus.once timed out"

  function Stored(x: Exec, i: Instance, phase: Phase): Exec {
    Exec(x.d, i, phase, x.stored + [i])
  }

  /** The continuation runs to the next await. */
  function Continued(x: Exec, now: int): Exec {
    match x.phase
    case AtStep => Stored(x, Entered(x.d, x.i, now), if x.i.currentStepIndex >= |x.d.steps| then Finished else Marked)
    case Marked =>
      if x.i.currentStepIndex >= |x.d.steps| then x
      else
        Stored(x, Performed(x.d, x.i, now),
               if Waits(x.d.steps[x.i.currentStepIndex].kind) then AboutToWait else AtStep)
    case AboutToWait => x.(phase := Subscribing)
    case Signalled(data) =>
      if x.i.currentStepIndex >= |x.d.steps| then x else Stored(x, Resumed(x.d, x.i, data, now), AtStep)
    case TimedOut => Stored(x, FailedWith(x.i, TIMEOUT_ERROR, now), Finished)
    case _ => x
  }

  /** A subscribed instance takes the first event its pattern matches. */
  function Notified(x: Exec, eventType: string, data: string): Exec {
    if x.phase.Subscribing? && Subscribed(SignalType(x.i.id), eventType) then x.(phase := Signalled(data)) else x
  }

  function Step(w: World, e: Event): World {
    match e
    case Start(d, id, tenant, input, now) =>
      if id in w.execs then w
      else
        var i := Started(d, id, tenant, input, now);
        w.(execs := w.execs[id := Exec(d, i, AtStep, [i])])
    case Advance(id, now) => if id in w.execs then w.(execs := w.execs[id := Continued(w.execs[id], now)]) else w
    case Publish(eventType, data) =>
      World(map id | id in w.execs :: Notified(w.execs[id], eventType, data), w.published + [(eventType, data)])
    case Timeout(id) =>
      if id in w.execs && w.execs[id].phase.Subscribing?
      then w.(execs := w.execs[id := w.execs[id].(phase := TimedOut)]) else w
  }

  function Run(es: seq<Event>): World {
    if es == [] then World(map[], []) else Step(Run(es[..|es| - 1]), es[|es| - 1])
  }

  // ---------- What every stored state says ----------

  /** r is what step s records: its own id, and its configuration, a note, or the answer it waited for. */
  predicate Records(s: StepDef, r: StepResult) {
    match s.kind
    case AgentTask => r == Configured(s.id, AgentTask, s.config)
    case Condition => r == Configured(s.id, Condition, s.config)
    case Parallel => r == Noted(s.id, Parallel, "not supported in SimpleWorkflowEngine")
    case HumanReview => r.Answered? && r.stepId == s.id
    case WaitSignal => r.Answered? && r.stepId == s.id
  }

  /** One result per step so far, in order; finished means all steps; suspended and failed mean at a waiting step. */
  ghost predicate Sound(d: Definition, i: Instance) {
    && i.currentStepIndex == |i.stepResults| <= |d.steps|
    && (forall k :: 0 <= k < |i.stepResults| ==> Records(d.steps[k], i.stepResults[k]))
    && (i.state.Done? ==> i.currentStepIndex == |d.steps|)
    && (i.state.WaitingSignal? || i.state.Failed? ==>
          && i.currentStepIndex < |d.steps|
          && (d.steps[i.currentStepIndex].kind == HumanReview || d.steps[i.currentStepIndex].kind == WaitSignal))
  }

  /** Where the instance stands agrees with what it says. */
  ghost predicate PhaseOk(x: Exec) {
    match x.phase
    case AtStep => x.i.state.Running?
    case Marked => x.i.state.Running? && x.i.currentStepIndex < |x.d.steps|
    case Finished => x.i.state.Done? || x.i.state.Failed?
    case _ => x.i.state.WaitingSignal?
  }

  ghost predicate ExecOk(x: Exec) {
    && x.stored != [] && x.stored[|x.stored| - 1] == x.i
    && (forall k :: 0 <= k < |x.stored| ==> Sound(x.d, x.stored[k]) && x.stored[k].id == x.i.id)
    && PhaseOk(x)
  }

  lemma {:induction false} StoredOk(x: Exec, i: Instance, phase: Phase)
    requires ExecOk(x) && Sound(x.d, i) && i.id == x.i.id && PhaseOk(Stored(x, i, phase))
    ensures ExecOk(Stored(x, i, phase))
  {
  }

  lemma {:induction false} StepDoneSound(d: Definition, i: Instance, r: StepResult, now: int)
    requires Sound(d, i) && i.currentStepIndex < |d.steps|
    requires Records(d.steps[i.currentStepIndex], r) && i.state.Running?
    ensures Sound(d, StepDone(i, r, now))
  {
  }

  lemma {:induction false} ContinuedOk(x: Exec, now: int)
    requires ExecOk(x)
    ensures ExecOk(Continued(x, now)) && Continued(x, now).i.id == x.i.id
  {
    assert Sound(x.d, x.i);
    match x.phase
    case AtStep =>
      var v := Continued(x, now);
      StoredOk(x, v.i, v.phase);
    case Marked =>
      var s := x.d.steps[x.i.currentStepIndex];
      if !Waits(s.kind) {
        StepDoneSound(x.d, x.i, ResultOf(s), now);
      }
      StoredOk(x, Performed(x.d, x.i, now), Continued(x, now).phase);
    case Signalled(data) =>
      StepDoneSound(x.d, x.i.(state := Running), Answered(x.d.steps[x.i.currentStepIndex].id, data), now);
      StoredOk(x, Resumed(x.d, x.i, data, now), AtStep);
    case TimedOut => StoredOk(x, FailedWith(x.i, TIMEOUT_ERROR, now), Finished);
    case _ =>
  }

  lemma {:induction false} StepKeepsOk(w: World, e: Event, id: string)
    requires id in Step(w, e).execs && (id in w.execs ==> ExecOk(w.execs[id]) && w.execs[id].i.id == id)
    ensures ExecOk(Step(w, e).execs[id]) && Step(w, e).execs[id].i.id == id
  {
    if id in w.execs && e.Advance? && e.id == id {
      ContinuedOk(w.execs[id], e.now);
    }
  }

  /** Every state ever stored, of every instance of every interleaving, is sound. */
  lemma {:induction false} EveryStoredStateSound(es: seq<Event>)
    ensures forall id :: id in Run(es).execs ==> ExecOk(Run(es).execs[id]) && Run(es).execs[id].i.id == id
  {
    if es != [] {
      var w, e := Run(es[..|es| - 1]), es[|es| - 1];
      EveryStoredStateSound(es[..|es| - 1]);
      forall id | id in Run(es).execs
        ensures ExecOk(Run(es).execs[id]) && Run(es).execs[id].i.id == id
      {
        StepKeepsOk(w, e, id);
      }
    }
  }

  // ---------- Finality ----------

  predicate IsFinal(i: Instance) {
    i.state.Done? || i.state.Failed?
  }

  /** A completed or failed instance is never stored again: nothing about it changes any more. */
  lemma {:induction false} FinalStays(es: seq<Event>, n: nat, id: string)
    requires n <= |es| && id in Run(es[..n]).execs && IsFinal(Run(es[..n]).execs[id].i)
    ensures id in Run(es).execs && Run(es).execs[id] == Run(es[..n]).execs[id]
  {
    if n == |es| {
      assert es[..n] == es;
    } else {
      var front := es[..|es| - 1];
      assert front[..n] == es[..n];
      FinalStays(front, n, id);
      EveryStoredStateSound(front);
    }
  }

  // ---------- Signals ----------

  /** Ids are UUIDs. */
  predicate PlainId(id: string) {
    '*' !in id && '?' !in id
  }

  lemma {:induction false} OwnSignalOnly(id: string, eventType: string)
    requires PlainId(id)
    ensures Subscribed(SignalType(id), eventType) <==> eventType == SignalType(id)
  {
    BusesAgreeOnNames(SignalType(id), eventType);
  }

  /**
   * An event resumes exactly the instance it names, and only once that instance has
   * subscribed: one that is stored as waiting but has not subscribed yet misses it.
   */
  lemma {:induction false} ResumesExactly(es: seq<Event>, id: string, eventType: string, data: string)
    requires id in Run(es).execs && PlainId(id)
    ensures var x := Run(es).execs[id]; var v := Step(Run(es), Publish(eventType, data));
      && id in v.execs
      && (v.execs[id] != x <==> x.phase.Subscribing? && eventType == SignalType(id))
      && (v.execs[id] != x ==> v.execs[id] == x.(phase := Signalled(data)))
  {
    EveryStoredStateSound(es);
    OwnSignalOnly(id, eventType);
  }

  /** The lost wake-up: right after it is stored as waiting, an instance does not react to its signal. */
  lemma {:induction false} SignalCanBeLost(es: seq<Event>, id: string, data: string)
    requires id in Run(es).execs && Run(es).execs[id].phase.AboutToWait?
    ensures Run(es).execs[id].i.state.WaitingSignal?
    ensures Step(Run(es), Publish(SignalType(id), data)).execs[id] == Run(es).execs[id]
  {
    EveryStoredStateSound(es);
  }

  /** Started at a waiting step, stored as waiting, signalled, and only then subscribed: it waits for another signal. */
  lemma {:induction false} SignalLostInRun(d: Definition, id: string, data: string)
    requires d.steps != [] && Waits(d.steps[0].kind)
    ensures var es := [Start(d, id, "t", "in", 0), Advance(id, 0), Advance(id, 0),
                       Publish(SignalType(id), data), Advance(id, 0)];
      && id in Run(es).execs && Run(es).execs[id].phase.Subscribing?
      && (SignalType(id), data) in Run(es).published
  {
    var e0, e1, e3 := Start(d, id, "t", "in", 0), Advance(id, 0), Publish(SignalType(id), data);
    var w := Step(Run([]), e0);
    IntoTheGap(w, id, data);
    RunOfFive(e0, e1, e1, e3, e1);
  }

  lemma {:induction false} RunOfFive(a: Event, b: Event, c: Event, d: Event, e: Event)
    ensures Run([a, b, c, d, e]) == Step(Step(Step(Step(Step(Run([]), a), b), c), d), e)
  {
    RunOfThree(a, b, c);
    RunTwoMore([a, b, c], d, e);
    assert [a, b, c] + [d] + [e] == [a, b, c, d, e];
  }

  lemma {:induction false} RunOfThree(a: Event, b: Event, c: Event)
    ensures Run([a, b, c]) == Step(Step(Step(Run([]), a), b), c)
  {
    RunSnoc([], a);
    RunTwoMore([a], b, c);
    assert [] + [a] == [a] && [a] + [b] + [c] == [a, b, c];
  }

  lemma {:induction false} RunTwoMore(es: seq<Event>, a: Event, b: Event)
    ensures Run(es + [a] + [b]) == Step(Step(Run(es), a), b)
  {
    RunSnoc(es, a);
    RunSnoc(es + [a], b);
  }

  lemma {:induction false} IntoTheGap(w: World, id: string, data: string)
    requires id in w.execs && w.execs[id].phase.AtStep?
    requires var x := w.execs[id]; x.i.currentStepIndex < |x.d.steps| && Waits(x.d.steps[x.i.currentStepIndex].kind)
    ensures var u := Step(Step(w, Advance(id, 0)), Advance(id, 0));
      var v := Step(Step(u, Publish(SignalType(id), data)), Advance(id, 0));
      id in v.execs && v.execs[id].phase.Subscribing? && (SignalType(id), data) in v.published
  {
    var u := Step(Step(w, Advance(id, 0)), Advance(id, 0));
    ToTheGap(w, id);
    PassedOver(u, id, data);
  }

  lemma {:induction false} ToTheGap(w: World, id: string)
    requires id in w.execs && w.execs[id].phase.AtStep?
    requires var x := w.execs[id]; x.i.currentStepIndex < |x.d.steps| && Waits(x.d.steps[x.i.currentStepIndex].kind)
    ensures var u := Step(Step(w, Advance(id, 0)), Advance(id, 0)); id in u.execs && u.execs[id].phase.AboutToWait?
  {
  }

  lemma {:induction false} PassedOver(w: World, id: string, data: string)
    requires id in w.execs && w.execs[id].phase.AboutToWait?
    ensures var v := Step(Step(w, Publish(SignalType(id), data)), Advance(id, 0));
      id in v.execs && v.execs[id].phase.Subscribing? && (SignalType(id), data) in v.published
  {
    var u := Step(w, Publish(SignalType(id), data));
    assert u.execs[id].phase.AboutToWait?;
    assert u.published[|w.published|] == (SignalType(id), data);
  }

  lemma {:induction false} RunSnoc(es: seq<Event>, e: Event)
    ensures Run(es + [e]) == Step(Run(es), e)
  {
    assert (es + [e])[..|es|] == es;
  }

  /** What the instance was told, by steps already recorded and by the one about to be. */
  ghost predicate HeardOnlyOwn(x: Exec, published: seq<(string, string)>) {
    && (forall k :: 0 <= k < |x.i.stepResults| && x.i.stepResults[k].Answered? ==>
          (SignalType(x.i.id), x.i.stepResults[k].data) in published)
    && (x.phase.Signalled? ==> (SignalType(x.i.id), x.phase.data) in published)
  }

  lemma {:induction false} HeardStep(w: World, e: Event, id: string)
    requires id in w.execs && PlainId(id) && w.execs[id].i.id == id && HeardOnlyOwn(w.execs[id], w.published)
    ensures id in Step(w, e).execs && HeardOnlyOwn(Step(w, e).execs[id], Step(w, e).published)
  {
    var x := w.execs[id];
    match e
    case Publish(eventType, data) =>
      OwnSignalOnly(id, eventType);
      assert forall p :: p in w.published ==> p in w.published + [(eventType, data)];
      assert (w.published + [(eventType, data)])[|w.published|] == (eventType, data);
    case Advance(a, now) =>
      if a == id {
        var v := Continued(x, now);
        assert v.i.stepResults == x.i.stepResults || v.i.stepResults[..|x.i.stepResults|] == x.i.stepResults;
      }
    case _ =>
  }

  /** Every recorded answer is the data of an event addressed to that very instance. */
  lemma {:induction false} AnswersAreOwnSignals(es: seq<Event>, id: string)
    requires id in Run(es).execs && PlainId(id)
    ensures HeardOnlyOwn(Run(es).execs[id], Run(es).published)
  {
    if es != [] {
      var w, e := Run(es[..|es| - 1]), es[|es| - 1];
      EveryStoredStateSound(es[..|es| - 1]);
      if id in w.execs {
        AnswersAreOwnSignals(es[..|es| - 1], id);
        HeardStep(w, e, id);
      }
    }
  }

  // ---------- Termination ----------

  /** Bounds what can still happen to an instance. */
  function Measure(x: Exec): int {
    5 * (|x.d.steps| - x.i.currentStepIndex) +
    match x.phase
    case AtStep => 5
    case Marked => 4
    case AboutToWait => 3
    case Subscribing => 2
    case Signalled(_) => 1
    case TimedOut => 1
    case Finished => 0
  }

  /** Whatever happens to an instance brings it closer to its end. */
  lemma {:induction false} EveryChangeDecreases(es: seq<Event>, e: Event, id: string)
    requires id in Run(es).execs && (e.Publish? ==> PlainId(id))
    ensures var w := Run(es); var v := Step(w, e);
      && id in v.execs && v.execs[id].d == w.execs[id].d
      && (v.execs[id] == w.execs[id] || 0 <= Measure(v.execs[id]) < Measure(w.execs[id]))
  {
    EveryStoredStateSound(es);
    var x := Run(es).execs[id];
    assert ExecOk(x) && Sound(x.d, x.i);
    if e.Advance? && e.id == id {
      ContinuingDecreases(x, e.now);
    }
  }

  lemma {:induction false} ContinuingDecreases(x: Exec, now: int)
    requires Sound(x.d, x.i) && PhaseOk(x)
    ensures var v := Continued(x, now); v.d == x.d && (v == x || 0 <= Measure(v) < Measure(x))
  {
  }

  /** How often the instance changed in the run. */
  ghost function Changes(es: seq<Event>, id: string): nat {
    if es == [] then 0
    else
      var w, v := Run(es[..|es| - 1]), Run(es);
      Changes(es[..|es| - 1], id) + if id in w.execs && v.execs[id] != w.execs[id] then 1 else 0
  }

  lemma {:induction false} NewcomerMeasure(w: World, e: Event, id: string)
    requires id !in w.execs && id in Step(w, e).execs
    ensures var x := Step(w, e).execs[id]; Measure(x) == 5 * |x.d.steps| + 5
  {
  }

  /** An instance of n steps changes at most 5 n + 5 times, in any run. */
  lemma {:induction false} ChangesBounded(es: seq<Event>, id: string)
    requires PlainId(id)
    ensures id in Run(es).execs ==>
      0 <= Changes(es, id) + Measure(Run(es).execs[id]) <= 5 * |Run(es).execs[id].d.steps| + 5
    ensures id !in Run(es).execs ==> Changes(es, id) == 0
  {
    if es != [] {
      ChangesBounded(es[..|es| - 1], id);
      if id in Run(es[..|es| - 1]).execs {
        EveryChangeDecreases(es[..|es| - 1], es[|es| - 1], id);
      } else if id in Run(es).execs {
        NewcomerMeasure(Run(es[..|es| - 1]), es[|es| - 1], id);
      }
    }
  }

  /** An instance stands still only while it waits for its signal, or when it has ended. */
  lemma {:induction false} StandsStillExactly(es: seq<Event>, id: string, now: int)
    requires id in Run(es).execs
    ensures var x := Run(es).execs[id];
      Step(Run(es), Advance(id, now)).execs[id] == x <==> x.phase.Subscribing? || IsFinal(x.i)
  {
    EveryStoredStateSound(es);
    var x := Run(es).execs[id];
    assert Sound(x.d, x.i);
    if !x.phase.Subscribing? && !x.phase.Finished? {
      assert Continued(x, now).phase != x.phase;
    }
  }

  // ---------- What a stored state tells ----------

  /**
   * Beside the results: a stored state belongs to the definition, tenant and input it was started
   * with, has an error exactly when it failed and a completion time exactly when it completed, and
   * names the step it stands at, or the last one.
   */
  ghost predicate Tells(x: Exec, i: Instance) {
    && x.stored != [] && i.workflowId == x.d.id && i.version == x.d.version
    && i.tenantId == x.stored[0].tenantId && i.input == x.stored[0].input && i.createdAt == x.stored[0].createdAt
    && (i.error.Some? <==> i.state.Failed?)
    && (i.completedAt.Some? <==> i.state.Done?)
    && (i.state.Done? ==> i.completedAt == Some(i.updatedAt))
    && (x.d.steps == [] ==> i.currentStepId == None)
    && (i.state.WaitingSignal? || i.state.Failed? ==>
          i.currentStepIndex < |x.d.steps| && i.currentStepId == Some(x.d.steps[i.currentStepIndex].id))
  }

  /** Once its step is marked, an instance names it. */
  ghost predicate NamesItsStep(x: Exec) {
    x.phase.AtStep? || x.phase.Finished? || (x.i.currentStepIndex < |x.d.steps|
      && x.i.currentStepId == Some(x.d.steps[x.i.currentStepIndex].id))
  }

  ghost predicate AllTell(x: Exec) {
    && x.stored != [] && NamesItsStep(x) && (!x.phase.Finished? ==> x.i.error.None? && x.i.completedAt.None?)
    && (x.i.state.WaitingSignal? ==> !x.phase.AtStep? && !x.phase.Marked?)
    && forall k :: 0 <= k < |x.stored| ==> Tells(x, x.stored[k])
  }

  lemma {:induction false} ContinuedTells(x: Exec, now: int)
    requires ExecOk(x) && AllTell(x)
    ensures AllTell(Continued(x, now))
  {
    assert Sound(x.d, x.i) && Tells(x, x.i);
    var v := Continued(x, now);
    if |v.stored| > |x.stored| {
      assert v.stored[..|x.stored|] == x.stored && v.stored[|x.stored|] == v.i;
      assert v.stored[0] == x.stored[0];
      assert Tells(v, v.i);
    }
  }

  lemma {:induction false} StepKeepsTelling(w: World, e: Event, id: string)
    requires id in Step(w, e).execs && (id in w.execs ==> ExecOk(w.execs[id]) && AllTell(w.execs[id]))
    ensures AllTell(Step(w, e).execs[id])
  {
    if id in w.execs && e.Advance? && e.id == id {
      ContinuedTells(w.execs[id], e.now);
    }
  }

  lemma {:induction false} EveryStoredStateTells(es: seq<Event>, id: string, k: nat)
    requires id in Run(es).execs && k < |Run(es).execs[id].stored|
    ensures AllTell(Run(es).execs[id]) && Tells(Run(es).execs[id], Run(es).execs[id].stored[k])
  {
    var w, e := Run(es[..|es| - 1]), es[|es| - 1];
    EveryStoredStateSound(es[..|es| - 1]);
    if id in w.execs {
      assert ExecOk(w.execs[id]);
      EveryStoredStateTells(es[..|es| - 1], id, 0);
    }
    StepKeepsTelling(w, e, id);
  }

  /** A start stores a running instance of the definition at its first step, without results. */
  lemma {:induction false} StartStores(w: World, d: Definition, id: string, tenant: string, input: string, now: int)
    requires id !in w.execs
    ensures var v := Step(w, Start(d, id, tenant, input, now));
      && id in v.execs && |v.execs[id].stored| == 1 && v.published == w.published
      && var i := v.execs[id].stored[0];
         && i.id == id && i.workflowId == d.id && i.version == d.version && i.tenantId == tenant && i.input == input
         && i.state == Running && i.currentStepIndex == 0 && i.stepResults == []
         && i.createdAt == now && i.updatedAt == now
         && i.currentStepId == (if |d.steps| == 0 then None else Some(d.steps[0].id))
  {
  }

  /** The event of a signal, and the time stamps of a finished step and of a failure. */
  lemma {:induction false} StepsAreStamped(x: Exec, now: int)
    requires ExecOk(x)
    ensures SignalType(x.i.id) == "workflow.signal." + x.i.id && COMPLETED == "workflow.completed"
    ensures var v := Continued(x, now);
      && (|v.i.stepResults| > |x.i.stepResults| || v.i.state == Done || v.i.state == Failed ==>
            v == x || v.i.updatedAt == now)
      && (x.phase.TimedOut? ==> v.i.state == Failed && v.i.error == Some(TIMEOUT_ERROR))
      && (x.phase.Signalled? ==> v.i.stepResults != [] && v.i.stepResults[|v.i.stepResults| - 1].Answered?
                                 && v.i.stepResults[|v.i.stepResults| - 1].data == x.phase.data)
  {
    assert Sound(x.d, x.i);
  }
}
