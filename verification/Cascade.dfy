/**
 * The cascading kill of src/reliability/timeout/cascade-kill.ts: signal, then abort, then kill,
 * each after its own delay.
 */
module Cascades {
  datatype Stage = Signal | Abort | Kill

  datatype Config = Config(signalDelayMs: int, abortDelayMs: int, killDelayMs: int)

  type TimerId = nat

  /** A timer the event loop holds: for which trigger of which registration of which task. */
  datatype Timer = Timer(task: string, stage: Stage, reg: nat, trig: nat, due: int)

  /** A callback that was called. */
  datatype Call = Call(trig: nat, reg: nat, stage: Stage, at: int)

  datatype Trigger = Trigger(task: string, reg: nat, at: int)

  /** The manager's four Maps, the event loop's timers, and what happened so far. */
  datatype State = State(
    callbacks: map<string, nat>,
    signalTimers: map<string, TimerId>, abortTimers: map<string, TimerId>, killTimers: map<string, TimerId>,
    pending: map<TimerId, Timer>, nextTimer: TimerId,
    triggers: seq<Trigger>, log: seq<Call>)

  const EMPTY: State := State(map[], map[], map[], map[], map[], 0, [], [])

  function Delay(cfg: Config, stage: Stage): int {
    match stage case Signal => cfg.signalDelayMs case Abort => cfg.abortDelayMs case Kill => cfg.killDelayMs
  }

  // ---------- What each operation does ----------

  function TimersOf(s: State, stage: Stage): map<string, TimerId> {
    match stage case Signal => s.signalTimers case Abort => s.abortTimers case Kill => s.killTimers
  }

  function Known(m: map<string, TimerId>, task: string): set<TimerId> {
    if task in m then {m[task]} else {}
  }

  function Cleared(s: State, task: string): State {
    s.(pending := s.pending - Known(s.signalTimers, task) - Known(s.abortTimers, task) - Known(s.killTimers, task),
       signalTimers := s.signalTimers - {task}, abortTimers := s.abortTimers - {task},
       killTimers := s.killTimers - {task})
  }

  function Registered(s: State, task: string, reg: nat): State {
    s.(callbacks := s.callbacks[task := reg])
  }

  function Cancelled(s: State, task: string): State {
    var c := Cleared(s, task);
    c.(callbacks := c.callbacks - {task})
  }

  /** A new timer, remembered in the stage's Map. */
  function Armed(s: State, t: Timer): State {
    var id := s.nextTimer;
    s.(pending := s.pending[id := t], nextTimer := id + 1,
       signalTimers := Remembered(s.signalTimers, t, Signal, id),
       abortTimers := Remembered(s.abortTimers, t, Abort, id),
       killTimers := Remembered(s.killTimers, t, Kill, id))
  }

  function Remembered(m: map<string, TimerId>, t: Timer, stage: Stage, id: TimerId): map<string, TimerId> {
    if t.stage == stage then m[t.task := id] else m
  }

  function Triggered(cfg: Config, s: State, task: string, now: int): State {
    if task !in s.callbacks then s
    else
      var c := Cleared(s, task);
      var v := c.(triggers := c.triggers + [Trigger(task, s.callbacks[task], now)]);
      Armed(v, Timer(task, Signal, s.callbacks[task], |s.triggers|, now + cfg.signalDelayMs))
  }

  /** A due timer runs its callback and, except after the kill, arms the next stage. */
  function Fired(cfg: Config, s: State, id: TimerId, now: int): State
    requires id in s.pending
  {
    var t := s.pending[id];
    var v := s.(pending := s.pending - {id}, log := s.log + [Call(t.trig, t.reg, t.stage, now)]);
    match t.stage
    case Signal => Armed(v, t.(stage := Abort, due := now + cfg.abortDelayMs))
    case Abort => Armed(v, t.(stage := Kill, due := now + cfg.killDelayMs))
    case Kill => Cancelled(v, t.task)
  }

  // ---------- The class ----------

  class CascadeKillManager {
    const config: Config
    var callbacks: map<string, nat>
    var signalTimers: map<string, TimerId>
    var abortTimers: map<string, TimerId>
    var killTimers: map<string, TimerId>
    var pending: map<TimerId, Timer>  // the event loop
    var nextTimer: TimerId
    var triggers: seq<Trigger>
    var log: seq<Call>

    constructor (config: Config)
      ensures this.config == config && View() == EMPTY
    {
      this.config := config;
      callbacks, signalTimers, abortTimers, killTimers := map[], map[], map[], map[];
      pending, nextTimer, triggers, log := map[], 0, [], [];
    }

    function View(): State
      reads this
    {
      State(callbacks, signalTimers, abortTimers, killTimers, pending, nextTimer, triggers, log)
    }

    method SetTimer(t: Timer) returns (id: TimerId)
      modifies this`pending, this`nextTimer
      ensures id == old(nextTimer) && nextTimer == id + 1 && pending == old(pending)[id := t]
    {
      id := nextTimer;
      pending, nextTimer := pending[id := t], nextTimer + 1;
    }

    method ClearTimers(task: string)
      modifies this
      ensures View() == Cleared(old(View()), task)
    {
      if task in signalTimers {
        pending := pending - {signalTimers[task]};
      }
      if task in abortTimers {
        pending := pending - {abortTimers[task]};
      }
      if task in killTimers {
        pending := pending - {killTimers[task]};
      }
      signalTimers := signalTimers - {task};
      abortTimers := abortTimers - {task};
      killTimers := killTimers - {task};
      assert pending == Cleared(old(View()), task).pending;
    }

    method Register(task: string, reg: nat)
      modifies this
      ensures View() == Registered(old(View()), task, reg)
    {
      callbacks := callbacks[task := reg];
    }

    /** The handle's cancel. */
    method Cancel(task: string)
      modifies this
      ensures View() == Cancelled(old(View()), task)
    {
      ClearTimers(task);
      callbacks := callbacks - {task};
    }

    method TriggerTask(task: string, now: int)
      modifies this
      ensures View() == Triggered(config, old(View()), task, now)
    {
      if task !in callbacks {
        return;
      }
      var cb := callbacks[task];
      ClearTimers(task);
      triggers := triggers + [Trigger(task, cb, now)];
      var id := SetTimer(Timer(task, Signal, cb, |triggers| - 1, now + config.signalDelayMs));
      signalTimers := signalTimers[task := id];
    }

    /** The event loop runs a timer's callback. */
    method Fire(id: TimerId, now: int)
      requires id in pending
      modifies this
      ensures View() == Fired(config, old(View()), id, now)
    {
      var t := pending[id];
      pending := pending - {id};
      log := log + [Call(t.trig, t.reg, t.stage, now)];
      match t.stage {
        case Signal =>
          var a := SetTimer(Timer(t.task, Abort, t.reg, t.trig, now + config.abortDelayMs));
          abortTimers := abortTimers[t.task := a];
        case Abort =>
          var k := SetTimer(Timer(t.task, Kill, t.reg, t.trig, now + config.killDelayMs));
          killTimers := killTimers[t.task := k];
        case Kill =>
          ClearTimers(t.task);
          callbacks := callbacks - {t.task};
      }
    }
  }

  // ---------- Runs ----------

  /** `regs` numbers the registrations and says for which task each was made. */
  datatype World = World(s: State, clock: int, regs: seq<string>)

  datatype Event =
    | DoRegister(task: string, dt: nat)
    | DoCancel(task: string, dt: nat)
    | DoTrigger(task: string, dt: nat)
    | DoFire(id: TimerId, dt: nat)  // happens only to a timer that is due

  function Step(cfg: Config, w: World, e: Event): World {
    var now := w.clock + e.dt;
    match e
    case DoRegister(task, _) => World(Registered(w.s, task, |w.regs|), now, w.regs + [task])
    case DoCancel(task, _) => World(Cancelled(w.s, task), now, w.regs)
    case DoTrigger(task, _) => World(Triggered(cfg, w.s, task, now), now, w.regs)
    case DoFire(id, _) =>
      if id in w.s.pending && w.s.pending[id].due <= now then World(Fired(cfg, w.s, id, now), now, w.regs)
      else w.(clock := now)
  }

  function Run(cfg: Config, w: World, es: seq<Event>): World {
    if es == [] then w else Step(cfg, Run(cfg, w, es[..|es| - 1]), es[|es| - 1])
  }

  function Init(t: int): World {
    World(EMPTY, t, [])
  }

  // ---------- What every step keeps ----------

  /** Every timer the loop holds is the one its stage's Map knows for its task, which is registered. */
  ghost predicate TimerOk(w: World, id: TimerId)
    requires id in w.s.pending
  {
    var t := w.s.pending[id];
    && id < w.s.nextTimer
    && t.task in TimersOf(w.s, t.stage) && TimersOf(w.s, t.stage)[t.task] == id
    && t.task in w.s.callbacks
    && t.trig < |w.s.triggers| && w.s.triggers[t.trig].task == t.task && w.s.triggers[t.trig].reg == t.reg
  }

  /** What a Map remembers for a task is that task's timer of that stage, or one that is gone. */
  ghost predicate MemoryOk(w: World, stage: Stage, task: string)
    requires task in TimersOf(w.s, stage)
  {
    var id := TimersOf(w.s, stage)[task];
    && id < w.s.nextTimer
    && (id in w.s.pending ==> w.s.pending[id].task == task && w.s.pending[id].stage == stage)
  }

  ghost predicate RegistrationOk(w: World, task: string)
    requires task in w.s.callbacks
  {
    w.s.callbacks[task] < |w.regs| && w.regs[w.s.callbacks[task]] == task
  }

  ghost predicate TriggerOk(w: World, g: nat)
    requires g < |w.s.triggers|
  {
    var t := w.s.triggers[g];
    t.reg < |w.regs| && w.regs[t.reg] == t.task && t.at <= w.clock
  }

  ghost predicate OnePerTask(w: World) {
    forall a, b :: a in w.s.pending && b in w.s.pending && w.s.pending[a].task == w.s.pending[b].task ==> a == b
  }

  ghost predicate Inv(w: World) {
    && (forall id {:trigger TimerOk(w, id)} :: id in w.s.pending ==> TimerOk(w, id))
    && (forall stage, task {:trigger MemoryOk(w, stage, task)} ::
          task in TimersOf(w.s, stage) ==> MemoryOk(w, stage, task))
    && (forall task {:trigger RegistrationOk(w, task)} :: task in w.s.callbacks ==> RegistrationOk(w, task))
    && (forall g: nat {:trigger TriggerOk(w, g)} :: g < |w.s.triggers| ==> TriggerOk(w, g))
    && OnePerTask(w)
  }

  /** Clearing removes every timer of the task and no other. */
  lemma {:induction false} ClearedExactly(w: World, task: string)
    requires Inv(w)
    ensures var c := Cleared(w.s, task);
      && (forall id :: id in c.pending <==> id in w.s.pending && w.s.pending[id].task != task)
      && (forall id :: id in c.pending ==> c.pending[id] == w.s.pending[id])
  {
    forall id | id in w.s.pending
      ensures id in Cleared(w.s, task).pending <==> w.s.pending[id].task != task
    {
      assert TimerOk(w, id);
      if task in w.s.signalTimers {
        assert MemoryOk(w, Signal, task);
      }
      if task in w.s.abortTimers {
        assert MemoryOk(w, Abort, task);
      }
      if task in w.s.killTimers {
        assert MemoryOk(w, Kill, task);
      }
    }
  }

  /** And the Maps forget them. */
  lemma {:induction false} ClearedForgets(s: State, task: string)
    ensures var c := Cleared(s, task); task !in c.signalTimers && task !in c.abortTimers && task !in c.killTimers
  {
  }

  lemma {:induction false} ClearedInv(w: World, task: string)
    requires Inv(w)
    ensures Inv(w.(s := Cleared(w.s, task)))
  {
    var v := w.(s := Cleared(w.s, task));
    ClearedExactly(w, task);
    forall id | id in v.s.pending
      ensures TimerOk(v, id)
    {
      assert TimerOk(w, id);
    }
    forall stage, other | other in TimersOf(v.s, stage)
      ensures MemoryOk(v, stage, other)
    {
      assert MemoryOk(w, stage, other);
    }
    forall other | other in v.s.callbacks
      ensures RegistrationOk(v, other)
    {
      assert RegistrationOk(w, other);
    }
    forall g: nat | g < |v.s.triggers|
      ensures TriggerOk(v, g)
    {
      assert TriggerOk(w, g);
    }
  }

  /** Arming is safe for a registered task that has no other timer. */
  lemma {:induction false} ArmedInv(w: World, t: Timer)
    requires Inv(w)
    requires t.task in w.s.callbacks
    requires t.trig < |w.s.triggers| && w.s.triggers[t.trig].task == t.task && w.s.triggers[t.trig].reg == t.reg
    requires forall id :: id in w.s.pending ==> w.s.pending[id].task != t.task
    ensures Inv(w.(s := Armed(w.s, t)))
  {
    var v := w.(s := Armed(w.s, t));
    forall id | id in w.s.pending
      ensures id < w.s.nextTimer && TimerOk(v, id)
    {
      assert TimerOk(w, id);
    }
    forall stage, other | other in TimersOf(v.s, stage)
      ensures MemoryOk(v, stage, other)
    {
      ArmedMemory(w, t, stage, other);
    }
    forall other | other in v.s.callbacks
      ensures RegistrationOk(v, other)
    {
      assert RegistrationOk(w, other);
    }
    forall g: nat | g < |v.s.triggers|
      ensures TriggerOk(v, g)
    {
      assert TriggerOk(w, g);
    }
    ArmedOnePerTask(w, t);
  }

  lemma {:induction false} ArmedMemory(w: World, t: Timer, stage: Stage, task: string)
    requires task in TimersOf(Armed(w.s, t), stage)
    requires task in TimersOf(w.s, stage) ==> MemoryOk(w, stage, task)
    ensures MemoryOk(w.(s := Armed(w.s, t)), stage, task)
  {
  }

  lemma {:induction false} ArmedOnePerTask(w: World, t: Timer)
    requires OnePerTask(w) && w.s.nextTimer !in w.s.pending
    requires forall id :: id in w.s.pending ==> w.s.pending[id].task != t.task
    ensures OnePerTask(w.(s := Armed(w.s, t)))
  {
  }

  /** Registering, dropping a task without timers, noting a trigger, and time passing keep everything. */
  lemma {:induction false} BookkeepingInv(w: World, v: World)
    requires Inv(w)
    requires v.s.pending.Keys <= w.s.pending.Keys
    requires forall id :: id in v.s.pending ==> v.s.pending[id] == w.s.pending[id]
    requires v.s.nextTimer == w.s.nextTimer && v.clock >= w.clock
    requires forall stage :: TimersOf(v.s, stage) == TimersOf(w.s, stage)
    requires w.regs <= v.regs && w.s.triggers <= v.s.triggers
    requires forall task :: task in v.s.callbacks ==> RegistrationOk(v, task)
    requires forall id :: id in v.s.pending ==> v.s.pending[id].task in v.s.callbacks
    requires forall g: nat :: |w.s.triggers| <= g < |v.s.triggers| ==> TriggerOk(v, g)
    ensures Inv(v)
  {
    forall id | id in v.s.pending
      ensures TimerOk(v, id)
    {
      assert TimerOk(w, id);
    }
    forall stage, task | task in TimersOf(v.s, stage)
      ensures MemoryOk(v, stage, task)
    {
      assert MemoryOk(w, stage, task);
    }
    forall g: nat | g < |v.s.triggers|
      ensures TriggerOk(v, g)
    {
      assert g < |w.s.triggers| ==> TriggerOk(w, g);
    }
  }

  lemma {:induction false} CancelledInv(w: World, task: string)
    requires Inv(w)
    ensures Inv(w.(s := Cancelled(w.s, task)))
  {
    var c := w.(s := Cleared(w.s, task));
    ClearedInv(w, task);
    ClearedExactly(w, task);
    forall id | id in c.s.pending
      ensures c.s.pending[id].task in c.s.callbacks - {task}
    {
      assert TimerOk(c, id);
    }
    var v := w.(s := Cancelled(w.s, task));
    forall other | other in v.s.callbacks
      ensures RegistrationOk(v, other)
    {
      assert RegistrationOk(c, other);
    }
    BookkeepingInv(c, v);
  }

  lemma {:induction false} TickInv(w: World, now: int)
    requires Inv(w) && now >= w.clock
    ensures Inv(w.(clock := now))
  {
    var v := w.(clock := now);
    forall task | task in v.s.callbacks
      ensures RegistrationOk(v, task)
    {
      assert RegistrationOk(w, task);
    }
    forall id | id in v.s.pending
      ensures v.s.pending[id].task in v.s.callbacks
    {
      assert TimerOk(w, id);
    }
    BookkeepingInv(w, v);
  }

  lemma {:induction false} RegisteredInv(w: World, task: string)
    requires Inv(w)
    ensures Inv(World(Registered(w.s, task, |w.regs|), w.clock, w.regs + [task]))
  {
    var v := World(Registered(w.s, task, |w.regs|), w.clock, w.regs + [task]);
    forall other | other in v.s.callbacks
      ensures RegistrationOk(v, other)
    {
      assert other != task ==> RegistrationOk(w, other);
    }
    forall id | id in v.s.pending
      ensures v.s.pending[id].task in v.s.callbacks
    {
      assert TimerOk(w, id);
    }
    BookkeepingInv(w, v);
  }

  lemma {:induction false} TriggeredInv(cfg: Config, w: World, task: string)
    requires Inv(w)
    ensures Inv(w.(s := Triggered(cfg, w.s, task, w.clock)))
  {
    if task in w.s.callbacks {
      var c := w.(s := Cleared(w.s, task));
      ClearedInv(w, task);
      ClearedExactly(w, task);
      assert RegistrationOk(w, task);
      var t := Trigger(task, w.s.callbacks[task], w.clock);
      var v := c.(s := c.s.(triggers := c.s.triggers + [t]));
      forall other | other in v.s.callbacks
        ensures RegistrationOk(v, other)
      {
        assert RegistrationOk(c, other);
      }
      forall id | id in v.s.pending
        ensures v.s.pending[id].task in v.s.callbacks
      {
        assert TimerOk(c, id);
      }
      BookkeepingInv(c, v);
      ArmedInv(v, Timer(task, Signal, t.reg, |w.s.triggers|, w.clock + cfg.signalDelayMs));
    }
  }

  lemma {:induction false} CalledInv(w: World, id: TimerId, log: seq<Call>)
    requires Inv(w)
    ensures Inv(w.(s := w.s.(pending := w.s.pending - {id}, log := log)))
  {
    var v := w.(s := w.s.(pending := w.s.pending - {id}, log := log));
    forall task | task in v.s.callbacks
      ensures RegistrationOk(v, task)
    {
      assert RegistrationOk(w, task);
    }
    forall other | other in v.s.pending
      ensures v.s.pending[other].task in v.s.callbacks
    {
      assert TimerOk(w, other);
    }
    BookkeepingInv(w, v);
  }

  lemma {:induction false} FiredInv(cfg: Config, w: World, id: TimerId)
    requires Inv(w) && id in w.s.pending
    ensures Inv(w.(s := Fired(cfg, w.s, id, w.clock)))
  {
    var t := w.s.pending[id];
    assert TimerOk(w, id);
    var v := w.(s := w.s.(pending := w.s.pending - {id}, log := w.s.log + [Call(t.trig, t.reg, t.stage, w.clock)]));
    CalledInv(w, id, v.s.log);
    match t.stage {
      case Signal => ArmedInv(v, t.(stage := Abort, due := w.clock + cfg.abortDelayMs));
      case Abort => ArmedInv(v, t.(stage := Kill, due := w.clock + cfg.killDelayMs));
      case Kill => CancelledInv(v, t.task);
    }
  }

  lemma {:induction false} StepKeepsInv(cfg: Config, w: World, e: Event)
    requires Inv(w)
    ensures Inv(Step(cfg, w, e))
  {
    var v := w.(clock := w.clock + e.dt);
    TickInv(w, v.clock);
    match e {
      case DoRegister(task, _) => RegisteredInv(v, task);
      case DoCancel(task, _) => CancelledInv(v, task);
      case DoTrigger(task, _) => TriggeredInv(cfg, v, task);
      case DoFire(id, _) =>
        if id in v.s.pending && v.s.pending[id].due <= v.clock {
          FiredInv(cfg, v, id);
        }
    }
  }

  lemma {:induction false} RunKeepsInv(cfg: Config, t: int, es: seq<Event>)
    ensures Inv(Run(cfg, Init(t), es))
  {
    if es != [] {
      RunKeepsInv(cfg, t, es[..|es| - 1]);
      StepKeepsInv(cfg, Run(cfg, Init(t), es[..|es| - 1]), es[|es| - 1]);
    }
  }

  /** A task has at most one timer pending, whatever was registered, cancelled, triggered or fired. */
  lemma {:induction false} OneTimerPerTask(cfg: Config, t: int, es: seq<Event>, a: TimerId, b: TimerId)
    requires var p := Run(cfg, Init(t), es).s.pending; a in p && b in p && p[a].task == p[b].task
    ensures a == b
  {
    RunKeepsInv(cfg, t, es);
  }

  // ---------- What one step changes ----------

  predicate Fires(w: World, e: Event) {
    e.DoFire? && e.id in w.s.pending && w.s.pending[e.id].due <= w.clock + e.dt
  }

  function CallMade(w: World, e: Event): Call
    requires Fires(w, e)
  {
    var t := w.s.pending[e.id];
    Call(t.trig, t.reg, t.stage, w.clock + e.dt)
  }

  lemma {:induction false} StepLog(cfg: Config, w: World, e: Event)
    ensures var v := Step(cfg, w, e).s;
      && v.log == w.s.log + (if Fires(w, e) then [CallMade(w, e)] else [])
      && w.s.triggers <= v.triggers
      && (!e.DoTrigger? ==> v.triggers == w.s.triggers)
  {
  }

  function Next(cfg: Config, t: Timer, now: int): Timer
    requires t.stage != Kill
  {
    if t.stage == Signal then t.(stage := Abort, due := now + cfg.abortDelayMs)
    else t.(stage := Kill, due := now + cfg.killDelayMs)
  }

  /** A timer that is pending after a step was pending before, or the step armed it. */
  lemma {:induction false} StepTimers(cfg: Config, w: World, e: Event, k: TimerId)
    requires k in Step(cfg, w, e).s.pending
    ensures var u := Step(cfg, w, e).s.pending[k];
      || (k in w.s.pending && u == w.s.pending[k] && !(Fires(w, e) && e.id == k && k != w.s.nextTimer))
      || (k == w.s.nextTimer && Fires(w, e) && w.s.pending[e.id].stage != Kill
          && u == Next(cfg, w.s.pending[e.id], w.clock + e.dt))
      || (k == w.s.nextTimer && e.DoTrigger? && e.task in w.s.callbacks
          && u == Timer(e.task, Signal, w.s.callbacks[e.task], |w.s.triggers|, w.clock + e.dt + cfg.signalDelayMs))
  {
  }

  // ---------- The calls of one trigger ----------

  const STAGES: seq<Stage> := [Signal, Abort, Kill]

  function CallsOf(log: seq<Call>, g: nat): seq<Call> {
    if log == [] then []
    else
      var l := log[|log| - 1];
      CallsOf(log[..|log| - 1], g) + if l.trig == g then [l] else []
  }

  lemma {:induction false} CallsOfSnoc(log: seq<Call>, c: Call, g: nat)
    ensures CallsOf(log + [c], g) == CallsOf(log, g) + if c.trig == g then [c] else []
  {
    assert (log + [c])[..|log|] == log;
  }

  /** The moment the delay before the `i`-th call counts from. */
  function Since(t: Trigger, calls: seq<Call>, i: nat): int
    requires i <= |calls|
  {
    if i == 0 then t.at else calls[i - 1].at
  }

  /** The calls are signal, abort, kill in that order, as far as they go, each after its delay. */
  ghost predicate Paced(cfg: Config, t: Trigger, calls: seq<Call>) {
    && |calls| <= 3
    && (forall i: nat {:trigger calls[i]} :: i < |calls| ==>
          && calls[i].stage == STAGES[i] && calls[i].reg == t.reg
          && calls[i].at >= Since(t, calls, i) + Delay(cfg, STAGES[i]))
  }

  /** A pending timer is for the next call of its trigger, and is due a delay after the last one. */
  ghost predicate NextUp(cfg: Config, s: State, id: TimerId)
    requires id in s.pending && s.pending[id].trig < |s.triggers|
  {
    var t := s.pending[id];
    var calls := CallsOf(s.log, t.trig);
    && |calls| < 3 && t.stage == STAGES[|calls|]
    && t.due == Since(s.triggers[t.trig], calls, |calls|) + Delay(cfg, t.stage)
  }

  ghost predicate ChainsOk(cfg: Config, s: State) {
    && (forall i :: 0 <= i < |s.log| ==> s.log[i].trig < |s.triggers|)
    && (forall g: nat :: g < |s.triggers| ==> Paced(cfg, s.triggers[g], CallsOf(s.log, g)))
    && (forall id :: id in s.pending ==> s.pending[id].trig < |s.triggers| && NextUp(cfg, s, id))
  }

  lemma {:induction false} NoCallsYet(log: seq<Call>, g: nat)
    requires forall i :: 0 <= i < |log| ==> log[i].trig != g
    ensures CallsOf(log, g) == []
  {
    if log != [] {
      NoCallsYet(log[..|log| - 1], g);
    }
  }

  /** Another trigger's call does not concern the timer. */
  lemma {:induction false} NextUpKept(cfg: Config, w: World, e: Event, k: TimerId)
    requires Inv(w) && ChainsOk(cfg, w.s) && k in w.s.pending && k in Step(cfg, w, e).s.pending
    requires !(Fires(w, e) && e.id == k)
    ensures var v := Step(cfg, w, e).s; v.pending[k].trig < |v.triggers| && NextUp(cfg, v, k)
  {
    assert TimerOk(w, k);
    StepTimers(cfg, w, e, k);
    StepLog(cfg, w, e);
    if Fires(w, e) {
      OtherTrigger(w, e.id, k);
      CallsOfSnoc(w.s.log, CallMade(w, e), w.s.pending[k].trig);
    }
    NextUpStable(cfg, w.s, Step(cfg, w, e).s, k);
  }

  lemma {:induction false} OtherTrigger(w: World, a: TimerId, b: TimerId)
    requires Inv(w) && a in w.s.pending && b in w.s.pending && a != b
    ensures w.s.pending[a].trig != w.s.pending[b].trig
  {
    assert TimerOk(w, a) && TimerOk(w, b);
  }

  lemma {:induction false} NextUpStable(cfg: Config, s: State, v: State, k: TimerId)
    requires k in s.pending && k in v.pending && v.pending[k] == s.pending[k] && s.triggers <= v.triggers
    requires s.pending[k].trig < |s.triggers| && NextUp(cfg, s, k)
    requires CallsOf(v.log, s.pending[k].trig) == CallsOf(s.log, s.pending[k].trig)
    ensures NextUp(cfg, v, k)
  {
  }

  /** The next timer of the trigger whose callback was called. */
  lemma {:induction false} NextUpArmed(cfg: Config, w: World, e: Event, k: TimerId)
    requires Inv(w) && ChainsOk(cfg, w.s) && k !in w.s.pending && k in Step(cfg, w, e).s.pending && Fires(w, e)
    ensures var v := Step(cfg, w, e).s; v.pending[k].trig < |v.triggers| && NextUp(cfg, v, k)
  {
    assert TimerOk(w, e.id) && NextUp(cfg, w.s, e.id);
    StepTimers(cfg, w, e, k);
    StepLog(cfg, w, e);
    CallsOfSnoc(w.s.log, CallMade(w, e), w.s.pending[e.id].trig);
  }

  lemma {:induction false} FiredIsGone(cfg: Config, w: World, e: Event)
    requires Inv(w) && Fires(w, e)
    ensures e.id !in Step(cfg, w, e).s.pending
  {
    assert TimerOk(w, e.id);
  }

  lemma {:induction false} NextUpAfter(cfg: Config, w: World, e: Event, k: TimerId)
    requires Inv(w) && ChainsOk(cfg, w.s) && k in Step(cfg, w, e).s.pending
    ensures var v := Step(cfg, w, e).s; v.pending[k].trig < |v.triggers| && NextUp(cfg, v, k)
  {
    if k in w.s.pending {
      if Fires(w, e) {
        FiredIsGone(cfg, w, e);
      }
      NextUpKept(cfg, w, e, k);
    } else if Fires(w, e) {
      NextUpArmed(cfg, w, e, k);
    } else {
      StepTimers(cfg, w, e, k);
      StepLog(cfg, w, e);
      NoCallsYet(w.s.log, |w.s.triggers|);
    }
  }

  lemma {:induction false} PacedAfter(cfg: Config, w: World, e: Event, g: nat)
    requires Inv(w) && ChainsOk(cfg, w.s) && g < |Step(cfg, w, e).s.triggers|
    ensures var v := Step(cfg, w, e).s; Paced(cfg, v.triggers[g], CallsOf(v.log, g))
  {
    StepLog(cfg, w, e);
    if Fires(w, e) {
      CallsOfSnoc(w.s.log, CallMade(w, e), g);
      assert TimerOk(w, e.id);
      if w.s.pending[e.id].trig == g {
        NextCallPaced(cfg, w, e);
      }
    } else if g == |w.s.triggers| {
      NoCallsYet(w.s.log, g);
    }
  }

  /** The callback that is called is the next one, and not early. */
  lemma {:induction false} NextCallPaced(cfg: Config, w: World, e: Event)
    requires Inv(w) && ChainsOk(cfg, w.s) && Fires(w, e) && w.s.pending[e.id].trig < |w.s.triggers|
    ensures var g := w.s.pending[e.id].trig;
      Paced(cfg, w.s.triggers[g], CallsOf(w.s.log, g) + [CallMade(w, e)])
  {
    var g := w.s.pending[e.id].trig;
    assert TimerOk(w, e.id) && NextUp(cfg, w.s, e.id);
    assert Paced(cfg, w.s.triggers[g], CallsOf(w.s.log, g));
  }

  lemma {:induction false} StepKeepsChains(cfg: Config, w: World, e: Event)
    requires Inv(w) && ChainsOk(cfg, w.s)
    ensures ChainsOk(cfg, Step(cfg, w, e).s)
  {
    var v := Step(cfg, w, e).s;
    StepLog(cfg, w, e);
    if Fires(w, e) {
      assert TimerOk(w, e.id);
    }
    forall g: nat | g < |v.triggers|
      ensures Paced(cfg, v.triggers[g], CallsOf(v.log, g))
    {
      PacedAfter(cfg, w, e, g);
    }
    forall k | k in v.pending
      ensures v.pending[k].trig < |v.triggers| && NextUp(cfg, v, k)
    {
      NextUpAfter(cfg, w, e, k);
    }
  }

  lemma {:induction false} RunKeepsChains(cfg: Config, t: int, es: seq<Event>)
    ensures ChainsOk(cfg, Run(cfg, Init(t), es).s)
  {
    if es != [] {
      RunKeepsChains(cfg, t, es[..|es| - 1]);
      RunKeepsInv(cfg, t, es[..|es| - 1]);
      StepKeepsChains(cfg, Run(cfg, Init(t), es[..|es| - 1]), es[|es| - 1]);
    }
  }

  /**
   * The callbacks of each trigger are signal, abort, kill or a shorter start of that, all of the
   * registration that the task had when it was triggered, and none comes before the sum of the delays up to it.
   */
  lemma {:induction false} CallsArePrefix(cfg: Config, t: int, es: seq<Event>, g: nat)
    requires g < |Run(cfg, Init(t), es).s.triggers|
    ensures var s := Run(cfg, Init(t), es).s;
      var calls := CallsOf(s.log, g);
      && |calls| <= 3
      && (forall i :: 0 <= i < |calls| ==> calls[i].stage == STAGES[i] && calls[i].reg == s.triggers[g].reg)
      && (|calls| > 0 ==> calls[0].at >= s.triggers[g].at + cfg.signalDelayMs)
      && (|calls| > 1 ==> calls[1].at >= s.triggers[g].at + cfg.signalDelayMs + cfg.abortDelayMs)
      && (|calls| > 2 ==>
            calls[2].at >= s.triggers[g].at + cfg.signalDelayMs + cfg.abortDelayMs + cfg.killDelayMs)
  {
    RunKeepsChains(cfg, t, es);
    var s := Run(cfg, Init(t), es).s;
    var calls := CallsOf(s.log, g);
    assert Paced(cfg, s.triggers[g], calls);
    if |calls| > 0 { assert calls[0].at >= Since(s.triggers[g], calls, 0) + Delay(cfg, STAGES[0]); }
    if |calls| > 1 { assert calls[1].at >= Since(s.triggers[g], calls, 1) + Delay(cfg, STAGES[1]); }
    if |calls| > 2 { assert calls[2].at >= Since(s.triggers[g], calls, 2) + Delay(cfg, STAGES[2]); }
  }

  // ---------- Stopping ----------

  ghost predicate Running(s: State, g: nat) {
    exists id :: id in s.pending && s.pending[id].trig == g
  }

  lemma {:induction false} StepKeepsStopped(cfg: Config, w: World, e: Event, g: nat)
    requires g < |w.s.triggers| && !Running(w.s, g)
    ensures var v := Step(cfg, w, e).s; !Running(v, g) && CallsOf(v.log, g) == CallsOf(w.s.log, g)
  {
    var v := Step(cfg, w, e).s;
    StepLog(cfg, w, e);
    if Fires(w, e) {
      CallsOfSnoc(w.s.log, CallMade(w, e), g);
    }
    forall k | k in v.pending
      ensures v.pending[k].trig != g
    {
      StepTimers(cfg, w, e, k);
    }
  }

  /** Once a trigger has no timer, nothing ever gives it one, and its callbacks are over. */
  lemma {:induction false} StoppedStays(cfg: Config, w: World, es: seq<Event>, g: nat)
    requires g < |w.s.triggers| && !Running(w.s, g)
    ensures var v := Run(cfg, w, es).s;
      |w.s.triggers| <= |v.triggers| && !Running(v, g) && CallsOf(v.log, g) == CallsOf(w.s.log, g)
  {
    if es != [] {
      StoppedStays(cfg, w, es[..|es| - 1], g);
      StepKeepsStopped(cfg, Run(cfg, w, es[..|es| - 1]), es[|es| - 1], g);
      StepLog(cfg, Run(cfg, w, es[..|es| - 1]), es[|es| - 1]);
    }
  }

  /** Cancelling a task, or triggering it again while registered, stops every earlier trigger of it for good. */
  lemma {:induction false} CancelOrRetriggerStops(cfg: Config, t: int, es: seq<Event>, e: Event, more: seq<Event>,
                                                  g: nat)
    requires e.DoCancel? || e.DoTrigger?
    requires var w := Run(cfg, Init(t), es);
      g < |w.s.triggers| && w.s.triggers[g].task == e.task && (e.DoTrigger? ==> e.task in w.s.callbacks)
    ensures var w := Run(cfg, Init(t), es);
      CallsOf(Run(cfg, Step(cfg, w, e), more).s.log, g) == CallsOf(w.s.log, g)
  {
    RunKeepsInv(cfg, t, es);
    var w := Run(cfg, Init(t), es);
    var v := Step(cfg, w, e);
    ClearedExactly(w, e.task);
    assert !Running(v.s, g) by {
      forall id | id in v.s.pending
        ensures v.s.pending[id].trig != g
      {
        if id in Cleared(w.s, e.task).pending {
          assert TimerOk(w, id);
          assert id != w.s.nextTimer;
        }
      }
    }
    StoppedStays(cfg, v, more, g);
  }

  /** Does this event stop the task's earlier triggers? */
  predicate Stops(e: Event, task: string) {
    (e.DoCancel? || e.DoTrigger?) && e.task == task
  }

  /** A timer that does not fire survives every step that does not stop its task. */
  lemma {:induction false} OthersStay(cfg: Config, w: World, e: Event, id: TimerId)
    requires Inv(w) && id in w.s.pending && !(Fires(w, e) && e.id == id) && !Stops(e, w.s.pending[id].task)
    ensures var v := Step(cfg, w, e).s; id in v.pending && v.pending[id] == w.s.pending[id]
  {
    assert TimerOk(w, id);
    if Fires(w, e) {
      FiredSparesOthers(cfg, w, e.id, id, w.clock + e.dt);
    } else if e.DoCancel? || e.DoTrigger? {
      ClearedExactly(w, e.task);
    }
  }

  lemma {:induction false} FiredSparesOthers(cfg: Config, w: World, id: TimerId, other: TimerId, now: int)
    requires Inv(w) && id in w.s.pending && other in w.s.pending && id != other
    ensures var v := Fired(cfg, w.s, id, now); other in v.pending && v.pending[other] == w.s.pending[other]
  {
    var t := w.s.pending[id];
    assert TimerOk(w, other);
    assert w.s.pending[other].task != t.task;
    ClearedExactly(w, t.task);
    assert other in Cleared(w.s, t.task).pending;
    match t.stage
    case Signal =>
    case Abort =>
    case Kill =>
  }

  lemma {:induction false} Rearms(cfg: Config, w: World, e: Event)
    requires Fires(w, e) && w.s.pending[e.id].stage != Kill
    ensures var v := Step(cfg, w, e).s;
      w.s.nextTimer in v.pending && v.pending[w.s.nextTimer].trig == w.s.pending[e.id].trig
  {
  }

  ghost predicate OnItsWay(s: State, g: nat) {
    Running(s, g) || |CallsOf(s.log, g)| == 3
  }

  lemma {:induction false} StepKeepsRunning(cfg: Config, w: World, e: Event, g: nat)
    requires Inv(w) && ChainsOk(cfg, w.s) && g < |w.s.triggers| && Running(w.s, g)
    requires !Stops(e, w.s.triggers[g].task)
    ensures OnItsWay(Step(cfg, w, e).s, g)
  {
    var id :| id in w.s.pending && w.s.pending[id].trig == g;
    assert w.s.pending[id].task == w.s.triggers[g].task by { assert TimerOk(w, id); }
    if Fires(w, e) && e.id == id {
      if w.s.pending[id].stage == Kill {
        assert NextUp(cfg, w.s, id);
        StepLog(cfg, w, e);
        CallsOfSnoc(w.s.log, CallMade(w, e), g);
      } else {
        Rearms(cfg, w, e);
      }
    } else {
      OthersStay(cfg, w, e, id);
    }
  }

  lemma {:induction false} StepKeepsOnItsWay(cfg: Config, w: World, e: Event, g: nat)
    requires Inv(w) && ChainsOk(cfg, w.s) && g < |w.s.triggers| && OnItsWay(w.s, g)
    requires !Stops(e, w.s.triggers[g].task)
    ensures OnItsWay(Step(cfg, w, e).s, g)
  {
    if Running(w.s, g) {
      StepKeepsRunning(cfg, w, e, g);
    } else {
      StepKeepsStopped(cfg, w, e, g);
    }
  }

  /** A trigger whose task is neither cancelled nor triggered again goes on until all three callbacks were called. */
  lemma {:induction false} RunsToTheKill(cfg: Config, w: World, es: seq<Event>, g: nat)
    requires Inv(w) && ChainsOk(cfg, w.s) && g < |w.s.triggers| && OnItsWay(w.s, g)
    requires forall e :: e in es ==> !Stops(e, w.s.triggers[g].task)
    ensures var v := Run(cfg, w, es); Inv(v) && ChainsOk(cfg, v.s) && w.s.triggers <= v.s.triggers && OnItsWay(v.s, g)
  {
    if es != [] {
      var pre, e := es[..|es| - 1], es[|es| - 1];
      var u := Run(cfg, w, pre);
      RunsToTheKill(cfg, w, pre, g);
      assert e in es;
      StepKeepsOnItsWay(cfg, u, e, g);
      StepKeepsInv(cfg, u, e);
      StepKeepsChains(cfg, u, e);
      StepLog(cfg, u, e);
    }
  }

  // ---------- One kill per registration ----------

  ghost predicate KilledIsGone(w: World, i: nat)
    requires i < |w.s.log|
  {
    var r := w.s.log[i].reg;
    w.s.log[i].stage == Kill ==>
      && r < |w.regs|
      && (forall task :: task in w.s.callbacks ==> w.s.callbacks[task] != r)
      && (forall id :: id in w.s.pending ==> w.s.pending[id].reg != r)
      && (forall j :: 0 <= j < |w.s.log| && w.s.log[j].stage == Kill && w.s.log[j].reg == r ==> j == i)
  }

  /** The kill takes its registration out of the manager, with every timer armed for it. */
  lemma {:induction false} KillForgets(cfg: Config, w: World, e: Event)
    requires Inv(w) && Fires(w, e) && w.s.pending[e.id].stage == Kill
    ensures var r := w.s.pending[e.id].reg;
      var v := Step(cfg, w, e).s;
      && (forall task :: task in v.callbacks ==> v.callbacks[task] != r)
      && (forall id :: id in v.pending ==> v.pending[id].reg != r)
  {
    var t := w.s.pending[e.id];
    var v := Step(cfg, w, e).s;
    assert TimerOk(w, e.id) && TriggerOk(w, t.trig);
    forall task | task in v.callbacks
      ensures v.callbacks[task] != t.reg
    {
      assert RegistrationOk(w, task);
    }
    forall id | id in v.pending
      ensures v.pending[id].reg != t.reg
    {
      StepTimers(cfg, w, e, id);
      if id in w.s.pending {
        assert TimerOk(w, id) && TriggerOk(w, w.s.pending[id].trig);
        assert id != w.s.nextTimer;
      }
    }
  }

  /** A registration that nothing mentions any more is never mentioned again. */
  lemma {:induction false} ForgottenStays(cfg: Config, w: World, e: Event, r: nat)
    requires Inv(w) && r < |w.regs|
    requires forall task :: task in w.s.callbacks ==> w.s.callbacks[task] != r
    requires forall id :: id in w.s.pending ==> w.s.pending[id].reg != r
    ensures var v := Step(cfg, w, e);
      && r < |v.regs|
      && (forall task :: task in v.s.callbacks ==> v.s.callbacks[task] != r)
      && (forall id :: id in v.s.pending ==> v.s.pending[id].reg != r)
  {
    var v := Step(cfg, w, e).s;
    forall id | id in v.pending
      ensures v.pending[id].reg != r
    {
      StepTimers(cfg, w, e, id);
    }
  }

  lemma {:induction false} StepKeepsGone(cfg: Config, w: World, e: Event, i: nat)
    requires Inv(w) && forall k: nat :: k < |w.s.log| ==> KilledIsGone(w, k)
    requires i < |Step(cfg, w, e).s.log|
    ensures KilledIsGone(Step(cfg, w, e), i)
  {
    StepLog(cfg, w, e);
    if i < |w.s.log| {
      assert KilledIsGone(w, i);
      if w.s.log[i].stage == Kill {
        ForgottenStays(cfg, w, e, w.s.log[i].reg);
      }
    } else {
      var t := w.s.pending[e.id];
      assert TimerOk(w, e.id) && TriggerOk(w, t.trig);
      if t.stage == Kill {
        KillForgets(cfg, w, e);
        forall k: nat | k < |w.s.log| && w.s.log[k].stage == Kill
          ensures w.s.log[k].reg != t.reg
        {
          assert KilledIsGone(w, k);
        }
      }
    }
  }

  lemma {:induction false} RunKeepsGone(cfg: Config, t: int, es: seq<Event>, i: nat)
    requires i < |Run(cfg, Init(t), es).s.log|
    ensures KilledIsGone(Run(cfg, Init(t), es), i)
  {
    if es != [] {
      var w := Run(cfg, Init(t), es[..|es| - 1]);
      forall k: nat | k < |w.s.log|
        ensures KilledIsGone(w, k)
      {
        RunKeepsGone(cfg, t, es[..|es| - 1], k);
      }
      RunKeepsInv(cfg, t, es[..|es| - 1]);
      StepKeepsGone(cfg, w, es[|es| - 1], i);
    }
  }

  /** However often a task is registered, triggered and cancelled, one registration's kill is called at most once. */
  lemma {:induction false} OneKillPerRegistration(cfg: Config, t: int, es: seq<Event>, i: nat, j: nat)
    requires var log := Run(cfg, Init(t), es).s.log;
      i < |log| && j < |log| && log[i].stage == Kill && log[j].stage == Kill && log[i].reg == log[j].reg
    ensures i == j
  {
    RunKeepsGone(cfg, t, es, i);
    assert KilledIsGone(Run(cfg, Init(t), es), i);
  }

  // ---------- What a newer registration is worth ----------

  /** The event neither registers, cancels nor triggers the task. */
  predicate LeavesAlone(e: Event, task: string) {
    (e.DoRegister? ==> e.task != task) && !Stops(e, task)
  }

  /** While the chain runs, a step that leaves the task alone keeps its registration unless it is the kill. */
  lemma {:induction false} StepKeepsRegistration(cfg: Config, w: World, e: Event, g: nat)
    requires Inv(w) && ChainsOk(cfg, w.s) && g < |w.s.triggers| && Running(w.s, g)
    requires LeavesAlone(e, w.s.triggers[g].task)
    ensures var task := w.s.triggers[g].task; var v := Step(cfg, w, e).s;
      if Running(v, g) then task in w.s.callbacks && task in v.callbacks && v.callbacks[task] == w.s.callbacks[task]
      else task !in v.callbacks
  {
    var task := w.s.triggers[g].task;
    var id :| id in w.s.pending && w.s.pending[id].trig == g;
    assert TimerOk(w, id);
    if Fires(w, e) && e.id == id && w.s.pending[id].stage == Kill {
      KillEndsTrigger(cfg, w, e);
    } else {
      if Fires(w, e) && e.id == id {
        Rearms(cfg, w, e);
      } else {
        OthersStay(cfg, w, e, id);
      }
      assert Fires(w, e) && e.id != id ==> w.s.pending[e.id].task != task;
      RegistrationKept(cfg, w, e, task);
    }
  }

  lemma {:induction false} RegistrationKept(cfg: Config, w: World, e: Event, task: string)
    requires LeavesAlone(e, task) && task in w.s.callbacks
    requires Fires(w, e) && w.s.pending[e.id].stage == Kill ==> w.s.pending[e.id].task != task
    ensures var v := Step(cfg, w, e).s; task in v.callbacks && v.callbacks[task] == w.s.callbacks[task]
  {
  }

  lemma {:induction false} KillEndsTrigger(cfg: Config, w: World, e: Event)
    requires Inv(w) && Fires(w, e) && w.s.pending[e.id].stage == Kill
    ensures var v := Step(cfg, w, e).s; !Running(v, w.s.pending[e.id].trig) && w.s.pending[e.id].task !in v.callbacks
  {
    var t := w.s.pending[e.id];
    assert TimerOk(w, e.id);
    KillForgets(cfg, w, e);
    var v := Step(cfg, w, e).s;
    forall k | k in v.pending
      ensures v.pending[k].trig != t.trig
    {
      StepTimers(cfg, w, e, k);
      if k in w.s.pending {
        assert TimerOk(w, k);
      }
    }
  }

  /**
   * As long as nobody registers, cancels or triggers the task, whatever registration it has, also
   * one made after the trigger, survives exactly until the chain's kill.
   */
  lemma {:induction false} RegistrationSurvivesExactly(cfg: Config, w: World, es: seq<Event>, g: nat)
    requires Inv(w) && ChainsOk(cfg, w.s) && g < |w.s.triggers| && Running(w.s, g)
    requires forall e :: e in es ==> LeavesAlone(e, w.s.triggers[g].task)
    ensures var task := w.s.triggers[g].task; var v := Run(cfg, w, es);
      && Inv(v) && ChainsOk(cfg, v.s) && w.s.triggers <= v.s.triggers
      && task in w.s.callbacks
      && (task in v.s.callbacks && v.s.callbacks[task] == w.s.callbacks[task] <==> Running(v.s, g))
      && (task !in v.s.callbacks <==> !Running(v.s, g))
  {
    var task := w.s.triggers[g].task;
    if es == [] {
      var id :| id in w.s.pending && w.s.pending[id].trig == g;
      assert TimerOk(w, id);
    } else {
      var u, e := Run(cfg, w, es[..|es| - 1]), es[|es| - 1];
      assert e in es;
      RegistrationSurvivesExactly(cfg, w, es[..|es| - 1], g);
      StepKeepsInv(cfg, u, e);
      StepKeepsChains(cfg, u, e);
      StepLog(cfg, u, e);
      if Running(u.s, g) {
        StepKeepsRegistration(cfg, u, e, g);
      } else {
        StepKeepsStopped(cfg, u, e, g);
        StepRegistersNoOther(cfg, u, e, task);
      }
    }
  }

  /** The time to let pass before a timer of the stage is due. */
  function Wait(cfg: Config, stage: Stage): nat {
    if Delay(cfg, stage) < 0 then 0 else Delay(cfg, stage)
  }

  /** The only pending timer fires and arms the next stage. */
  lemma {:induction false} OnlyTimerFires(cfg: Config, w: World, t: Timer, id: TimerId, dt: nat)
    requires w.s.pending == map[id := t] && t.due <= w.clock + dt && t.stage != Kill
    ensures var v := Step(cfg, w, DoFire(id, dt));
      && v.s.pending == map[w.s.nextTimer := Next(cfg, t, w.clock + dt)] && v.s.nextTimer == w.s.nextTimer + 1
      && v.s.callbacks == w.s.callbacks && v.s.triggers == w.s.triggers && |v.s.log| == |w.s.log| + 1
      && v.clock == w.clock + dt && v.regs == w.regs
  {
  }

  lemma {:induction false} OnlyTimerKills(cfg: Config, w: World, t: Timer, id: TimerId, dt: nat)
    requires w.s.pending == map[id := t] && t.due <= w.clock + dt && t.stage == Kill
    ensures var v := Step(cfg, w, DoFire(id, dt)).s;
      v.callbacks == w.s.callbacks - {t.task} && v.log == w.s.log + [Call(t.trig, t.reg, Kill, w.clock + dt)]
  {
  }

  /** Registered, triggered, signalled, aborted, and registered again. */
  function MidChain(cfg: Config, task: string): seq<Event> {
    [DoRegister(task, 0), DoTrigger(task, 0), DoFire(0, Wait(cfg, Signal)), DoFire(1, Wait(cfg, Abort)),
     DoRegister(task, 0)]
  }

  lemma {:induction false} FirstTrigger(cfg: Config, t: int, task: string, signal: Timer)
    requires signal == Timer(task, Signal, 0, 0, t + cfg.signalDelayMs)
    ensures var w := Step(cfg, Step(cfg, Init(t), DoRegister(task, 0)), DoTrigger(task, 0));
      && w.s.pending == map[0 := signal] && w.s.nextTimer == 1 && w.s.callbacks == map[task := 0]
      && w.s.log == [] && w.clock == t && w.regs == [task]
  {
  }

  lemma {:induction false} RunOfFive(cfg: Config, w: World, a: Event, b: Event, c: Event, d: Event, e: Event)
    ensures Run(cfg, w, [a, b, c, d, e]) == Step(cfg, Step(cfg, Step(cfg, Step(cfg, Step(cfg, w, a), b), c), d), e)
  {
    RunSnoc(cfg, w, [], a);
    RunSnoc(cfg, w, [a], b);
    RunSnoc(cfg, w, [a, b], c);
    RunSnoc(cfg, w, [a, b, c], d);
    RunSnoc(cfg, w, [a, b, c, d], e);
    assert [] + [a] == [a] && [a] + [b] == [a, b] && [a, b] + [c] == [a, b, c];
    assert [a, b, c] + [d] == [a, b, c, d] && [a, b, c, d] + [e] == [a, b, c, d, e];
  }

  lemma {:induction false} MidChainState(cfg: Config, t: int, task: string) returns (kill: Timer)
    ensures var w := Run(cfg, Init(t), MidChain(cfg, task));
      && w.s.callbacks == map[task := 1] && w.s.pending == map[2 := kill] && |w.s.log| == 2
      && kill.task == task && kill.stage == Kill && kill.reg == 0 && kill.due == w.clock + cfg.killDelayMs
  {
    var w := Step(cfg, Step(cfg, Init(t), DoRegister(task, 0)), DoTrigger(task, 0));
    var signal := Timer(task, Signal, 0, 0, t + cfg.signalDelayMs);
    FirstTrigger(cfg, t, task, signal);
    kill := ToTheKill(cfg, w, signal);
    RunOfFive(cfg, Init(t), DoRegister(task, 0), DoTrigger(task, 0), DoFire(0, Wait(cfg, Signal)),
              DoFire(1, Wait(cfg, Abort)), DoRegister(task, 0));
  }

  lemma {:induction false} ToTheKill(cfg: Config, w: World, signal: Timer) returns (kill: Timer)
    requires w.s.pending == map[0 := signal] && w.s.nextTimer == 1 && w.s.log == [] && |w.regs| == 1
    requires signal.stage == Signal && signal.due == w.clock + cfg.signalDelayMs
    requires w.s.callbacks == map[signal.task := 0]
    ensures var u := Step(cfg, Step(cfg, w, DoFire(0, Wait(cfg, Signal))), DoFire(1, Wait(cfg, Abort)));
      var v := Step(cfg, u, DoRegister(signal.task, 0));
      && v.s.callbacks == map[signal.task := 1] && v.s.pending == map[2 := kill] && |v.s.log| == 2
      && kill.task == signal.task && kill.stage == Kill && kill.reg == signal.reg
      && kill.due == v.clock + cfg.killDelayMs
  {
    OnlyTimerFires(cfg, w, signal, 0, Wait(cfg, Signal));
    var u := Step(cfg, w, DoFire(0, Wait(cfg, Signal)));
    var abort := Next(cfg, signal, u.clock);
    kill := FromTheAbort(cfg, u, abort);
  }

  lemma {:induction false} FromTheAbort(cfg: Config, w: World, abort: Timer) returns (kill: Timer)
    requires w.s.pending == map[1 := abort] && w.s.nextTimer == 2 && |w.s.log| == 1 && |w.regs| == 1
    requires abort.stage == Abort && abort.due == w.clock + cfg.abortDelayMs && w.s.callbacks == map[abort.task := 0]
    ensures var v := Step(cfg, Step(cfg, w, DoFire(1, Wait(cfg, Abort))), DoRegister(abort.task, 0));
      && v.s.callbacks == map[abort.task := 1] && v.s.pending == map[2 := kill] && |v.s.log| == 2
      && kill.task == abort.task && kill.stage == Kill && kill.reg == abort.reg && kill.due == v.clock + cfg.killDelayMs
  {
    OnlyTimerFires(cfg, w, abort, 1, Wait(cfg, Abort));
    kill := Next(cfg, abort, Step(cfg, w, DoFire(1, Wait(cfg, Abort))).clock);
  }

  /** In that run the older registration's kill is called, and the newer registration is lost. */
  lemma {:induction false} NewerRegistrationLost(cfg: Config, t: int, task: string)
    ensures var w := Run(cfg, Init(t), MidChain(cfg, task));
      var v := Run(cfg, Init(t), MidChain(cfg, task) + [DoFire(2, Wait(cfg, Kill))]);
      && w.s.callbacks == map[task := 1] && v.s.callbacks == map[]
      && v.s.log[..|w.s.log|] == w.s.log && |v.s.log| == |w.s.log| + 1
      && v.s.log[|w.s.log|].stage == Kill && v.s.log[|w.s.log|].reg == 0
  {
    var w := Run(cfg, Init(t), MidChain(cfg, task));
    var kill := MidChainState(cfg, t, task);
    OnlyTimerKills(cfg, w, kill, 2, Wait(cfg, Kill));
    RunSnoc(cfg, Init(t), MidChain(cfg, task), DoFire(2, Wait(cfg, Kill)));
  }

  lemma {:induction false} RunSnoc(cfg: Config, w: World, es: seq<Event>, e: Event)
    ensures Run(cfg, w, es + [e]) == Step(cfg, Run(cfg, w, es), e)
  {
    assert (es + [e])[..|es|] == es;
  }

  /** When a kill is called, the task loses whatever registration it has by then, also one made after the trigger. */
  lemma {:induction false} KillDropsNewerRegistration(cfg: Config, w: World, id: TimerId, dt: nat, more: seq<Event>)
    requires Inv(w) && id in w.s.pending && w.s.pending[id].stage == Kill && w.s.pending[id].due <= w.clock + dt
    requires var task := w.s.pending[id].task; forall e :: e in more ==> !(e.DoRegister? && e.task == task)
    ensures var task := w.s.pending[id].task;
      var v := Run(cfg, Step(cfg, w, DoFire(id, dt)), more);
      && task !in v.s.callbacks
      && (forall now :: Triggered(cfg, v.s, task, now) == v.s)
      && (forall k :: k in v.s.pending ==> v.s.pending[k].task != task)
  {
    var task := w.s.pending[id].task;
    var v := Step(cfg, w, DoFire(id, dt));
    StepKeepsInv(cfg, w, DoFire(id, dt));
    StaysUnregistered(cfg, v, more, task);
  }

  lemma {:induction false} StepRegistersNoOther(cfg: Config, w: World, e: Event, task: string)
    requires task !in w.s.callbacks && !(e.DoRegister? && e.task == task)
    ensures task !in Step(cfg, w, e).s.callbacks
  {
  }

  lemma {:induction false} StaysUnregistered(cfg: Config, w: World, es: seq<Event>, task: string)
    requires Inv(w) && task !in w.s.callbacks && forall e :: e in es ==> !(e.DoRegister? && e.task == task)
    ensures var v := Run(cfg, w, es);
      Inv(v) && task !in v.s.callbacks && forall k :: k in v.s.pending ==> v.s.pending[k].task != task
  {
    if es != [] {
      StaysUnregistered(cfg, w, es[..|es| - 1], task);
      StepRegistersNoOther(cfg, Run(cfg, w, es[..|es| - 1]), es[|es| - 1], task);
      StepKeepsInv(cfg, Run(cfg, w, es[..|es| - 1]), es[|es| - 1]);
      assert es[|es| - 1] in es;
    }
    var v := Run(cfg, w, es);
    forall k | k in v.s.pending
      ensures v.s.pending[k].task != task
    {
      assert TimerOk(v, k);
    }
  }

  // ---------- When timers are due ----------

  /** A pending timer is due exactly its stage's delay after the previous callback, or after the trigger. */
  lemma {:induction false} DueExactly(cfg: Config, t: int, es: seq<Event>, id: TimerId)
    requires id in Run(cfg, Init(t), es).s.pending
    ensures var s := Run(cfg, Init(t), es).s; var p := s.pending[id];
      p.trig < |s.triggers| && var calls := CallsOf(s.log, p.trig);
      match p.stage
      case Signal => calls == [] && p.due == s.triggers[p.trig].at + cfg.signalDelayMs
      case Abort => |calls| == 1 && p.due == calls[0].at + cfg.abortDelayMs
      case Kill => |calls| == 2 && p.due == calls[1].at + cfg.killDelayMs
  {
    RunKeepsChains(cfg, t, es);
    RunKeepsInv(cfg, t, es);
    assert NextUp(cfg, Run(cfg, Init(t), es).s, id);
  }

  /** Triggering a registered task starts a chain at that moment; triggering any other does nothing. */
  lemma {:induction false} TriggerStarts(cfg: Config, t: int, es: seq<Event>, task: string, dt: nat)
    ensures var w := Run(cfg, Init(t), es); var now := w.clock + dt; var v := Step(cfg, w, DoTrigger(task, dt)).s;
      if task in w.s.callbacks then
        && v.triggers == w.s.triggers + [Trigger(task, w.s.callbacks[task], now)]
        && v.callbacks == w.s.callbacks && v.log == w.s.log
        && exists id :: id in v.pending && v.pending[id].trig == |w.s.triggers| && v.pending[id].stage == Signal
                        && v.pending[id].due == now + cfg.signalDelayMs
      else v == w.s
  {
    var w := Run(cfg, Init(t), es);
    if task in w.s.callbacks {
      var v := Step(cfg, w, DoTrigger(task, dt)).s;
      assert w.s.nextTimer in v.pending && v.pending[w.s.nextTimer].stage == Signal;
    }
  }

  /** A due timer's callback is called at that moment, for the registration of its trigger. */
  lemma {:induction false} FiringCalls(cfg: Config, t: int, es: seq<Event>, id: TimerId, dt: nat)
    requires id in Run(cfg, Init(t), es).s.pending
    ensures var w := Run(cfg, Init(t), es); var p := w.s.pending[id]; var v := Step(cfg, w, DoFire(id, dt)).s;
      if p.due <= w.clock + dt
      then p.trig < |w.s.triggers| && v.log == w.s.log + [Call(p.trig, w.s.triggers[p.trig].reg, p.stage, w.clock + dt)]
      else v == w.s
  {
    RunKeepsInv(cfg, t, es);
    assert TimerOk(Run(cfg, Init(t), es), id);
  }

  /** Registering and cancelling: the registration of the task changes, and no other. */
  lemma {:induction false} RegistersOnly(cfg: Config, w: World, task: string, dt: nat)
    ensures var v := Step(cfg, w, DoRegister(task, dt));
      && v.s.callbacks == w.s.callbacks[task := |w.regs|] && v.regs == w.regs + [task]
      && v.s.pending == w.s.pending && v.s.log == w.s.log
    ensures Step(cfg, w, DoCancel(task, dt)).s.callbacks == w.s.callbacks - {task}
  {
  }
}
