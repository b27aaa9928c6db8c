/**
 * The linear workflow engine of src/collaboration/workflow/impl/simple-workflow.ts.
 *
 * `executeStep` is cut at its awaits.  A `Phase` says at which of them an instance stands, and
 * the functions below say what the code up to the next await does to the instance; each of
 * these stretches ends by storing it.
 */
module Workflows {
  import opened Wrappers
  import opened EventBuses

  datatype StepKind = AgentTask | HumanReview | WaitSignal | Condition | Parallel

  datatype StepDef = StepDef(id: string, kind: StepKind, config: string)

  datatype Definition = Definition(id: string, version: int, steps: seq<StepDef>)

  datatype StepResult =
    | Configured(stepId: string, kind: StepKind, config: string)
    | Noted(stepId: string, kind: StepKind, note: string)
    | Answered(stepId: string, data: string)

  datatype State = Running | WaitingSignal | Done | Failed

  datatype Instance = Instance(
    id: string, workflowId: string, version: int, tenantId: string, state: State,
    currentStepId: Option<string>, input: string, error: Option<string>,
    createdAt: int, updatedAt: int, completedAt: Option<int>,
    currentStepIndex: nat, stepResults: seq<StepResult>)

  predicate Waits(k: StepKind) {
    k.HumanReview? || k.WaitSignal?
  }

  const PARALLEL_NOTE := "not supported in SimpleWorkflowEngine"

  /** What a step that does not wait records. */
  function ResultOf(s: StepDef): StepResult
    requires !Waits(s.kind)
  {
    if s.kind.Parallel? then Noted(s.id, s.kind, PARALLEL_NOTE) else Configured(s.id, s.kind, s.config)
  }

  const COMPLETED := "workflow.completed"

  function SignalType(instanceId: string): string {
    "workflow.signal." + instanceId
  }

  // ---------- Stretches between awaits ----------

  function Started(d: Definition, id: string, tenant: string, input: string, now: int): Instance {
    Instance(id, d.id, d.version, tenant, Running, if d.steps == [] then None else Some(d.steps[0].id),
             input, None, now, now, None, 0, [])
  }

  /** The head of executeStep: finish, or mark the step. */
  function Entered(d: Definition, i: Instance, now: int): Instance {
    if i.currentStepIndex >= |d.steps| then i.(state := Done, updatedAt := now, completedAt := Some(now))
    else i.(currentStepId := Some(d.steps[i.currentStepIndex].id))
  }

  function StepDone(i: Instance, r: StepResult, now: int): Instance {
    i.(stepResults := i.stepResults + [r], currentStepIndex := i.currentStepIndex + 1, updatedAt := now)
  }

  /** The switch: a waiting step suspends, any other records its result and moves on. */
  function Performed(d: Definition, i: Instance, now: int): Instance
    requires i.currentStepIndex < |d.steps|
  {
    var s := d.steps[i.currentStepIndex];
    if Waits(s.kind) then i.(state := WaitingSignal) else StepDone(i, ResultOf(s), now)
  }

  /** After the signal. */
  function Resumed(d: Definition, i: Instance, data: string, now: int): Instance
    requires i.currentStepIndex < |d.steps|
  {
    StepDone(i.(state := Running), Answered(d.steps[i.currentStepIndex].id, data), now)
  }

  function FailedWith(i: Instance, error: string, now: int): Instance {
    i.(state := Failed, error := Some(error), updatedAt := now)
  }

  // ---------- The classes ----------

  /** The collections of instances and definitions; a stored instance is a snapshot of the object. */
  class InstanceStore {
    var rows: map<string, Instance>
    var definitions: map<string, Definition>

    constructor ()
      ensures rows == map[] && definitions == map[]
    {
      rows, definitions := map[], map[];
    }

    method Set(i: Instance)
      modifies this`rows
      ensures rows == old(rows)[i.id := i]
    {
      rows := rows[i.id := i];
    }
  }

  class PersistedInstance {
    const id: string
    const workflowId: string
    const version: int
    const tenantId: string
    const input: string
    const createdAt: int
    var state: State
    var currentStepId: Option<string>
    var error: Option<string>
    var updatedAt: int
    var completedAt: Option<int>
    var currentStepIndex: nat
    var stepResults: seq<StepResult>

    function View(): Instance
      reads this
    {
      Instance(id, workflowId, version, tenantId, state, currentStepId, input, error,
               createdAt, updatedAt, completedAt, currentStepIndex, stepResults)
    }

    constructor (d: Definition, id: string, tenant: string, input: string, now: int)
      ensures View() == Started(d, id, tenant, input, now)
    {
      this.id, workflowId, version, tenantId, this.input := id, d.id, d.version, tenant, input;
      createdAt, updatedAt := now, now;
      state := Running;
      currentStepId := if |d.steps| == 0 then None else Some(d.steps[0].id);
      error, completedAt := None, None;
      currentStepIndex, stepResults := 0, [];
    }
  }

  class SimpleWorkflowEngine {
    var definitions: map<string, Definition>
    const storage: InstanceStore
    const eventBus: InProcessEventBus

    constructor (storage: InstanceStore, eventBus: InProcessEventBus)
      ensures this.storage == storage && this.eventBus == eventBus && definitions == map[]
    {
      this.storage, this.eventBus, definitions := storage, eventBus, map[];
    }

    method RegisterWorkflow(d: Definition)
      modifies this, storage`definitions
      ensures definitions == old(definitions)[d.id := d]
      ensures storage.definitions == old(storage.definitions)[d.id := d]
    {
      definitions := definitions[d.id := d];
      storage.definitions := storage.definitions[d.id := d];
    }

    /** null where the source throws for an unknown workflow. */
    method StartWorkflow(workflowId: string, id: string, tenant: string, input: string,
                         now: int) returns (i: PersistedInstance?)
      modifies storage`rows
      ensures if workflowId in definitions
        then i != null && fresh(i) && i.View() == Started(definitions[workflowId], id, tenant, input, now)
             && storage.rows == old(storage.rows)[id := i.View()]
        else i == null && storage.rows == old(storage.rows)
    {
      if workflowId !in definitions {
        return null;
      }
      i := new PersistedInstance(definitions[workflowId], id, tenant, input, now);
      storage.Set(i.View());
    }

    /** Whose handlers `signal` calls; None where the source throws for an unknown instance. */
    method Signal(instanceId: string) returns (called: Option<seq<nat>>)
      requires eventBus.Valid()
      modifies eventBus`subscribers
      ensures eventBus.Valid()
      ensures if instanceId in storage.rows
        then called == Some(Called(old(eventBus.subscribers), SignalType(instanceId)))
             && eventBus.subscribers == AfterPublish(old(eventBus.subscribers), SignalType(instanceId))
        else called == None && eventBus.subscribers == old(eventBus.subscribers)
    {
      if instanceId !in storage.rows {
        return None;
      }
      var ids := eventBus.Publish(SignalType(instanceId));
      return Some(ids);
    }

    /** A stored waiting instance subscribes to its own signal. */
    method AwaitSignal(i: PersistedInstance) returns (id: nat)
      requires eventBus.Valid()
      modifies eventBus
      ensures eventBus.Valid() && id == old(eventBus.nextId)
      ensures eventBus.subscribers == old(eventBus.subscribers) + [Subscriber(id, SignalType(i.id), true)]
    {
      id := eventBus.Once(SignalType(i.id));
    }

    method EnterStep(i: PersistedInstance, d: Definition, now: int) returns (finished: bool)
      requires eventBus.Valid()
      modifies i, storage`rows, eventBus`subscribers
      ensures eventBus.Valid() && (finished <==> old(i.currentStepIndex) >= |d.steps|)
      ensures eventBus.subscribers
        == if finished then AfterPublish(old(eventBus.subscribers), COMPLETED) else old(eventBus.subscribers)
      ensures i.View() == Entered(d, old(i.View()), now) && storage.rows == old(storage.rows)[i.id := i.View()]
    {
      if i.currentStepIndex >= |d.steps| {
        i.state := Done;
        i.updatedAt := now;
        i.completedAt := Some(now);
        storage.Set(i.View());
        var _ := eventBus.Publish(COMPLETED);
        return true;
      }
      i.currentStepId := Some(d.steps[i.currentStepIndex].id);
      storage.Set(i.View());
      return false;
    }

    method PerformStep(i: PersistedInstance, d: Definition, now: int) returns (suspended: bool)
      requires i.currentStepIndex < |d.steps|
      modifies i, storage`rows
      ensures suspended <==> Waits(d.steps[old(i.currentStepIndex)].kind)
      ensures i.View() == Performed(d, old(i.View()), now) && storage.rows == old(storage.rows)[i.id := i.View()]
    {
      var step := d.steps[i.currentStepIndex];
      match step.kind {
        case AgentTask => i.stepResults := i.stepResults + [Configured(step.id, AgentTask, step.config)];
        case HumanReview =>
          i.state := WaitingSignal;
          storage.Set(i.View());
          return true;
        case WaitSignal =>
          i.state := WaitingSignal;
          storage.Set(i.View());
          return true;
        case Condition => i.stepResults := i.stepResults + [Configured(step.id, Condition, step.config)];
        case Parallel => i.stepResults := i.stepResults + [Noted(step.id, Parallel, PARALLEL_NOTE)];
      }
      i.currentStepIndex := i.currentStepIndex + 1;
      i.updatedAt := now;
      storage.Set(i.View());
      return false;
    }

    method ResumeStep(i: PersistedInstance, d: Definition, data: string, now: int)
      requires i.currentStepIndex < |d.steps|
      modifies i, storage`rows
      ensures i.View() == Resumed(d, old(i.View()), data, now) && storage.rows == old(storage.rows)[i.id := i.View()]
    {
      i.state := Running;
      i.stepResults := i.stepResults + [Answered(d.steps[i.currentStepIndex].id, data)];
      i.currentStepIndex := i.currentStepIndex + 1;
      i.updatedAt := now;
      storage.Set(i.View());
    }

    method FailInstance(i: PersistedInstance, error: string, now: int)
      modifies i, storage`rows
      ensures i.View() == FailedWith(old(i.View()), error, now) && storage.rows == old(storage.rows)[i.id := i.View()]
    {
      i.state := Failed;
      i.error := Some(error);
      i.updatedAt := now;
      storage.Set(i.View());
    }
  }
}
