/** The saga coordinator: run the steps of a definition forward with retries and a
    deadline; when one fails, compensate the completed steps in reverse order.

    Steps are functions on a world `W` and on the saga's context, a map from names to
    values `V`. An attempt is told its number, so it may fail once and succeed later. A
    failed attempt may still have changed the world, since a timed-out step goes on. */
module Saga {
  import opened Totals

  /** A thrown value. The coordinator tests it for truthiness. */
  datatype Thrown = Thrown(message: string, truthy: bool)

  datatype Attempt<W, V> =
    | Done(world: W, patch: Option<map<string, V>>)
    | Failed(world: W, error: Thrown)

  datatype Undo<W> = Undone(world: W) | Stuck(world: W, error: Thrown)

  datatype Step<!W, !V> = Step(
    name: string,
    maxAttempts: Option<int>,
    execute: (W, map<string, V>, nat) -> Attempt<W, V>,
    compensate: Option<(W, map<string, V>) -> Undo<W>>)

  datatype Definition<!W, !V> = Definition(steps: seq<Step<W, V>>, timeoutMs: Option<int>, maxAttempts: Option<int>)

  const DEFAULT_WORKFLOW_TIMEOUT_MS := 60_000
  const DEFAULT_MAX_ATTEMPTS := 1

  /** The step's own policy wins over the definition's, which wins over the default. */
  function MaxAttempts<W, V>(d: Definition<W, V>, i: nat): int
    requires i < |d.steps|
  {
    if d.steps[i].maxAttempts.Some? then d.steps[i].maxAttempts.value
    else if d.maxAttempts.Some? then d.maxAttempts.value
    else DEFAULT_MAX_ATTEMPTS
  }

  function Timeout<W, V>(d: Definition<W, V>): int {
    if d.timeoutMs.Some? then d.timeoutMs.value else DEFAULT_WORKFLOW_TIMEOUT_MS
  }

  datatype Status = IsRunning | IsCompensating | IsCompleted | IsFailed | IsTimedOut

  datatype StepStatus = StepPending | StepRunning | StepCompleted | StepFailed | StepCompensated

  datatype Record = Record(name: string, status: StepStatus, attempts: nat, error: Option<string>)

  /** What the run did, in order. */
  datatype Event<V> =
    | Executed(step: nat, patch: Option<map<string, V>>)
    | Compensated(step: nat)
    | CompensationFailed(step: nat)

  datatype Instance<W, V> = Instance(
    status: Status, world: W, context: map<string, V>, records: seq<Record>, error: Option<string>,
    trace: seq<Event<V>>)

  // ---------------------------------------------------------------- specification

  /** Result of the retry loop of one step. */
  datatype Outcome<W, V> = Outcome(world: W, result: Result<Option<map<string, V>>, Thrown>, attempts: nat)

  function Retry<W, V>(step: Step<W, V>, w: W, c: map<string, V>, attempt: nat, max: int): Outcome<W, V>
    requires 1 <= attempt <= max
    decreases max - attempt
  {
    match step.execute(w, c, attempt)
    case Done(w', patch) => Outcome(w', Ok(patch), attempt)
    case Failed(w', e) =>
      if attempt < max then Retry(step, w', c, attempt + 1, max) else Outcome(w', Err(e), attempt)
  }

  function Patched<V>(c: map<string, V>, patch: Option<map<string, V>>): map<string, V> {
    if patch.Some? then c + patch.value else c
  }

  /** One step of the forward loop, up to the test of the last error. */
  function Forward<W, V>(d: Definition<W, V>, inst: Instance<W, V>, i: nat): Instance<W, V>
    requires i < |d.steps| == |inst.records|
  {
    var rec := inst.records[i];
    var max := MaxAttempts(d, i);
    if max < 1 then inst.(records := inst.records[i := rec.(status := StepRunning)]) else
      var out := Retry(d.steps[i], inst.world, inst.context, 1, max);
      match out.result
      case Ok(patch) =>
        inst.(world := out.world,
              context := Patched(inst.context, patch),
              records := inst.records[i := rec.(status := StepCompleted, attempts := out.attempts)],
              trace := inst.trace + [Executed(i, patch)])
      case Err(e) =>
        inst.(world := out.world,
              records := inst.records[i := rec.(status := StepRunning, attempts := out.attempts)])
  }

  /** The error the step leaves behind, if the coordinator notices one. */
  function Noticed<W, V>(d: Definition<W, V>, inst: Instance<W, V>, i: nat): Option<Thrown>
    requires i < |d.steps|
  {
    if MaxAttempts(d, i) < 1 then None else
      match Retry(d.steps[i], inst.world, inst.context, 1, MaxAttempts(d, i)).result
      case Ok(_) => None
      case Err(e) => if e.truthy then Some(e) else None
  }

  function CompensateOne<W, V>(d: Definition<W, V>, inst: Instance<W, V>, i: nat): Instance<W, V>
    requires i < |d.steps| == |inst.records|
  {
    if inst.records[i].status != StepCompleted || d.steps[i].compensate.None? then inst else
      match d.steps[i].compensate.value(inst.world, inst.context)
      case Undone(w') =>
        inst.(world := w',
              records := inst.records[i := inst.records[i].(status := StepCompensated)],
              trace := inst.trace + [Compensated(i)])
      case Stuck(w', e) =>
        inst.(world := w',
              records := inst.records[i := inst.records[i].(error := Some("compensate: " + e.message))],
              trace := inst.trace + [CompensationFailed(i)])
  }

  /** Steps n-1, ..., 0 in this order. */
  function CompensateBelow<W, V>(d: Definition<W, V>, inst: Instance<W, V>, n: nat): Instance<W, V>
    requires n <= |d.steps| == |inst.records|
    decreases n
  {
    if n == 0 then inst else CompensateBelow(d, CompensateOne(d, inst, n - 1), n - 1)
  }

  function FailAndCompensate<W, V>(d: Definition<W, V>, inst: Instance<W, V>, failed: nat, message: string, status: Status)
    : Instance<W, V>
    requires failed <= |d.steps| == |inst.records|
  {
    CompensateBelow(d, inst.(status := IsCompensating, error := Some(message)), failed).(status := status)
  }

  function StepFailure<W, V>(inst: Instance<W, V>, i: nat, e: Thrown): Instance<W, V>
    requires i < |inst.records|
  {
    inst.(records := inst.records[i := inst.records[i].(status := StepFailed, error := Some(e.message))])
  }

  /** The run from step `i` on; `now(i)` is the clock when step `i` is about to start. */
  function RunFrom<W, V>(d: Definition<W, V>, now: nat -> int, deadline: int, inst: Instance<W, V>, i: nat): Instance<W, V>
    requires i <= |d.steps| == |inst.records|
    decreases |d.steps| - i
  {
    if i == |d.steps| then inst.(status := IsCompleted)
    else if now(i) > deadline then FailAndCompensate(d, inst, i, "Workflow timed out", IsTimedOut)
    else
      match Noticed(d, inst, i)
      case Some(e) => FailAndCompensate(d, StepFailure(Forward(d, inst, i), i, e), i, e.message, IsFailed)
      case None => RunFrom(d, now, deadline, Forward(d, inst, i), i + 1)
  }

  function Start<W, V>(d: Definition<W, V>, w: W, c: map<string, V>): (inst: Instance<W, V>)
    ensures |inst.records| == |d.steps|
  {
    Instance(IsRunning, w, c, seq(|d.steps|, i requires 0 <= i < |d.steps| => Record(d.steps[i].name, StepPending, 0, None)), None, [])
  }

  function Run<W, V>(d: Definition<W, V>, startedAt: int, now: nat -> int, w: W, c: map<string, V>): Instance<W, V> {
    RunFrom(d, now, startedAt + Timeout(d), Start(d, w, c), 0)
  }

  // ---------------------------------------------------------------- the coordinator

  /** The workflow instance that the coordinator updates in place. */
  class Coordinator<W, V> {
    var status: Status
    var world: W
    var context: map<string, V>
    var records: seq<Record>
    var error: Option<string>
    var trace: seq<Event<V>>

    function View(): Instance<W, V>
      reads this
    {
      Instance(status, world, context, records, error, trace)
    }

    constructor (d: Definition<W, V>, w: W, c: map<string, V>)
      ensures View() == Start(d, w, c)
    {
      status, world, context, error, trace := IsRunning, w, c, None, [];
      records := seq(|d.steps|, i requires 0 <= i < |d.steps| => Record(d.steps[i].name, StepPending, 0, None));
    }

    method RunSteps(d: Definition<W, V>, startedAt: int, now: nat -> int)
      requires |records| == |d.steps|
      modifies this
      ensures View() == RunFrom(d, now, startedAt + Timeout(d), old(View()), 0)
    {
      var workflowDeadline := startedAt + Timeout(d);
      for i := 0 to |d.steps|
        invariant |records| == |d.steps|
        invariant RunFrom(d, now, workflowDeadline, View(), i) == RunFrom(d, now, workflowDeadline, old(View()), 0)
      {
        if now(i) > workflowDeadline {
          CompensateSteps(d, i, "Workflow timed out", IsTimedOut);
          return;
        }
        ghost var before := View();
        var lastError := ExecuteStep(d, i);
        if lastError.Some? && lastError.value.truthy {
          records := records[i := records[i].(status := StepFailed, error := Some(lastError.value.message))];
          assert View() == StepFailure(Forward(d, before, i), i, lastError.value);
          CompensateSteps(d, i, lastError.value.message, IsFailed);
          return;
        }
      }
      status := IsCompleted;
    }

    /** The retry loop of one step. */
    method ExecuteStep(d: Definition<W, V>, i: nat) returns (lastError: Option<Thrown>)
      requires i < |d.steps| == |records|
      modifies this
      ensures View() == Forward(d, old(View()), i)
      ensures Noticed(d, old(View()), i) == if lastError.Some? && lastError.value.truthy then lastError else None
    {
      records := records[i := records[i].(status := StepRunning)];
      var max := MaxAttempts(d, i);
      lastError := None;
      var attempt := 1;
      while attempt <= max
        invariant 1 <= attempt && (max < 1 ==> attempt == 1) && (1 <= max ==> attempt <= max + 1)
        invariant attempt == 1 <==> lastError.None?
        invariant |records| == |d.steps| && records[i].status == StepRunning
        invariant View() == old(View()).(world := world, records := records)
        invariant records == old(records)[i := old(records)[i].(status := StepRunning, attempts := records[i].attempts)]
        invariant attempt == 1 ==> world == old(world) && records[i].attempts == old(records)[i].attempts
        invariant 1 < attempt ==> records[i].attempts == attempt - 1
        invariant 1 <= attempt <= max ==>
          Retry(d.steps[i], world, context, attempt, max) == Retry(d.steps[i], old(world), old(context), 1, max)
        invariant 1 <= max < attempt ==>
          Retry(d.steps[i], old(world), old(context), 1, max) == Outcome(world, Err(lastError.value), max)
      {
        records := records[i := records[i].(attempts := attempt)];
        match d.steps[i].execute(world, context, attempt) {
          case Done(w', patch) =>
            world := w';
            context := Patched(context, patch);
            records := records[i := records[i].(status := StepCompleted)];
            trace := trace + [Executed(i, patch)];
            lastError := None;
            return;
          case Failed(w', e) =>
            world := w';
            lastError := Some(e);
        }
        attempt := attempt + 1;
      }
    }

    method CompensateSteps(d: Definition<W, V>, failed: nat, message: string, final: Status)
      requires failed <= |d.steps| == |records|
      modifies this
      ensures View() == FailAndCompensate(d, old(View()), failed, message, final)
    {
      status := IsCompensating;
      error := Some(message);
      ghost var start := View();
      var i: nat := failed;
      while i > 0
        invariant i <= failed && |records| == |d.steps|
        invariant CompensateBelow(d, View(), i) == CompensateBelow(d, start, failed)
      {
        i := i - 1;
        if records[i].status != StepCompleted || d.steps[i].compensate.None? {
          continue;
        }
        match d.steps[i].compensate.value(world, context) {
          case Undone(w') =>
            world := w';
            records := records[i := records[i].(status := StepCompensated)];
            trace := trace + [Compensated(i)];
          case Stuck(w', e) =>
            world := w';
            records := records[i := records[i].(error := Some("compensate: " + e.message))];
            trace := trace + [CompensationFailed(i)];
        }
      }
      status := final;
    }
  }
}
