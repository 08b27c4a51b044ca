/** What every saga run guarantees, whatever its steps do. */
module SagaLaws {
  import opened Totals
  import opened Saga
  import opened SagaAttempts

  // ---------------------------------------------------------------- shape of the trace

  predicate WasCompleted(r: Record) {
    r.status == StepCompleted || r.status == StepCompensated
  }

  /** Indices below `n` of the steps that completed, ascending. */
  function CompletedBelow(records: seq<Record>, n: nat): seq<nat>
    requires n <= |records|
  {
    if n == 0 then []
    else CompletedBelow(records, n - 1) + if WasCompleted(records[n - 1]) then [n - 1] else []
  }

  /** The compensations due for the steps below `n`, in descending order: one for each
      completed step that has a compensator, none for any other step. */
  function CompensationsBelow<W, V>(d: Definition<W, V>, records: seq<Record>, n: nat): seq<Event<V>>
    requires n <= |records| == |d.steps|
  {
    if n == 0 then [] else
      (if WasCompleted(records[n - 1]) && d.steps[n - 1].compensate.Some?
       then [if records[n - 1].status == StepCompensated then Compensated(n - 1) else CompensationFailed(n - 1)]
       else [])
      + CompensationsBelow(d, records, n - 1)
  }

  ghost predicate AllExecuted<V>(events: seq<Event<V>>) {
    forall k :: 0 <= k < |events| ==> events[k].Executed?
  }

  function Indices<V>(events: seq<Event<V>>): seq<nat> {
    seq(|events|, k requires 0 <= k < |events| => events[k].step)
  }

  /** The context after the patches of the executed steps, folded in order. */
  function Folded<V>(c: map<string, V>, events: seq<Event<V>>): map<string, V>
    requires AllExecuted(events)
  {
    if events == [] then c
    else Patched(Folded(c, events[..|events| - 1]), events[|events| - 1].patch)
  }

  /** Where the run stopped: the index of the failing or timed-out step, or the number of
      steps when it completed. */
  function StoppedAt<W, V>(d: Definition<W, V>, now: nat -> int, deadline: int, inst: Instance<W, V>, i: nat): (f: nat)
    requires i <= |d.steps| == |inst.records|
    ensures i <= f <= |d.steps|
    decreases |d.steps| - i
  {
    if i == |d.steps| || now(i) > deadline || Noticed(d, inst, i).Some? then i
    else StoppedAt(d, now, deadline, Forward(d, inst, i), i + 1)
  }

  ghost predicate Untouched(records: seq<Record>, from: nat) {
    forall j :: from <= j < |records| ==> records[j].status == StepPending && records[j].attempts == 0
  }

  /** The instance while the forward loop is about to start step `i`. */
  ghost predicate ForwardInv<W, V>(d: Definition<W, V>, c: map<string, V>, inst: Instance<W, V>, i: nat) {
    && i <= |d.steps| == |inst.records|
    && Untouched(inst.records, i)
    && (forall j :: 0 <= j < i ==> inst.records[j].status == StepCompleted || inst.records[j].status == StepRunning)
    && AllExecuted(inst.trace)
    && Indices(inst.trace) == CompletedBelow(inst.records, i)
    && inst.context == Folded(c, inst.trace)
  }

  lemma {:induction false} CompletedBelowFrame(r: seq<Record>, r': seq<Record>, n: nat)
    requires n <= |r| == |r'|
    requires forall j :: 0 <= j < n ==> (WasCompleted(r[j]) <==> WasCompleted(r'[j]))
    ensures CompletedBelow(r, n) == CompletedBelow(r', n)
  {
    if n != 0 {
      CompletedBelowFrame(r, r', n - 1);
    }
  }

  lemma ForwardKeeps<W, V>(d: Definition<W, V>, c: map<string, V>, inst: Instance<W, V>, i: nat)
    requires ForwardInv(d, c, inst, i) && i < |d.steps|
    ensures ForwardInv(d, c, Forward(d, inst, i), i + 1)
  {
    var inst' := Forward(d, inst, i);
    CompletedBelowFrame(inst.records, inst'.records, i);
    if inst'.trace != inst.trace {
      assert inst'.trace[..|inst.trace|] == inst.trace;
      assert Indices(inst'.trace) == Indices(inst.trace) + [i];
    }
  }

  /** Compensation: what it appends to the trace is exactly what is due, the context and
      the records of other steps stay as they are. */
  lemma {:induction false} CompensateLaw<W, V>(d: Definition<W, V>, inst: Instance<W, V>, n: nat)
    requires n <= |d.steps| == |inst.records|
    requires forall j :: 0 <= j < n ==> inst.records[j].status != StepCompensated
    ensures var r := CompensateBelow(d, inst, n);
      && |r.records| == |inst.records| && r.context == inst.context
      && (forall j :: n <= j < |r.records| ==> r.records[j] == inst.records[j])
      && (forall j :: 0 <= j < n ==> (WasCompleted(r.records[j]) <==> WasCompleted(inst.records[j])))
      && r.trace == inst.trace + CompensationsBelow(d, r.records, n)
    decreases n
  {
    if n != 0 {
      var one := CompensateOne(d, inst, n - 1);
      CompensateLaw(d, one, n - 1);
    }
  }

  /** The trace goes up to `up` and then down. */
  ghost predicate Turns<W, V>(d: Definition<W, V>, c: map<string, V>, r: Instance<W, V>, f: nat, up: nat)
    requires f <= |d.steps| == |r.records|
  {
    && up <= |r.trace|
    && AllExecuted(r.trace[..up])
    && Indices(r.trace[..up]) == CompletedBelow(r.records, f)
    && r.trace[up..] == (if r.status == IsCompleted then [] else CompensationsBelow(d, r.records, f))
    && r.context == Folded(c, r.trace[..up])
  }

  /** The trace of every run. */
  ghost predicate Shaped<W, V>(d: Definition<W, V>, c: map<string, V>, r: Instance<W, V>, f: nat) {
    f <= |d.steps| == |r.records| && exists up: nat :: Turns(d, c, r, f, up)
  }

  ghost predicate Ended<W, V>(d: Definition<W, V>, r: Instance<W, V>, f: nat) {
    && f <= |d.steps| == |r.records|
    && (r.status == IsCompleted || r.status == IsFailed || r.status == IsTimedOut)
    && (r.status == IsCompleted <==> f == |d.steps|)
    && (r.status == IsFailed ==> r.records[f].status == StepFailed && Untouched(r.records, f + 1))
    && (r.status == IsTimedOut ==> Untouched(r.records, f))
  }

  /** What holds of every run `r` that stopped at step `f`. */
  ghost predicate Lawful<W, V>(d: Definition<W, V>, c: map<string, V>, r: Instance<W, V>, f: nat) {
    Shaped(d, c, r, f) && Ended(d, r, f)
  }

  lemma ShapedByCompensation<W, V>(d: Definition<W, V>, c: map<string, V>, inst: Instance<W, V>, f: nat, message: string, status: Status)
    requires f < |d.steps| == |inst.records|
    requires forall j :: 0 <= j < f ==> inst.records[j].status == StepCompleted || inst.records[j].status == StepRunning
    requires AllExecuted(inst.trace) && Indices(inst.trace) == CompletedBelow(inst.records, f)
    requires inst.context == Folded(c, inst.trace)
    requires status == IsFailed || status == IsTimedOut
    requires status == IsFailed ==> inst.records[f].status == StepFailed && Untouched(inst.records, f + 1)
    requires status == IsTimedOut ==> Untouched(inst.records, f)
    ensures var r := FailAndCompensate(d, inst, f, message, status);
      Shaped(d, c, r, f) && Ended(d, r, f) && r.status == status
  {
    CompensateLaw(d, inst.(status := IsCompensating, error := Some(message)), f);
    var r := FailAndCompensate(d, inst, f, message, status);
    CompletedBelowFrame(inst.records, r.records, f);
    var up := |inst.trace|;
    assert r.trace[..up] == inst.trace;
    assert r.trace[up..] == CompensationsBelow(d, r.records, f);
    assert Turns(d, c, r, f, up);
  }

  lemma FailureLaw<W, V>(d: Definition<W, V>, c: map<string, V>, inst: Instance<W, V>, i: nat, e: Thrown)
    requires ForwardInv(d, c, inst, i) && i < |d.steps| && Noticed(d, inst, i) == Some(e)
    ensures Lawful(d, c, FailAndCompensate(d, StepFailure(Forward(d, inst, i), i, e), i, e.message, IsFailed), i)
  {
    ForwardKeeps(d, c, inst, i);
    var failed := StepFailure(Forward(d, inst, i), i, e);
    CompletedBelowFrame(inst.records, failed.records, i);
    ShapedByCompensation(d, c, failed, i, e.message, IsFailed);
  }

  lemma TimeoutLaw<W, V>(d: Definition<W, V>, c: map<string, V>, inst: Instance<W, V>, i: nat)
    requires ForwardInv(d, c, inst, i) && i < |d.steps|
    ensures Lawful(d, c, FailAndCompensate(d, inst, i, "Workflow timed out", IsTimedOut), i)
  {
    ShapedByCompensation(d, c, inst, i, "Workflow timed out", IsTimedOut);
  }

  lemma CompletionLaw<W, V>(d: Definition<W, V>, c: map<string, V>, inst: Instance<W, V>)
    requires ForwardInv(d, c, inst, |d.steps|)
    ensures Lawful(d, c, inst.(status := IsCompleted), |d.steps|)
  {
    assert inst.trace[..|inst.trace|] == inst.trace;
    assert Turns(d, c, inst.(status := IsCompleted), |d.steps|, |inst.trace|);
  }

  lemma {:induction false} RunFromLaw<W, V>(d: Definition<W, V>, now: nat -> int, deadline: int, c: map<string, V>, inst: Instance<W, V>, i: nat)
    requires ForwardInv(d, c, inst, i)
    ensures Lawful(d, c, RunFrom(d, now, deadline, inst, i), StoppedAt(d, now, deadline, inst, i))
    decreases |d.steps| - i
  {
    var r, f := RunFrom(d, now, deadline, inst, i), StoppedAt(d, now, deadline, inst, i);
    if i == |d.steps| {
      CompletionLaw(d, c, inst);
    } else if now(i) > deadline {
      TimeoutLaw(d, c, inst, i);
    } else {
      match Noticed(d, inst, i)
      case Some(e) =>
        FailureLaw(d, c, inst, i, e);
      case None =>
        var fwd := Forward(d, inst, i);
        ForwardKeeps(d, c, inst, i);
        RunFromLaw(d, now, deadline, c, fwd, i + 1);
        assert r == RunFrom(d, now, deadline, fwd, i + 1) && f == StoppedAt(d, now, deadline, fwd, i + 1);
    }
  }

  lemma StartInv<W, V>(d: Definition<W, V>, w: W, c: map<string, V>)
    ensures ForwardInv(d, c, Start(d, w, c), 0)
  {
  }

  /** Every run: executed steps ascending, then, unless it completed, exactly the due
      compensations in descending order; steps past the failure stay pending; the context
      is the initial one with the patches of the executed steps folded in order. */
  lemma RunLaw<W, V>(d: Definition<W, V>, startedAt: int, now: nat -> int, w: W, c: map<string, V>)
    ensures var r := Run(d, startedAt, now, w, c);
      var f := StoppedAt(d, now, startedAt + Timeout(d), Start(d, w, c), 0);
      Lawful(d, c, r, f)
  {
    StartInv(d, w, c);
    var inst, deadline := Start(d, w, c), startedAt + Timeout(d);
    RunFromLaw(d, now, deadline, c, inst, 0);
    var r, f := RunFrom(d, now, deadline, inst, 0), StoppedAt(d, now, deadline, inst, 0);
    assert Lawful(d, c, r, f);
  }

  /** A step that must be compensated when a step at or above `n` fails. */
  ghost predicate Due<W, V>(d: Definition<W, V>, records: seq<Record>, n: nat, j: nat)
    requires n <= |records| == |d.steps|
  {
    j < n && WasCompleted(records[j]) && d.steps[j].compensate.Some?
  }

  lemma CompensationsNext<W, V>(d: Definition<W, V>, records: seq<Record>, n: nat)
    requires 0 < n <= |records| == |d.steps|
    ensures Indices(CompensationsBelow(d, records, n)) ==
      (if Due(d, records, n, n - 1) then [n - 1] else []) + Indices(CompensationsBelow(d, records, n - 1))
  {
    var all, rest := CompensationsBelow(d, records, n), CompensationsBelow(d, records, n - 1);
    if Due(d, records, n, n - 1) {
      assert all[1..] == rest;
    } else {
      assert all == rest;
    }
  }

  /** The due compensations: strictly descending, hence each step at most once, for exactly
      the completed steps below `n` that have a compensator. */
  lemma {:induction false} CompensationsDescend<W, V>(d: Definition<W, V>, records: seq<Record>, n: nat)
    requires n <= |records| == |d.steps|
    ensures var steps := Indices(CompensationsBelow(d, records, n));
      && (forall j: nat :: j in steps <==> Due(d, records, n, j))
      && (forall k, l :: 0 <= k < l < |steps| ==> steps[l] < steps[k])
    decreases n
  {
    if n != 0 {
      CompensationsDescend(d, records, n - 1);
      var rest := Indices(CompensationsBelow(d, records, n - 1));
      assert forall k :: 0 <= k < |rest| ==> rest[k] in rest && Due(d, records, n - 1, rest[k]);
      var first: seq<nat> := if Due(d, records, n, n - 1) then [n - 1] else [];
      CompensationsNext(d, records, n);
      assert forall j: nat :: Due(d, records, n, j) <==> j in first || Due(d, records, n - 1, j);
    }
  }

  // ---------------------------------------------------------------- completed runs

  /** The instance with which step `j` starts when no step before it is noticed to fail. */
  function Reached<W, V>(d: Definition<W, V>, inst: Instance<W, V>, i: nat, j: nat): (r: Instance<W, V>)
    requires i <= j <= |d.steps| == |inst.records|
    ensures |r.records| == |d.steps|
    decreases j - i
  {
    if i == j then inst else Reached(d, Forward(d, inst, i), i + 1, j)
  }

  /** All attempts of the step fail, and the last one throws a falsy value. */
  ghost predicate EndsFalsy<W(!new), V>(d: Definition<W, V>, inst: Instance<W, V>, j: nat)
    requires j < |d.steps|
  {
    exists ws: seq<W> ::
      AllFail(d.steps[j], inst.world, inst.context, ws, MaxAttempts(d, j)) && !LastError(d, inst, j, ws).truthy
  }

  /** The step is attempted, and does not end with a falsy value thrown. */
  ghost predicate Genuine<W(!new), V>(d: Definition<W, V>, inst: Instance<W, V>, j: nat)
    requires j < |d.steps|
  {
    1 <= MaxAttempts(d, j) && !EndsFalsy(d, inst, j)
  }

  /** A step that is not noticed to fail is completed exactly when it is genuine. */
  lemma GenuineCompletes<W(!new), V>(d: Definition<W, V>, inst: Instance<W, V>, i: nat)
    requires i < |d.steps| == |inst.records| && Noticed(d, inst, i).None?
    ensures Forward(d, inst, i).records[i].status == StepCompleted <==> Genuine(d, inst, i)
  {
    if 1 <= MaxAttempts(d, i) {
      var k, ws := AttemptsLaw(d, inst, i);
      if ws': seq<W> :| AllFail(d.steps[i], inst.world, inst.context, ws', MaxAttempts(d, i)) && !LastError(d, inst, i, ws').truthy {
        LastUnique(d.steps[i], inst.world, inst.context, ws, k, ws', MaxAttempts(d, i));
      }
      if d.steps[i].execute(ws[k - 1], inst.context, k).Failed? {
        assert AllFail(d.steps[i], inst.world, inst.context, ws, MaxAttempts(d, i)) && !LastError(d, inst, i, ws).truthy;
      }
    }
  }

  lemma {:induction false} CompletedFrom<W(!new), V>(d: Definition<W, V>, now: nat -> int, deadline: int, inst: Instance<W, V>, i: nat)
    requires i <= |d.steps| == |inst.records|
    ensures var r := RunFrom(d, now, deadline, inst, i);
      r.status == IsCompleted ==>
        && |r.records| == |d.steps|
        && (forall j :: 0 <= j < i ==> r.records[j] == inst.records[j])
        && (forall j :: i <= j < |d.steps| ==> (r.records[j].status == StepCompleted <==> Genuine(d, Reached(d, inst, i, j), j)))
    decreases |d.steps| - i
  {
    if i < |d.steps| && now(i) <= deadline && Noticed(d, inst, i).None? {
      var fwd := Forward(d, inst, i);
      GenuineCompletes(d, inst, i);
      CompletedFrom(d, now, deadline, fwd, i + 1);
      assert Reached(d, inst, i, i) == inst;
      assert forall j :: i < j < |d.steps| ==> Reached(d, inst, i, j) == Reached(d, fwd, i + 1, j);
    } else if i < |d.steps| {
      assert RunFrom(d, now, deadline, inst, i).status != IsCompleted;
    }
  }

  /** A run goes on past a step that starts in time and is not noticed to fail. */
  ghost predicate Passes<W, V>(d: Definition<W, V>, now: nat -> int, deadline: int, inst: Instance<W, V>, j: nat)
    requires j < |d.steps|
  {
    now(j) <= deadline && Noticed(d, inst, j).None?
  }

  lemma {:induction false} StopFrom<W(!new), V(!new)>(d: Definition<W, V>, now: nat -> int, deadline: int, inst: Instance<W, V>, i: nat)
    requires i <= |d.steps| == |inst.records|
    ensures var f := StoppedAt(d, now, deadline, inst, i);
      && (forall j :: i <= j < f ==> Passes(d, now, deadline, Reached(d, inst, i, j), j))
      && (f < |d.steps| ==> !Passes(d, now, deadline, Reached(d, inst, i, f), f))
      && Stops(d, now, deadline, RunFrom(d, now, deadline, inst, i), Reached(d, inst, i, f), f)
    decreases |d.steps| - i
  {
    var f := StoppedAt(d, now, deadline, inst, i);
    if i < |d.steps| && now(i) <= deadline && Noticed(d, inst, i).None? {
      var fwd := Forward(d, inst, i);
      StopFrom(d, now, deadline, fwd, i + 1);
      assert forall j :: i < j <= f ==> Reached(d, inst, i, j) == Reached(d, fwd, i + 1, j);
    } else if i < |d.steps| {
      StopsHere(d, now, deadline, inst, i);
    }
  }

  /** How a run that stopped at step `f`, reached with `inst`, ends. */
  ghost predicate Stops<W(!new), V(!new)>(d: Definition<W, V>, now: nat -> int, deadline: int, r: Instance<W, V>, inst: Instance<W, V>, f: nat)
    requires f <= |d.steps| == |inst.records|
  {
    if f == |d.steps| then r == inst.(status := IsCompleted)
    else if now(f) > deadline then
      && r.status == IsTimedOut && r.error == Some("Workflow timed out")
      && UndoneTo(d, inst.context, inst.records, f, inst.world, r.world)
    else
      && Noticed(d, inst, f).Some? && r.status == IsFailed
      && r.error == Some(Noticed(d, inst, f).value.message)
      && |r.records| == |d.steps| && r.records[f].error == r.error
      && UndoneTo(d, inst.context, inst.records, f, Forward(d, inst, f).world, r.world)
  }

  lemma StopsHere<W(!new), V(!new)>(d: Definition<W, V>, now: nat -> int, deadline: int, inst: Instance<W, V>, i: nat)
    requires i < |d.steps| == |inst.records| && !Passes(d, now, deadline, inst, i)
    ensures Stops(d, now, deadline, RunFrom(d, now, deadline, inst, i), inst, i)
  {
    if now(i) > deadline {
      FailAndCompensateIs(d, inst, i, "Workflow timed out", IsTimedOut);
    } else {
      var e := Noticed(d, inst, i).value;
      var failed := StepFailure(Forward(d, inst, i), i, e);
      FailAndCompensateIs(d, failed, i, e.message, IsFailed);
      DueStepsFrame(d, failed.records, inst.records, i);
    }
  }

  /** The run stops at the first step that is due after the deadline or is noticed to fail; it
      times out in the first case and fails with that step's error in the second. */
  lemma StopLaw<W(!new), V(!new)>(d: Definition<W, V>, startedAt: int, now: nat -> int, w: W, c: map<string, V>)
    ensures var inst, deadline := Start(d, w, c), startedAt + Timeout(d);
      var f := StoppedAt(d, now, deadline, inst, 0);
      && (forall j :: 0 <= j < f ==> Passes(d, now, deadline, Reached(d, inst, 0, j), j))
      && (f < |d.steps| ==> !Passes(d, now, deadline, Reached(d, inst, 0, f), f))
      && Stops(d, now, deadline, Run(d, startedAt, now, w, c), Reached(d, inst, 0, f), f)
  {
    StopFrom(d, now, startedAt + Timeout(d), Start(d, w, c), 0);
  }

  /** In a completed run the record of a step is completed if and only if the step may be
      attempted at all and its last attempt did not throw a falsy value: otherwise the
      coordinator passes over it silently. */
  lemma CompletedExactly<W(!new), V>(d: Definition<W, V>, startedAt: int, now: nat -> int, w: W, c: map<string, V>)
    ensures var r := Run(d, startedAt, now, w, c);
      r.status == IsCompleted ==>
        && |r.records| == |d.steps|
        && (forall j :: 0 <= j < |d.steps| ==>
              (r.records[j].status == StepCompleted <==> Genuine(d, Reached(d, Start(d, w, c), 0, j), j)))
        && ((forall j :: 0 <= j < |d.steps| ==> r.records[j].status == StepCompleted)
            <==> forall j :: 0 <= j < |d.steps| ==> Genuine(d, Reached(d, Start(d, w, c), 0, j), j))
  {
    CompletedFrom(d, now, startedAt + Timeout(d), Start(d, w, c), 0);
  }

  /** A run may report success although its only step never ran, or threw a falsy value. */
  lemma SilentlySkipped(world: int)
    ensures var step := Step("a", Some(0), (w: int, c: map<string, int>, n: nat) => Done(w + 1, None), None);
      var r := Run(Definition([step], None, None), 0, (i: nat) => 0, world, map[]);
      r.status == IsCompleted && r.records[0].status == StepRunning && r.world == world
    ensures var step := Step("a", None, (w: int, c: map<string, int>, n: nat) => Failed(w, Thrown("", false)), None);
      var r := Run(Definition([step], None, None), 0, (i: nat) => 0, world, map[]);
      r.status == IsCompleted && r.records[0].status == StepRunning
  {
    var skip := Step("a", Some(0), (w: int, c: map<string, int>, n: nat) => Done(w + 1, None), None);
    var d := Definition([skip], None, None);
    assert RunFrom(d, (i: nat) => 0, 60_000, Forward(d, Start(d, world, map[]), 0), 1).status == IsCompleted;
    var falsy := Step("a", None, (w: int, c: map<string, int>, n: nat) => Failed(w, Thrown("", false)), None);
    var d' := Definition([falsy], None, None);
    assert RunFrom(d', (i: nat) => 0, 60_000, Forward(d', Start(d', world, map[]), 0), 1).status == IsCompleted;
  }

  // ---------------------------------------------------------------- exact inverses

  ghost predicate Agree<V>(c: map<string, V>, c': map<string, V>, keys: set<string>) {
    forall k :: k in keys ==> (k in c <==> k in c') && (k in c ==> c[k] == c'[k])
  }

  /** Compensating after the step brings back the world before it, as long as the context
      entries that the compensator reads are those the step left. */
  ghost predicate Undoes<W, V(!new)>(step: Step<W, V>, before: W, after: W, c: map<string, V>, reads_: set<string>) {
    && step.compensate.Some?
    && forall c': map<string, V> :: Agree(c, c', reads_) ==> step.compensate.value(after, c') == Undone(before)
  }

  /** The compensator is an exact inverse of every successful attempt, and failed attempts
      change nothing. */
  ghost predicate ExactInverse<W(!new), V(!new)>(step: Step<W, V>, reads_: set<string>) {
    forall w: W, c: map<string, V>, n: nat ::
      match step.execute(w, c, n)
      case Done(w', patch) => Undoes(step, w, w', Patched(c, patch), reads_)
      case Failed(w', e) => w' == w
  }

  /** No patch of the step touches these context entries. */
  ghost predicate Spares<W(!new), V(!new)>(step: Step<W, V>, keys: set<string>) {
    forall w: W, c: map<string, V>, n: nat ::
      step.execute(w, c, n).Done? && step.execute(w, c, n).patch.Some? ==>
        step.execute(w, c, n).patch.value.Keys !! keys
  }

  /** No attempt ever throws a falsy value. */
  ghost predicate ThrowsTruthy<W(!new), V(!new)>(step: Step<W, V>) {
    forall w: W, c: map<string, V>, n: nat :: step.execute(w, c, n).Failed? ==> step.execute(w, c, n).error.truthy
  }

  lemma {:induction false} RetryErrorTruthy<W(!new), V(!new)>(step: Step<W, V>, w: W, c: map<string, V>, attempt: nat, max: int)
    requires 1 <= attempt <= max && ThrowsTruthy(step)
    ensures var out := Retry(step, w, c, attempt, max); out.result.Err? ==> out.result.error.truthy
    decreases max - attempt
  {
    match step.execute(w, c, attempt)
    case Done(_, _) =>
    case Failed(w', e) =>
      if attempt < max {
        RetryErrorTruthy(step, w', c, attempt + 1, max);
      }
  }

  /** Every step has an exact inverse and later steps spare what the inverse reads. */
  ghost predicate Reversible<W(!new), V(!new)>(d: Definition<W, V>, reads_: seq<set<string>>) {
    && |reads_| == |d.steps|
    && (forall i :: 0 <= i < |d.steps| ==>
          ThrowsTruthy(d.steps[i]) && ExactInverse(d.steps[i], reads_[i]) && 1 <= MaxAttempts(d, i))
    && (forall i, j :: 0 <= i < j < |d.steps| ==> Spares(d.steps[j], reads_[i]))
  }

  lemma {:induction false} RetryExact<W(!new), V(!new)>(step: Step<W, V>, reads_: set<string>, w: W, c: map<string, V>, attempt: nat, max: int)
    requires 1 <= attempt <= max && ExactInverse(step, reads_)
    ensures var out := Retry(step, w, c, attempt, max);
      match out.result
      case Ok(patch) => Undoes(step, w, out.world, Patched(c, patch), reads_)
      case Err(_) => out.world == w
    decreases max - attempt
  {
    match step.execute(w, c, attempt)
    case Done(_, _) =>
    case Failed(w', e) =>
      if attempt < max {
        RetryExact(step, reads_, w', c, attempt + 1, max);
      }
  }

  lemma {:induction false} RetrySpares<W(!new), V(!new)>(step: Step<W, V>, keys: set<string>, w: W, c: map<string, V>, attempt: nat, max: int)
    requires 1 <= attempt <= max && Spares(step, keys)
    ensures var out := Retry(step, w, c, attempt, max);
      out.result.Ok? ==> Agree(c, Patched(c, out.result.value), keys)
    decreases max - attempt
  {
    match step.execute(w, c, attempt)
    case Done(_, _) =>
    case Failed(w', e) =>
      if attempt < max {
        RetrySpares(step, keys, w', c, attempt + 1, max);
      }
  }

  /** worlds[k] is the world before step k; each step below `i` completed and can be undone. */
  ghost predicate Chain<W, V(!new)>(d: Definition<W, V>, reads_: seq<set<string>>, inst: Instance<W, V>, worlds: seq<W>, i: nat) {
    && i <= |d.steps| == |inst.records| == |reads_| && |worlds| == i + 1
    && inst.world == worlds[i]
    && forall k :: 0 <= k < i ==>
         && inst.records[k].status == StepCompleted
         && Undoes(d.steps[k], worlds[k], worlds[k + 1], inst.context, reads_[k])
  }

  lemma UndoesFrame<W, V(!new)>(step: Step<W, V>, before: W, after: W, c: map<string, V>, c': map<string, V>, reads_: set<string>)
    requires Undoes(step, before, after, c, reads_) && Agree(c, c', reads_)
    ensures Undoes(step, before, after, c', reads_)
  {
    forall c'': map<string, V> | Agree(c', c'', reads_)
      ensures step.compensate.value(after, c'') == Undone(before)
    {
      assert Agree(c, c'', reads_);
    }
  }

  lemma {:induction false} ChainUndone<W, V(!new)>(d: Definition<W, V>, reads_: seq<set<string>>, inst: Instance<W, V>, worlds: seq<W>, i: nat)
    requires Chain(d, reads_, inst, worlds, i)
    ensures CompensateBelow(d, inst, i).world == worlds[0]
    decreases i
  {
    if i != 0 {
      assert Agree(inst.context, inst.context, reads_[i - 1]);
      assert Undoes(d.steps[i - 1], worlds[i - 1], worlds[i], inst.context, reads_[i - 1]);
      var one := CompensateOne(d, inst, i - 1);
      assert one.world == worlds[i - 1];
      ChainUndone(d, reads_, one, worlds[..i], i - 1);
    }
  }

  lemma ChainForward<W(!new), V(!new)>(d: Definition<W, V>, reads_: seq<set<string>>, inst: Instance<W, V>, worlds: seq<W>, i: nat)
    requires Reversible(d, reads_) && Chain(d, reads_, inst, worlds, i) && i < |d.steps|
    ensures var inst' := Forward(d, inst, i);
      if Noticed(d, inst, i).None?
      then Chain(d, reads_, inst', worlds + [inst'.world], i + 1)
      else inst'.world == inst.world && inst'.context == inst.context
  {
    var max := MaxAttempts(d, i);
    RetryExact(d.steps[i], reads_[i], inst.world, inst.context, 1, max);
    RetryErrorTruthy(d.steps[i], inst.world, inst.context, 1, max);
    var inst' := Forward(d, inst, i);
    if Noticed(d, inst, i).None? {
      var worlds' := worlds + [inst'.world];
      forall k | 0 <= k < i ensures Undoes(d.steps[k], worlds'[k], worlds'[k + 1], inst'.context, reads_[k]) {
        RetrySpares(d.steps[i], reads_[k], inst.world, inst.context, 1, max);
        UndoesFrame(d.steps[k], worlds[k], worlds[k + 1], inst.context, inst'.context, reads_[k]);
      }
    }
  }

  lemma {:induction false} RestoreFrom<W(!new), V(!new)>(d: Definition<W, V>, reads_: seq<set<string>>, now: nat -> int, deadline: int,
                                                          inst: Instance<W, V>, worlds: seq<W>, i: nat)
    requires Reversible(d, reads_) && Chain(d, reads_, inst, worlds, i)
    ensures var r := RunFrom(d, now, deadline, inst, i);
      r.status != IsCompleted ==> r.world == worlds[0]
    decreases |d.steps| - i
  {
    if i < |d.steps| {
      if now(i) > deadline {
        ChainUndone(d, reads_, inst.(status := IsCompensating, error := Some("Workflow timed out")), worlds, i);
      } else {
        ChainForward(d, reads_, inst, worlds, i);
        match Noticed(d, inst, i)
        case Some(e) =>
          var failed := StepFailure(Forward(d, inst, i), i, e);
          ChainUndone(d, reads_, failed.(status := IsCompensating, error := Some(e.message)), worlds, i);
        case None =>
          RestoreFrom(d, reads_, now, deadline, Forward(d, inst, i), worlds + [Forward(d, inst, i).world], i + 1);
      }
    }
  }

  /** If every step has an exact inverse, a run that does not complete leaves the world as
      it found it. */
  lemma ReversibleRunRestores<W(!new), V(!new)>(d: Definition<W, V>, reads_: seq<set<string>>, startedAt: int, now: nat -> int, w: W, c: map<string, V>)
    requires Reversible(d, reads_)
    ensures var r := Run(d, startedAt, now, w, c);
      r.status != IsCompleted ==> r.world == w
  {
    RestoreFrom(d, reads_, now, startedAt + Timeout(d), Start(d, w, c), [w], 0);
  }
}
