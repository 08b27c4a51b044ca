/** What the retry loop of one step and the compensation loop do, told by the attempts
    themselves. */
module SagaAttempts {
  import opened Totals
  import opened Saga

  // ---------------------------------------------------------------- attempts

  /** Attempts 1 to `k` - 1 failed; attempt j started from `ws[j - 1]` and left `ws[j]`. */
  ghost predicate Tried<W, V>(step: Step<W, V>, w: W, c: map<string, V>, ws: seq<W>, k: nat) {
    && 1 <= k == |ws| && ws[0] == w
    && forall j :: 1 <= j < k ==> step.execute(ws[j - 1], c, j).Failed? && step.execute(ws[j - 1], c, j).world == ws[j]
  }

  /** Attempt `k` is the last: it is done, or no other is allowed. */
  ghost predicate Last<W, V>(step: Step<W, V>, w: W, c: map<string, V>, ws: seq<W>, k: nat, max: int) {
    Tried(step, w, c, ws, k) && k <= max && (step.execute(ws[k - 1], c, k).Done? || k == max)
  }

  /** All attempts failed. */
  ghost predicate AllFail<W, V>(step: Step<W, V>, w: W, c: map<string, V>, ws: seq<W>, max: int) {
    1 <= max && Tried(step, w, c, ws, max) && step.execute(ws[max - 1], c, max).Failed?
  }

  lemma {:induction false} TriedUnique<W, V>(step: Step<W, V>, w: W, c: map<string, V>, ws: seq<W>, k: nat, ws': seq<W>, k': nat, j: nat)
    requires Tried(step, w, c, ws, k) && Tried(step, w, c, ws', k') && j < k && j < k'
    ensures ws[j] == ws'[j]
    decreases j
  {
    if j > 0 {
      TriedUnique(step, w, c, ws, k, ws', k', j - 1);
    }
  }

  lemma {:induction false} RetryTries<W, V>(step: Step<W, V>, w: W, c: map<string, V>, ws: seq<W>, attempt: nat, max: int)
    returns (k: nat, ws': seq<W>)
    requires Tried(step, w, c, ws, attempt) && attempt <= max
    ensures Last(step, w, c, ws', k, max)
    ensures var a, out := step.execute(ws'[k - 1], c, k), Retry(step, ws[attempt - 1], c, attempt, max);
      && out.attempts == k && out.world == a.world
      && out.result == if a.Done? then Ok(a.patch) else Err(a.error)
    decreases max - attempt
  {
    k, ws' := attempt, ws;
    var a := step.execute(ws[attempt - 1], c, attempt);
    if a.Failed? && attempt < max {
      k, ws' := RetryTries(step, w, c, ws + [a.world], attempt + 1, max);
    }
  }

  /** The instance after a step whose last attempt `a` was the `k`-th. */
  function AfterAttempt<W, V>(inst: Instance<W, V>, i: nat, a: Attempt<W, V>, k: nat): Instance<W, V>
    requires i < |inst.records|
  {
    var record := inst.records[i].(attempts := k);
    match a
    case Done(w, patch) =>
      Instance(inst.status, w, if patch.Some? then inst.context + patch.value else inst.context,
               inst.records[i := record.(status := StepCompleted)], inst.error, inst.trace + [Executed(i, patch)])
    case Failed(w, _) =>
      Instance(inst.status, w, inst.context, inst.records[i := record.(status := StepRunning)], inst.error, inst.trace)
  }

  /** A step is attempted until an attempt is done, each time from the world the one before
      left, and at most as often as its policy allows; its last attempt decides the record, the
      world, the context and whether the coordinator notices an error. */
  lemma AttemptsLaw<W, V>(d: Definition<W, V>, inst: Instance<W, V>, i: nat) returns (k: nat, ws: seq<W>)
    requires i < |d.steps| == |inst.records| && 1 <= MaxAttempts(d, i)
    ensures Last(d.steps[i], inst.world, inst.context, ws, k, MaxAttempts(d, i))
    ensures var a := d.steps[i].execute(ws[k - 1], inst.context, k);
      && Forward(d, inst, i) == AfterAttempt(inst, i, a, k)
      && Noticed(d, inst, i) == if a.Failed? && a.error.truthy then Some(a.error) else None
  {
    k, ws := RetryTries(d.steps[i], inst.world, inst.context, [inst.world], 1, MaxAttempts(d, i));
  }

  lemma LastUnique<W, V>(step: Step<W, V>, w: W, c: map<string, V>, ws: seq<W>, k: nat, ws': seq<W>, max: int)
    requires Last(step, w, c, ws, k, max) && AllFail(step, w, c, ws', max)
    ensures k == max && ws[k - 1] == ws'[k - 1]
  {
    TriedUnique(step, w, c, ws, k, ws', max, k - 1);
  }

  /** A step is noticed to fail if and only if all its attempts fail and the last one throws a
      truthy value. */
  lemma NoticedExactly<W(!new), V>(d: Definition<W, V>, inst: Instance<W, V>, i: nat)
    requires i < |d.steps| == |inst.records|
    ensures Noticed(d, inst, i).Some? <==> exists ws: seq<W> ::
      AllFail(d.steps[i], inst.world, inst.context, ws, MaxAttempts(d, i)) && LastError(d, inst, i, ws).truthy
    ensures forall ws: seq<W> :: AllFail(d.steps[i], inst.world, inst.context, ws, MaxAttempts(d, i)) ==>
      Noticed(d, inst, i) == if LastError(d, inst, i, ws).truthy then Some(LastError(d, inst, i, ws)) else None
  {
    if 1 <= MaxAttempts(d, i) {
      var k, ws := AttemptsLaw(d, inst, i);
      forall ws': seq<W> | AllFail(d.steps[i], inst.world, inst.context, ws', MaxAttempts(d, i))
        ensures Noticed(d, inst, i) == if LastError(d, inst, i, ws').truthy then Some(LastError(d, inst, i, ws')) else None
      {
        LastUnique(d.steps[i], inst.world, inst.context, ws, k, ws', MaxAttempts(d, i));
      }
      if Noticed(d, inst, i).Some? {
        assert AllFail(d.steps[i], inst.world, inst.context, ws, MaxAttempts(d, i)) && LastError(d, inst, i, ws).truthy;
      }
    }
  }

  function LastError<W, V>(d: Definition<W, V>, inst: Instance<W, V>, i: nat, ws: seq<W>): Thrown
    requires i < |d.steps| && 1 <= MaxAttempts(d, i) == |ws|
    requires d.steps[i].execute(ws[|ws| - 1], inst.context, |ws|).Failed?
  {
    d.steps[i].execute(ws[|ws| - 1], inst.context, |ws|).error
  }

  /** A step that may not be attempted is marked as running and left. */
  lemma NeverAttempted<W, V>(d: Definition<W, V>, inst: Instance<W, V>, i: nat)
    requires i < |d.steps| == |inst.records| && MaxAttempts(d, i) < 1
    ensures Noticed(d, inst, i) == None
    ensures Forward(d, inst, i) == inst.(records := inst.records[i := inst.records[i].(status := StepRunning)])
  {
  }

  /** Own policy, then the definition's, then one attempt; own limit, then a minute. */
  lemma Defaults<W, V>(d: Definition<W, V>, i: nat)
    requires i < |d.steps|
    ensures d.steps[i].maxAttempts.Some? ==> d.steps[i].maxAttempts == Some(MaxAttempts(d, i))
    ensures d.steps[i].maxAttempts.None? && d.maxAttempts.Some? ==> d.maxAttempts == Some(MaxAttempts(d, i))
    ensures d.steps[i].maxAttempts.None? && d.maxAttempts.None? ==> MaxAttempts(d, i) == 1
    ensures d.timeoutMs == Some(Timeout(d)) || (d.timeoutMs.None? && Timeout(d) == 60_000)
  {
  }

  // ---------------------------------------------------------------- compensations

  /** Compensating step `i` leads from world `w` to world `w'` and logs `event`. */
  ghost predicate UndoesOne<W, V>(d: Definition<W, V>, c: map<string, V>, i: nat, w: W, w': W, event: Event<V>) {
    && i < |d.steps| && d.steps[i].compensate.Some?
    && var u := d.steps[i].compensate.value(w, c);
       w' == u.world && event == if u.Undone? then Compensated(i) else CompensationFailed(i)
  }

  /** Compensating the listed steps in turn leads through the worlds `vs` and logs `events`. */
  ghost predicate Undoing<W, V>(d: Definition<W, V>, c: map<string, V>, steps: seq<nat>, vs: seq<W>, events: seq<Event<V>>) {
    && |vs| == |steps| + 1 && |events| == |steps|
    && forall k :: 0 <= k < |steps| ==> UndoesOne(d, c, steps[k], vs[k], vs[k + 1], events[k])
  }

  /** The completed steps below `n` that have a compensator, from the last to the first. */
  function DueSteps<W, V>(d: Definition<W, V>, records: seq<Record>, n: nat): seq<nat>
    requires n <= |d.steps| == |records|
  {
    if n == 0 then [] else
      (if records[n - 1].status == StepCompleted && d.steps[n - 1].compensate.Some? then [n - 1] else [])
      + DueSteps(d, records, n - 1)
  }

  lemma {:induction false} DueStepsFrame<W, V>(d: Definition<W, V>, r: seq<Record>, r': seq<Record>, n: nat)
    requires n <= |d.steps| == |r| == |r'| && forall j :: 0 <= j < n ==> r[j] == r'[j]
    ensures DueSteps(d, r, n) == DueSteps(d, r', n)
  {
    if n > 0 {
      DueStepsFrame(d, r, r', n - 1);
    }
  }

  /** Due are exactly the completed steps with a compensator, in strictly descending order. */
  lemma {:induction false} DueStepsAre<W, V>(d: Definition<W, V>, records: seq<Record>, n: nat)
    requires n <= |d.steps| == |records|
    ensures forall j: nat :: j in DueSteps(d, records, n) <==> j < n && records[j].status == StepCompleted && d.steps[j].compensate.Some?
    ensures forall k, l :: 0 <= k < l < |DueSteps(d, records, n)| ==> DueSteps(d, records, n)[l] < DueSteps(d, records, n)[k]
  {
    if n > 0 {
      DueStepsAre(d, records, n - 1);
      var rest := DueSteps(d, records, n - 1);
      assert forall k :: 0 <= k < |rest| ==> rest[k] in rest;
    }
  }

  /** From world `w` and trace `trace`, the due compensators lead to the world and trace of `r`. */
  ghost predicate Applied<W, V>(d: Definition<W, V>, inst: Instance<W, V>, n: nat, r: Instance<W, V>, vs: seq<W>, events: seq<Event<V>>)
    requires n <= |d.steps| == |inst.records|
  {
    && Undoing(d, inst.context, DueSteps(d, inst.records, n), vs, events)
    && vs[0] == inst.world && r.world == vs[|vs| - 1] && r.trace == inst.trace + events
  }

  /** Compensation applies the due compensators one after the other, each to the world the one
      before left, whether or not that one succeeded. */
  lemma {:induction false} CompensationsApply<W, V>(d: Definition<W, V>, inst: Instance<W, V>, n: nat) returns (vs: seq<W>, events: seq<Event<V>>)
    requires n <= |d.steps| == |inst.records|
    ensures Applied(d, inst, n, CompensateBelow(d, inst, n), vs, events)
    decreases n
  {
    if n == 0 {
      vs, events := [inst.world], [];
      assert inst.trace + [] == inst.trace;
    } else {
      var one := CompensateOne(d, inst, n - 1);
      CompensateOneIs(d, inst, n - 1);
      var rest, more := CompensationsApply(d, one, n - 1);
      vs, events := ApplyOne(d, inst, n - 1, CompensateBelow(d, one, n - 1), rest, more);
    }
  }

  lemma ApplyOne<W, V>(d: Definition<W, V>, inst: Instance<W, V>, i: nat, r: Instance<W, V>, rest: seq<W>, more: seq<Event<V>>)
    returns (vs: seq<W>, events: seq<Event<V>>)
    requires i < |d.steps| == |inst.records| == |CompensateOne(d, inst, i).records|
    requires Applied(d, CompensateOne(d, inst, i), i, r, rest, more)
    ensures Applied(d, inst, i + 1, r, vs, events)
  {
    var one := CompensateOne(d, inst, i);
    CompensateOneIs(d, inst, i);
    DueStepsFrame(d, inst.records, one.records, i);
    vs, events := rest, more;
    if inst.records[i].status == StepCompleted && d.steps[i].compensate.Some? {
      vs, events := UndoingFirst(d, inst.context, inst.world, i, DueSteps(d, inst.records, i), rest, more);
      assert one.trace + more == inst.trace + events;
    } else {
      assert [] + DueSteps(d, inst.records, i) == DueSteps(d, inst.records, i);
    }
  }

  lemma {:induction false} CompensateFrame<W, V>(d: Definition<W, V>, inst: Instance<W, V>, n: nat)
    requires n <= |d.steps| == |inst.records|
    ensures var r := CompensateBelow(d, inst, n);
      && r.context == inst.context && r.error == inst.error
      && |r.records| == |inst.records| && forall j :: n <= j < |r.records| ==> r.records[j] == inst.records[j]
    decreases n
  {
    if n > 0 {
      CompensateOneIs(d, inst, n - 1);
      CompensateFrame(d, CompensateOne(d, inst, n - 1), n - 1);
    }
  }

  lemma CompensateOneIs<W, V>(d: Definition<W, V>, inst: Instance<W, V>, i: nat)
    requires i < |d.steps| == |inst.records|
    ensures var one := CompensateOne(d, inst, i);
      && |one.records| == |inst.records| && one.context == inst.context && one.error == inst.error
      && (forall j :: 0 <= j < |one.records| && j != i ==> one.records[j] == inst.records[j])
      && if inst.records[i].status == StepCompleted && d.steps[i].compensate.Some?
         then var u := d.steps[i].compensate.value(inst.world, inst.context);
           one.world == u.world && one.trace == inst.trace + [if u.Undone? then Compensated(i) else CompensationFailed(i)]
         else one == inst
  {
  }

  lemma UndoingFirst<W, V>(d: Definition<W, V>, c: map<string, V>, w: W, i: nat, steps: seq<nat>, vs: seq<W>, events: seq<Event<V>>)
    returns (vs': seq<W>, events': seq<Event<V>>)
    requires i < |d.steps| && d.steps[i].compensate.Some? && Undoing(d, c, steps, vs, events)
    requires vs[0] == d.steps[i].compensate.value(w, c).world
    ensures Undoing(d, c, [i] + steps, vs', events') && vs'[0] == w && vs'[|vs'| - 1] == vs[|vs| - 1]
    ensures events' == [if d.steps[i].compensate.value(w, c).Undone? then Compensated(i) else CompensationFailed(i)] + events
  {
    vs' := [w] + vs;
    events' := [if d.steps[i].compensate.value(w, c).Undone? then Compensated(i) else CompensationFailed(i)] + events;
    var all := [i] + steps;
    forall k | 0 <= k < |all| ensures UndoesOne(d, c, all[k], vs'[k], vs'[k + 1], events'[k]) {
      if k > 0 {
        assert all[k] == steps[k - 1] && vs'[k] == vs[k - 1] && vs'[k + 1] == vs[k] && events'[k] == events[k - 1];
      }
    }
  }

  /** Compensating below `n`, with the given records, leads from world `w` to world `w'`. */
  ghost predicate UndoneTo<W(!new), V(!new)>(d: Definition<W, V>, c: map<string, V>, records: seq<Record>, n: nat, w: W, w': W)
    requires n <= |d.steps| == |records|
  {
    exists vs: seq<W>, events: seq<Event<V>> ::
      Undoing(d, c, DueSteps(d, records, n), vs, events) && vs[0] == w && vs[|vs| - 1] == w'
  }

  lemma FailAndCompensateIs<W(!new), V(!new)>(d: Definition<W, V>, inst: Instance<W, V>, f: nat, message: string, status: Status)
    requires f < |d.steps| == |inst.records|
    ensures var r := FailAndCompensate(d, inst, f, message, status);
      && r.status == status && r.error == Some(message) && r.context == inst.context
      && |r.records| == |d.steps| && r.records[f] == inst.records[f]
      && UndoneTo(d, inst.context, inst.records, f, inst.world, r.world)
  {
    var start := inst.(status := IsCompensating, error := Some(message));
    var vs, events := CompensationsApply(d, start, f);
    CompensateFrame(d, start, f);
    assert Undoing(d, inst.context, DueSteps(d, inst.records, f), vs, events);
  }
}
