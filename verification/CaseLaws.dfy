/** What every run over the in-memory case store keeps. */
module CaseLaws {
  import opened Totals
  import opened Cases

  // ---------------------------------------------------------------- reading a timeline

  /** Status a timeline replays to: it starts with the opening status, and every recorded
      change leaves the status reached so far along an allowed edge. */
  function Replay(def: Definition, timeline: seq<Entry>): Option<Status> {
    if timeline == [] then None else
      var before, last := Replay(def, timeline[..|timeline| - 1]), timeline[|timeline| - 1];
      match last
      case Created(_, to) => if |timeline| == 1 then Some(to) else None
      case StatusChanged(_, from, to) =>
        if before == Some(from) && from != to && CanTransition(def, from, to) then Some(to) else None
      case _ => before
  }

  function Escalations(timeline: seq<Entry>): nat {
    if timeline == [] then 0 else
      Escalations(timeline[..|timeline| - 1]) + (if timeline[|timeline| - 1].Escalated? then 1 else 0)
  }

  /** An entry that moves the case to a terminal status. */
  predicate Closes(def: Definition, e: Entry) {
    e.StatusChanged? && e.to in def.terminal
  }

  predicate EverClosed(def: Definition, timeline: seq<Entry>) {
    exists i :: 0 <= i < |timeline| && Closes(def, timeline[i])
  }

  /** Snapshot and timeline tell the same story. */
  predicate Consistent(def: Definition, f: File) {
    && Replay(def, f.timeline) == Some(f.snap.status)
    && f.timeline != [] && f.timeline[0].Created? && f.timeline[0].at == f.snap.openedAt
    && Escalations(f.timeline) == (if f.snap.escalatedAt.Some? then 1 else 0)
    && (forall i :: 0 <= i < |f.timeline| && f.timeline[i].Escalated? ==> f.snap.escalatedAt == Some(f.timeline[i].at))
    && (f.snap.closedAt.Some? <==> EverClosed(def, f.timeline))
    && f.snap.dueAt == DueAt(f.snap.openedAt, f.snap.priority, def.sla)
  }

  // ---------------------------------------------------------------- runs

  datatype Op =
    | OpOpen(ref: Ref, status: Status, priority: Option<int>, assignee: Option<Person>, now: int)
    | OpTransition(ref: Ref, to: Status, now: int)
    | OpAssign(ref: Ref, person: Person, now: int)
    | OpSetPriority(ref: Ref, newPriority: int, now: int)
    | OpNote(ref: Ref, now: int)
    | OpEvaluateSla(ref: Ref, now: int, clock: int, auto: bool)

  function Effect(def: Definition, f: File, op: Op): File {
    match op
    case OpOpen(_, status, p, a, now) => OpenedFile(def, status, if p.Some? then p.value else 3, a, now)
    case OpTransition(_, to, now) => MovedFile(def, f, to, now)
    case OpAssign(_, person, now) => Logged(f, f.snap.(assignee := Some(person)), Assigned(now, person))
    case OpSetPriority(_, p, now) => PrioritisedFile(def, f, p, now)
    case OpNote(_, now) => Logged(f, f.snap, Note(now))
    case OpEvaluateSla(_, now, clock, auto) => EvaluatedFile(def, f, now, clock, auto)
  }

  function Step(definitions: Kind -> Definition, s: Store, op: Op): (t: Store)
    requires Paired(s)
    ensures Paired(t)
  {
    var def := definitions(op.ref.kind);
    if op.OpOpen? then
      Put(s, op.ref, OpenedFile(def, op.status, if op.priority.Some? then op.priority.value else 3, op.assignee, op.now))
    else if op.ref !in s.cases then s
    else Put(s, op.ref, Effect(def, FileAt(s, op.ref), op))
  }

  function Run(definitions: Kind -> Definition, ops: seq<Op>): (s: Store)
    ensures Paired(s)
  {
    if ops == [] then Store(map[], map[])
    else Step(definitions, Run(definitions, ops[..|ops| - 1]), ops[|ops| - 1])
  }

  // ---------------------------------------------------------------- preservation

  lemma OpenedConsistent(def: Definition, status: Status, priority: int, assignee: Option<Person>, now: int)
    ensures Consistent(def, OpenedFile(def, status, priority, assignee, now))
  {
    var t := [Created(now, status)];
    assert t[..0] == [];
  }

  lemma LoggedConsistent(def: Definition, f: File, snap: Snapshot, e: Entry)
    requires Consistent(def, f) && !e.Created?
    requires snap.openedAt == f.snap.openedAt && snap.dueAt == DueAt(snap.openedAt, snap.priority, def.sla)
    requires if e.StatusChanged?
      then e.from == f.snap.status && e.to == snap.status != e.from && CanTransition(def, e.from, e.to)
      else snap.status == f.snap.status
    requires if e.Escalated?
      then f.snap.escalatedAt.None? && snap.escalatedAt == Some(e.at)
      else snap.escalatedAt == f.snap.escalatedAt
    requires snap.closedAt.Some? <==> f.snap.closedAt.Some? || Closes(def, e)
    ensures Consistent(def, Logged(f, snap, e))
  {
    var t, u := f.timeline, f.timeline + [e];
    assert u[..|u| - 1] == t && u[|t|] == e;
    assert forall i :: 0 <= i < |t| ==> u[i] == t[i];
    if f.snap.escalatedAt.None? {
      NoEscalations(t);
    }
    assert EverClosed(def, u) <==> EverClosed(def, t) || Closes(def, e);
  }

  lemma {:induction false} NoEscalations(t: seq<Entry>)
    ensures Escalations(t) == 0 <==> forall i :: 0 <= i < |t| ==> !t[i].Escalated?
  {
    if t != [] {
      NoEscalations(t[..|t| - 1]);
    }
  }

  lemma MovedConsistent(def: Definition, f: File, to: Status, now: int)
    requires Consistent(def, f)
    ensures Consistent(def, MovedFile(def, f, to, now))
  {
    if CanTransition(def, f.snap.status, to) && f.snap.status != to {
      var snap := f.snap.(status := to, closedAt := if to in def.terminal then Some(now) else f.snap.closedAt);
      LoggedConsistent(def, f, snap, StatusChanged(now, f.snap.status, to));
    }
  }

  lemma EvaluatedConsistent(def: Definition, f: File, now: int, clock: int, auto: bool)
    requires Consistent(def, f)
    ensures Consistent(def, EvaluatedFile(def, f, now, clock, auto))
  {
    if ShouldEscalate(def, f.snap, now) && f.snap.escalatedAt.None? {
      var e, snap := Escalated(now, EscalationReason(def, f.snap, now)), f.snap.(escalatedAt := Some(now));
      LoggedConsistent(def, f, snap, e);
      var target := def.escalation.value.escalateTo;
      if target.Some? {
        MovedConsistent(def, Logged(f, snap, e), target.value, clock);
      }
    }
  }

  lemma EffectConsistent(def: Definition, f: File, op: Op)
    requires Consistent(def, f)
    ensures Consistent(def, Effect(def, f, op))
  {
    match op
    case OpOpen(_, status, p, a, now) => OpenedConsistent(def, status, if p.Some? then p.value else 3, a, now);
    case OpTransition(_, to, now) => MovedConsistent(def, f, to, now);
    case OpAssign(_, person, now) =>
      LoggedConsistent(def, f, f.snap.(assignee := Some(person)), Assigned(now, person));
    case OpSetPriority(_, p, now) =>
      var due := DueAt(f.snap.openedAt, p, def.sla);
      LoggedConsistent(def, f, f.snap.(priority := p, dueAt := due), PriorityChanged(now, p, due));
    case OpNote(_, now) => LoggedConsistent(def, f, f.snap, Note(now));
    case OpEvaluateSla(_, now, clock, auto) => EvaluatedConsistent(def, f, now, clock, auto);
  }

  /** In every run, every case's snapshot is what its timeline says. */
  lemma {:induction false} RunLaw(definitions: Kind -> Definition, ops: seq<Op>)
    ensures var s := Run(definitions, ops);
      forall ref :: ref in s.cases ==> Consistent(definitions(ref.kind), FileAt(s, ref))
  {
    if ops != [] {
      var before, op := Run(definitions, ops[..|ops| - 1]), ops[|ops| - 1];
      RunLaw(definitions, ops[..|ops| - 1]);
      var def := definitions(op.ref.kind);
      if op.OpOpen? {
        OpenedConsistent(def, op.status, if op.priority.Some? then op.priority.value else 3, op.assignee, op.now);
      } else if op.ref in before.cases {
        EffectConsistent(def, FileAt(before, op.ref), op);
      }
      var s := Run(definitions, ops);
      forall ref | ref in s.cases ensures Consistent(definitions(ref.kind), FileAt(s, ref)) {
        if ref != op.ref {
          assert FileAt(s, ref) == FileAt(before, ref);
        }
      }
    }
  }

  /** A case is escalated at most once: evaluating an escalated case changes nothing. */
  lemma EscalatedOnce(def: Definition, f: File, now: int, clock: int, auto: bool, later: int, clock2: int, auto2: bool)
    ensures var g := EvaluatedFile(def, f, now, clock, auto);
      (g.snap.escalatedAt.Some? ==> EvaluatedFile(def, g, later, clock2, auto2) == g) && (g != f ==> g.snap.escalatedAt == Some(now))
  {
  }

  // ---------------------------------------------------------------- due dates

  /** Higher priorities (smaller numbers) have no smaller multiplier. */
  predicate Graded(sla: Sla) {
    forall p, q :: 1 <= p <= q <= 5 ==> MultiplierOf(sla, p) >= MultiplierOf(sla, q)
  }

  lemma MinutesFall(base: int, m: Multiplier, n: Multiplier)
    requires m >= n
    ensures Minutes(base, m) <= Minutes(base, n)
  {
    if base >= 0 {
      QuotientFalls(base as real, m, n);
    } else {
      assert base as real / m < 0.0;
    }
  }

  lemma QuotientFalls(x: real, m: Multiplier, n: Multiplier)
    requires x >= 0.0 && m >= n
    ensures x / m <= x / n
  {
    var q := x / n;
    assert x == q * n;
    assert q * n <= q * m;
    assert x / m <= q * m / m == q;
  }

  /** Raising the priority of a consistent case never moves its due date later. */
  lemma RaisingNeverLater(def: Definition, f: File, priority: int, now: int)
    requires Consistent(def, f) && Graded(def.sla) && 1 <= priority <= f.snap.priority <= 5
    ensures PrioritisedFile(def, f, priority, now).snap.dueAt <= f.snap.dueAt
  {
    MinutesFall(def.sla.resolveMinutes, MultiplierOf(def.sla, priority), MultiplierOf(def.sla, f.snap.priority));
  }

  /** Setting a priority and then the old one again restores the due date. */
  lemma PriorityRoundTrip(def: Definition, f: File, priority: int, now: int, later: int)
    requires Consistent(def, f)
    ensures PrioritisedFile(def, PrioritisedFile(def, f, priority, now), f.snap.priority, later).snap == f.snap
  {
  }

  /** The policies of the registry: default multipliers listed, or none given. */
  function DefaultSla(resolveMinutes: int): Sla {
    Sla(4 * 60, resolveMinutes, map[1 := 2.0, 2 := 1.5, 3 := 1.0, 4 := 0.75, 5 := 0.5])
  }

  const SupportSla := Sla(60, 24 * 60, map[])

  lemma RegistryGraded(days: int)
    ensures Graded(DefaultSla(days * 24 * 60)) && Graded(SupportSla)
    ensures forall p :: MultiplierOf(DefaultSla(days * 24 * 60), p) == MultiplierOf(SupportSla, p)
  {
  }
}
