/** The case manager over its in-memory store: a state machine with an arbitrary table, a
    timeline per case, and a cached due date. Times are milliseconds, multipliers reals. */
module Cases {
  import opened Totals

  type Kind = nat
  type Status = nat
  type Person = nat

  datatype Ref = Ref(kind: Kind, id: nat)

  type Multiplier = x: real | x > 0.0 witness 1.0

  datatype Sla = Sla(responseMinutes: int, resolveMinutes: int, multipliers: map<int, Multiplier>)

  datatype Escalation = Escalation(
    unassignedPastResponse: bool, unresolvedPastResolve: bool, maxPriority: Option<int>, escalateTo: Option<Status>)

  datatype Definition = Definition(
    transitions: map<Status, seq<Status>>,
    allowSameState: bool,
    sla: Sla,
    escalation: Option<Escalation>,
    terminal: seq<Status>)

  datatype Snapshot = Snapshot(
    status: Status,
    assignee: Option<Person>,
    priority: int,
    openedAt: int,
    dueAt: int,
    escalatedAt: Option<int>,
    closedAt: Option<int>)

  datatype Reason = ResponseSla | ResolveSla | PriorityUnassigned

  datatype Entry =
    | Created(at: int, to: Status)
    | StatusChanged(at: int, from: Status, to: Status)
    | Assigned(at: int, person: Person)
    | PriorityChanged(at: int, priority: int, dueAt: int)
    | Note(at: int)
    | Escalated(at: int, reason: Reason)

  /** One case with its timeline. */
  datatype File = File(snap: Snapshot, timeline: seq<Entry>)

  datatype Store = Store(cases: map<Ref, Snapshot>, timelines: map<Ref, seq<Entry>>)

  datatype Outcome = Done | NotFound | Conflict

  // ---------------------------------------------------------------- deadlines

  function DefaultMultiplier(priority: int): Multiplier {
    match priority
    case 1 => 2.0
    case 2 => 1.5
    case 3 => 1.0
    case 4 => 0.75
    case 5 => 0.5
    case _ => 1.0
  }

  function MultiplierOf(sla: Sla, priority: int): Multiplier {
    if priority in sla.multipliers then sla.multipliers[priority] else DefaultMultiplier(priority)
  }

  function Minutes(base: int, m: Multiplier): int {
    var rounded := (base as real / m + 0.5).Floor;
    if rounded > 1 then rounded else 1
  }

  function DueAt(openedAt: int, priority: int, sla: Sla): int {
    openedAt + Minutes(sla.resolveMinutes, MultiplierOf(sla, priority)) * 60000
  }

  function ResponseDueAt(openedAt: int, priority: int, sla: Sla): int {
    openedAt + Minutes(sla.responseMinutes, MultiplierOf(sla, priority)) * 60000
  }

  predicate ResponseBreached(s: Snapshot, sla: Sla, now: int) {
    s.assignee.None? && now > ResponseDueAt(s.openedAt, s.priority, sla)
  }

  predicate ResolveBreached(s: Snapshot, def: Definition, now: int) {
    s.status !in def.terminal && s.closedAt.None? && now > s.dueAt
  }

  // ---------------------------------------------------------------- specification

  predicate CanTransition(def: Definition, from: Status, to: Status) {
    if from == to then def.allowSameState
    else from in def.transitions && to in def.transitions[from]
  }

  function OpenedFile(def: Definition, status: Status, priority: int, assignee: Option<Person>, now: int): File {
    File(Snapshot(status, assignee, priority, now, DueAt(now, priority, def.sla), None, None), [Created(now, status)])
  }

  function Logged(f: File, snap: Snapshot, e: Entry): File {
    File(snap, f.timeline + [e])
  }

  function MovedFile(def: Definition, f: File, to: Status, now: int): File {
    if !CanTransition(def, f.snap.status, to) || f.snap.status == to then f
    else Logged(f, f.snap.(status := to, closedAt := if to in def.terminal then Some(now) else f.snap.closedAt),
                StatusChanged(now, f.snap.status, to))
  }

  function PrioritisedFile(def: Definition, f: File, priority: int, now: int): File {
    var due := DueAt(f.snap.openedAt, priority, def.sla);
    Logged(f, f.snap.(priority := priority, dueAt := due), PriorityChanged(now, priority, due))
  }

  predicate ShouldEscalate(def: Definition, s: Snapshot, now: int) {
    && def.escalation.Some?
    && var r := def.escalation.value;
      || (r.unassignedPastResponse && ResponseBreached(s, def.sla, now))
      || (r.unresolvedPastResolve && ResolveBreached(s, def, now))
      || (r.maxPriority.Some? && s.priority <= r.maxPriority.value && s.assignee.None?)
  }

  function EscalationReason(def: Definition, s: Snapshot, now: int): Reason {
    if ResponseBreached(s, def.sla, now) then ResponseSla
    else if ResolveBreached(s, def, now) then ResolveSla
    else PriorityUnassigned
  }

  /** Evaluating the SLA at `now`; an automatic status change is stamped with `clock`. */
  function EvaluatedFile(def: Definition, f: File, now: int, clock: int, auto: bool): File {
    if !ShouldEscalate(def, f.snap, now) || f.snap.escalatedAt.Some? then f else
      var g := Logged(f, f.snap.(escalatedAt := Some(now)), Escalated(now, EscalationReason(def, f.snap, now)));
      var target := def.escalation.value.escalateTo;
      if auto && target.Some? then MovedFile(def, g, target.value, clock) else g
  }

  predicate Paired(s: Store) {
    s.cases.Keys == s.timelines.Keys
  }

  function FileAt(s: Store, ref: Ref): File
    requires Paired(s) && ref in s.cases
  {
    File(s.cases[ref], s.timelines[ref])
  }

  function Put(s: Store, ref: Ref, f: File): (t: Store)
    requires Paired(s)
    ensures Paired(t)
  {
    Store(s.cases[ref := f.snap], s.timelines[ref := f.timeline])
  }

  // ---------------------------------------------------------------- the in-memory store

  class InMemoryCaseStore {
    var cases: map<Ref, Snapshot>
    var timelines: map<Ref, seq<Entry>>
    const definitions: Kind -> Definition

    ghost function Contents(): Store
      reads this
    {
      Store(cases, timelines)
    }

    constructor (definitions: Kind -> Definition)
      ensures Contents() == Store(map[], map[]) && this.definitions == definitions
    {
      this.definitions := definitions;
      cases, timelines := map[], map[];
    }

    method Open(ref: Ref, status: Status, priority: Option<int>, assignee: Option<Person>, now: int) returns (snap: Snapshot)
      requires Paired(Contents())
      modifies this
      ensures ref in cases && snap == cases[ref]
      ensures Contents() == Put(old(Contents()), ref,
        OpenedFile(definitions(ref.kind), status, if priority.Some? then priority.value else 3, assignee, now))
    {
      var p := if priority.Some? then priority.value else 3;
      snap := Snapshot(status, assignee, p, now, DueAt(now, p, definitions(ref.kind).sla), None, None);
      cases := cases[ref := snap];
      timelines := timelines[ref := [Created(now, status)]];
    }

    method SaveStatus(ref: Ref, status: Status, now: int)
      requires ref in cases
      modifies this
      ensures timelines == old(timelines)
      ensures cases == old(cases)[ref := old(cases)[ref].(status := status,
        closedAt := if status in definitions(ref.kind).terminal then Some(now) else old(cases)[ref].closedAt)]
    {
      var snap := cases[ref];
      var closedAt := if status in definitions(ref.kind).terminal then Some(now) else snap.closedAt;
      cases := cases[ref := snap.(status := status, closedAt := closedAt)];
    }

    method Assign(ref: Ref, person: Person)
      requires ref in cases
      modifies this
      ensures timelines == old(timelines)
      ensures cases == old(cases)[ref := old(cases)[ref].(assignee := Some(person))]
    {
      cases := cases[ref := cases[ref].(assignee := Some(person))];
    }

    method SetPriority(ref: Ref, priority: int)
      requires ref in cases
      modifies this
      ensures timelines == old(timelines)
      ensures cases == old(cases)[ref := old(cases)[ref].(priority := priority,
        dueAt := DueAt(old(cases)[ref].openedAt, priority, definitions(ref.kind).sla))]
    {
      var snap := cases[ref];
      cases := cases[ref := snap.(priority := priority, dueAt := DueAt(snap.openedAt, priority, definitions(ref.kind).sla))];
    }

    method MarkEscalated(ref: Ref, at: int)
      requires ref in cases
      modifies this
      ensures timelines == old(timelines)
      ensures cases == old(cases)[ref := old(cases)[ref].(escalatedAt := Some(at))]
    {
      cases := cases[ref := cases[ref].(escalatedAt := Some(at))];
    }

    method AppendTimeline(ref: Ref, e: Entry)
      modifies this
      ensures cases == old(cases)
      ensures timelines == old(timelines)[ref := (if ref in old(timelines) then old(timelines)[ref] else []) + [e]]
    {
      var list := if ref in timelines then timelines[ref] else [];
      timelines := timelines[ref := list + [e]];
    }
  }

  // ---------------------------------------------------------------- the manager

  /** The kind of support cases and the status they open in. */
  const SUPPORT: Kind := 0
  const OPEN: Status := 0

  class CaseManager {
    const memory: InMemoryCaseStore

    constructor (memory: InMemoryCaseStore)
      ensures this.memory == memory
    {
      this.memory := memory;
    }

    /** Opening an id again replaces its case and its timeline. */
    method OpenSupportCase(id: nat, priority: Option<int>, assignee: Option<Person>, now: int) returns (snap: Snapshot)
      requires Paired(memory.Contents())
      modifies memory
      ensures var ref, p := Ref(SUPPORT, id), if priority.Some? then priority.value else 3;
        var f := OpenedFile(memory.definitions(SUPPORT), OPEN, p, assignee, now);
        snap == f.snap && memory.Contents() == Put(old(memory.Contents()), ref, f)
    {
      snap := memory.Open(Ref(SUPPORT, id), OPEN, priority, assignee, now);
    }

    method Transition(ref: Ref, to: Status, now: int) returns (outcome: Outcome)
      requires Paired(memory.Contents())
      modifies memory
      ensures var was, def := old(memory.Contents()), memory.definitions(ref.kind);
        if ref !in was.cases then outcome == NotFound && memory.Contents() == was
        else
          && (outcome == if CanTransition(def, was.cases[ref].status, to) then Done else Conflict)
          && memory.Contents() == Put(was, ref, MovedFile(def, FileAt(was, ref), to, now))
    {
      if ref !in memory.cases {
        return NotFound;
      }
      var def, from := memory.definitions(ref.kind), memory.cases[ref].status;
      if !CanTransition(def, from, to) {
        return Conflict;
      }
      if from == to && def.allowSameState {
        return Done;
      }
      memory.SaveStatus(ref, to, now);
      memory.AppendTimeline(ref, StatusChanged(now, from, to));
      return Done;
    }

    method Assign(ref: Ref, person: Person, now: int) returns (outcome: Outcome)
      requires Paired(memory.Contents())
      modifies memory
      ensures var was := old(memory.Contents());
        if ref !in was.cases then outcome == NotFound && memory.Contents() == was
        else
          && outcome == Done
          && memory.Contents() ==
             Put(was, ref, Logged(FileAt(was, ref), was.cases[ref].(assignee := Some(person)), Assigned(now, person)))
    {
      if ref !in memory.cases {
        return NotFound;
      }
      memory.Assign(ref, person);
      memory.AppendTimeline(ref, Assigned(now, person));
      return Done;
    }

    method SetPriority(ref: Ref, priority: int, now: int) returns (outcome: Outcome)
      requires Paired(memory.Contents())
      modifies memory
      ensures var was, def := old(memory.Contents()), memory.definitions(ref.kind);
        if ref !in was.cases then outcome == NotFound && memory.Contents() == was
        else outcome == Done && memory.Contents() == Put(was, ref, PrioritisedFile(def, FileAt(was, ref), priority, now))
    {
      if ref !in memory.cases {
        return NotFound;
      }
      memory.SetPriority(ref, priority);
      memory.AppendTimeline(ref, PriorityChanged(now, priority, memory.cases[ref].dueAt));
      return Done;
    }

    method AddNote(ref: Ref, now: int) returns (outcome: Outcome)
      requires Paired(memory.Contents())
      modifies memory
      ensures var was := old(memory.Contents());
        if ref !in was.cases then outcome == NotFound && memory.Contents() == was
        else outcome == Done && memory.Contents() == Put(was, ref, Logged(FileAt(was, ref), was.cases[ref], Note(now)))
    {
      if ref !in memory.cases {
        return NotFound;
      }
      memory.AppendTimeline(ref, Note(now));
      return Done;
    }

    /** Marks and logs the escalation, then moves the case if that is wanted and allowed. */
    method Escalate(ref: Ref, reason: Reason, now: int, target: Option<Status>, clock: int)
      requires Paired(memory.Contents()) && ref in memory.cases
      modifies memory
      ensures var was, def := old(memory.Contents()), memory.definitions(ref.kind);
        var g := Logged(FileAt(was, ref), was.cases[ref].(escalatedAt := Some(now)), Escalated(now, reason));
        memory.Contents() == Put(was, ref, if target.Some? then MovedFile(def, g, target.value, clock) else g)
    {
      ghost var was := old(memory.Contents());
      ghost var g := Logged(FileAt(was, ref), was.cases[ref].(escalatedAt := Some(now)), Escalated(now, reason));
      memory.MarkEscalated(ref, now);
      memory.AppendTimeline(ref, Escalated(now, reason));
      assert memory.Contents() == Put(was, ref, g) && FileAt(memory.Contents(), ref) == g;
      if target.Some? && CanTransition(memory.definitions(ref.kind), memory.cases[ref].status, target.value) {
        var _ := Transition(ref, target.value, clock);
      }
    }

    method EvaluateSla(ref: Ref, now: int, clock: int, auto: bool) returns (outcome: Outcome, escalated: bool)
      requires Paired(memory.Contents())
      modifies memory
      ensures var was, def := old(memory.Contents()), memory.definitions(ref.kind);
        if ref !in was.cases then outcome == NotFound && memory.Contents() == was
        else
          && outcome == Done
          && escalated == (ShouldEscalate(def, was.cases[ref], now) && was.cases[ref].escalatedAt.None?)
          && memory.Contents() == Put(was, ref, EvaluatedFile(def, FileAt(was, ref), now, clock, auto))
    {
      if ref !in memory.cases {
        return NotFound, false;
      }
      var def, snap := memory.definitions(ref.kind), memory.cases[ref];
      var responseBreached := ResponseBreached(snap, def.sla, now);
      var resolveBreached := ResolveBreached(snap, def, now);
      var shouldEscalate := false;
      if def.escalation.Some? {
        var rules := def.escalation.value;
        shouldEscalate :=
          || (rules.unassignedPastResponse && responseBreached)
          || (rules.unresolvedPastResolve && resolveBreached)
          || (rules.maxPriority.Some? && snap.priority <= rules.maxPriority.value && snap.assignee.None?);
      }
      if !shouldEscalate || snap.escalatedAt.Some? {
        return Done, false;
      }
      var reason := if responseBreached then ResponseSla else if resolveBreached then ResolveSla else PriorityUnassigned;
      Escalate(ref, reason, now, if auto then def.escalation.value.escalateTo else None, clock);
      return Done, true;
    }
  }
}
