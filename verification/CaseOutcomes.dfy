/** What each case operation does to a case, in terms of the definition's tables and the
    policy's minutes. */
module CaseOutcomes {
  import opened Totals
  import opened Cases

  // ---------------------------------------------------------------- minutes

  /** `n` is `base / m` rounded to the nearest whole number, halves up, and at least one. */
  predicate Nearest(base: int, m: Multiplier, n: int) {
    var twice := 2.0 * base as real;
    if n == 1 then twice < 3.0 * m
    else n > 1 && (2 * n - 1) as real * m <= twice < (2 * n + 1) as real * m
  }

  lemma Times(a: real, b: real, m: Multiplier)
    ensures a <= b / m <==> a * m <= b
    ensures a > b / m <==> a * m > b
  {
    var q := b / m;
    assert q * m == b;
    assert a <= q ==> a * m <= q * m;
    assert a > q ==> a * m > q * m;
  }

  lemma MinutesNearest(base: int, m: Multiplier)
    ensures Nearest(base, m, Minutes(base, m))
  {
    var x, n := base as real / m, Minutes(base, m);
    var rounded := (x + 0.5).Floor;
    assert rounded as real <= x + 0.5 < (rounded + 1) as real;
    Times(n as real - 0.5, base as real, m);
    Times(n as real + 0.5, base as real, m);
    assert (n as real + 0.5) * m == (2 * n + 1) as real * m / 2.0;
    assert (n as real - 0.5) * m == (2 * n - 1) as real * m / 2.0;
  }

  /** Both deadlines lie a whole number of minutes after the opening: the policy's minutes
      divided by the priority's multiplier, rounded to the nearest and at least one. */
  lemma DeadlinesAre(openedAt: int, priority: int, sla: Sla)
    ensures exists n :: Nearest(sla.resolveMinutes, MultiplierOf(sla, priority), n) && DueAt(openedAt, priority, sla) == openedAt + n * 60000
    ensures exists n :: Nearest(sla.responseMinutes, MultiplierOf(sla, priority), n) && ResponseDueAt(openedAt, priority, sla) == openedAt + n * 60000
    ensures priority in sla.multipliers ==> MultiplierOf(sla, priority) == sla.multipliers[priority]
  {
    MinutesNearest(sla.resolveMinutes, MultiplierOf(sla, priority));
    MinutesNearest(sla.responseMinutes, MultiplierOf(sla, priority));
  }

  // ---------------------------------------------------------------- operations

  /** An edge of the table to another status. */
  predicate Edge(def: Definition, from: Status, to: Status) {
    from != to && from in def.transitions && to in def.transitions[from]
  }

  /** A transition is accepted along an edge, or in place where that is allowed; along an edge it
      sets and logs the status, and the closing time if the status is terminal; in place, and when
      refused, it changes nothing. */
  lemma TransitionLaw(def: Definition, f: File, to: Status, now: int)
    ensures var g, from := MovedFile(def, f, to, now), f.snap.status;
      && (CanTransition(def, from, to) <==> Edge(def, from, to) || (from == to && def.allowSameState))
      && (!Edge(def, from, to) ==> g == f)
      && (Edge(def, from, to) ==>
            && g.timeline == f.timeline + [StatusChanged(now, from, to)]
            && g.snap == f.snap.(status := to, closedAt := g.snap.closedAt)
            && g.snap.closedAt == if to in def.terminal then Some(now) else f.snap.closedAt)
  {
  }

  lemma OpenLaw(def: Definition, status: Status, priority: int, assignee: Option<Person>, now: int)
    ensures var f := OpenedFile(def, status, priority, assignee, now);
      && f.timeline == [Created(now, status)]
      && f.snap.status == status && f.snap.priority == priority && f.snap.assignee == assignee && f.snap.openedAt == now
      && f.snap.escalatedAt.None? && f.snap.closedAt.None? && f.snap.dueAt == DueAt(now, priority, def.sla)
  {
  }

  /** A change of priority sets it, moves the due date with it, logs both, and nothing else. */
  lemma PriorityLaw(def: Definition, f: File, priority: int, now: int)
    ensures var g := PrioritisedFile(def, f, priority, now);
      && g.snap == f.snap.(priority := priority, dueAt := g.snap.dueAt)
      && g.snap.dueAt == DueAt(f.snap.openedAt, priority, def.sla)
      && g.timeline == f.timeline + [PriorityChanged(now, priority, g.snap.dueAt)]
  {
  }

  /** Nobody took the case in time. */
  predicate Late(s: Snapshot, sla: Sla, now: int) {
    s.assignee.None? && ResponseDueAt(s.openedAt, s.priority, sla) < now
  }

  /** The case is open past its due date. */
  predicate Overdue(def: Definition, s: Snapshot, now: int) {
    s.status !in def.terminal && s.closedAt.None? && s.dueAt < now
  }

  /** Evaluating the policy escalates a case exactly when it was not escalated before and one of
      the definition's rules applies: unassigned past the response time, open past the due date, or
      urgent and unassigned. The reason is the first of these that holds of the case. The case then
      moves to the target status if that is wanted and an edge leads there. */
  lemma EscalationLaw(def: Definition, f: File, now: int, clock: int, auto: bool)
    ensures var g, s := EvaluatedFile(def, f, now, clock, auto), f.snap;
      var escalates := s.escalatedAt.None? && def.escalation.Some? &&
        var r := def.escalation.value;
        || (r.unassignedPastResponse && Late(s, def.sla, now))
        || (r.unresolvedPastResolve && Overdue(def, s, now))
        || (r.maxPriority.Some? && s.priority <= r.maxPriority.value && s.assignee.None?);
      var reason := if Late(s, def.sla, now) then ResponseSla else if Overdue(def, s, now) then ResolveSla else PriorityUnassigned;
      && (!escalates ==> g == f)
      && (escalates ==>
            var moves := auto && def.escalation.value.escalateTo.Some? && Edge(def, s.status, def.escalation.value.escalateTo.value);
            && g.snap.escalatedAt == Some(now)
            && g.snap.status == (if moves then def.escalation.value.escalateTo.value else s.status)
            && g.timeline == f.timeline + [Escalated(now, reason)]
                             + (if moves then [StatusChanged(clock, s.status, g.snap.status)] else []))
  {
  }
}
