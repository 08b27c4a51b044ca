/** The idempotency interceptor as a protocol: any number of requests with one scope and
    key, interleaved at every cache access. Cache reads may fail and count as misses,
    writes and deletions may be lost, and setting the claim may raise an error whether or
    not it took effect. The record's time to live does not run out. */
module Idempotency {
  import opened Totals

  type RequestId = nat
  type Fingerprint = nat
  type Body = nat

  datatype Record = Processing(fingerprint: Fingerprint) | Completed(fingerprint: Fingerprint, status: int, body: Body)

  /** `statusCode || 200` */
  function OrOk(status: int): int {
    if status == 0 then 200 else status
  }

  // ---------------------------------------------------------------- the shared record

  /** What a read returns: a failing read is a miss. */
  function Seen(record: Option<Record>, fails: bool): Option<Record> {
    if fails then None else record
  }

  function Claimed(record: Option<Record>, fp: Fingerprint): Option<Record> {
    if record.None? then Some(Processing(fp)) else record
  }

  function Finished(record: Option<Record>, fp: Fingerprint, status: int, body: Body, lost: bool): Option<Record> {
    if lost then record else Some(Completed(fp, OrOk(status), body))
  }

  function Cleared(record: Option<Record>, lost: bool): Option<Record> {
    if lost then record else None
  }

  // ---------------------------------------------------------------- the protocol

  datatype Rejection = KeyConflict | InProgress | CacheError

  datatype Phase =
    | Arrived                               // key and fingerprint are known
    | Missed                                // the first read found nothing
    | Raced                                 // another request holds the claim
    | Running                               // claimed; the handler runs
    | Succeeded(status: int, body: Body)    // the handler returned; the record is not written yet
    | Threw                                 // the handler threw; the deletion is on its way
    | Answered(status: int, body: Body)
    | Replayed(status: int, body: Body)
    | Rejected(why: Rejection)
    | Failed

  datatype Request = Request(fingerprint: Fingerprint, phase: Phase)

  datatype Success = Success(id: RequestId, status: int, body: Body)

  /** `successes` lists the handler runs that returned, in order. */
  datatype State = State(record: Option<Record>, requests: map<RequestId, Request>, successes: seq<Success>)

  datatype Event =
    | Arrive(id: RequestId, fingerprint: Fingerprint)
    | FirstRead(id: RequestId, fails: bool)
    | Begin(id: RequestId)
    | BeginRaises(id: RequestId, applied: bool)
    | SecondRead(id: RequestId, fails: bool)
    | HandlerReturns(id: RequestId, status: int, body: Body)
    | HandlerThrows(id: RequestId)
    | Complete(id: RequestId, lost: bool)
    | Clear(id: RequestId, lost: bool)

  predicate InPhase(s: State, id: RequestId, phase: Phase) {
    id in s.requests && s.requests[id].phase == phase
  }

  function To(s: State, id: RequestId, phase: Phase): State
    requires id in s.requests
  {
    s.(requests := s.requests[id := s.requests[id].(phase := phase)])
  }

  /** The interceptor's decision after its first read. */
  function Decide(fp: Fingerprint, seen: Option<Record>): Phase {
    match seen
    case None => Missed
    case Some(r) =>
      if r.fingerprint != fp then Rejected(KeyConflict)
      else if r.Processing? then Rejected(InProgress)
      else Replayed(OrOk(r.status), r.body)
  }

  /** The decision after losing the race for the claim. */
  function DecideRaced(fp: Fingerprint, seen: Option<Record>): Phase {
    if seen.Some? && seen.value.Completed? && seen.value.fingerprint == fp
    then Replayed(OrOk(seen.value.status), seen.value.body)
    else Rejected(InProgress)
  }

  ghost predicate Next(s: State, e: Event, s': State) {
    match e
    case Arrive(id, fp) =>
      id !in s.requests && s' == s.(requests := s.requests[id := Request(fp, Arrived)])
    case FirstRead(id, fails) =>
      && InPhase(s, id, Arrived)
      && s' == To(s, id, Decide(s.requests[id].fingerprint, Seen(s.record, fails)))
    case Begin(id) =>
      && InPhase(s, id, Missed)
      && s' == To(s, id, if s.record.None? then Running else Raced)
               .(record := Claimed(s.record, s.requests[id].fingerprint))
    case BeginRaises(id, applied) =>
      && InPhase(s, id, Missed)
      && s' == To(s, id, Rejected(CacheError))
               .(record := if applied then Claimed(s.record, s.requests[id].fingerprint) else s.record)
    case SecondRead(id, fails) =>
      && InPhase(s, id, Raced)
      && s' == To(s, id, DecideRaced(s.requests[id].fingerprint, Seen(s.record, fails)))
    case HandlerReturns(id, status, body) =>
      && InPhase(s, id, Running)
      && s' == To(s, id, Succeeded(status, body)).(successes := s.successes + [Success(id, status, body)])
    case HandlerThrows(id) =>
      && InPhase(s, id, Running)
      && s' == To(s, id, Threw)
    case Complete(id, lost) =>
      && id in s.requests && s.requests[id].phase.Succeeded?
      && var p := s.requests[id].phase;
         s' == To(s, id, Answered(p.status, p.body))
               .(record := Finished(s.record, s.requests[id].fingerprint, p.status, p.body, lost))
    case Clear(id, lost) =>
      && InPhase(s, id, Threw)
      && s' == To(s, id, Failed).(record := Cleared(s.record, lost))
  }

  // ---------------------------------------------------------------- safety

  /** Between claim and finish. */
  predicate Active(r: Request) {
    r.phase == Running || r.phase.Succeeded? || r.phase == Threw
  }

  /** Whoever is active holds the record, so there is at most one. */
  ghost predicate ClaimHeld(s: State) {
    && (forall id :: id in s.requests && Active(s.requests[id]) ==>
          s.record == Some(Processing(s.requests[id].fingerprint)))
    && (forall a, b :: a in s.requests && b in s.requests && Active(s.requests[a]) && Active(s.requests[b]) ==> a == b)
  }

  /** The one success, if any: the record stays, either still in processing or completed
      with what the handler returned, and nobody else is active. */
  ghost predicate SuccessKept(s: State) {
    && |s.successes| <= 1
    && (s.successes != [] ==>
          var w := s.successes[0];
          && w.id in s.requests
          && (s.requests[w.id].phase == Succeeded(w.status, w.body) || s.requests[w.id].phase == Answered(w.status, w.body))
          && s.record.Some? && s.record.value.fingerprint == s.requests[w.id].fingerprint
          && (forall id :: id in s.requests && Active(s.requests[id]) ==> id == w.id))
  }

  /** Completed records, replays and own answers all report the one success. */
  ghost predicate Reports(s: State) {
    && (s.record.Some? && s.record.value.Completed? ==>
          s.successes != [] && s.record.value.status == OrOk(s.successes[0].status) && s.record.value.body == s.successes[0].body)
    && (forall id :: id in s.requests && s.requests[id].phase.Replayed? ==>
          && s.successes != [] && s.successes[0].id in s.requests
          && s.requests[id].phase == Replayed(OrOk(s.successes[0].status), s.successes[0].body)
          && s.requests[id].fingerprint == s.requests[s.successes[0].id].fingerprint)
    && (forall id :: id in s.requests && (s.requests[id].phase.Succeeded? || s.requests[id].phase.Answered?) ==>
          s.successes != [] && s.successes[0].id == id)
  }

  ghost predicate Inv(s: State) {
    ClaimHeld(s) && SuccessKept(s) && Reports(s)
  }

  lemma ArriveKeeps(s: State, e: Event, s': State)
    requires Inv(s) && Next(s, e, s') && e.Arrive?
    ensures Inv(s')
  {
  }

  lemma ReadKeeps(s: State, e: Event, s': State)
    requires Inv(s) && Next(s, e, s') && (e.FirstRead? || e.SecondRead?)
    ensures Inv(s')
  {
  }

  lemma ClaimKeeps(s: State, e: Event, s': State)
    requires Inv(s) && Next(s, e, s') && (e.Begin? || e.BeginRaises?)
    ensures Inv(s')
  {
  }

  lemma HandlerKeeps(s: State, e: Event, s': State)
    requires Inv(s) && Next(s, e, s') && (e.HandlerReturns? || e.HandlerThrows?)
    ensures Inv(s')
  {
    assert Active(s.requests[e.id]);
  }

  lemma FinishKeeps(s: State, e: Event, s': State)
    requires Inv(s) && Next(s, e, s') && (e.Complete? || e.Clear?)
    ensures Inv(s')
  {
    assert Active(s.requests[e.id]);
  }

  ghost predicate IsRun(states: seq<State>, events: seq<Event>) {
    && |states| == |events| + 1
    && states[0] == State(None, map[], [])
    && forall i :: 0 <= i < |events| ==> Next(states[i], events[i], states[i + 1])
  }

  lemma {:induction false} RunInv(states: seq<State>, events: seq<Event>, n: nat)
    requires IsRun(states, events) && n < |states|
    ensures Inv(states[n])
    decreases n
  {
    if n > 0 {
      RunInv(states, events, n - 1);
      var s, e, s' := states[n - 1], events[n - 1], states[n];
      assert Next(s, e, s');
      if e.Arrive? {
        ArriveKeeps(s, e, s');
      } else if e.FirstRead? || e.SecondRead? {
        ReadKeeps(s, e, s');
      } else if e.Begin? || e.BeginRaises? {
        ClaimKeeps(s, e, s');
      } else if e.HandlerReturns? || e.HandlerThrows? {
        HandlerKeeps(s, e, s');
      } else {
        FinishKeeps(s, e, s');
      }
    }
  }

  /** In every interleaving and at every moment: at most one request is between claim and
      finish and its fingerprint is the one on record; at most one handler run has
      succeeded; every replay carries that run's status and body and repeats its
      fingerprint. */
  lemma IdempotencyLaw(states: seq<State>, events: seq<Event>, n: nat)
    requires IsRun(states, events) && n < |states|
    ensures var s := states[n];
      && |s.successes| <= 1
      && (forall a, b :: a in s.requests && b in s.requests && Active(s.requests[a]) && Active(s.requests[b]) ==> a == b)
      && (forall id :: id in s.requests && Active(s.requests[id]) ==>
            s.record.Some? && s.record.value.fingerprint == s.requests[id].fingerprint)
      && (forall id :: id in s.requests && s.requests[id].phase.Replayed? ==>
            && s.successes != [] && s.successes[0].id in s.requests
            && s.requests[id].phase == Replayed(OrOk(s.successes[0].status), s.successes[0].body)
            && s.requests[id].fingerprint == s.requests[s.successes[0].id].fingerprint)
  {
    RunInv(states, events, n);
  }

  /** Once a handler run has succeeded, no handler ever runs again. */
  lemma {:induction false} NoRunAfterSuccess(states: seq<State>, events: seq<Event>, n: nat, m: nat)
    requires IsRun(states, events) && n <= m < |states| && states[n].successes != []
    ensures states[m].successes == states[n].successes
    ensures forall id :: id in states[m].requests ==> states[m].requests[id].phase != Running
    decreases m
  {
    RunInv(states, events, m);
    if n < m {
      NoRunAfterSuccess(states, events, n, m - 1);
      assert Next(states[m - 1], events[m - 1], states[m]);
    }
    forall id | id in states[m].requests ensures states[m].requests[id].phase != Running {
      if states[m].requests[id].phase == Running {
        assert Active(states[m].requests[id]);
      }
    }
  }

  // ---------------------------------------------------------------- the interceptor

  /** What goes wrong around one request. `beginRaises` tells whether setting the claim raised
      an error and, if so, whether it took effect. */
  datatype Faults = Faults(firstReadFails: bool, beginRaises: Option<bool>, secondReadFails: bool, lost: bool)

  datatype Handler = Returns(status: int, body: Body) | Throws

  /** One request served without another one in between: the record it leaves and its end. */
  function Served(record: Option<Record>, fp: Fingerprint, f: Faults, h: Handler): (Option<Record>, Phase) {
    var first := Decide(fp, Seen(record, f.firstReadFails));
    if first != Missed then (record, first)
    else if f.beginRaises.Some? then (if f.beginRaises.value then Claimed(record, fp) else record, Rejected(CacheError))
    else if record.Some? then (record, DecideRaced(fp, Seen(record, f.secondReadFails)))
    else match h
      case Returns(status, body) => (Finished(Some(Processing(fp)), fp, status, body, f.lost), Answered(status, body))
      case Throws => (Cleared(Some(Processing(fp)), f.lost), Failed)
  }

  /** The service on one cache key. */
  class IdempotencyService {
    var record: Option<Record>

    constructor ()
      ensures record == None
    {
      record := None;
    }

    method Get(fails: bool) returns (r: Option<Record>)
      ensures r == Seen(record, fails)
    {
      r := if fails then None else record;
    }

    /** Set if absent; answers whether this caller made the claim, or raises an error. */
    method Begin(fp: Fingerprint, raises: Option<bool>) returns (claimed: Option<bool>)
      modifies this
      ensures claimed == if raises.Some? then None else Some(old(record).None?)
      ensures record == if raises == Some(false) then old(record) else Claimed(old(record), fp)
    {
      if raises == Some(false) {
        return None;
      }
      var absent := record.None?;
      if absent {
        record := Some(Processing(fp));
      }
      return if raises.Some? then None else Some(absent);
    }

    method Complete(fp: Fingerprint, status: int, body: Body, lost: bool)
      modifies this
      ensures record == Finished(old(record), fp, status, body, lost)
    {
      if !lost {
        record := Some(Completed(fp, if status == 0 then 200 else status, body));
      }
    }

    method Clear(lost: bool)
      modifies this
      ensures record == Cleared(old(record), lost)
    {
      if !lost {
        record := None;
      }
    }
  }

  class IdempotencyInterceptor {
    const idempotency: IdempotencyService

    constructor (idempotency: IdempotencyService)
      ensures this.idempotency == idempotency
    {
      this.idempotency := idempotency;
    }

    /** Either an answer without running the handler, or the claim. */
    method Prepare(fp: Fingerprint, f: Faults) returns (answer: Option<Phase>)
      modifies idempotency
      ensures answer.None? <==>
        Decide(fp, Seen(old(idempotency.record), f.firstReadFails)) == Missed && f.beginRaises.None? && old(idempotency.record).None?
      ensures if answer.None? then idempotency.record == Some(Processing(fp))
        else (idempotency.record, answer.value) == Served(old(idempotency.record), fp, f, Throws)
    {
      var existing := idempotency.Get(f.firstReadFails);
      if existing.Some? {
        if existing.value.fingerprint != fp {
          return Some(Rejected(KeyConflict));
        }
        if existing.value.Processing? {
          return Some(Rejected(InProgress));
        }
        return Some(Replayed(OrOk(existing.value.status), existing.value.body));
      }
      var claimed := idempotency.Begin(fp, f.beginRaises);
      if claimed.None? {
        return Some(Rejected(CacheError));
      }
      if !claimed.value {
        var raced := idempotency.Get(f.secondReadFails);
        if raced.Some? && raced.value.Completed? && raced.value.fingerprint == fp {
          return Some(Replayed(OrOk(raced.value.status), raced.value.body));
        }
        return Some(Rejected(InProgress));
      }
      return None;
    }

    /** `ran` tells whether the handler was called. */
    method Intercept(fp: Fingerprint, f: Faults, h: Handler) returns (answer: Phase, ran: bool)
      modifies idempotency
      ensures (idempotency.record, answer) == Served(old(idempotency.record), fp, f, h)
      ensures ran ==> old(idempotency.record).None?
      ensures ran <==> answer.Answered? || answer == Failed
    {
      var prepared := Prepare(fp, f);
      if prepared.Some? {
        return prepared.value, false;
      }
      if h.Throws? {
        idempotency.Clear(f.lost);
        return Failed, true;
      }
      idempotency.Complete(fp, h.status, h.body, f.lost);
      return Answered(h.status, h.body), true;
    }
  }

  /** A path of protocol steps from any state. */
  ghost predicate IsPath(states: seq<State>, events: seq<Event>) {
    && |states| == |events| + 1
    && forall i :: 0 <= i < |events| ==> Next(states[i], events[i], states[i + 1])
  }

  ghost predicate Ends(s: State, s': State, id: RequestId, fp: Fingerprint, record: Option<Record>, phase: Phase) {
    && s'.record == record
    && s'.requests == s.requests[id := Request(fp, phase)]
  }

  lemma Prepend(s: State, e: Event, states: seq<State>, events: seq<Event>)
    requires IsPath(states, events) && Next(s, e, states[0])
    ensures IsPath([s] + states, [e] + events) && ([s] + states)[|events| + 1] == states[|events|]
  {
  }

  /** The interceptor takes protocol steps only: what it does to a record is what some path of
      the new request's own steps does. */
  lemma ServedIsPath(s: State, id: RequestId, fp: Fingerprint, f: Faults, h: Handler)
    returns (states: seq<State>, events: seq<Event>)
    requires id !in s.requests
    ensures IsPath(states, events) && states[0] == s
    ensures Ends(s, states[|events|], id, fp, Served(s.record, fp, f, h).0, Served(s.record, fp, f, h).1)
  {
    var s1 := s.(requests := s.requests[id := Request(fp, Arrived)]);
    var s2 := To(s1, id, Decide(fp, Seen(s.record, f.firstReadFails)));
    states, events := [s2], [];
    if s2.requests[id].phase == Missed {
      states, events := MissedIsPath(s2, id, fp, f, h);
    }
    Prepend(s1, FirstRead(id, f.firstReadFails), states, events);
    states, events := [s1] + states, [FirstRead(id, f.firstReadFails)] + events;
    Prepend(s, Arrive(id, fp), states, events);
    states, events := [s] + states, [Arrive(id, fp)] + events;
  }

  /** What is left to do after a first read that found nothing. */
  function Claiming(record: Option<Record>, fp: Fingerprint, f: Faults, h: Handler): (Option<Record>, Phase) {
    Served(record, fp, f.(firstReadFails := true), h)
  }

  /** From a missed first read to the end. */
  lemma MissedIsPath(s: State, id: RequestId, fp: Fingerprint, f: Faults, h: Handler)
    returns (states: seq<State>, events: seq<Event>)
    requires id in s.requests && s.requests[id] == Request(fp, Missed)
    ensures IsPath(states, events) && states[0] == s
    ensures Ends(s, states[|events|], id, fp, Claiming(s.record, fp, f, h).0, Claiming(s.record, fp, f, h).1)
  {
    if f.beginRaises.Some? {
      var s1 := To(s, id, Rejected(CacheError)).(record := if f.beginRaises.value then Claimed(s.record, fp) else s.record);
      states, events := [s, s1], [BeginRaises(id, f.beginRaises.value)];
    } else {
      var s1 := To(s, id, if s.record.None? then Running else Raced).(record := Claimed(s.record, fp));
      if s.record.Some? {
        states, events := [s1, To(s1, id, DecideRaced(fp, Seen(s.record, f.secondReadFails)))], [SecondRead(id, f.secondReadFails)];
      } else {
        states, events := HandledIsPath(s1, id, fp, f.lost, h);
      }
      Prepend(s, Begin(id), states, events);
      states, events := [s] + states, [Begin(id)] + events;
    }
  }

  /** From the claim to the end. */
  lemma HandledIsPath(s: State, id: RequestId, fp: Fingerprint, lost: bool, h: Handler)
    returns (states: seq<State>, events: seq<Event>)
    requires id in s.requests && s.requests[id] == Request(fp, Running) && s.record == Some(Processing(fp))
    ensures IsPath(states, events) && states[0] == s
    ensures Ends(s, states[|events|], id, fp,
      if h.Returns? then Finished(s.record, fp, h.status, h.body, lost) else Cleared(s.record, lost),
      if h.Returns? then Answered(h.status, h.body) else Failed)
  {
    match h
    case Returns(status, body) =>
      var s1 := To(s, id, Succeeded(status, body)).(successes := s.successes + [Success(id, status, body)]);
      var s2 := To(s1, id, Answered(status, body)).(record := Finished(s.record, fp, status, body, lost));
      states, events := [s, s1, s2], [HandlerReturns(id, status, body), Complete(id, lost)];
    case Throws =>
      var s1 := To(s, id, Threw);
      states, events := [s, s1, To(s1, id, Failed).(record := Cleared(s.record, lost))], [HandlerThrows(id), Clear(id, lost)];
  }

  /** What a caller gets for repeating a request, whatever goes wrong with the repetition (`f`).
      After a request that was answered and recorded, the handler does not run again and the
      record stays; if the record can be read, the same request is answered as before and another
      one under that key is refused. After a request that failed and was cleared, the next one
      fares as if nothing had been. */
  lemma RepeatLaw(fp: Fingerprint, h: Handler, other: Fingerprint, f: Faults, h2: Handler)
    ensures var first := Faults(false, None, false, false);
      var after := Served(None, fp, first, h).0;
      && (h.Throws? ==> Served(after, other, f, h2) == Served(None, other, f, h2))
      && (h.Returns? ==>
            var (record, answer) := Served(after, other, f, h2);
            && record == after && (answer.Replayed? || answer.Rejected?)
            && (answer.Replayed? ==> other == fp && answer == Replayed(OrOk(h.status), h.body))
            && (!f.firstReadFails ==> answer == if other == fp then Replayed(OrOk(h.status), h.body) else Rejected(KeyConflict)))
  {
  }

  /** What a request gets when something is on record: the record stays and the handler does not
      run. If the first read succeeds, another fingerprint is a conflict, a request in process is
      reported as such, and a completed one is replayed. If it fails, the claim is lost, and only a
      completed record of the same fingerprint that the second read sees is replayed. */
  lemma AnswerLaw(r: Record, fp: Fingerprint, f: Faults, h: Handler)
    ensures var (record, answer) := Served(Some(r), fp, f, h);
      && record == Some(r)
      && (!f.firstReadFails ==>
            && (answer == Rejected(KeyConflict) <==> r.fingerprint != fp)
            && (answer == Rejected(InProgress) <==> r == Processing(fp))
            && (answer.Replayed? <==> r.Completed? && r.fingerprint == fp))
      && (f.firstReadFails ==>
            && (answer == Rejected(CacheError) <==> f.beginRaises.Some?)
            && (answer.Replayed? <==> f.beginRaises.None? && !f.secondReadFails && r.Completed? && r.fingerprint == fp)
            && (answer == Rejected(InProgress) <==>
                  f.beginRaises.None? && !(!f.secondReadFails && r.Completed? && r.fingerprint == fp)))
      && (answer.Replayed? ==> answer == Replayed(if r.status == 0 then 200 else r.status, r.body))
  {
  }

  /** What a request gets when nothing is on record: unless claiming raises an error, its handler
      runs, and what the handler did is what is answered and recorded. */
  lemma FirstLaw(fp: Fingerprint, f: Faults, h: Handler)
    ensures var (record, answer) := Served(None, fp, f, h);
      && (f.beginRaises.Some? ==>
            answer == Rejected(CacheError) && record == if f.beginRaises == Some(true) then Some(Processing(fp)) else None)
      && (f.beginRaises.None? && h.Returns? ==>
            && answer == Answered(h.status, h.body)
            && record == Some(if f.lost then Processing(fp) else Completed(fp, if h.status == 0 then 200 else h.status, h.body)))
      && (f.beginRaises.None? && h.Throws? ==> answer == Failed && record == if f.lost then Some(Processing(fp)) else None)
  {
  }
}
