/** Payments and refunds: a status machine together with refund arithmetic. Amounts are
    stored in whole paise; the refund checks themselves are made in rupees, with the
    tolerance of a tenth of a paisa. Gateway replies are parameters, operations on one payment do
    not overlap, and gateway webhooks are not part of this model. */
module Payments {
  import opened Totals

  datatype Status =
    Pending | Authorized | Captured | PartiallyRefunded | Refunded | Failed | Cancelled | Expired | Chargeback

  function Allowed(from: Status): set<Status> {
    match from
    case Pending => {Authorized, Captured, Failed, Cancelled, Expired}
    case Authorized => {Captured, Cancelled, Failed}
    case Captured => {Refunded, PartiallyRefunded, Chargeback}
    case PartiallyRefunded => {Refunded, PartiallyRefunded, Chargeback}
    case Failed => {Pending, Cancelled}
    case Cancelled => {}
    case Expired => {}
    case Refunded => {Chargeback}
    case Chargeback => {}
  }

  datatype RefundStatus = Processing | Processed | RefundFailed

  datatype RefundRow = RefundRow(amount: int, full: bool, status: RefundStatus)

  datatype Attempt = Attempt(number: int, status: Status)

  /** A payment with its refund and attempt rows. `trail` lists every status written to it. */
  datatype Payment = Payment(
    owner: nat,
    amount: int,
    refunded: int,
    status: Status,
    gatewayOrder: bool,
    gatewayPayment: bool,
    refunds: seq<RefundRow>,
    attempts: seq<Attempt>,
    trail: seq<Status>)

  datatype Outcome = Done | NotFound | Forbidden | Conflict | BadRequest | GatewayError

  datatype AuthorizeReply = AuthorizePending | AuthorizeFailed | AuthorizeAccepted(hasPaymentId: bool) | AuthorizeThrows
  datatype CaptureReply = CaptureTaken | CaptureFailed | CaptureThrows
  datatype CancelReply = CancelTaken | CancelThrows
  datatype RefundReply = RefundProcessed | RefundOther | RefundThrows

  // ---------------------------------------------------------------- specification

  function Written(p: Payment, s: Status): Payment {
    p.(status := s, trail := p.trail + [s])
  }

  function NextAttempt(attempts: seq<Attempt>): int {
    if attempts == [] then 1 else
      var rest := NextAttempt(attempts[..|attempts| - 1]);
      var here := attempts[|attempts| - 1].number + 1;
      if here > rest then here else rest
  }

  function Tried(p: Payment, s: Status): Payment {
    p.(attempts := p.attempts + [Attempt(NextAttempt(p.attempts), s)])
  }

  predicate MayAccess(p: Payment, actor: nat, asAdmin: bool) {
    asAdmin || p.owner == actor
  }

  function Opened(owner: nat, amount: int, gatewayOrder: bool): Payment {
    Payment(owner, amount, 0, Pending, gatewayOrder, false, [], [Attempt(1, Pending)], [Pending])
  }

  function AuthorizeSpec(p: Payment, actor: nat, asAdmin: bool, reply: AuthorizeReply): (Payment, Outcome) {
    if !MayAccess(p, actor, asAdmin) then (p, Forbidden)
    else if Authorized !in Allowed(p.status) then (p, Conflict)
    else if !p.gatewayOrder then (Tried(p, Failed), Conflict)
    else match reply
      case AuthorizeThrows => (Tried(p, Failed), GatewayError)
      case AuthorizePending => (Tried(p, Pending), Done)
      case AuthorizeFailed => (Written(p, Failed), Conflict)
      case AuthorizeAccepted(hasId) =>
        if !hasId then (Written(p, Failed), Conflict)
        else (Tried(Written(p, Authorized), Authorized).(gatewayPayment := true), Done)
  }

  function CaptureSpec(p: Payment, actor: nat, asAdmin: bool, reply: CaptureReply): (Payment, Outcome) {
    if !MayAccess(p, actor, asAdmin) then (p, Forbidden)
    else if p.status == Captured then (p, Done)
    else if Captured !in Allowed(p.status) then (p, Conflict)
    else if !p.gatewayPayment then
      if p.amount == 0 then (Written(p, Captured), Done) else (p, Conflict)
    else match reply
      case CaptureThrows => (p, GatewayError)
      case CaptureFailed => (Written(p, Failed), Conflict)
      case CaptureTaken => (Written(p, Captured), Done)
  }

  /** Cancelling does not consult the table of allowed changes. */
  function CancelSpec(p: Payment, actor: nat, asAdmin: bool, reply: CancelReply): (Payment, Outcome) {
    if !MayAccess(p, actor, asAdmin) then (p, Forbidden)
    else if p.status == Cancelled || p.status == Refunded then (p, Done)
    else if p.status == Captured || p.status == PartiallyRefunded then (p, Conflict)
    else match reply
      case CancelThrows => (p, GatewayError)
      case CancelTaken => (Written(p, Cancelled), Done)
  }

  function VoidSpec(p: Payment, actor: nat, reply: CancelReply): Payment {
    if p.status == Cancelled || p.status == Failed then p else CancelSpec(p, actor, false, reply).0
  }

  function RetrySpec(p: Payment, actor: nat, reply: AuthorizeReply, reply2: CaptureReply): (Payment, Outcome) {
    if !MayAccess(p, actor, false) then (p, Forbidden)
    else if p.status != Failed && p.status != Pending then (p, Conflict)
    else
      var q := if p.status == Failed then Written(p, Pending) else p;
      var (r, outcome) := AuthorizeSpec(q, actor, false, reply);
      if outcome == Done && r.status == Authorized then CaptureSpec(r, actor, false, reply2) else (r, outcome)
  }

  function WithRow(p: Payment, amount: int, full: bool, status: RefundStatus): Payment {
    p.(refunds := p.refunds + [RefundRow(amount, full, status)])
  }

  /** A refund, compared exactly in paise. */
  function RefundSpec(p: Payment, actor: nat, asAdmin: bool, amount: int, reply: RefundReply): (Payment, Outcome) {
    if !MayAccess(p, actor, asAdmin) then (p, Forbidden)
    else if p.status != Captured && p.status != PartiallyRefunded then (p, Conflict)
    else if amount > p.amount - p.refunded then (p, BadRequest)
    else
      var full := amount == p.amount - p.refunded;
      if !p.gatewayPayment then (WithRow(p, amount, full, Processing), Conflict)
      else match reply
        case RefundThrows => (WithRow(p, amount, full, RefundFailed), GatewayError)
        case _ =>
          var q := WithRow(p, amount, full, if reply == RefundProcessed then Processed else Processing);
          (Written(q, if full then Refunded else PartiallyRefunded).(refunded := p.refunded + amount), Done)
  }

  // ---------------------------------------------------------------- the service

  function Rupees(paise: int): real {
    paise as real / 100.0
  }

  /** The tolerance of 0.001 never changes a comparison of whole paise. */
  lemma ToleranceIsExact(a: int, b: int)
    ensures Rupees(a) > Rupees(b) + 0.001 <==> a > b
    ensures Rupees(a) >= Rupees(b) - 0.001 <==> a >= b
  {
    assert a > b ==> a >= b + 1;
    assert a < b ==> a + 1 <= b;
  }

  lemma RowSet(p: Payment, amount: int, full: bool)
    ensures forall s ::
      WithRow(p, amount, full, Processing).refunds[|p.refunds| := RefundRow(amount, full, s)] == WithRow(p, amount, full, s).refunds
  {
  }

  class PaymentService {
    var payments: seq<Payment>

    constructor ()
      ensures payments == []
    {
      payments := [];
    }

    /** `order` is the owner recorded on the order, if the order exists. */
    method Create(order: Option<Option<nat>>, actor: nat, amount: int, gateway: bool, hasOrderId: bool)
      returns (outcome: Outcome)
      modifies this
      ensures outcome ==
        if order.None? then NotFound
        else if order.value.Some? && order.value.value != actor then Forbidden
        else if amount < 0 then BadRequest
        else if !gateway then GatewayError else Done
      ensures payments == if outcome == Done then old(payments) + [Opened(actor, amount, hasOrderId)] else old(payments)
      ensures outcome == Done ==>
        var p := payments[|old(payments)|];
        && p.owner == actor && p.amount == amount && p.refunded == 0 && p.status == Pending && p.gatewayOrder == hasOrderId
        && !p.gatewayPayment && p.refunds == [] && p.attempts == [Attempt(1, Pending)]
    {
      if order.None? {
        return NotFound;
      }
      if order.value.Some? && order.value.value != actor {
        return Forbidden;
      }
      if amount < 0 {
        return BadRequest;
      }
      if !gateway {
        return GatewayError;
      }
      var owner := if order.value.Some? then order.value.value else actor;
      payments := payments + [Payment(owner, amount, 0, Pending, hasOrderId, false, [], [Attempt(1, Pending)], [Pending])];
      return Done;
    }

    method SetStatus(id: nat, s: Status)
      requires id < |payments|
      modifies this
      ensures payments == old(payments)[id := Written(old(payments)[id], s)]
    {
      payments := payments[id := payments[id].(status := s, trail := payments[id].trail + [s])];
    }

    method CreateAttempt(id: nat, number: int, s: Status)
      requires id < |payments|
      modifies this
      ensures payments == old(payments)[id := old(payments)[id].(attempts := old(payments)[id].attempts + [Attempt(number, s)])]
    {
      payments := payments[id := payments[id].(attempts := payments[id].attempts + [Attempt(number, s)])];
    }

    method Authorize(id: nat, actor: nat, asAdmin: bool, reply: AuthorizeReply) returns (outcome: Outcome)
      modifies this
      ensures Applied(old(payments), payments, id, outcome, p => AuthorizeSpec(p, actor, asAdmin, reply))
    {
      if id >= |payments| {
        return NotFound;
      }
      var payment := payments[id];
      if !asAdmin && payment.owner != actor {
        return Forbidden;
      }
      if Authorized !in Allowed(payment.status) {
        return Conflict;
      }
      var attemptNo := NextAttempt(payment.attempts);
      if !payment.gatewayOrder {
        CreateAttempt(id, attemptNo, Failed);
        return Conflict;
      }
      if reply == AuthorizeThrows {
        CreateAttempt(id, attemptNo, Failed);
        return GatewayError;
      }
      if reply == AuthorizePending {
        CreateAttempt(id, attemptNo, Pending);
        return Done;
      }
      if reply == AuthorizeFailed || !reply.hasPaymentId {
        SetStatus(id, Failed);
        return Conflict;
      }
      SetStatus(id, Authorized);
      payments := payments[id := payments[id].(gatewayPayment := true)];
      CreateAttempt(id, attemptNo, Authorized);
      return Done;
    }

    method Capture(id: nat, actor: nat, asAdmin: bool, reply: CaptureReply) returns (outcome: Outcome)
      modifies this
      ensures Applied(old(payments), payments, id, outcome, p => CaptureSpec(p, actor, asAdmin, reply))
    {
      if id >= |payments| {
        return NotFound;
      }
      var payment := payments[id];
      if !asAdmin && payment.owner != actor {
        return Forbidden;
      }
      if payment.status == Captured {
        return Done;
      }
      if Captured !in Allowed(payment.status) {
        return Conflict;
      }
      if !payment.gatewayPayment && payment.amount == 0 {
        SetStatus(id, Captured);
        return Done;
      }
      if !payment.gatewayPayment {
        return Conflict;
      }
      if reply == CaptureThrows {
        return GatewayError;
      }
      if reply != CaptureTaken {
        SetStatus(id, Failed);
        return Conflict;
      }
      SetStatus(id, Captured);
      return Done;
    }

    method Cancel(id: nat, actor: nat, asAdmin: bool, reply: CancelReply) returns (outcome: Outcome)
      modifies this
      ensures Applied(old(payments), payments, id, outcome, p => CancelSpec(p, actor, asAdmin, reply))
    {
      if id >= |payments| {
        return NotFound;
      }
      var payment := payments[id];
      if !asAdmin && payment.owner != actor {
        return Forbidden;
      }
      if payment.status == Cancelled || payment.status == Refunded {
        return Done;
      }
      if payment.status == Captured || payment.status == PartiallyRefunded {
        return Conflict;
      }
      if reply == CancelThrows {
        return GatewayError;
      }
      SetStatus(id, Cancelled);
      return Done;
    }

    method VoidOrCancel(id: nat, actor: nat, reply: CancelReply)
      modifies this
      ensures |payments| == |old(payments)|
      ensures forall k :: 0 <= k < |payments| ==>
        payments[k] == if k == id then VoidSpec(old(payments)[k], actor, reply) else old(payments)[k]
    {
      if id >= |payments| {
        return;
      }
      if payments[id].status == Cancelled || payments[id].status == Failed {
        return;
      }
      var _ := Cancel(id, actor, false, reply);
    }

    method Retry(id: nat, actor: nat, reply: AuthorizeReply, reply2: CaptureReply) returns (outcome: Outcome)
      modifies this
      ensures Applied(old(payments), payments, id, outcome, p => RetrySpec(p, actor, reply, reply2))
    {
      if id >= |payments| {
        return NotFound;
      }
      var payment := payments[id];
      if payment.owner != actor {
        return Forbidden;
      }
      if payment.status != Failed && payment.status != Pending {
        return Conflict;
      }
      if payment.status == Failed {
        SetStatus(id, Pending);
      }
      outcome := Authorize(id, actor, false, reply);
      if outcome == Done && payments[id].status == Authorized {
        outcome := Capture(id, actor, false, reply2);
      }
    }

    /** The amount is a positive number of paise, as the request's validation demands. */
    method Refund(id: nat, actor: nat, asAdmin: bool, amount: int, reply: RefundReply) returns (outcome: Outcome)
      requires amount >= 1
      modifies this
      ensures Applied(old(payments), payments, id, outcome, p => RefundSpec(p, actor, asAdmin, amount, reply))
    {
      if id >= |payments| {
        return NotFound;
      }
      var payment := payments[id];
      if !asAdmin && payment.owner != actor {
        return Forbidden;
      }
      if payment.status != Captured && payment.status != PartiallyRefunded {
        return Conflict;
      }
      var already, total := Rupees(payment.refunded), Rupees(payment.amount);
      var remaining := total - already;
      ghost var left := payment.amount - payment.refunded;
      assert remaining == Rupees(left);
      ToleranceIsExact(amount, left);
      if Rupees(amount) > remaining + 0.001 {
        return BadRequest;
      }
      var full := Rupees(amount) >= remaining - 0.001;
      var row := |payment.refunds|;
      payments := payments[id := payment.(refunds := payment.refunds + [RefundRow(amount, full, Processing)])];
      if !payment.gatewayPayment {
        return Conflict;
      }
      RowSet(payment, amount, full);
      if reply == RefundThrows {
        SetRow(id, row, RefundFailed);
        return GatewayError;
      }
      SetRow(id, row, if reply == RefundProcessed then Processed else Processing);
      var newRefunded := already + Rupees(amount);
      assert newRefunded == Rupees(payment.refunded + amount);
      ToleranceIsExact(payment.refunded + amount, payment.amount);
      SetStatus(id, if newRefunded >= total - 0.001 then Refunded else PartiallyRefunded);
      payments := payments[id := payments[id].(refunded := payment.refunded + amount)];
      return Done;
    }

    method SetRow(id: nat, row: nat, status: RefundStatus)
      requires id < |payments| && row < |payments[id].refunds|
      modifies this
      ensures payments == old(payments)[id :=
        old(payments)[id].(refunds := old(payments)[id].refunds[row := old(payments)[id].refunds[row].(status := status)])]
    {
      var p := payments[id];
      payments := payments[id := p.(refunds := p.refunds[row := p.refunds[row].(status := status)])];
    }
  }

  /** An operation changed payment `id` as specified and no other, or there is no such payment. */
  ghost predicate Applied(before: seq<Payment>, after: seq<Payment>, id: nat, outcome: Outcome,
                          spec: Payment -> (Payment, Outcome))
  {
    if id >= |before| then after == before && outcome == NotFound
    else after == before[id := spec(before[id]).0] && outcome == spec(before[id]).1
  }
}
