/** How the gateway's reply and the payment's state decide every payment operation: who is
    refused, what the status becomes, and what else is written. */
module PaymentOutcomes {
  import opened Totals
  import opened Payments
  import opened PaymentLaws

  predicate Owner(p: Payment, actor: nat, asAdmin: bool) {
    asAdmin || p.owner == actor
  }

  /** Only the status may differ, and a new status is logged. */
  predicate StatusOnly(p: Payment, q: Payment) {
    q == p.(status := q.status, trail := if q.status == p.status then p.trail else p.trail + [q.status])
  }

  /** Which statuses may lead to a status. */
  lemma TableShape(from: Status)
    ensures Pending in Allowed(from) <==> from == Failed
    ensures Authorized in Allowed(from) <==> from == Pending
    ensures Captured in Allowed(from) <==> from == Pending || from == Authorized
    ensures Failed in Allowed(from) <==> from == Pending || from == Authorized
    ensures Cancelled in Allowed(from) <==> from == Pending || from == Authorized || from == Failed
    ensures PartiallyRefunded in Allowed(from) <==> from == Captured || from == PartiallyRefunded
    ensures Refunded in Allowed(from) <==> from == Captured || from == PartiallyRefunded
    ensures Expired in Allowed(from) <==> from == Pending
    ensures Chargeback in Allowed(from) <==> from == Captured || from == PartiallyRefunded || from == Refunded
  {
  }

  /** The gateway is asked to authorize. */
  predicate AsksToAuthorize(p: Payment, actor: nat, asAdmin: bool) {
    Owner(p, actor, asAdmin) && p.status == Pending && p.gatewayOrder
  }

  /** authorize: authorized exactly when the gateway is asked and accepts with an id, failed
      exactly when it refuses or gives none; every try is numbered and logged unless it ended as
      a refusal, and nothing else changes. */
  lemma AuthorizeLaw(p: Payment, actor: nat, asAdmin: bool, reply: AuthorizeReply)
    requires Sound(p)
    ensures var (q, outcome) := AuthorizeSpec(p, actor, asAdmin, reply);
      var asks := AsksToAuthorize(p, actor, asAdmin);
      var accepted := asks && reply == AuthorizeAccepted(true);
      var refused := asks && (reply == AuthorizeFailed || reply == AuthorizeAccepted(false));
      && (outcome == Forbidden <==> !Owner(p, actor, asAdmin))
      && (outcome == GatewayError <==> asks && reply == AuthorizeThrows)
      && (outcome == Done <==> accepted || (asks && reply == AuthorizePending))
      && outcome in {Forbidden, GatewayError, Done, Conflict}
      && q.status == (if accepted then Authorized else if refused then Failed else p.status)
      && q.gatewayPayment == (p.gatewayPayment || accepted)
      && q.attempts == (if Owner(p, actor, asAdmin) && p.status == Pending && !refused
                        then p.attempts + [Attempt(|p.attempts| + 1,
                          if accepted then Authorized else if asks && reply == AuthorizePending then Pending else Failed)]
                        else p.attempts)
      && StatusOnly(p.(gatewayPayment := q.gatewayPayment, attempts := q.attempts), q)
  {
    NextAttemptIsCount(p.attempts);
  }

  /** capture: newly captured exactly when the gateway takes it or there is nothing to take. */
  lemma CaptureLaw(p: Payment, actor: nat, asAdmin: bool, reply: CaptureReply)
    ensures var (q, outcome) := CaptureSpec(p, actor, asAdmin, reply);
      var open := Owner(p, actor, asAdmin) && (p.status == Pending || p.status == Authorized);
      var asks, free := open && p.gatewayPayment, open && !p.gatewayPayment && p.amount == 0;
      && (outcome == Forbidden <==> !Owner(p, actor, asAdmin))
      && (outcome == GatewayError <==> asks && reply == CaptureThrows)
      && (outcome == Done <==> Owner(p, actor, asAdmin) && q.status == Captured)
      && outcome in {Forbidden, GatewayError, Done, Conflict}
      && q.status == (if free || (asks && reply == CaptureTaken) then Captured
                      else if asks && reply == CaptureFailed then Failed else p.status)
      && StatusOnly(p, q)
  {
  }

  /** cancel: newly cancelled exactly when no money was taken and the gateway agrees. */
  lemma CancelLaw(p: Payment, actor: nat, asAdmin: bool, reply: CancelReply)
    ensures var (q, outcome) := CancelSpec(p, actor, asAdmin, reply);
      var asks := Owner(p, actor, asAdmin) && p.status !in {Cancelled, Refunded, Captured, PartiallyRefunded};
      && (outcome == Forbidden <==> !Owner(p, actor, asAdmin))
      && (outcome == Conflict <==> Owner(p, actor, asAdmin) && (p.status == Captured || p.status == PartiallyRefunded))
      && (outcome == GatewayError <==> asks && reply == CancelThrows)
      && outcome in {Forbidden, Conflict, GatewayError, Done}
      && q.status == (if asks && reply == CancelTaken then Cancelled else p.status)
      && StatusOnly(p, q)
  {
  }

  /** voidOrCancel: the same for the owner, without a word, and a failed payment is left alone. */
  lemma VoidLaw(p: Payment, actor: nat, reply: CancelReply)
    ensures var q := VoidSpec(p, actor, reply);
      && q.status == (if p.owner == actor && p.status in {Pending, Authorized, Expired, Chargeback} && reply == CancelTaken
                      then Cancelled else p.status)
      && StatusOnly(p, q)
  {
  }

  /** The status a retry of a failed or pending payment leads to. */
  function RetriedStatus(p: Payment, reply: AuthorizeReply, reply2: CaptureReply): Status {
    if !p.gatewayOrder then Pending
    else match reply
      case AuthorizeThrows => Pending
      case AuthorizePending => Pending
      case AuthorizeFailed => Failed
      case AuthorizeAccepted(hasId) =>
        if !hasId then Failed
        else match reply2
          case CaptureTaken => Captured
          case CaptureFailed => Failed
          case CaptureThrows => Authorized
  }

  /** retry: only the owner's failed or pending payment; captured exactly when both the
      authorization with an id and the capture succeed. */
  lemma RetryLaw(p: Payment, actor: nat, reply: AuthorizeReply, reply2: CaptureReply)
    requires Sound(p)
    ensures var (q, outcome) := RetrySpec(p, actor, reply, reply2);
      var allowed := p.owner == actor && (p.status == Failed || p.status == Pending);
      && (outcome == Forbidden <==> p.owner != actor)
      && (!allowed ==> q == p && outcome in {Forbidden, Conflict})
      && (allowed ==>
            && q.status == RetriedStatus(p, reply, reply2)
            && (outcome == Done <==> p.gatewayOrder && (reply == AuthorizePending || q.status == Captured))
            && q.amount == p.amount && q.refunded == p.refunded && q.refunds == p.refunds && q.owner == p.owner)
  {
    if p.owner == actor && (p.status == Failed || p.status == Pending) {
      var r := if p.status == Failed then Written(p, Pending) else p;
      if p.status == Failed {
        WrittenKeeps(p, Pending);
      }
      SettledFrom(r, actor, reply, reply2);
      assert RetrySpec(p, actor, reply, reply2) == Settled(r, actor, reply, reply2);
    }
  }

  /** Authorize a pending payment and then capture it. */
  function Settled(p: Payment, actor: nat, reply: AuthorizeReply, reply2: CaptureReply): (Payment, Outcome) {
    var (r, outcome) := AuthorizeSpec(p, actor, false, reply);
    if outcome == Done && r.status == Authorized then CaptureSpec(r, actor, false, reply2) else (r, outcome)
  }

  lemma SettledFrom(p: Payment, actor: nat, reply: AuthorizeReply, reply2: CaptureReply)
    requires Sound(p) && p.owner == actor && p.status == Pending
    ensures var (q, outcome) := Settled(p, actor, reply, reply2);
      && q.status == RetriedStatus(p, reply, reply2) && outcome != Forbidden
      && (outcome == Done <==> p.gatewayOrder && (reply == AuthorizePending || q.status == Captured))
      && q.amount == p.amount && q.refunded == p.refunded && q.refunds == p.refunds && q.owner == p.owner
  {
    AuthorizeLaw(p, actor, false, reply);
    CaptureLaw(AuthorizeSpec(p, actor, false, reply).0, actor, false, reply2);
  }

  /** The gateway is asked for a refund. */
  predicate AsksToRefund(p: Payment, actor: nat, asAdmin: bool, amount: int) {
    && Owner(p, actor, asAdmin) && (p.status == Captured || p.status == PartiallyRefunded)
    && amount <= p.amount - p.refunded
  }

  /** refund: booked exactly when the owner asks for no more than is left of a captured payment
      and the gateway does not throw; the refunded amount then grows by exactly the request. If it
      throws, a failed row is all that remains. Otherwise nothing is written. */
  lemma RefundLaw(p: Payment, actor: nat, asAdmin: bool, amount: nat, reply: RefundReply)
    requires Sound(p) && amount >= 1
    ensures var (q, outcome) := RefundSpec(p, actor, asAdmin, amount, reply);
      var asks := AsksToRefund(p, actor, asAdmin, amount);
      var full := amount == p.amount - p.refunded;
      && (outcome == Forbidden <==> !Owner(p, actor, asAdmin))
      && (outcome == BadRequest <==> Owner(p, actor, asAdmin) && (p.status == Captured || p.status == PartiallyRefunded)
                                     && amount > p.amount - p.refunded)
      && (outcome == Done <==> asks && reply != RefundThrows)
      && (outcome == GatewayError <==> asks && reply == RefundThrows)
      && outcome in {Forbidden, BadRequest, Done, GatewayError, Conflict}
      && q.refunded == p.refunded + (if outcome == Done then amount else 0)
      && q.status == (if outcome != Done then p.status else if q.refunded == p.amount then Refunded else PartiallyRefunded)
      && q.refunds == (if asks
                       then p.refunds + [RefundRow(amount, full,
                         if reply == RefundThrows then RefundFailed else if reply == RefundProcessed then Processed else Processing)]
                       else p.refunds)
      && q == p.(status := q.status, refunded := q.refunded, refunds := q.refunds,
                 trail := if outcome == Done then p.trail + [q.status] else p.trail)
  {
  }
}
