/** What every run of the payment operations keeps. */
module PaymentLaws {
  import opened Totals
  import opened Payments

  // ---------------------------------------------------------------- invariant

  /** Sum of the refund rows that did not fail. */
  function Counted(refunds: seq<RefundRow>): int {
    if refunds == [] then 0 else
      var last := refunds[|refunds| - 1];
      Counted(refunds[..|refunds| - 1]) + (if last.status == RefundFailed then 0 else last.amount)
  }

  lemma CountedAppend(refunds: seq<RefundRow>, r: RefundRow)
    ensures Counted(refunds + [r]) == Counted(refunds) + (if r.status == RefundFailed then 0 else r.amount)
  {
    assert (refunds + [r])[..|refunds|] == refunds;
  }

  /** A refund row that settled the whole remainder. */
  predicate Closing(r: RefundRow) {
    r.full && r.status != RefundFailed
  }

  predicate Chained(trail: seq<Status>) {
    && trail != [] && trail[0] == Pending
    && forall i :: 0 < i < |trail| ==> trail[i] in Allowed(trail[i - 1])
  }

  predicate Numbered(attempts: seq<Attempt>) {
    forall i :: 0 <= i < |attempts| ==> attempts[i].number == i + 1
  }

  /** Refund arithmetic and status agree. */
  predicate Balanced(p: Payment) {
    && 0 <= p.refunded <= p.amount
    && p.refunded == Counted(p.refunds)
    && (p.status in {Pending, Authorized, Failed, Cancelled, Captured} ==> p.refunded == 0)
    && (p.status == PartiallyRefunded ==> 0 < p.refunded < p.amount)
    && (p.status == Refunded ==> p.refunded == p.amount > 0)
    && (p.status == Refunded <==> exists i :: 0 <= i < |p.refunds| && Closing(p.refunds[i]))
  }

  predicate Sound(p: Payment) {
    && Balanced(p)
    && Chained(p.trail) && p.trail[|p.trail| - 1] == p.status
    && Numbered(p.attempts)
    && p.status != Expired && p.status != Chargeback
    && (p.status in {Captured, PartiallyRefunded, Refunded} && !p.gatewayPayment ==> p.amount == 0)
  }

  // ---------------------------------------------------------------- runs

  datatype Op =
    | OpCreate(order: Option<Option<nat>>, creator: nat, amount: int, gateway: bool, hasOrderId: bool)
    | OpAuthorize(id: nat, actor: nat, asAdmin: bool, authorizeReply: AuthorizeReply)
    | OpCapture(id: nat, actor: nat, asAdmin: bool, captureReply: CaptureReply)
    | OpCancel(id: nat, actor: nat, asAdmin: bool, cancelReply: CancelReply)
    | OpVoid(id: nat, actor: nat, cancelReply: CancelReply)
    | OpRetry(id: nat, actor: nat, authorizeReply: AuthorizeReply, captureReply: CaptureReply)
    | OpRefund(id: nat, actor: nat, asAdmin: bool, paise: nat, refundReply: RefundReply)

  /** Effect of an operation on the payment it names. */
  function Effect(p: Payment, op: Op): Payment {
    match op
    case OpCreate(_, _, _, _, _) => p
    case OpAuthorize(_, actor, asAdmin, r) => AuthorizeSpec(p, actor, asAdmin, r).0
    case OpCapture(_, actor, asAdmin, r) => CaptureSpec(p, actor, asAdmin, r).0
    case OpCancel(_, actor, asAdmin, r) => CancelSpec(p, actor, asAdmin, r).0
    case OpVoid(_, actor, r) => VoidSpec(p, actor, r)
    case OpRetry(_, actor, r, r2) => RetrySpec(p, actor, r, r2).0
    case OpRefund(_, actor, asAdmin, n, r) => if n == 0 then p else RefundSpec(p, actor, asAdmin, n, r).0
  }

  function Step(ps: seq<Payment>, op: Op): seq<Payment> {
    if op.OpCreate? then
      if op.order.Some? && (op.order.value.Some? ==> op.order.value.value == op.creator) && op.amount >= 0 && op.gateway
      then ps + [Opened(op.creator, op.amount, op.hasOrderId)] else ps
    else if op.id >= |ps| then ps
    else ps[op.id := Effect(ps[op.id], op)]
  }

  /** The payments after a run that starts with none. */
  function Run(ops: seq<Op>): seq<Payment> {
    if ops == [] then [] else Step(Run(ops[..|ops| - 1]), ops[|ops| - 1])
  }

  // ---------------------------------------------------------------- preservation

  lemma WrittenKeepsTrail(p: Payment, s: Status)
    requires Chained(p.trail) && p.trail[|p.trail| - 1] == p.status && s in Allowed(p.status)
    ensures Chained(Written(p, s).trail)
  {
    var t := p.trail + [s];
    forall i | 0 < i < |t| ensures t[i] in Allowed(t[i - 1]) {
      if i < |p.trail| {
        assert t[i] == p.trail[i] && t[i - 1] == p.trail[i - 1];
      }
    }
  }

  /** Status writes outside the refund states, along an edge of the table. */
  lemma WrittenKeeps(p: Payment, s: Status)
    requires Sound(p) && s in Allowed(p.status) && s in {Pending, Authorized, Failed, Cancelled, Captured}
    requires s == Captured ==> p.gatewayPayment || p.amount == 0
    ensures Sound(Written(p, s))
  {
    WrittenKeepsTrail(p, s);
  }

  lemma {:induction false} NextAttemptIsCount(attempts: seq<Attempt>)
    requires Numbered(attempts)
    ensures NextAttempt(attempts) == |attempts| + 1
  {
    if attempts != [] {
      NextAttemptIsCount(attempts[..|attempts| - 1]);
    }
  }

  lemma TriedKeeps(p: Payment, s: Status)
    requires Sound(p)
    ensures Sound(Tried(p, s))
  {
    NextAttemptIsCount(p.attempts);
  }

  lemma AuthorizeKeeps(p: Payment, actor: nat, asAdmin: bool, reply: AuthorizeReply)
    requires Sound(p)
    ensures Sound(AuthorizeSpec(p, actor, asAdmin, reply).0)
  {
    TriedKeeps(p, Failed);
    TriedKeeps(p, Pending);
    if Authorized in Allowed(p.status) {
      WrittenKeeps(p, Failed);
      WrittenKeeps(p, Authorized);
      TriedKeeps(Written(p, Authorized), Authorized);
    }
  }

  lemma CaptureKeeps(p: Payment, actor: nat, asAdmin: bool, reply: CaptureReply)
    requires Sound(p)
    ensures Sound(CaptureSpec(p, actor, asAdmin, reply).0)
  {
    if Captured in Allowed(p.status) {
      WrittenKeeps(p, Failed);
      if p.gatewayPayment || p.amount == 0 {
        WrittenKeeps(p, Captured);
      }
    }
  }

  lemma CancelKeeps(p: Payment, actor: nat, asAdmin: bool, reply: CancelReply)
    requires Sound(p)
    ensures Sound(CancelSpec(p, actor, asAdmin, reply).0)
  {
    if Cancelled in Allowed(p.status) {
      WrittenKeeps(p, Cancelled);
    }
  }

  lemma RetryKeeps(p: Payment, actor: nat, reply: AuthorizeReply, reply2: CaptureReply)
    requires Sound(p)
    ensures Sound(RetrySpec(p, actor, reply, reply2).0)
  {
    if p.status == Failed || p.status == Pending {
      if p.status == Failed {
        WrittenKeeps(p, Pending);
      }
      var q := if p.status == Failed then Written(p, Pending) else p;
      AuthorizeKeeps(q, actor, false, reply);
      CaptureKeeps(AuthorizeSpec(q, actor, false, reply).0, actor, false, reply2);
    }
  }

  lemma RowKeepsClosing(p: Payment, r: RefundRow)
    ensures (exists i :: 0 <= i < |p.refunds + [r]| && Closing((p.refunds + [r])[i]))
        <==> Closing(r) || exists i :: 0 <= i < |p.refunds| && Closing(p.refunds[i])
  {
    var rows := p.refunds + [r];
    assert rows[|p.refunds|] == r;
    assert forall i :: 0 <= i < |p.refunds| ==> rows[i] == p.refunds[i];
  }

  /** A refund row is added; only a row that did not fail moves the refunded amount. */
  lemma RowKeeps(p: Payment, q: Payment, r: RefundRow)
    requires Balanced(p) && (p.status == Captured || p.status == PartiallyRefunded)
    requires 1 <= r.amount <= p.amount - p.refunded && r.full == (r.amount == p.amount - p.refunded)
    requires q.amount == p.amount && q.refunds == p.refunds + [r]
    requires if r.status == RefundFailed then q.refunded == p.refunded && q.status == p.status
      else q.refunded == p.refunded + r.amount && q.status == if r.full then Refunded else PartiallyRefunded
    ensures Balanced(q)
  {
    CountedAppend(p.refunds, r);
    RowKeepsClosing(p, r);
  }

  predicate Refundable(p: Payment, amount: int) {
    Sound(p) && (p.status == Captured || p.status == PartiallyRefunded) && 1 <= amount <= p.amount - p.refunded
  }

  lemma FailedRefundKeeps(p: Payment, amount: int, full: bool)
    requires Refundable(p, amount) && full == (amount == p.amount - p.refunded)
    ensures Sound(WithRow(p, amount, full, RefundFailed))
  {
    RowKeeps(p, WithRow(p, amount, full, RefundFailed), RefundRow(amount, full, RefundFailed));
  }

  lemma AcceptedRefundKeeps(p: Payment, amount: int, full: bool, status: RefundStatus)
    requires Refundable(p, amount) && full == (amount == p.amount - p.refunded) && status != RefundFailed
    ensures Sound(Written(WithRow(p, amount, full, status), if full then Refunded else PartiallyRefunded)
                    .(refunded := p.refunded + amount))
  {
    var s := if full then Refunded else PartiallyRefunded;
    var q := Written(WithRow(p, amount, full, status), s).(refunded := p.refunded + amount);
    RowKeeps(p, q, RefundRow(amount, full, status));
    WrittenKeepsTrail(p, s);
    assert q.trail == Written(p, s).trail;
  }

  lemma RefundKeeps(p: Payment, actor: nat, asAdmin: bool, amount: nat, reply: RefundReply)
    requires Sound(p) && amount >= 1
    ensures Sound(RefundSpec(p, actor, asAdmin, amount, reply).0)
  {
    if Refundable(p, amount) {
      var full := amount == p.amount - p.refunded;
      FailedRefundKeeps(p, amount, full);
      AcceptedRefundKeeps(p, amount, full, if reply == RefundProcessed then Processed else Processing);
      assert p.gatewayPayment;
    }
  }

  lemma EffectKeeps(p: Payment, op: Op)
    requires Sound(p)
    ensures Sound(Effect(p, op))
  {
    match op
    case OpCreate(_, _, _, _, _) =>
    case OpAuthorize(_, actor, asAdmin, r) => AuthorizeKeeps(p, actor, asAdmin, r);
    case OpCapture(_, actor, asAdmin, r) => CaptureKeeps(p, actor, asAdmin, r);
    case OpCancel(_, actor, asAdmin, r) => CancelKeeps(p, actor, asAdmin, r);
    case OpVoid(_, actor, r) => CancelKeeps(p, actor, false, r);
    case OpRetry(_, actor, r, r2) => RetryKeeps(p, actor, r, r2);
    case OpRefund(_, actor, asAdmin, n, r) => if n > 0 { RefundKeeps(p, actor, asAdmin, n, r); }
  }

  /** In every run, every payment is sound. */
  lemma {:induction false} RunLaw(ops: seq<Op>)
    ensures forall k :: 0 <= k < |Run(ops)| ==> Sound(Run(ops)[k])
  {
    if ops != [] {
      var before, op := Run(ops[..|ops| - 1]), ops[|ops| - 1];
      RunLaw(ops[..|ops| - 1]);
      if !op.OpCreate? && op.id < |before| {
        EffectKeeps(before[op.id], op);
      } else if op.OpCreate? {
        OpenedSound(op.creator, op.amount, op.hasOrderId);
      }
    }
  }

  lemma OpenedSound(owner: nat, amount: int, hasOrderId: bool)
    ensures amount >= 0 ==> Sound(Opened(owner, amount, hasOrderId))
  {
    assert Counted([]) == 0;
  }

  // ---------------------------------------------------------------- consequences

  /** For every payment of every run: the refunded amount is the full amount exactly when
      the status says so if, and only if, the payment is not for nothing. */
  lemma {:induction false} FullExactlyWhenRefunded(ops: seq<Op>, k: nat)
    requires k < |Run(ops)|
    ensures var p := Run(ops)[k];
      && ((p.refunded == p.amount <==> p.status == Refunded) <==> p.amount > 0)
      && (0 < p.refunded < p.amount <==> p.status == PartiallyRefunded)
  {
    RunLaw(ops);
  }

  /** A payment for nothing can be captured and is then, wrongly, as good as refunded. */
  lemma FreePaymentNeverRefunded()
    ensures exists ops: seq<Op> ::
      |Run(ops)| == 1 && Run(ops)[0].status == Captured && Run(ops)[0].refunded == Run(ops)[0].amount
  {
    var a, b := OpCreate(Some(None), 0, 0, true, true), OpCapture(0, 0, false, CaptureTaken);
    assert [a][..0] == [] && [a, b][..1] == [a];
    assert Run([]) == [];
    assert Run([a]) == [Opened(0, 0, true)];
    assert Run([a, b])[0].status == Captured;
  }

  /** A refund never fails for want of a gateway payment: that check is past its reach. */
  lemma RefundFindsGateway(p: Payment, actor: nat, asAdmin: bool, amount: nat, reply: RefundReply)
    requires Sound(p) && amount >= 1
    ensures RefundSpec(p, actor, asAdmin, amount, reply).1 == Conflict
       <==> MayAccess(p, actor, asAdmin) && p.status != Captured && p.status != PartiallyRefunded
  {
  }

  /** Cancelling writes a status the table allows exactly when the payment is neither
      expired nor charged back; only webhooks bring a payment there. */
  lemma CancelFollowsTable(p: Payment, actor: nat, asAdmin: bool, reply: CancelReply)
    ensures var q := CancelSpec(p, actor, asAdmin, reply).0;
      q != p ==> (q.status in Allowed(p.status) <==> p.status != Expired && p.status != Chargeback)
  {
  }

  /** `q` is a later state of payment `p`: refunds never shrink and the past stays. */
  predicate Later(p: Payment, q: Payment) {
    p.refunded <= q.refunded && p.trail <= q.trail && q.amount == p.amount && q.owner == p.owner
  }

  lemma AuthorizeLater(p: Payment, actor: nat, asAdmin: bool, reply: AuthorizeReply)
    ensures Later(p, AuthorizeSpec(p, actor, asAdmin, reply).0)
  {
  }

  lemma CaptureLater(p: Payment, actor: nat, asAdmin: bool, reply: CaptureReply)
    ensures Later(p, CaptureSpec(p, actor, asAdmin, reply).0)
  {
  }

  lemma RetryLater(p: Payment, actor: nat, reply: AuthorizeReply, reply2: CaptureReply)
    ensures Later(p, RetrySpec(p, actor, reply, reply2).0)
  {
    var q := if p.status == Failed then Written(p, Pending) else p;
    var r := AuthorizeSpec(q, actor, false, reply).0;
    AuthorizeLater(q, actor, false, reply);
    CaptureLater(r, actor, false, reply2);
  }

  lemma EffectLater(p: Payment, op: Op)
    ensures Later(p, Effect(p, op))
    ensures p.status == Cancelled || p.status == Refunded ==> Effect(p, op) == p
  {
    if op.OpRetry? {
      RetryLater(p, op.actor, op.authorizeReply, op.captureReply);
    }
  }

  /** Cancelled and refunded payments are final, and every step leads to a later state. */
  lemma {:induction false} StepLaw(ps: seq<Payment>, op: Op, k: nat)
    requires k < |ps|
    ensures |ps| <= |Step(ps, op)|
    ensures Later(ps[k], Step(ps, op)[k])
    ensures ps[k].status == Cancelled || ps[k].status == Refunded ==> Step(ps, op)[k] == ps[k]
  {
    EffectLater(ps[k], op);
  }

  /** Refunding the whole remainder at once settles the payment; splitting it in two
      accepted refunds leads to the same amount and status. */
  lemma RefundsCompose(p: Payment, actor: nat, asAdmin: bool, a: nat, b: nat)
    requires Sound(p) && a >= 1 && b >= 1 && MayAccess(p, actor, asAdmin)
    requires p.status == Captured || p.status == PartiallyRefunded
    requires a + b <= p.amount - p.refunded
    ensures var one := RefundSpec(p, actor, asAdmin, a + b, RefundProcessed);
      var first := RefundSpec(p, actor, asAdmin, a, RefundProcessed);
      var second := RefundSpec(first.0, actor, asAdmin, b, RefundProcessed);
      && one.1 == first.1 == second.1 == Done
      && second.0.refunded == one.0.refunded && second.0.status == one.0.status
      && (one.0.status == Refunded <==> a + b == p.amount - p.refunded)
  {
  }
}
