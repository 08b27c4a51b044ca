/** Checkout and its payment: exactly when a checkout completes, and what it does to the
    payments, told without the saga. */
module CheckoutPayments {
  import opened Totals
  import opened Stock
  import opened StockLaws
  import opened Saga
  import opened SagaLaws
  import opened Checkout
  import opened CartLaws
  import opened CheckoutLaws

  // ---------------------------------------------------------------- the story

  /** `voidOrCancel` called `n` times. */
  function Voided<P>(e: Env<P>, p: P, id: nat, n: nat): P
    decreases n
  {
    if n == 0 then p else Voided(e, e.voidOrCancel(p, id), id, n - 1)
  }

  /** Two attempts at creating the payment; one that exceeds its limit does not count. */
  function Created<P>(e: Env<P>, p: P): (P, Option<nat>) {
    var (p1, id1) := e.createPayment(p, 1);
    if id1.Some? && !e.timesOut(2, 1) then (p1, id1) else
      var (p2, id2) := e.createPayment(p1, 2);
      (p2, if e.timesOut(2, 2) then None else id2)
  }

  /** Two attempts at authorizing (step 3) or capturing (step 4), if payments are settled. */
  function SettledBy<P>(e: Env<P>, step: nat, call: (P, nat, nat) -> (P, bool), p: P, id: nat): (P, bool) {
    if !e.autoSettle then (p, !e.timesOut(step, 1) || !e.timesOut(step, 2)) else
      var (p1, ok1) := call(p, id, 1);
      if ok1 && !e.timesOut(step, 1) then (p1, true) else
        var (p2, ok2) := call(p1, id, 2);
        (p2, ok2 && !e.timesOut(step, 2))
  }

  predicate Confirms<P>(e: Env<P>, cart: seq<CartItem>) {
    !e.timesOut(5, 1) && (e.autoSettle ==> cart != [] && e.confirmation(1) == ConfirmsAll)
  }

  /** How often a payment is voided when `n` of its steps are undone. */
  function Voids<P>(e: Env<P>, n: nat): nat {
    if e.autoSettle then n else 1
  }

  function ConfirmTale<P>(e: Env<P>, cart: seq<CartItem>, now: nat -> int, deadline: int, p: P, id: nat): (P, bool) {
    if now(5) > deadline then (Voided(e, p, id, Voids(e, 3)), false)
    else if Confirms(e, cart) then (p, true) else (Voided(e, p, id, Voids(e, 3)), false)
  }

  function CaptureTale<P>(e: Env<P>, cart: seq<CartItem>, now: nat -> int, deadline: int, p: P, id: nat): (P, bool) {
    if now(4) > deadline then (Voided(e, p, id, Voids(e, 2)), false) else
      var (p', ok) := SettledBy(e, 4, e.capture, p, id);
      if ok then ConfirmTale(e, cart, now, deadline, p', id) else (Voided(e, p', id, Voids(e, 2)), false)
  }

  function AuthorizeTale<P>(e: Env<P>, cart: seq<CartItem>, now: nat -> int, deadline: int, p: P, id: nat): (P, bool) {
    if now(3) > deadline then (Voided(e, p, id, Voids(e, 1)), false) else
      var (p', ok) := SettledBy(e, 3, e.authorize, p, id);
      if ok then CaptureTale(e, cart, now, deadline, p', id) else (Voided(e, p', id, Voids(e, 1)), false)
  }

  /** Payments after a checkout that has its reservations, and whether it completes. */
  function PaymentTale<P>(e: Env<P>, cart: seq<CartItem>, now: nat -> int, deadline: int, p: P): (P, bool) {
    if now(2) > deadline then (p, false) else
      var (p', id) := Created(e, p);
      if id.None? then (p', false) else AuthorizeTale(e, cart, now, deadline, p', id.value)
  }

  // ---------------------------------------------------------------- steps

  /** A step that may be attempted twice. */
  lemma ForwardTwice<W, V>(d: Definition<W, V>, inst: Instance<W, V>, i: nat)
    requires i < |d.steps| == |inst.records| && MaxAttempts(d, i) == 2
    ensures var a1, fwd := d.steps[i].execute(inst.world, inst.context, 1), Forward(d, inst, i);
      var a := if a1.Done? then a1 else d.steps[i].execute(a1.world, inst.context, 2);
      && fwd.world == a.world
      && fwd.context == (if a.Done? then Patched(inst.context, a.patch) else inst.context)
      && |fwd.records| == |inst.records| && (a.Done? ==> fwd.records[i].status == StepCompleted)
      && (forall j :: 0 <= j < |fwd.records| && j != i ==> fwd.records[j] == inst.records[j])
      && (Noticed(d, inst, i).None? <==> a.Done? || !a.error.truthy)
  {
    var step, a1 := d.steps[i], d.steps[i].execute(inst.world, inst.context, 1);
    if a1.Failed? {
      assert Retry(step, inst.world, inst.context, 1, 2) == Retry(step, a1.world, inst.context, 2, 2);
    }
  }

  /** Steps 2 to `i` - 1 are completed for payment `id`. */
  ghost predicate Paid<P>(inst: Instance<World<P>, Value>, id: nat, i: nat) {
    && |inst.records| == 6 && i <= 6
    && NumAt(inst.context, "paymentId") == Some(id)
    && forall j :: 2 <= j < i ==> inst.records[j].status == StepCompleted
  }

  /** The step leaves the payments `p` and passes if `ok`. */
  ghost predicate Steps<P>(e: Env<P>, cart: seq<CartItem>, inst: Instance<World<P>, Value>, i: nat, id: nat, p: P, ok: bool)
    requires PlanOk(e.plan) && |inst.records| == 6 && i < 6
  {
    var d := CheckoutDefinition(e, cart);
    var fwd := Forward(d, inst, i);
    && fwd.world.payments == p && (Noticed(d, inst, i).None? <==> ok)
    && Paid(fwd, id, if ok && i < 5 then i + 1 else i)
  }

  lemma PaidContext(c: Context, id: nat)
    ensures NumAt(c + map["paymentId" := Num(id)], "paymentId") == Some(id)
    ensures c + map[] == c
  {
  }

  /** The attempts at creating a payment. */
  lemma CreateAttempt<P>(e: Env<P>, cart: seq<CartItem>, w: World<P>, c: Context, n: nat)
    requires PlanOk(e.plan)
    ensures var a, reply := CheckoutDefinition(e, cart).steps[2].execute(w, c, n), e.createPayment(w.payments, n);
      && a.world.payments == reply.0 && (a.Failed? ==> a.error.truthy)
      && (a.Done? <==> reply.1.Some? && !e.timesOut(2, n))
      && (a.Done? ==> a.patch.Some? && a.patch.value == map["paymentId" := Num(reply.1.value)])
  {
    StepIs(e, cart, 2, w, c, n);
    var body := CreatePayment(e, w, c, n);
    assert CheckoutDefinition(e, cart).steps[2].execute(w, c, n) == Timed(e, 2, n, body);
    assert body.Done? ==> body.patch.value == map["paymentId" := Num(e.createPayment(w.payments, n).1.value)];
  }

  lemma CreateStep<P>(e: Env<P>, cart: seq<CartItem>, inst: Instance<World<P>, Value>)
    requires PlanOk(e.plan) && |inst.records| == 6
    ensures var d := CheckoutDefinition(e, cart);
      var (p, id) := Created(e, inst.world.payments);
      && Forward(d, inst, 2).world.payments == p
      && (Noticed(d, inst, 2).None? <==> id.Some?)
      && (id.Some? ==> Paid(Forward(d, inst, 2), id.value, 3))
  {
    var d := CheckoutDefinition(e, cart);
    var a1 := d.steps[2].execute(inst.world, inst.context, 1);
    CreateAttempt(e, cart, inst.world, inst.context, 1);
    CreateAttempt(e, cart, a1.world, inst.context, 2);
    StepIs(e, cart, 2, inst.world, inst.context, 1);
    ForwardTwice(d, inst, 2);
    var (p, id) := Created(e, inst.world.payments);
    if id.Some? {
      PaidContext(inst.context, id.value);
    }
  }

  /** The attempts at authorizing and capturing. */
  lemma SettleAttempt<P>(e: Env<P>, cart: seq<CartItem>, i: nat, call: (P, nat, nat) -> (P, bool), w: World<P>, c: Context, n: nat, id: nat)
    requires PlanOk(e.plan) && NumAt(c, "paymentId") == Some(id)
    requires (i == 3 && call == e.authorize) || (i == 4 && call == e.capture)
    ensures var a, reply := CheckoutDefinition(e, cart).steps[i].execute(w, c, n), call(w.payments, id, n);
      && a.world.payments == (if e.autoSettle then reply.0 else w.payments) && (a.Failed? ==> a.error.truthy)
      && (a.Done? <==> (e.autoSettle ==> reply.1) && !e.timesOut(i, n))
      && (a.Done? ==> a.patch.Some? && a.patch.value == map[])
  {
    StepIs(e, cart, i, w, c, n);
    SettleIs(e, call, w, c, n, id);
    var body, a := Settle(e, call, w, c, n), CheckoutDefinition(e, cart).steps[i].execute(w, c, n);
    assert Execute(e, cart, i, w, c, n) == body;
    assert a == Timed(e, i, n, body);
    assert a.Done? ==> a.patch == body.patch;
  }

  lemma SettleIs<P>(e: Env<P>, call: (P, nat, nat) -> (P, bool), w: World<P>, c: Context, n: nat, id: nat)
    requires NumAt(c, "paymentId") == Some(id)
    ensures var body, reply := Settle(e, call, w, c, n), call(w.payments, id, n);
      && body.world.payments == (if e.autoSettle then reply.0 else w.payments) && (body.Failed? ==> body.error.truthy)
      && (body.Done? <==> (e.autoSettle ==> reply.1))
      && (body.Done? ==> body.patch.Some? && body.patch.value == map[])
  {
  }

  lemma SettleStep<P>(e: Env<P>, cart: seq<CartItem>, inst: Instance<World<P>, Value>, i: nat, call: (P, nat, nat) -> (P, bool), id: nat)
    requires PlanOk(e.plan) && Paid(inst, id, i)
    requires (i == 3 && call == e.authorize) || (i == 4 && call == e.capture)
    ensures var end := SettledBy(e, i, call, inst.world.payments, id); Steps(e, cart, inst, i, id, end.0, end.1)
  {
    var d := CheckoutDefinition(e, cart);
    var a1 := d.steps[i].execute(inst.world, inst.context, 1);
    SettleAttempt(e, cart, i, call, inst.world, inst.context, 1, id);
    SettleAttempt(e, cart, i, call, a1.world, inst.context, 2, id);
    StepIs(e, cart, i, inst.world, inst.context, 1);
    ForwardTwice(d, inst, i);
    PaidContext(inst.context, id);
  }

  lemma ConfirmStep<P>(e: Env<P>, cart: seq<CartItem>, inst: Instance<World<P>, Value>, s1: State, ids: seq<ReservationId>, id: nat)
    requires PlanOk(e.plan) && Stage(inst, s1, e.orderId, ids) && |ids| == |cart| && Paid(inst, id, 5)
    ensures Steps(e, cart, inst, 5, id, inst.world.payments, Confirms(e, cart))
  {
    StepIs(e, cart, 5, inst.world, inst.context, 1);
    ForwardOnce(CheckoutDefinition(e, cart), inst, 5);
    PaidContext(inst.context, id);
  }

  // ---------------------------------------------------------------- undoing

  lemma UndoOne<P>(e: Env<P>, cart: seq<CartItem>, inst: Instance<World<P>, Value>, i: nat, id: nat)
    requires PlanOk(e.plan) && |inst.records| == 6 && i < 5
    ensures var one := CompensateOne(CheckoutDefinition(e, cart), inst, i);
      && |one.records| == 6 && one.context == inst.context
      && (forall j :: 0 <= j < i ==> one.records[j] == inst.records[j])
      && (i < 2 ==> one.world.payments == inst.world.payments)
      && (2 <= i && inst.records[i].status == StepCompleted && NumAt(inst.context, "paymentId") == Some(id) ==>
            one.world.payments == if i == 2 || e.autoSettle then e.voidOrCancel(inst.world.payments, id) else inst.world.payments)
  {
    assert CheckoutDefinition(e, cart).steps[i] == CheckoutStep(e, cart, i);
  }

  lemma UndoFirstTwo<P>(e: Env<P>, cart: seq<CartItem>, inst: Instance<World<P>, Value>, n: nat)
    requires PlanOk(e.plan) && |inst.records| == 6 && n <= 2
    ensures CompensateBelow(CheckoutDefinition(e, cart), inst, n).world.payments == inst.world.payments
    decreases n
  {
    if n > 0 {
      UndoOne(e, cart, inst, n - 1, 0);
      UndoFirstTwo(e, cart, CompensateOne(CheckoutDefinition(e, cart), inst, n - 1), n - 1);
    }
  }

  lemma {:induction false} UndoPaid<P>(e: Env<P>, cart: seq<CartItem>, inst: Instance<World<P>, Value>, n: nat, id: nat)
    requires PlanOk(e.plan) && 3 <= n <= 5 && Paid(inst, id, n)
    ensures CompensateBelow(CheckoutDefinition(e, cart), inst, n).world.payments ==
      Voided(e, inst.world.payments, id, Voids(e, n - 2))
    decreases n
  {
    var d := CheckoutDefinition(e, cart);
    var one := CompensateOne(d, inst, n - 1);
    UndoOne(e, cart, inst, n - 1, id);
    if n > 3 {
      UndoPaid(e, cart, one, n - 1, id);
    } else {
      UndoFirstTwo(e, cart, one, 2);
      assert Voided(e, e.voidOrCancel(inst.world.payments, id), id, 0) == e.voidOrCancel(inst.world.payments, id);
    }
  }

  // ---------------------------------------------------------------- from each step on

  /** Payments and completion of the run from step `i` on. */
  ghost predicate Goes<P>(e: Env<P>, cart: seq<CartItem>, now: nat -> int, deadline: int, inst: Instance<World<P>, Value>, i: nat, tale: (P, bool))
    requires PlanOk(e.plan) && |inst.records| == 6 && i <= 6
  {
    var r := RunFrom(CheckoutDefinition(e, cart), now, deadline, inst, i);
    r.world.payments == tale.0 && (r.status == IsCompleted <==> tale.1)
  }

  lemma GoesOn<P>(e: Env<P>, cart: seq<CartItem>, now: nat -> int, deadline: int, inst: Instance<World<P>, Value>, i: nat, tale: (P, bool))
    requires PlanOk(e.plan) && |inst.records| == 6 && i < 6 && now(i) <= deadline
    requires Noticed(CheckoutDefinition(e, cart), inst, i).None?
    requires |Forward(CheckoutDefinition(e, cart), inst, i).records| == 6
    requires Goes(e, cart, now, deadline, Forward(CheckoutDefinition(e, cart), inst, i), i + 1, tale)
    ensures Goes(e, cart, now, deadline, inst, i, tale)
  {
    var d := CheckoutDefinition(e, cart);
    assert RunFrom(d, now, deadline, inst, i) == RunFrom(d, now, deadline, Forward(d, inst, i), i + 1);
  }

  /** Stopping at step `i` voids the payment once for every payment step undone. */
  lemma GoesBack<P>(e: Env<P>, cart: seq<CartItem>, now: nat -> int, deadline: int, inst: Instance<World<P>, Value>, i: nat, id: nat)
    requires PlanOk(e.plan) && 3 <= i <= 5 && Paid(inst, id, i)
    requires now(i) > deadline || Noticed(CheckoutDefinition(e, cart), inst, i).Some?
    requires now(i) <= deadline ==> Paid(Forward(CheckoutDefinition(e, cart), inst, i), id, i)
    ensures var p := (if now(i) > deadline then inst else Forward(CheckoutDefinition(e, cart), inst, i)).world.payments;
      Goes(e, cart, now, deadline, inst, i, (Voided(e, p, id, Voids(e, i - 2)), false))
  {
    var d := CheckoutDefinition(e, cart);
    if now(i) > deadline {
      UndoPaid(e, cart, inst.(status := IsCompensating, error := Some("Workflow timed out")), i, id);
    } else {
      var err := Noticed(d, inst, i).value;
      UndoPaid(e, cart, StepFailure(Forward(d, inst, i), i, err).(status := IsCompensating, error := Some(err.message)), i, id);
    }
  }

  lemma StepGoes<P>(e: Env<P>, cart: seq<CartItem>, now: nat -> int, deadline: int, inst: Instance<World<P>, Value>, i: nat, id: nat,
                    p: P, ok: bool, tale: (P, bool))
    requires PlanOk(e.plan) && 3 <= i <= 5 && Paid(inst, id, i) && Steps(e, cart, inst, i, id, p, ok)
    requires ok && now(i) <= deadline ==> Goes(e, cart, now, deadline, Forward(CheckoutDefinition(e, cart), inst, i), i + 1, tale)
    ensures Goes(e, cart, now, deadline, inst, i,
      if now(i) > deadline then (Voided(e, inst.world.payments, id, Voids(e, i - 2)), false)
      else if ok then tale else (Voided(e, p, id, Voids(e, i - 2)), false))
  {
    if now(i) <= deadline && ok {
      GoesOn(e, cart, now, deadline, inst, i, tale);
    } else {
      GoesBack(e, cart, now, deadline, inst, i, id);
    }
  }

  lemma Finished<P>(e: Env<P>, cart: seq<CartItem>, now: nat -> int, deadline: int, inst: Instance<World<P>, Value>, i: nat)
    requires PlanOk(e.plan) && |inst.records| == i == 6
    ensures Goes(e, cart, now, deadline, inst, i, (inst.world.payments, true))
  {
  }

  lemma ConfirmGoes<P>(e: Env<P>, cart: seq<CartItem>, now: nat -> int, deadline: int, inst: Instance<World<P>, Value>,
                       s1: State, ids: seq<ReservationId>, id: nat, i: nat)
    requires PlanOk(e.plan) && Stage(inst, s1, e.orderId, ids) && |ids| == |cart| && i == 5 && Paid(inst, id, i)
    ensures Goes(e, cart, now, deadline, inst, i, ConfirmTale(e, cart, now, deadline, inst.world.payments, id))
  {
    ConfirmStep(e, cart, inst, s1, ids, id);
    Finished(e, cart, now, deadline, Forward(CheckoutDefinition(e, cart), inst, i), i + 1);
    StepGoes(e, cart, now, deadline, inst, i, id, inst.world.payments, Confirms(e, cart), (inst.world.payments, true));
  }

  lemma CaptureGoes<P>(e: Env<P>, cart: seq<CartItem>, now: nat -> int, deadline: int, inst: Instance<World<P>, Value>,
                       s1: State, ids: seq<ReservationId>, id: nat, i: nat)
    requires PlanOk(e.plan) && Stage(inst, s1, e.orderId, ids) && |ids| == |cart| && i == 4 && Paid(inst, id, i)
    ensures Goes(e, cart, now, deadline, inst, i, CaptureTale(e, cart, now, deadline, inst.world.payments, id))
  {
    SettleStep(e, cart, inst, i, e.capture, id);
    var (p, ok) := SettledBy(e, i, e.capture, inst.world.payments, id);
    if ok {
      LateForward(e, cart, inst, i, s1, e.orderId, ids);
      ConfirmGoes(e, cart, now, deadline, Forward(CheckoutDefinition(e, cart), inst, i), s1, ids, id, i + 1);
    }
    StepGoes(e, cart, now, deadline, inst, i, id, p, ok, ConfirmTale(e, cart, now, deadline, p, id));
  }

  lemma AuthorizeGoes<P>(e: Env<P>, cart: seq<CartItem>, now: nat -> int, deadline: int, inst: Instance<World<P>, Value>,
                         s1: State, ids: seq<ReservationId>, id: nat, i: nat)
    requires PlanOk(e.plan) && Stage(inst, s1, e.orderId, ids) && |ids| == |cart| && i == 3 && Paid(inst, id, i)
    ensures Goes(e, cart, now, deadline, inst, i, AuthorizeTale(e, cart, now, deadline, inst.world.payments, id))
  {
    SettleStep(e, cart, inst, i, e.authorize, id);
    var (p, ok) := SettledBy(e, i, e.authorize, inst.world.payments, id);
    if ok {
      LateForward(e, cart, inst, i, s1, e.orderId, ids);
      CaptureGoes(e, cart, now, deadline, Forward(CheckoutDefinition(e, cart), inst, i), s1, ids, id, i + 1);
    }
    StepGoes(e, cart, now, deadline, inst, i, id, p, ok, CaptureTale(e, cart, now, deadline, p, id));
  }

  lemma CreateGoes<P>(e: Env<P>, cart: seq<CartItem>, now: nat -> int, deadline: int, inst: Instance<World<P>, Value>,
                      s1: State, ids: seq<ReservationId>)
    requires PlanOk(e.plan) && Stage(inst, s1, e.orderId, ids) && |ids| == |cart|
    ensures Goes(e, cart, now, deadline, inst, 2, PaymentTale(e, cart, now, deadline, inst.world.payments))
  {
    CreateStep(e, cart, inst);
    var (p, id) := Created(e, inst.world.payments);
    if now(2) <= deadline && id.Some? {
      LateForward(e, cart, inst, 2, s1, e.orderId, ids);
      AuthorizeGoes(e, cart, now, deadline, Forward(CheckoutDefinition(e, cart), inst, 2), s1, ids, id.value, 3);
      GoesOn(e, cart, now, deadline, inst, 2, AuthorizeTale(e, cart, now, deadline, p, id.value));
    } else {
      StopsUnpaid(e, cart, now, deadline, inst, 2);
    }
  }

  // ---------------------------------------------------------------- whole checkouts

  /** The first two steps do not touch payments. */
  lemma FirstTwoSpare<P>(e: Env<P>, cart: seq<CartItem>, inst: Instance<World<P>, Value>, i: nat)
    requires PlanOk(e.plan) && |inst.records| == 6 && i < 2
    ensures Forward(CheckoutDefinition(e, cart), inst, i).world.payments == inst.world.payments
    ensures |Forward(CheckoutDefinition(e, cart), inst, i).records| == 6
  {
    StepIs(e, cart, i, inst.world, inst.context, 1);
    ForwardOnce(CheckoutDefinition(e, cart), inst, i);
  }

  /** Stopping before a payment is created leaves the payments as the step left them. */
  lemma StopsUnpaid<P>(e: Env<P>, cart: seq<CartItem>, now: nat -> int, deadline: int, inst: Instance<World<P>, Value>, i: nat)
    requires PlanOk(e.plan) && |inst.records| == 6 && i <= 2
    requires now(i) > deadline || Noticed(CheckoutDefinition(e, cart), inst, i).Some?
    ensures var p := (if now(i) > deadline then inst else Forward(CheckoutDefinition(e, cart), inst, i)).world.payments;
      Goes(e, cart, now, deadline, inst, i, (p, false))
  {
    var d := CheckoutDefinition(e, cart);
    if now(i) > deadline {
      UndoFirstTwo(e, cart, inst.(status := IsCompensating, error := Some("Workflow timed out")), i);
    } else {
      var err := Noticed(d, inst, i).value;
      UndoFirstTwo(e, cart, StepFailure(Forward(d, inst, i), i, err).(status := IsCompensating, error := Some(err.message)), i);
    }
  }

  /** Payments and completion once the order is drafted. */
  ghost function ReserveTale<P>(e: Env<P>, cart: seq<CartItem>, warehouse: WarehouseId, now: nat -> int, deadline: int, s: State, p: P): (P, bool) {
    if now(1) <= deadline && Reserves(e, cart, warehouse, s) then PaymentTale(e, cart, now, deadline, p) else (p, false)
  }

  lemma ReserveGoes<P>(e: Env<P>, cart: seq<CartItem>, user: nat, warehouse: WarehouseId, now: nat -> int, deadline: int,
                       s: State, inst: Instance<World<P>, Value>)
    requires PlanOk(e.plan) && Inv(s) && Drafted(inst, s, e.orderId, user, warehouse)
    ensures Goes(e, cart, now, deadline, inst, 1, ReserveTale(e, cart, warehouse, now, deadline, s, inst.world.payments))
  {
    var d := CheckoutDefinition(e, cart);
    var fwd := Forward(d, inst, 1);
    ReserveNoticed(e, cart, user, warehouse, s, inst);
    FirstTwoSpare(e, cart, inst, 1);
    if now(1) > deadline || Noticed(d, inst, 1).Some? {
      StopsUnpaid(e, cart, now, deadline, inst, 1);
    } else {
      ReservedAll(e, cart, user, warehouse, s, inst);
      CreateGoes(e, cart, now, deadline, fwd, fwd.world.stock, IdsAt(fwd.context, "reservationIds"));
      GoesOn(e, cart, now, deadline, inst, 1, PaymentTale(e, cart, now, deadline, inst.world.payments));
    }
  }

  lemma ReserveNoticed<P>(e: Env<P>, cart: seq<CartItem>, user: nat, warehouse: WarehouseId, s: State, inst: Instance<World<P>, Value>)
    requires PlanOk(e.plan) && Inv(s) && Drafted(inst, s, e.orderId, user, warehouse)
    ensures Noticed(CheckoutDefinition(e, cart), inst, 1).None? <==> Reserves(e, cart, warehouse, s)
  {
    var s0 := inst.world.stock;
    SameSums(s, s0);
    ReserveStep(e, cart, user, warehouse, s, inst);
    ReserveCartExact(e.plan, s0, warehouse, Some(e.orderId), cart);
    FitsAlike(s, s0, warehouse, cart);
  }

  /** Payments and completion, told by the inputs. */
  ghost function CheckoutTale<P>(e: Env<P>, cart: seq<CartItem>, warehouse: WarehouseId, startedAt: int, now: nat -> int, s: State, p: P): (P, bool) {
    if Drafts(e, startedAt, now) then ReserveTale(e, cart, warehouse, now, startedAt + CHECKOUT_TIMEOUT_MS, s, p) else (p, false)
  }

  lemma CheckoutGoes<P>(e: Env<P>, cart: seq<CartItem>, user: nat, warehouse: WarehouseId, startedAt: int, now: nat -> int, s: State, p: P, i: nat)
    requires PlanOk(e.plan) && Inv(s) && i == 0
    ensures var inst := Start(CheckoutDefinition(e, cart), World(s, p), InitialContext(user, warehouse));
      Goes(e, cart, now, startedAt + CHECKOUT_TIMEOUT_MS, inst, i, CheckoutTale(e, cart, warehouse, startedAt, now, s, p))
  {
    var d := CheckoutDefinition(e, cart);
    var inst, deadline := Start(d, World(s, p), InitialContext(user, warehouse)), startedAt + CHECKOUT_TIMEOUT_MS;
    var fwd, tale := Forward(d, inst, i), CheckoutTale(e, cart, warehouse, startedAt, now, s, p);
    assert |fwd.records| == 6 && fwd.world.payments == p by {
      FirstTwoSpare(e, cart, inst, i);
    }
    assert Noticed(d, inst, i).None? <==> !e.orderTableFails && !e.timesOut(0, 1) by {
      DraftStep(e, cart, user, warehouse, s, p);
    }
    if Drafts(e, startedAt, now) {
      assert Goes(e, cart, now, deadline, fwd, i + 1, tale) by {
        DraftStep(e, cart, user, warehouse, s, p);
        ReserveGoes(e, cart, user, warehouse, now, deadline, s, fwd);
      }
      GoesOn(e, cart, now, deadline, inst, i, tale);
    } else {
      StopsUnpaid(e, cart, now, deadline, inst, i);
    }
  }

  /** A checkout completes if and only if its order is drafted, the cart fits, and the payment
      is created, authorized, captured and confirmed, each in time and within its attempts; and
      its payments are those of that story in every case, with the created payment voided once
      for every payment step undone. */
  lemma CompletesExactly<P>(e: Env<P>, cart: seq<CartItem>, user: nat, warehouse: WarehouseId, startedAt: int, now: nat -> int, s: State, p: P)
    requires PlanOk(e.plan) && Inv(s)
    ensures var r, tale := RunCheckout(e, cart, user, warehouse, startedAt, now, s, p), CheckoutTale(e, cart, warehouse, startedAt, now, s, p);
      (r.status == IsCompleted <==> tale.1) && r.world.payments == tale.0
  {
    CheckoutGoes(e, cart, user, warehouse, startedAt, now, s, p, 0);
  }

  /** A checkout that settles payments never completes with a payment that was not created, or
      never authorized, or never captured. */
  lemma NoOrderUnpaid<P(!new)>(e: Env<P>, cart: seq<CartItem>, user: nat, warehouse: WarehouseId, startedAt: int, now: nat -> int, s: State, p: P)
    requires PlanOk(e.plan) && Inv(s)
    requires
      || (forall q: P, n: nat :: e.createPayment(q, n).1.None?)
      || (e.autoSettle && forall q: P, id: nat, n: nat :: !e.authorize(q, id, n).1)
      || (e.autoSettle && forall q: P, id: nat, n: nat :: !e.capture(q, id, n).1)
    ensures RunCheckout(e, cart, user, warehouse, startedAt, now, s, p).status != IsCompleted
  {
    CompletesExactly(e, cart, user, warehouse, startedAt, now, s, p);
  }
}
