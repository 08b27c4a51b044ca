/** A checkout that does not complete: what becomes of its order, its reservations and
    the stock. */
module CheckoutLaws {
  import opened Totals
  import opened Stock
  import opened StockLaws
  import opened Saga
  import opened SagaLaws
  import opened Checkout
  import opened CartLaws

  // ---------------------------------------------------------------- the late steps leave stock alone

  /** At most the status of one order differs. */
  ghost predicate OrderOnly(s: State, s': State, o: OrderId) {
    o in s.orders && o in s'.orders && s' == s.(orders := s.orders[o := s'.orders[o]])
  }

  ghost predicate Spared(patch: Option<Context>) {
    patch.Some? ==> "orderId" !in patch.value && "reservationIds" !in patch.value
  }

  lemma PaymentBody<P>(e: Env<P>, cart: seq<CartItem>, i: nat, w: World<P>, c: Context, n: nat)
    requires PlanOk(e.plan) && 2 <= i < 5
    ensures var a := Execute(e, cart, i, w, c, n);
      a.world.stock == w.stock && (a.Done? ==> Spared(a.patch))
  {
  }

  lemma ConfirmBody<P>(e: Env<P>, w: World<P>, c: Context, n: nat, o: OrderId)
    requires NumAt(c, "orderId") == Some(o) && o in w.stock.orders
    ensures var a := ConfirmOrder(e, w, c, n);
      && a.world.stock == w.stock.(orders := w.stock.orders[o := a.world.stock.orders[o]])
      && (a.Done? ==> Spared(a.patch))
  {
  }

  lemma LateBody<P>(e: Env<P>, cart: seq<CartItem>, i: nat, s1: State, o: OrderId, w: World<P>, c: Context, n: nat)
    requires PlanOk(e.plan) && 2 <= i < 6 && OrderOnly(s1, w.stock, o) && NumAt(c, "orderId") == Some(o)
    ensures var a := Execute(e, cart, i, w, c, n);
      OrderOnly(s1, a.world.stock, o) && (a.Done? ==> Spared(a.patch))
  {
    if i < 5 {
      PaymentBody(e, cart, i, w, c, n);
    } else {
      ConfirmBody(e, w, c, n, o);
      var s' := Execute(e, cart, i, w, c, n).world.stock;
      assert s1.orders[o := w.stock.orders[o]][o := s'.orders[o]] == s1.orders[o := s'.orders[o]];
    }
  }

  lemma LateAttempt<P>(e: Env<P>, cart: seq<CartItem>, i: nat, s1: State, o: OrderId, w: World<P>, c: Context, n: nat)
    requires PlanOk(e.plan) && 2 <= i < 6 && OrderOnly(s1, w.stock, o) && NumAt(c, "orderId") == Some(o)
    ensures var a := CheckoutDefinition(e, cart).steps[i].execute(w, c, n);
      OrderOnly(s1, a.world.stock, o) && (a.Done? ==> Spared(a.patch))
  {
    LateBody(e, cart, i, s1, o, w, c, n);
    assert CheckoutDefinition(e, cart).steps[i] == CheckoutStep(e, cart, i);
  }

  lemma {:induction false} LateRetry<P>(e: Env<P>, cart: seq<CartItem>, i: nat, s1: State, o: OrderId, w: World<P>, c: Context, attempt: nat, max: int)
    requires PlanOk(e.plan) && 2 <= i < 6 && OrderOnly(s1, w.stock, o) && NumAt(c, "orderId") == Some(o)
    requires 1 <= attempt <= max
    ensures var out := Retry(CheckoutDefinition(e, cart).steps[i], w, c, attempt, max);
      OrderOnly(s1, out.world.stock, o) && (out.result.Ok? ==> Spared(out.result.value))
    decreases max - attempt
  {
    LateAttempt(e, cart, i, s1, o, w, c, attempt);
    var a := CheckoutDefinition(e, cart).steps[i].execute(w, c, attempt);
    if a.Failed? && attempt < max {
      LateRetry(e, cart, i, s1, o, a.world, c, attempt + 1, max);
    }
  }

  /** The saga after `reserve_inventory`: order and reservations are on record, and stock is
      as that step left it. */
  ghost predicate Stage<P>(inst: Instance<World<P>, Value>, s1: State, o: OrderId, ids: seq<ReservationId>) {
    && |inst.records| == 6
    && inst.records[0].status == StepCompleted && inst.records[1].status == StepCompleted
    && OrderOnly(s1, inst.world.stock, o)
    && NumAt(inst.context, "orderId") == Some(o)
    && IdsAt(inst.context, "reservationIds") == ids
  }

  lemma LateForward<P>(e: Env<P>, cart: seq<CartItem>, inst: Instance<World<P>, Value>, i: nat, s1: State, o: OrderId, ids: seq<ReservationId>)
    requires PlanOk(e.plan) && 2 <= i < 6 && Stage(inst, s1, o, ids)
    ensures Stage(Forward(CheckoutDefinition(e, cart), inst, i), s1, o, ids)
  {
    var d := CheckoutDefinition(e, cart);
    LateRetry(e, cart, i, s1, o, inst.world, inst.context, 1, MaxAttempts(d, i));
  }

  lemma LateCompensate<P>(e: Env<P>, cart: seq<CartItem>, inst: Instance<World<P>, Value>, i: nat, s1: State, o: OrderId, ids: seq<ReservationId>)
    requires PlanOk(e.plan) && 2 <= i < 6 && Stage(inst, s1, o, ids)
    ensures Stage(CompensateOne(CheckoutDefinition(e, cart), inst, i), s1, o, ids)
  {
    var d := CheckoutDefinition(e, cart);
    assert d.steps[i] == CheckoutStep(e, cart, i);
    assert OrderOnly(s1, Compensate(e, i, inst.world, inst.context).world.stock, o);
  }

  // ---------------------------------------------------------------- the first two steps undone

  /** What checkout promises of a run that failed after its reservations were made. */
  ghost predicate RolledBack(s: State, s': State, o: OrderId, ids: seq<ReservationId>) {
    && o in s'.orders && s'.orders[o].status == Cancelled
    && (forall id :: id in ids ==> id in s'.reservations && s'.reservations[id].status == Released)
    && (forall id :: id in s'.reservations && s'.reservations[id].order == Some(o) && id !in s.reservations ==>
          s'.reservations[id].status == Released)
    && (forall id :: id in s.reservations ==> id in s'.reservations && s'.reservations[id] == s.reservations[id])
    && Inv(s') && Restored(s, s')
  }

  /** Stock after reserving: `s0` is the stock before, `s1` after. */
  ghost predicate ReservedFrom(s0: State, s1: State, o: OrderId, ids: seq<ReservationId>) {
    && Inv(s0) && Inv(s1) && o in s1.orders
    && NewReservations(s0, s1, Some(o), ids) && Taken(s0, s1, ids)
  }

  lemma ReleaseRestores(s0: State, s1: State, t: State, u: State, ids: seq<ReservationId>)
    requires (forall id :: id in ids ==> id in s1.reservations) && Taken(s0, s1, ids)
    requires t.rows == s1.rows && t.reservations == s1.reservations && GivenBack(t, u, ids)
    ensures Restored(s0, u)
  {
    forall w: WarehouseId, v: VariantId
      ensures Available(u, w, v) == Available(s0, w, v) && Reserved(u, w, v) == Reserved(s0, w, v)
    {
      PromisedByFrame(s1, t, ids, w, v);
      assert Available(u, w, v) == Available(t, w, v) + PromisedBy(t, ids, w, v);
      assert Available(s1, w, v) == Available(s0, w, v) - PromisedBy(s1, ids, w, v);
    }
  }

  lemma ReleasedAgain(plan: Plan, s0: State, s1: State, t: State, o: OrderId, ids: seq<ReservationId>)
    requires PlanOk(plan) && ReservedFrom(s0, s1, o, ids) && OrderOnly(s1, t, o)
    ensures var u := ReleaseQuietly(plan, t, ids);
      && o in u.orders
      && RolledBack(s0, SetOrderStatus(u, o, Cancelled), o, ids)
  {
    SameTables(s1, t);
    ReleaseQuietlyIsReleaseEach(plan, t, ids);
    ReleaseEachLaw(plan, t, ids);
    var u := ReleaseQuietly(plan, t, ids);
    ReleaseRestores(s0, s1, t, u, ids);
    var s' := SetOrderStatus(u, o, Cancelled);
    SameSums(u, s');
    RestoredTransport(s0, s0, u, s');
  }

  lemma {:induction false} CompensateAll<P>(e: Env<P>, cart: seq<CartItem>, inst: Instance<World<P>, Value>, n: nat,
                                            s0: State, s1: State, o: OrderId, ids: seq<ReservationId>)
    requires PlanOk(e.plan) && 2 <= n <= 6 && Stage(inst, s1, o, ids) && ReservedFrom(s0, s1, o, ids)
    ensures RolledBack(s0, CompensateBelow(CheckoutDefinition(e, cart), inst, n).world.stock, o, ids)
    ensures CompensateBelow(CheckoutDefinition(e, cart), inst, n).context == inst.context
    decreases n
  {
    var d := CheckoutDefinition(e, cart);
    if n > 2 {
      LateCompensate(e, cart, inst, n - 1, s1, o, ids);
      CompensateAll(e, cart, CompensateOne(d, inst, n - 1), n - 1, s0, s1, o, ids);
    } else {
      ReleasedAgain(e.plan, s0, s1, inst.world.stock, o, ids);
      assert d.steps[1] == CheckoutStep(e, cart, 1);
      var one := CompensateOne(d, inst, 1);
      assert one.world.stock == ReleaseQuietly(e.plan, inst.world.stock, ids);
      CancelledAfterOne(e, cart, one, o);
    }
  }

  /** From any late step on: if the run completes, stock is as reserved; otherwise
      everything is rolled back. */
  lemma {:induction false} LateRun<P>(e: Env<P>, cart: seq<CartItem>, now: nat -> int, deadline: int, inst: Instance<World<P>, Value>, i: nat,
                                      s0: State, s1: State, o: OrderId, ids: seq<ReservationId>)
    requires PlanOk(e.plan) && 2 <= i <= 6 && Stage(inst, s1, o, ids) && ReservedFrom(s0, s1, o, ids)
    ensures var r := RunFrom(CheckoutDefinition(e, cart), now, deadline, inst, i);
      && IdsAt(r.context, "reservationIds") == ids
      && if r.status == IsCompleted then OrderOnly(s1, r.world.stock, o) else RolledBack(s0, r.world.stock, o, ids)
    decreases 6 - i
  {
    var d := CheckoutDefinition(e, cart);
    if i < 6 {
      if now(i) > deadline {
        CompensateAll(e, cart, inst.(status := IsCompensating, error := Some("Workflow timed out")), i, s0, s1, o, ids);
      } else {
        LateForward(e, cart, inst, i, s1, o, ids);
        var fwd := Forward(d, inst, i);
        match Noticed(d, inst, i)
        case Some(err) =>
          var failed := StepFailure(fwd, i, err);
          assert Stage(failed, s1, o, ids);
          CompensateAll(e, cart, failed.(status := IsCompensating, error := Some(err.message)), i, s0, s1, o, ids);
        case None =>
          LateRun(e, cart, now, deadline, fwd, i + 1, s0, s1, o, ids);
      }
    }
  }

  /** The order once the checkout completed. */
  function Settled<P>(e: Env<P>, order: Order): Order {
    if e.autoSettle then order.(status := Confirmed) else order
  }

  lemma {:induction false} PaymentRetry<P>(e: Env<P>, cart: seq<CartItem>, i: nat, w: World<P>, c: Context, attempt: nat, max: int)
    requires PlanOk(e.plan) && 2 <= i < 5 && 1 <= attempt <= max
    ensures Retry(CheckoutDefinition(e, cart).steps[i], w, c, attempt, max).world.stock == w.stock
    decreases max - attempt
  {
    StepIs(e, cart, i, w, c, attempt);
    PaymentBody(e, cart, i, w, c, attempt);
    var a := CheckoutDefinition(e, cart).steps[i].execute(w, c, attempt);
    if a.Failed? && attempt < max {
      PaymentRetry(e, cart, i, a.world, c, attempt + 1, max);
    }
  }

  /** The payment steps leave the order alone, and the last step settles it. */
  lemma {:induction false} LateStatus<P>(e: Env<P>, cart: seq<CartItem>, now: nat -> int, deadline: int, inst: Instance<World<P>, Value>, i: nat,
                                         s1: State, o: OrderId, ids: seq<ReservationId>)
    requires PlanOk(e.plan) && 2 <= i <= 5 && Stage(inst, s1, o, ids)
    ensures var r := RunFrom(CheckoutDefinition(e, cart), now, deadline, inst, i);
      r.status == IsCompleted ==> o in r.world.stock.orders && r.world.stock.orders[o] == Settled(e, inst.world.stock.orders[o])
    decreases 5 - i
  {
    var d := CheckoutDefinition(e, cart);
    if now(i) <= deadline && Noticed(d, inst, i).None? {
      var fwd := Forward(d, inst, i);
      if i < 5 {
        PaymentRetry(e, cart, i, inst.world, inst.context, 1, MaxAttempts(d, i));
        LateForward(e, cart, inst, i, s1, o, ids);
        LateStatus(e, cart, now, deadline, fwd, i + 1, s1, o, ids);
      } else {
        StepIs(e, cart, 5, inst.world, inst.context, 1);
        ForwardOnce(d, inst, 5);
        assert RunFrom(d, now, deadline, inst, 5) == RunFrom(d, now, deadline, fwd, 6);
      }
    }
  }

  // ---------------------------------------------------------------- whole checkouts

  /** The context that checkout starts the saga with. */
  function InitialContext(user: nat, warehouse: WarehouseId): Context {
    map["userId" := Num(user), "warehouseId" := Num(warehouse), "reservationIds" := Ids([])]
  }

  function RunCheckout<P>(e: Env<P>, cart: seq<CartItem>, user: nat, warehouse: WarehouseId, startedAt: int, now: nat -> int, s: State, p: P)
    : Instance<World<P>, Value>
    requires PlanOk(e.plan)
  {
    Run(CheckoutDefinition(e, cart), startedAt, now, World(s, p), InitialContext(user, warehouse))
  }

  ghost predicate FirstLineReservable(s: State, warehouse: WarehouseId, cart: seq<CartItem>) {
    cart != [] && warehouse in s.warehouses && cart[0].quantity <= Available(s, warehouse, cart[0].variant)
  }

  /** Only order `o` was added. */
  function WithOrder(s: State, o: OrderId, order: Order): State {
    s.(orders := s.orders[o := order])
  }

  /** The saga once `create_draft_order` completed. */
  ghost predicate Drafted<P>(inst: Instance<World<P>, Value>, s: State, o: OrderId, user: nat, warehouse: WarehouseId) {
    && |inst.records| == 6 && inst.records[0].status == StepCompleted
    && inst.world.stock == WithOrder(s, o, Order(user, Pending))
    && NumAt(inst.context, "orderId") == Some(o)
    && NumAt(inst.context, "warehouseId") == Some(warehouse)
  }

  lemma CancelledAfterOne<P>(e: Env<P>, cart: seq<CartItem>, inst: Instance<World<P>, Value>, o: OrderId)
    requires PlanOk(e.plan) && |inst.records| == 6 && inst.records[0].status == StepCompleted
    requires NumAt(inst.context, "orderId") == Some(o) && o in inst.world.stock.orders
    ensures var r := CompensateBelow(CheckoutDefinition(e, cart), inst, 1);
      r.world.stock == SetOrderStatus(inst.world.stock, o, Cancelled) && r.context == inst.context
  {
    var d := CheckoutDefinition(e, cart);
    assert d.steps[0] == CheckoutStep(e, cart, 0);
    var one := CompensateOne(d, inst, 0);
    assert CompensateBelow(d, inst, 1) == CompensateBelow(d, one, 0);
  }

  /** `reserve_inventory`, once reached, completes. */
  ghost predicate Reserves<P>(e: Env<P>, cart: seq<CartItem>, warehouse: WarehouseId, s: State) {
    CartFits(s, warehouse, cart) && !e.timesOut(1, 1)
  }

  /** `reserve_inventory`, once reached, fails after it reserved its first line. */
  ghost predicate Strands<P>(e: Env<P>, cart: seq<CartItem>, warehouse: WarehouseId, s: State) {
    FirstLineReservable(s, warehouse, cart) && !Reserves(e, cart, warehouse, s)
  }

  /** Active reservations of the order `o` that nobody releases: the longest part of the cart
      that fits. */
  ghost predicate Stranded(s: State, s': State, o: OrderId, left: seq<ReservationId>, warehouse: WarehouseId, cart: seq<CartItem>) {
    && left != [] && NewReservations(s, s', Some(o), left) && Taken(s, s', left)
    && LinesReserved(s', left, warehouse, Some(o), cart)
    && forall k :: 0 <= k <= |cart| ==> (k <= |left| <==> CartFits(s, warehouse, cart[..k]))
  }

  /** A completed checkout reserved every line of the cart, and only that. */
  ghost predicate ReservedInFull(s: State, s': State, o: OrderId, ids: seq<ReservationId>, warehouse: WarehouseId, cart: seq<CartItem>) {
    && NewReservations(s, s', Some(o), ids) && Taken(s, s', ids)
    && |ids| == |cart| && LinesReserved(s', ids, warehouse, Some(o), cart)
  }

  /** Outcome of a checkout, by whether its order was drafted and `reserve_inventory` reached. */
  ghost predicate CheckoutOutcome<P>(e: Env<P>, cart: seq<CartItem>, user: nat, warehouse: WarehouseId, s: State,
                                     r: Instance<World<P>, Value>, drafted: bool, reached: bool)
  {
    var s', o, ids := r.world.stock, e.orderId, IdsAt(r.context, "reservationIds");
    && Inv(s')
    && (r.status == IsCompleted ==>
          && reached && Reserves(e, cart, warehouse, s)
          && ReservedInFull(s, s', o, ids, warehouse, cart)
          && o in s'.orders && s'.orders[o] == Order(user, if e.autoSettle then Confirmed else Pending))
    && (r.status != IsCompleted && reached && Reserves(e, cart, warehouse, s) ==> RolledBack(s, s', o, ids))
    && (r.status != IsCompleted && drafted ==> o in s'.orders && s'.orders[o].status == Cancelled)
    && (r.status != IsCompleted && !Restored(s, s') <==> reached && Strands(e, cart, warehouse, s))
    && (reached && Strands(e, cart, warehouse, s) ==>
          r.status == IsFailed && exists left :: Stranded(s, s', o, left, warehouse, cart))
  }

  lemma SameSums(s: State, s': State)
    requires Inv(s) && s'.rows == s.rows && s'.bins == s.bins && s'.ledger == s.ledger
    requires s'.reservations == s.reservations && s'.nextReservation == s.nextReservation
    ensures Inv(s') && Restored(s, s')
  {
    SameTables(s, s');
  }

  /** A step that is attempted once. */
  lemma ForwardOnce<W, V>(d: Definition<W, V>, inst: Instance<W, V>, i: nat)
    requires i < |d.steps| == |inst.records| && MaxAttempts(d, i) == 1
    ensures var a, fwd := d.steps[i].execute(inst.world, inst.context, 1), Forward(d, inst, i);
      && fwd.world == a.world
      && fwd.context == (if a.Done? then Patched(inst.context, a.patch) else inst.context)
      && |fwd.records| == |inst.records| && (a.Done? ==> fwd.records[i].status == StepCompleted)
      && (forall j :: 0 <= j < i ==> fwd.records[j] == inst.records[j])
      && (Noticed(d, inst, i).None? <==> a.Done? || !a.error.truthy)
  {
  }

  /** What the single attempt of `reserve_inventory` does. */
  lemma ReserveStep<P>(e: Env<P>, cart: seq<CartItem>, user: nat, warehouse: WarehouseId, s: State, inst: Instance<World<P>, Value>)
    requires PlanOk(e.plan) && Drafted(inst, s, e.orderId, user, warehouse)
    ensures var d := CheckoutDefinition(e, cart);
      var done := ReserveCart(e.plan, inst.world.stock, warehouse, Some(e.orderId), cart);
      var fwd := Forward(d, inst, 1);
      && fwd.world.stock == done.stock && |fwd.records| == 6
      && fwd.records[0] == inst.records[0]
      && NumAt(fwd.context, "orderId") == Some(e.orderId)
      && (Noticed(d, inst, 1).None? <==> done.complete && !e.timesOut(1, 1))
      && (Noticed(d, inst, 1).None? ==>
            fwd.records[1].status == StepCompleted && IdsAt(fwd.context, "reservationIds") == done.ids)
  {
    var d := CheckoutDefinition(e, cart);
    StepIs(e, cart, 1, inst.world, inst.context, 1);
    ForwardOnce(d, inst, 1);
    var done := ReserveCart(e.plan, inst.world.stock, warehouse, Some(e.orderId), cart);
    ReservedContext(inst.context, done.ids);
  }

  lemma StepIs<P>(e: Env<P>, cart: seq<CartItem>, i: nat, w: World<P>, c: Context, n: nat)
    requires PlanOk(e.plan) && i < 6
    ensures var d := CheckoutDefinition(e, cart);
      MaxAttempts(d, i) == (if 2 <= i <= 4 then 2 else 1) && d.steps[i].execute(w, c, n) == Timed(e, i, n, Execute(e, cart, i, w, c, n))
  {
    var d := CheckoutDefinition(e, cart);
    assert d.steps[i] == CheckoutStep(e, cart, i);
  }

  lemma ReservedContext(c: Context, ids: seq<nat>)
    ensures var c' := c + map["reservationIds" := Ids(ids)];
      NumAt(c', "orderId") == NumAt(c, "orderId") && IdsAt(c', "reservationIds") == ids
  {
  }

  /** Whether a cart fits does not depend on the orders. */
  lemma FitsAlike(s: State, s0: State, warehouse: WarehouseId, items: seq<CartItem>)
    requires Restored(s, s0) && s0.warehouses == s.warehouses
    ensures CartFits(s0, warehouse, items) <==> CartFits(s, warehouse, items)
  {
    if items != [] {
      assert forall i :: 0 <= i < |items| ==>
        Available(s0, warehouse, items[i].variant) == Available(s, warehouse, items[i].variant);
    }
  }

  /** What a failed `reserve_inventory` leaves, once the order is cancelled. */
  lemma StrandedBy(plan: Plan, s: State, s0: State, s': State, warehouse: WarehouseId, o: OrderId, cart: seq<CartItem>)
    requires PlanOk(plan) && Inv(s) && Inv(s0) && Restored(s, s0) && s0 == s.(orders := s0.orders)
    requires var done := ReserveCart(plan, s0, warehouse, Some(o), cart); done.ids != [] && s' == done.stock.(orders := s'.orders)
    ensures Stranded(s, s', o, ReserveCart(plan, s0, warehouse, Some(o), cart).ids, warehouse, cart)
  {
    var done := ReserveCart(plan, s0, warehouse, Some(o), cart);
    ReserveCartLaw(plan, s0, warehouse, Some(o), cart);
    ReserveCartExact(plan, s0, warehouse, Some(o), cart);
    LongestPart(plan, s, s0, warehouse, o, cart);
    TakenTransport(s, s0, done.stock, s', done.ids);
    ReservationsTransport(s, s0, done.stock, s', done.ids, o);
  }

  lemma LongestPart(plan: Plan, s: State, s0: State, warehouse: WarehouseId, o: OrderId, cart: seq<CartItem>)
    requires PlanOk(plan) && Inv(s0) && Restored(s, s0) && s0.warehouses == s.warehouses
    ensures var ids := ReserveCart(plan, s0, warehouse, Some(o), cart).ids;
      forall k :: 0 <= k <= |cart| ==> (k <= |ids| <==> CartFits(s, warehouse, cart[..k]))
  {
    var ids := ReserveCart(plan, s0, warehouse, Some(o), cart).ids;
    forall k | 0 <= k <= |cart| ensures k <= |ids| <==> CartFits(s, warehouse, cart[..k]) {
      LongestFittingPrefix(plan, s0, warehouse, Some(o), cart, k);
      FitsAlike(s, s0, warehouse, cart[..k]);
    }
  }

  lemma ReservationsTransport(s: State, s0: State, t: State, t': State, ids: seq<ReservationId>, o: OrderId)
    requires s0.reservations == s.reservations && s0.nextReservation == s.nextReservation
    requires t'.reservations == t.reservations && t'.nextReservation == t.nextReservation
    requires NewReservations(s0, t, Some(o), ids)
    ensures NewReservations(s, t', Some(o), ids)
  {
  }

  lemma TakenTransport(s: State, s0: State, t: State, t': State, ids: seq<ReservationId>)
    requires Restored(s, s0) && (forall id :: id in ids ==> id in t.reservations) && Taken(s0, t, ids)
    requires t'.rows == t.rows && t'.reservations == t.reservations
    ensures Taken(s, t', ids)
  {
    forall w: WarehouseId, v: VariantId
      ensures Available(t', w, v) == Available(s, w, v) - PromisedBy(t', ids, w, v)
      ensures Reserved(t', w, v) == Reserved(s, w, v) + PromisedBy(t', ids, w, v)
    {
      PromisedByFrame(t, t', ids, w, v);
      assert Available(t, w, v) == Available(s0, w, v) - PromisedBy(t, ids, w, v);
      assert Available(s0, w, v) == Available(s, w, v);
    }
  }

  lemma ReserveFails<P>(e: Env<P>, cart: seq<CartItem>, user: nat, warehouse: WarehouseId, s: State, inst: Instance<World<P>, Value>, error: Thrown)
    requires PlanOk(e.plan) && Inv(s) && e.orderId !in s.orders && Drafted(inst, s, e.orderId, user, warehouse)
    requires Noticed(CheckoutDefinition(e, cart), inst, 1).Some?
    ensures var d := CheckoutDefinition(e, cart);
      var r := FailAndCompensate(d, StepFailure(Forward(d, inst, 1), 1, error), 1, error.message, IsFailed);
      CheckoutOutcome(e, cart, user, warehouse, s, r, true, true)
  {
    var d := CheckoutDefinition(e, cart);
    var o := e.orderId;
    var s0 := inst.world.stock;
    SameSums(s, s0);
    ReserveStep(e, cart, user, warehouse, s, inst);
    ReserveCartLaw(e.plan, s0, warehouse, Some(o), cart);
    ReserveCartExact(e.plan, s0, warehouse, Some(o), cart);
    FitsAlike(s, s0, warehouse, cart);
    var done := ReserveCart(e.plan, s0, warehouse, Some(o), cart);
    CancelledAfterOne(e, cart, StepFailure(Forward(d, inst, 1), 1, error).(status := IsCompensating, error := Some(error.message)), o);
    var s' := SetOrderStatus(done.stock, o, Cancelled);
    SameSums(done.stock, s');
    TakenNotRestored(s0, done.stock, done.ids);
    RestoredTransport(s, s0, done.stock, s');
    assert FirstLineReservable(s, warehouse, cart) <==> FirstLineReservable(s0, warehouse, cart);
    if done.ids != [] {
      StrandedBy(e.plan, s, s0, s', warehouse, o, cart);
    }
  }

  lemma ReserveTimesOut<P>(e: Env<P>, cart: seq<CartItem>, user: nat, warehouse: WarehouseId, s: State, inst: Instance<World<P>, Value>)
    requires PlanOk(e.plan) && Inv(s) && e.orderId !in s.orders && Drafted(inst, s, e.orderId, user, warehouse)
    ensures var r := FailAndCompensate(CheckoutDefinition(e, cart), inst, 1, "Workflow timed out", IsTimedOut);
      CheckoutOutcome(e, cart, user, warehouse, s, r, true, false)
  {
    CancelledAfterOne(e, cart, inst.(status := IsCompensating, error := Some("Workflow timed out")), e.orderId);
    SameSums(s, SetOrderStatus(inst.world.stock, e.orderId, Cancelled));
  }

  /** What a completed `reserve_inventory` hands on. */
  lemma ReservedAll<P>(e: Env<P>, cart: seq<CartItem>, user: nat, warehouse: WarehouseId, s: State, inst: Instance<World<P>, Value>)
    requires PlanOk(e.plan) && Inv(s) && Drafted(inst, s, e.orderId, user, warehouse)
    requires Noticed(CheckoutDefinition(e, cart), inst, 1).None?
    ensures var fwd, s0 := Forward(CheckoutDefinition(e, cart), inst, 1), inst.world.stock;
      var s1, ids := fwd.world.stock, IdsAt(fwd.context, "reservationIds");
      && Restored(s, s0) && Reserves(e, cart, warehouse, s)
      && Stage(fwd, s1, e.orderId, ids) && ReservedFrom(s0, s1, e.orderId, ids) && s1.orders == s0.orders
      && |ids| == |cart| && LinesReserved(s1, ids, warehouse, Some(e.orderId), cart)
  {
    var s0 := inst.world.stock;
    SameSums(s, s0);
    ReserveStep(e, cart, user, warehouse, s, inst);
    ReserveCartLaw(e.plan, s0, warehouse, Some(e.orderId), cart);
    ReserveCartExact(e.plan, s0, warehouse, Some(e.orderId), cart);
    FitsAlike(s, s0, warehouse, cart);
  }

  /** `reserve_inventory` completes. */
  lemma ReserveSucceeds<P>(e: Env<P>, cart: seq<CartItem>, user: nat, warehouse: WarehouseId, now: nat -> int, deadline: int,
                           s: State, inst: Instance<World<P>, Value>)
    requires PlanOk(e.plan) && Inv(s) && e.orderId !in s.orders && Drafted(inst, s, e.orderId, user, warehouse)
    requires now(1) <= deadline && Noticed(CheckoutDefinition(e, cart), inst, 1).None?
    ensures CheckoutOutcome(e, cart, user, warehouse, s, RunFrom(CheckoutDefinition(e, cart), now, deadline, inst, 1), true, true)
  {
    var d := CheckoutDefinition(e, cart);
    var o, s0, fwd := e.orderId, inst.world.stock, Forward(d, inst, 1);
    ReservedAll(e, cart, user, warehouse, s, inst);
    var s1, ids, r := fwd.world.stock, IdsAt(fwd.context, "reservationIds"), RunFrom(d, now, deadline, fwd, 2);
    LateRun(e, cart, now, deadline, fwd, 2, s0, s1, o, ids);
    LateStatus(e, cart, now, deadline, fwd, 2, s1, o, ids);
    assert RunFrom(d, now, deadline, inst, 1) == r;
    LateOutcome(e, cart, user, warehouse, s, s0, r, s1, ids);
  }

  /** From `reserve_inventory` on. */
  lemma RunFromReserve<P>(e: Env<P>, cart: seq<CartItem>, user: nat, warehouse: WarehouseId, now: nat -> int, deadline: int,
                          s: State, inst: Instance<World<P>, Value>)
    requires PlanOk(e.plan) && Inv(s) && e.orderId !in s.orders && Drafted(inst, s, e.orderId, user, warehouse)
    ensures CheckoutOutcome(e, cart, user, warehouse, s, RunFrom(CheckoutDefinition(e, cart), now, deadline, inst, 1),
                            true, now(1) <= deadline)
  {
    if now(1) > deadline {
      ReserveTimesOut(e, cart, user, warehouse, s, inst);
    } else {
      match Noticed(CheckoutDefinition(e, cart), inst, 1)
      case Some(error) => ReserveFails(e, cart, user, warehouse, s, inst, error);
      case None => ReserveSucceeds(e, cart, user, warehouse, now, deadline, s, inst);
    }
  }

  lemma RestoredTransport(s: State, s0: State, t: State, t': State)
    requires Restored(s, s0) && Restored(t, t')
    ensures Restored(s, t') <==> Restored(s0, t)
  {
    if Restored(s, t') {
      forall w: WarehouseId, v: VariantId
        ensures Available(t, w, v) == Available(s0, w, v) && Reserved(t, w, v) == Reserved(s0, w, v)
      {
        assert Available(t', w, v) == Available(s, w, v);
      }
    }
    if Restored(s0, t) {
      forall w: WarehouseId, v: VariantId
        ensures Available(t', w, v) == Available(s, w, v) && Reserved(t', w, v) == Reserved(s, w, v)
      {
        assert Available(t, w, v) == Available(s0, w, v);
      }
    }
  }

  /** Outcome of a run that got past `reserve_inventory`. */
  lemma {:induction false} LateOutcome<P>(e: Env<P>, cart: seq<CartItem>, user: nat, warehouse: WarehouseId, s: State, s0: State,
                                          r: Instance<World<P>, Value>, s1: State, ids: seq<ReservationId>)
    requires Inv(s) && Restored(s, s0) && s0 == WithOrder(s, e.orderId, Order(user, Pending)) && e.orderId !in s.orders
    requires ReservedFrom(s0, s1, e.orderId, ids) && s1.orders == s0.orders && Reserves(e, cart, warehouse, s)
    requires |ids| == |cart| && LinesReserved(s1, ids, warehouse, Some(e.orderId), cart)
    requires IdsAt(r.context, "reservationIds") == ids
    requires if r.status == IsCompleted
      then OrderOnly(s1, r.world.stock, e.orderId) && r.world.stock.orders[e.orderId] == Settled(e, s1.orders[e.orderId])
      else RolledBack(s0, r.world.stock, e.orderId, ids)
    ensures CheckoutOutcome(e, cart, user, warehouse, s, r, true, true)
  {
    var s' := r.world.stock;
    if r.status == IsCompleted {
      SameTables(s1, s');
      TakenTransport(s, s0, s1, s', ids);
      ReservationsTransport(s, s0, s1, s', ids, e.orderId);
    } else {
      RolledBackTransport(s, s0, s', e.orderId, ids);
    }
  }

  lemma RolledBackTransport(s: State, s0: State, s': State, o: OrderId, ids: seq<ReservationId>)
    requires Restored(s, s0) && s0.reservations == s.reservations && RolledBack(s0, s', o, ids)
    ensures RolledBack(s, s', o, ids)
  {
    SameTables(s', s');
    RestoredTransport(s, s0, s', s');
  }

  lemma DraftedContext(user: nat, warehouse: WarehouseId, o: OrderId)
    ensures var c := InitialContext(user, warehouse);
      var c' := c + map["orderId" := Num(o)];
      && NumAt(c, "userId") == Some(user)
      && NumAt(c', "orderId") == Some(o) && NumAt(c', "warehouseId") == Some(warehouse)
  {
  }

  /** What the single attempt of `create_draft_order` does. */
  lemma DraftStep<P>(e: Env<P>, cart: seq<CartItem>, user: nat, warehouse: WarehouseId, s: State, p: P)
    requires PlanOk(e.plan)
    ensures var d := CheckoutDefinition(e, cart);
      var inst := Start(d, World(s, p), InitialContext(user, warehouse));
      var fwd := Forward(d, inst, 0);
      && (Noticed(d, inst, 0).None? <==> !e.orderTableFails && !e.timesOut(0, 1))
      && (Noticed(d, inst, 0).None? ==> Drafted(fwd, s, e.orderId, user, warehouse))
      && fwd.world.stock == s.(orders := fwd.world.stock.orders)
  {
    var d := CheckoutDefinition(e, cart);
    var inst := Start(d, World(s, p), InitialContext(user, warehouse));
    StepIs(e, cart, 0, inst.world, inst.context, 1);
    ForwardOnce(d, inst, 0);
    DraftedContext(user, warehouse, e.orderId);
  }

  /** The order is drafted: its table takes it, in time. */
  predicate Drafts<P>(e: Env<P>, startedAt: int, now: nat -> int) {
    now(0) <= startedAt + CHECKOUT_TIMEOUT_MS && !e.orderTableFails && !e.timesOut(0, 1)
  }

  predicate ReachesReserve<P>(e: Env<P>, startedAt: int, now: nat -> int) {
    Drafts(e, startedAt, now) && now(1) <= startedAt + CHECKOUT_TIMEOUT_MS
  }

  lemma {:induction false} DraftFails<P>(e: Env<P>, cart: seq<CartItem>, user: nat, warehouse: WarehouseId, startedAt: int, now: nat -> int, s: State, p: P)
    requires PlanOk(e.plan) && Inv(s) && !Drafts(e, startedAt, now)
    ensures CheckoutOutcome(e, cart, user, warehouse, s, RunCheckout(e, cart, user, warehouse, startedAt, now, s, p), false, false)
  {
    var d := CheckoutDefinition(e, cart);
    var inst := Start(d, World(s, p), InitialContext(user, warehouse));
    DraftStep(e, cart, user, warehouse, s, p);
    SameSums(s, s);
    SameSums(s, Forward(d, inst, 0).world.stock);
  }

  /** Every checkout, by conditions on its inputs. If it completes, every line of the cart is
      reserved, the reservations account for the change of stock, and the order is confirmed,
      or still pending when payments are not settled automatically. If it does not complete
      although `reserve_inventory` did, the order is cancelled, every reservation of it is
      released and all totals are as before. A checkout that does not complete loses stock
      exactly when `reserve_inventory` is reached, its first line can be reserved, and either
      the cart as a whole does not fit or the step times out: that step is not compensated,
      and the longest part of the cart that fits stays reserved. */
  lemma {:induction false} CheckoutLaw<P>(e: Env<P>, cart: seq<CartItem>, user: nat, warehouse: WarehouseId, startedAt: int, now: nat -> int, s: State, p: P)
    requires PlanOk(e.plan) && Inv(s) && e.orderId !in s.orders
    ensures CheckoutOutcome(e, cart, user, warehouse, s, RunCheckout(e, cart, user, warehouse, startedAt, now, s, p),
                            Drafts(e, startedAt, now), ReachesReserve(e, startedAt, now))
  {
    if !Drafts(e, startedAt, now) {
      DraftFails(e, cart, user, warehouse, startedAt, now, s, p);
    } else {
      var d := CheckoutDefinition(e, cart);
      var inst := Start(d, World(s, p), InitialContext(user, warehouse));
      DraftStep(e, cart, user, warehouse, s, p);
      RunFromReserve(e, cart, user, warehouse, now, startedAt + Timeout(d), s, Forward(d, inst, 0));
    }
  }

  /** Five units of variant 1 in one bin of warehouse 0, none of variant 2. */
  const SMALL_STOCK := State({0}, map[0 := 0], map[Slot(0, 1) := Row(0, 5, 0)], map[], 0, [], {}, {}, {}, map[])

  const TWO_LINES := [CartItem(1, 1), CartItem(2, 1)]

  lemma SmallStock()
    ensures Inv(SMALL_STOCK)
    ensures Available(SMALL_STOCK, 0, 1) == 5 && Available(SMALL_STOCK, 0, 2) == 0 && Reserved(SMALL_STOCK, 0, 1) == 0
  {
    var s := SMALL_STOCK;
    assert Counts(s.rows, 0, 1, OnHand) == map[][Slot(0, 1) := 5];
    TotalUpdate<Slot>(map[], Slot(0, 1), 5);
    assert Counts(s.rows, 0, 2, OnHand) == map[];
    forall w: WarehouseId, v: VariantId ensures Reserved(s, w, v) == Promised(s, w, v) {
      assert ActiveQuantities(s.reservations, w, v) == map[];
      if (w, v) == (0, 1) {
        assert Counts(s.rows, w, v, Held) == map[][Slot(0, 1) := 0];
        TotalUpdate<Slot>(map[], Slot(0, 1), 0);
      } else {
        assert Counts(s.rows, w, v, Held) == map[];
      }
    }
  }

  /** A concrete checkout that loses stock: the first of two lines can be reserved, the second
      cannot, and one unit of the first line's five stays reserved, by an active reservation of
      the order, although that order is cancelled. */
  lemma PartialReservationStays<P>(e: Env<P>, p: P)
    requires PlanOk(e.plan) && !e.orderTableFails && !e.timesOut(0, 1)
    ensures var r := RunCheckout(e, TWO_LINES, 7, 0, 0, (i: nat) => 0, SMALL_STOCK, p);
      var s' := r.world.stock;
      && r.status == IsFailed
      && e.orderId in s'.orders && s'.orders[e.orderId].status == Cancelled
      && Available(s', 0, 1) == 4 && Reserved(s', 0, 1) == 1
      && exists id :: id in s'.reservations && s'.reservations[id] == Reservation(0, 1, 1, Some(e.orderId), Active)
  {
    SmallStock();
    var s, now := SMALL_STOCK, (i: nat) => 0;
    SmallCartDoesNotFit();
    CheckoutLaw(e, TWO_LINES, 7, 0, 0, now, s, p);
    var s' := RunCheckout(e, TWO_LINES, 7, 0, 0, now, s, p).world.stock;
    var left :| Stranded(s, s', e.orderId, left, 0, TWO_LINES);
    FirstLineStranded(s', left, e.orderId);
  }

  lemma FirstLineStranded(s': State, left: seq<ReservationId>, o: OrderId)
    requires Stranded(SMALL_STOCK, s', o, left, 0, TWO_LINES)
    ensures Available(s', 0, 1) == 4 && Reserved(s', 0, 1) == 1
    ensures left[0] in s'.reservations && s'.reservations[left[0]] == Reservation(0, 1, 1, Some(o), Active)
  {
    SmallStock();
    SmallCartDoesNotFit();
    assert |left| == 1;
    assert left[1..] == [];
    assert PromisedBy(s', left, 0, 1) == 1;
  }

  lemma SmallCartDoesNotFit()
    ensures FirstLineReservable(SMALL_STOCK, 0, TWO_LINES)
    ensures !CartFits(SMALL_STOCK, 0, TWO_LINES) && !CartFits(SMALL_STOCK, 0, TWO_LINES[..2])
  {
    SmallStock();
    assert TWO_LINES[1].variant == 2;
    assert Demand(TWO_LINES[1..][1..], 2) == 0;
    assert Demand(TWO_LINES, 2) == 1;
    assert TWO_LINES[..2] == TWO_LINES;
  }
}
