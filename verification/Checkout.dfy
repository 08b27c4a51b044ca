/** The checkout saga over the stock and order tables: its six steps and compensators, and
    what a checkout that does not complete leaves behind. Payments are an arbitrary state
    `P` with arbitrary outcomes, since no stock property depends on them. */
module Checkout {
  import opened Totals
  import opened Stock
  import opened Saga

  datatype World<P> = World(stock: State, payments: P)

  datatype Value = Num(n: nat) | Ids(ids: seq<nat>)

  type Context = map<string, Value>

  datatype CartItem = CartItem(variant: VariantId, quantity: Quantity)

  /** How far the confirmation gets before it fails, if it does. */
  datatype Confirmation = ConfirmsNothing | ConfirmsOrderOnly | ConfirmsAll

  /** Everything the outside decides: row order, the new order's id, the payment provider,
      and which attempts exceed their time limit. A timed-out attempt keeps its effects. */
  datatype Env<!P> = Env(
    plan: Plan,
    orderId: OrderId,
    orderTableFails: bool,
    autoSettle: bool,
    createPayment: (P, nat) -> (P, Option<nat>),
    authorize: (P, nat, nat) -> (P, bool),
    capture: (P, nat, nat) -> (P, bool),
    voidOrCancel: (P, nat) -> P,
    confirmation: nat -> Confirmation,
    timesOut: (nat, nat) -> bool)

  function NumAt(c: Context, key: string): Option<nat> {
    if key in c && c[key].Num? then Some(c[key].n) else None
  }

  function IdsAt(c: Context, key: string): seq<nat> {
    if key in c && c[key].Ids? then c[key].ids else []
  }

  function Throw<P>(w: World<P>, message: string): Attempt<World<P>, Value> {
    Failed(w, Thrown(message, true))
  }

  /** `withTimeout`: a slow attempt is rejected but not cancelled. */
  function Timed<P>(e: Env<P>, step: nat, attempt: nat, a: Attempt<World<P>, Value>): Attempt<World<P>, Value> {
    if a.Done? && e.timesOut(step, attempt) then Failed(a.world, Thrown("Step timed out", true)) else a
  }

  // ---------------------------------------------------------------- step bodies

  function CreateDraftOrder<P>(e: Env<P>, w: World<P>, c: Context): Attempt<World<P>, Value> {
    if e.orderTableFails then Throw(w, "order table") else
      var customer := if NumAt(c, "userId").Some? then NumAt(c, "userId").value else 0;
      Done(w.(stock := w.stock.(orders := w.stock.orders[e.orderId := Order(customer, Pending)])),
           Some(map["orderId" := Num(e.orderId)]))
  }

  function CancelDraftOrder<P>(w: World<P>, c: Context): Undo<World<P>> {
    var order := NumAt(c, "orderId");
    if order.None? then Undone(w)
    else if order.value !in w.stock.orders then Stuck(w, Thrown("order not found", true))
    else Undone(w.(stock := SetOrderStatus(w.stock, order.value, Cancelled)))
  }

  /** Reservations made so far, and whether the loop over the cart reached its end. */
  datatype Reserving = Reserving(stock: State, ids: seq<ReservationId>, complete: bool)

  function ReserveCart(plan: Plan, s: State, w: WarehouseId, order: Option<OrderId>, items: seq<CartItem>): Reserving
    requires PlanOk(plan)
    decreases |items|
  {
    if items == [] then Reserving(s, [], true) else
      match Reserve(plan, s, w, items[0].variant, items[0].quantity, order)
      case Err(_) => Reserving(s, [], false)
      case Ok((s', id)) =>
        var rest := ReserveCart(plan, s', w, order, items[1..]);
        rest.(ids := [id] + rest.ids)
  }

  function ReserveInventory<P>(e: Env<P>, cart: seq<CartItem>, w: World<P>, c: Context): Attempt<World<P>, Value>
    requires PlanOk(e.plan)
  {
    var warehouse := if NumAt(c, "warehouseId").Some? then NumAt(c, "warehouseId").value else 0;
    var done := ReserveCart(e.plan, w.stock, warehouse, NumAt(c, "orderId"), cart);
    if done.complete then Done(w.(stock := done.stock), Some(map["reservationIds" := Ids(done.ids)]))
    else Throw(w.(stock := done.stock), "Insufficient stock")
  }

  /** The compensator releases each reservation and ignores the ones that fail. */
  function ReleaseQuietly(plan: Plan, s: State, ids: seq<ReservationId>): State
    requires PlanOk(plan)
    decreases |ids|
  {
    if ids == [] then s else
      var r := Release(plan, s, ids[0]);
      ReleaseQuietly(plan, if r.Ok? then r.value else s, ids[1..])
  }

  function ReleaseInventory<P>(e: Env<P>, w: World<P>, c: Context): Undo<World<P>>
    requires PlanOk(e.plan)
  {
    Undone(w.(stock := ReleaseQuietly(e.plan, w.stock, IdsAt(c, "reservationIds"))))
  }

  function CreatePayment<P>(e: Env<P>, w: World<P>, c: Context, n: nat): Attempt<World<P>, Value> {
    var (p, id) := e.createPayment(w.payments, n);
    var w' := w.(payments := p);
    if id.None? then Throw(w', "payment declined") else Done(w', Some(map["paymentId" := Num(id.value)]))
  }

  function CancelPayment<P>(e: Env<P>, w: World<P>, c: Context): Undo<World<P>> {
    var id := NumAt(c, "paymentId");
    if id.None? then Undone(w) else Undone(w.(payments := e.voidOrCancel(w.payments, id.value)))
  }

  function Settle<P>(e: Env<P>, call: (P, nat, nat) -> (P, bool), w: World<P>, c: Context, n: nat): Attempt<World<P>, Value> {
    if !e.autoSettle then Done(w, Some(map[])) else
      var id := NumAt(c, "paymentId");
      var (p, ok) := call(w.payments, if id.Some? then id.value else 0, n);
      if ok then Done(w.(payments := p), Some(map[])) else Throw(w.(payments := p), "payment failed")
  }

  function UndoSettle<P>(e: Env<P>, w: World<P>, c: Context): Undo<World<P>> {
    if !e.autoSettle then Undone(w) else CancelPayment(e, w, c)
  }

  function ConfirmOrder<P>(e: Env<P>, w: World<P>, c: Context, n: nat): Attempt<World<P>, Value> {
    if !e.autoSettle then Done(w, Some(map[]))
    else if IdsAt(c, "reservationIds") == [] then Throw(w, "Inventory reservation required before confirmation") else
      var order := NumAt(c, "orderId");
      if order.None? || order.value !in w.stock.orders || e.confirmation(n) == ConfirmsNothing
      then Throw(w, "order table") else
        var w' := w.(stock := SetOrderStatus(w.stock, order.value, Confirmed));
        if e.confirmation(n) == ConfirmsAll then Done(w', Some(map[])) else Throw(w', "cart or risk score")
  }

  function UndoConfirm<P>(e: Env<P>, w: World<P>, c: Context): Undo<World<P>> {
    if !e.autoSettle then Undone(w) else CancelDraftOrder(w, c)
  }

  // ---------------------------------------------------------------- the definition

  const CHECKOUT_TIMEOUT_MS := 120_000

  const STEP_NAMES := [
    "create_draft_order", "reserve_inventory", "create_payment", "authorize_payment", "capture_payment", "confirm_order"]

  function Execute<P>(e: Env<P>, cart: seq<CartItem>, i: nat, w: World<P>, c: Context, n: nat): Attempt<World<P>, Value>
    requires PlanOk(e.plan) && i < 6
  {
    if i == 0 then CreateDraftOrder(e, w, c)
    else if i == 1 then ReserveInventory(e, cart, w, c)
    else if i == 2 then CreatePayment(e, w, c, n)
    else if i == 3 then Settle(e, e.authorize, w, c, n)
    else if i == 4 then Settle(e, e.capture, w, c, n)
    else ConfirmOrder(e, w, c, n)
  }

  function Compensate<P>(e: Env<P>, i: nat, w: World<P>, c: Context): Undo<World<P>>
    requires PlanOk(e.plan) && i < 6
  {
    if i == 0 then CancelDraftOrder(w, c)
    else if i == 1 then ReleaseInventory(e, w, c)
    else if i == 2 then CancelPayment(e, w, c)
    else if i == 3 || i == 4 then UndoSettle(e, w, c)
    else UndoConfirm(e, w, c)
  }

  /** Only the payment steps may be attempted twice. */
  function CheckoutStep<P>(e: Env<P>, cart: seq<CartItem>, i: nat): Step<World<P>, Value>
    requires PlanOk(e.plan) && i < 6
  {
    Step(STEP_NAMES[i],
         if 2 <= i <= 4 then Some(2) else None,
         (w: World<P>, c, n) requires PlanOk(e.plan) => Timed(e, i, n, Execute(e, cart, i, w, c, n)),
         Some((w, c) requires PlanOk(e.plan) => Compensate(e, i, w, c)))
  }

  function CheckoutDefinition<P>(e: Env<P>, cart: seq<CartItem>): (d: Definition<World<P>, Value>)
    requires PlanOk(e.plan)
    ensures |d.steps| == 6
  {
    Definition(seq(6, i requires 0 <= i < 6 && PlanOk(e.plan) => CheckoutStep(e, cart, i)), Some(CHECKOUT_TIMEOUT_MS), Some(1))
  }
}
