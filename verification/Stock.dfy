/** The stock tables and the order table as values: every operation of the inventory
    service and the order cancellation is a function from one database state to the next.

    Rows are keyed by bin and variant, which the unique index on (bin_id, variant_id)
    justifies. The order in which a query lists rows is a parameter, `Plan`. */
module Stock {
  import opened Totals

  type WarehouseId = nat
  type BinId = nat
  type VariantId = nat
  type ReservationId = nat
  type OrderId = nat
  type Serial = nat
  type DocumentNumber = nat
  type Quantity = n: int | 0 < n witness 1

  datatype Slot = Slot(bin: BinId, variant: VariantId)

  datatype Row = Row(warehouse: WarehouseId, available: int, reserved: int)

  datatype ReservationStatus = Active | Released

  datatype Reservation = Reservation(
    warehouse: WarehouseId, variant: VariantId, quantity: Quantity,
    order: Option<OrderId>, status: ReservationStatus)

  datatype MovementType =
    Purchase | TransferIn | TransferOut | ReservationHold | ReservationRelease | Adjustment

  datatype Movement = Movement(
    warehouse: WarehouseId, variant: VariantId, kind: MovementType, quantity: int)

  datatype OrderStatus = Pending | Confirmed | Shipped | Delivered | Cancelled

  datatype Order = Order(customer: nat, status: OrderStatus)

  datatype State = State(
    warehouses: set<WarehouseId>,
    bins: map<BinId, WarehouseId>,
    rows: map<Slot, Row>,
    reservations: map<ReservationId, Reservation>,
    nextReservation: ReservationId,
    ledger: seq<Movement>,
    receipts: set<DocumentNumber>,
    transfers: set<DocumentNumber>,
    serials: set<Serial>,
    orders: map<OrderId, Order>)

  datatype Error = NotFound | Conflict | BadRequest | Forbidden

  // ---------------------------------------------------------------- quantities

  /** Which of a row's two counters an operation drains. */
  datatype Side = OnHand | Held

  function Other(side: Side): Side {
    if side == OnHand then Held else OnHand
  }

  function Count(row: Row, side: Side): int {
    if side == OnHand then row.available else row.reserved
  }

  /** `n` units leave counter `from` of the row and enter the other counter. */
  function Moved(row: Row, from: Side, n: int): Row {
    if from == OnHand
    then row.(available := row.available - n, reserved := row.reserved + n)
    else row.(available := row.available + n, reserved := row.reserved - n)
  }

  predicate Stores(rows: map<Slot, Row>, slot: Slot, w: WarehouseId, v: VariantId) {
    slot in rows && rows[slot].warehouse == w && slot.variant == v
  }

  /** One counter of the rows that store the variant. (The value given outside the domain
      is never used; it makes equal maps equal as expressions too.) */
  ghost function Counts(rows: map<Slot, Row>, w: WarehouseId, v: VariantId, side: Side): map<Slot, int> {
    map slot | slot in rows && Stores(rows, slot, w, v) ::
      if Stores(rows, slot, w, v) then Count(rows[slot], side) else 0
  }

  /** Stock of one variant in one warehouse, summed over its bins. */
  ghost function Sum(rows: map<Slot, Row>, w: WarehouseId, v: VariantId, side: Side): int {
    Total(Counts(rows, w, v, side))
  }

  ghost function Available(s: State, w: WarehouseId, v: VariantId): int {
    Sum(s.rows, w, v, OnHand)
  }

  ghost function Reserved(s: State, w: WarehouseId, v: VariantId): int {
    Sum(s.rows, w, v, Held)
  }

  predicate IsActiveFor(r: Reservation, w: WarehouseId, v: VariantId) {
    r.status == Active && r.warehouse == w && r.variant == v
  }

  ghost function ActiveQuantities(rs: map<ReservationId, Reservation>, w: WarehouseId, v: VariantId)
    : map<ReservationId, int>
  {
    map id | id in rs && IsActiveFor(rs[id], w, v) ::
      if id in rs && IsActiveFor(rs[id], w, v) then rs[id].quantity else 0
  }

  /** What the active reservations of one variant in one warehouse promise in total. */
  ghost function Promised(s: State, w: WarehouseId, v: VariantId): int {
    Total(ActiveQuantities(s.reservations, w, v))
  }

  /** The signed effect of one ledger entry on available stock. */
  function Effect(m: Movement, w: WarehouseId, v: VariantId): int {
    if m.warehouse != w || m.variant != v then 0 else
      match m.kind
      case Purchase => m.quantity
      case TransferIn => m.quantity
      case ReservationRelease => m.quantity
      case Adjustment => m.quantity
      case TransferOut => -m.quantity
      case ReservationHold => -m.quantity
  }

  function Replay(ledger: seq<Movement>, w: WarehouseId, v: VariantId): int {
    if ledger == [] then 0
    else Replay(ledger[..|ledger| - 1], w, v) + Effect(ledger[|ledger| - 1], w, v)
  }

  // ---------------------------------------------------------------- queries

  /** What `findRows` may return: each row of the variant in the warehouse once,
      by descending available quantity. */
  ghost predicate IsQueryResult(rows: map<Slot, Row>, w: WarehouseId, v: VariantId, found: seq<Slot>) {
    && Distinct(found)
    && (forall slot :: slot in found <==> Stores(rows, slot, w, v))
    && (forall i, j :: 0 <= i < j < |found| && found[i] in rows && found[j] in rows ==>
          rows[found[i]].available >= rows[found[j]].available)
  }

  /** The database's choice of row order. It may depend on the whole state, so it
      may differ between any two queries of a run. */
  type Plan = (State, WarehouseId, VariantId) -> seq<Slot>

  ghost predicate PlanOk(plan: Plan) {
    forall s: State, w: WarehouseId, v: VariantId :: IsQueryResult(s.rows, w, v, plan(s, w, v))
  }

  function CountAt(rows: map<Slot, Row>, slot: Slot, side: Side): int {
    if slot in rows then Count(rows[slot], side) else 0
  }

  function SumOf(rows: map<Slot, Row>, found: seq<Slot>, side: Side): int {
    if found == [] then 0
    else CountAt(rows, found[0], side) + SumOf(rows, found[1..], side)
  }

  // ---------------------------------------------------------------- operations

  /** The greedy loop of reserve and release: walk the rows, move from counter `from`
      as much as each row has until `remaining` is used up. */
  function Shift(rows: map<Slot, Row>, found: seq<Slot>, remaining: int, from: Side): map<Slot, Row>
    requires forall slot :: slot in found ==> slot in rows
    decreases |found|
  {
    if found == [] || remaining <= 0 then rows else
      var take := Min(Count(rows[found[0]], from), remaining);
      if take <= 0 then Shift(rows, found[1..], remaining, from)
      else Shift(rows[found[0] := Moved(rows[found[0]], from, take)], found[1..], remaining - take, from)
  }

  function Reserve(plan: Plan, s: State, w: WarehouseId, v: VariantId, q: Quantity, order: Option<OrderId>)
    : Result<(State, ReservationId), Error>
    requires PlanOk(plan)
  {
    if w !in s.warehouses then Err(NotFound) else
      var found := plan(s, w, v);
      if SumOf(s.rows, found, OnHand) < q then Err(Conflict) else
        var id := s.nextReservation;
        Ok((s.(rows := Shift(s.rows, found, q, OnHand),
               reservations := s.reservations[id := Reservation(w, v, q, order, Active)],
               nextReservation := id + 1,
               ledger := s.ledger + [Movement(w, v, ReservationHold, q)]), id))
  }

  function Release(plan: Plan, s: State, id: ReservationId): Result<State, Error>
    requires PlanOk(plan)
  {
    if id !in s.reservations then Err(NotFound)
    else if s.reservations[id].status != Active then Err(Conflict) else
      var r := s.reservations[id];
      Ok(s.(rows := Shift(s.rows, plan(s, r.warehouse, r.variant), r.quantity, Held),
            reservations := s.reservations[id := r.(status := Released)],
            ledger := s.ledger + [Movement(r.warehouse, r.variant, ReservationRelease, r.quantity)]))
  }

  /** Add `delta` to a row's available quantity, creating the row when it is missing. */
  function Put(rows: map<Slot, Row>, slot: Slot, w: WarehouseId, delta: int): map<Slot, Row> {
    if slot in rows
    then rows[slot := rows[slot].(available := rows[slot].available + delta)]
    else rows[slot := Row(w, delta, 0)]
  }

  function OnHandAt(rows: map<Slot, Row>, slot: Slot): int {
    if slot in rows then rows[slot].available else 0
  }

  predicate BinIn(s: State, bin: BinId, w: WarehouseId) {
    bin in s.bins && s.bins[bin] == w
  }

  function Adjust(s: State, w: WarehouseId, slot: Slot, delta: int): Result<State, Error> {
    if w !in s.warehouses then Err(NotFound)
    else if !BinIn(s, slot.bin, w) then Err(BadRequest)
    else if OnHandAt(s.rows, slot) + delta < 0 then Err(Conflict)
    else Ok(s.(rows := Put(s.rows, slot, w, delta),
               ledger := s.ledger + [Movement(w, slot.variant, Adjustment, delta)]))
  }

  datatype ReceiptItem = ReceiptItem(slot: Slot, quantity: Quantity, serialNumbers: seq<Serial>)

  /** Serial numbers are registered one by one; a known one aborts the transaction. */
  function Register(known: set<Serial>, serialNumbers: seq<Serial>): Result<set<Serial>, Error>
    decreases |serialNumbers|
  {
    if serialNumbers == [] then Ok(known)
    else if serialNumbers[0] in known then Err(Conflict)
    else Register(known + {serialNumbers[0]}, serialNumbers[1..])
  }

  function ReceiveItem(s: State, w: WarehouseId, item: ReceiptItem): Result<State, Error> {
    if !BinIn(s, item.slot.bin, w) then Err(BadRequest) else
      match Register(s.serials, item.serialNumbers)
      case Err(e) => Err(e)
      case Ok(known) =>
        Ok(s.(rows := Put(s.rows, item.slot, w, item.quantity),
              ledger := s.ledger + [Movement(w, item.slot.variant, Purchase, item.quantity)],
              serials := known))
  }

  function ReceiveItems(s: State, w: WarehouseId, items: seq<ReceiptItem>): Result<State, Error>
    decreases |items|
  {
    if items == [] then Ok(s) else
      match ReceiveItem(s, w, items[0])
      case Err(e) => Err(e)
      case Ok(s') => ReceiveItems(s', w, items[1..])
  }

  function Receive(s: State, number: DocumentNumber, w: WarehouseId, items: seq<ReceiptItem>): Result<State, Error> {
    if number in s.receipts then Err(Conflict)
    else if items == [] then Err(BadRequest)
    else if w !in s.warehouses then Err(NotFound)
    else ReceiveItems(s.(receipts := s.receipts + {number}), w, items)
  }

  datatype TransferItem = TransferItem(variant: VariantId, quantity: Quantity, fromBin: BinId, toBin: BinId)

  function TransferOne(s: State, source: WarehouseId, target: WarehouseId, item: TransferItem): Result<State, Error> {
    var fromSlot := Slot(item.fromBin, item.variant);
    var toSlot := Slot(item.toBin, item.variant);
    if fromSlot !in s.rows || s.rows[fromSlot].available < item.quantity then Err(Conflict)
    else if s.rows[fromSlot].warehouse != source then Err(BadRequest)
    else if !BinIn(s, item.toBin, target) then Err(BadRequest)
    else Ok(s.(rows := Put(Put(s.rows, fromSlot, source, 0 - item.quantity), toSlot, target, item.quantity),
               ledger := s.ledger + [Movement(source, item.variant, TransferOut, item.quantity),
                                     Movement(target, item.variant, TransferIn, item.quantity)]))
  }

  function TransferItems(s: State, source: WarehouseId, target: WarehouseId, items: seq<TransferItem>): Result<State, Error>
    decreases |items|
  {
    if items == [] then Ok(s) else
      match TransferOne(s, source, target, items[0])
      case Err(e) => Err(e)
      case Ok(s') => TransferItems(s', source, target, items[1..])
  }

  function Transfer(s: State, number: DocumentNumber, source: WarehouseId, target: WarehouseId, items: seq<TransferItem>)
    : Result<State, Error>
  {
    if source == target then Err(BadRequest)
    else if number in s.transfers then Err(Conflict)
    else if source !in s.warehouses || target !in s.warehouses then Err(NotFound)
    else TransferItems(s.(transfers := s.transfers + {number}), source, target, items)
  }

  /** Release a list of reservations in turn, stopping at the first one that fails. */
  function ReleaseEach(plan: Plan, s: State, ids: seq<ReservationId>): Result<State, Error>
    requires PlanOk(plan)
    decreases |ids|
  {
    if ids == [] then Ok(s) else
      match Release(plan, s, ids[0])
      case Err(e) => Err(e)
      case Ok(s') => ReleaseEach(plan, s', ids[1..])
  }

  predicate Cancellable(status: OrderStatus) {
    status == Pending || status == Confirmed
  }

  function SetOrderStatus(s: State, order: OrderId, status: OrderStatus): State
    requires order in s.orders
  {
    s.(orders := s.orders[order := s.orders[order].(status := status)])
  }

  /** What the query for an order's active reservations may return. */
  ghost predicate IsActiveList(s: State, order: OrderId, ids: seq<ReservationId>) {
    && Distinct(ids)
    && (forall id :: id in ids <==>
          id in s.reservations && s.reservations[id].status == Active && s.reservations[id].order == Some(order))
  }

  function CancelOrder(plan: Plan, s: State, order: OrderId, caller: nat, isAdmin: bool, ids: seq<ReservationId>)
    : Result<State, Error>
    requires PlanOk(plan)
  {
    if order !in s.orders then Err(NotFound)
    else if !isAdmin && s.orders[order].customer != caller then Err(Forbidden)
    else if !Cancellable(s.orders[order].status) then Err(Conflict)
    else ReleaseEach(plan, SetOrderStatus(s, order, Cancelled), ids)
  }
}
