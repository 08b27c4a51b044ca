/** The inventory service and the order cancellation as they update the database in
    place. Each method is proved to take the step that module Stock defines and to keep
    the invariant of module StockLaws; a rejected call changes nothing. */
module Inventory {
  import opened Totals
  import opened Stock
  import opened StockLaws

  class InventoryService {
    const plan: Plan
    var warehouses: set<WarehouseId>
    var bins: map<BinId, WarehouseId>
    var rows: map<Slot, Row>
    var reservations: map<ReservationId, Reservation>
    var nextReservation: ReservationId
    var ledger: seq<Movement>
    var receipts: set<DocumentNumber>
    var transfers: set<DocumentNumber>
    var serials: set<Serial>
    var orders: map<OrderId, Order>

    function Model(): State
      reads this
    {
      State(warehouses, bins, rows, reservations, nextReservation, ledger, receipts, transfers, serials, orders)
    }

    ghost predicate Valid()
      reads this
    {
      PlanOk(plan) && Inv(Model())
    }

    /** A database with warehouses, bins and orders but no stock yet. */
    constructor (plan: Plan, warehouses: set<WarehouseId>, bins: map<BinId, WarehouseId>, orders: map<OrderId, Order>)
      requires PlanOk(plan)
      ensures Valid()
      ensures Model() == State(warehouses, bins, map[], map[], 0, [], {}, {}, {}, orders)
    {
      this.plan := plan;
      this.warehouses, this.bins, this.orders := warehouses, bins, orders;
      rows, reservations, nextReservation, ledger := map[], map[], 0, [];
      receipts, transfers, serials := {}, {}, {};
      new;
      forall w: WarehouseId, v: VariantId ensures Reserved(Model(), w, v) == Promised(Model(), w, v) {
        assert Counts(rows, w, v, Held) == map[];
        assert ActiveQuantities(reservations, w, v) == map[];
      }
    }

    /** Adds up one counter over the rows a query found. */
    method SumRows(found: seq<Slot>, side: Side) returns (sum: int)
      requires forall slot :: slot in found ==> slot in rows
      ensures sum == SumOf(rows, found, side)
    {
      sum := 0;
      for i := 0 to |found|
        invariant sum + SumOf(rows, found[i..], side) == SumOf(rows, found, side)
      {
        assert found[i..][1..] == found[i + 1..];
        sum := sum + Count(rows[found[i]], side);
      }
    }

    /** The transaction of reserve and release: takes are computed from the rows as they
        were read, each update is a decrement and an increment on the row. */
    method MoveUnits(found: seq<Slot>, q: Quantity, from: Side) returns (updated: map<Slot, Row>)
      requires Distinct(found) && forall slot :: slot in found ==> slot in rows
      ensures updated == Shift(rows, found, q, from)
    {
      var remaining: int := q;
      updated := rows;
      for i := 0 to |found|
        invariant forall slot :: slot in found ==> slot in updated
        invariant forall slot :: slot in found[i..] ==> updated[slot] == rows[slot]
        invariant Shift(updated, found[i..], remaining, from) == Shift(rows, found, q, from)
      {
        assert found[i..][1..] == found[i + 1..];
        if remaining <= 0 {
          break;
        }
        var take := Min(Count(rows[found[i]], from), remaining);
        if take <= 0 {
          continue;
        }
        updated := updated[found[i] := Moved(updated[found[i]], from, take)];
        remaining := remaining - take;
      }
    }

    method Reserve(w: WarehouseId, v: VariantId, q: Quantity, order: Option<OrderId>)
      returns (r: Result<ReservationId, Error>)
      requires Valid()
      modifies this
      ensures Valid()
      ensures match Stock.Reserve(plan, old(Model()), w, v, q, order)
              case Ok(next) => r == Ok(next.1) && Model() == next.0
              case Err(e) => r == Err(e) && Model() == old(Model())
    {
      StepsKeepInv(plan, Model(), DoReserve(w, v, q, order));
      if w !in warehouses {
        return Err(NotFound);
      }
      var found := plan(Model(), w, v);
      var available := SumRows(found, OnHand);
      if available < q {
        return Err(Conflict);
      }
      var updated := MoveUnits(found, q, OnHand);
      var id := nextReservation;
      rows := updated;
      reservations := reservations[id := Reservation(w, v, q, order, Active)];
      nextReservation := id + 1;
      ledger := ledger + [Movement(w, v, ReservationHold, q)];
      return Ok(id);
    }

    method ReleaseReservation(id: ReservationId) returns (r: Result<(), Error>)
      requires Valid()
      modifies this
      ensures Valid()
      ensures match Stock.Release(plan, old(Model()), id)
              case Ok(next) => r == Ok(()) && Model() == next
              case Err(e) => r == Err(e) && Model() == old(Model())
    {
      ReleaseLaw(plan, Model(), id);
      if id !in reservations {
        return Err(NotFound);
      }
      var reservation := reservations[id];
      if reservation.status != Active {
        return Err(Conflict);
      }
      var found := plan(Model(), reservation.warehouse, reservation.variant);
      var updated := MoveUnits(found, reservation.quantity, Held);
      rows := updated;
      reservations := reservations[id := reservation.(status := Released)];
      ledger := ledger + [Movement(reservation.warehouse, reservation.variant, ReservationRelease, reservation.quantity)];
      return Ok(());
    }

    /** The service's last rejection, a negative delta without a row, is unreachable: such
        a delta is already rejected as making the quantity negative. */
    method Adjust(w: WarehouseId, slot: Slot, delta: int) returns (r: Result<int, Error>)
      requires Valid()
      modifies this
      ensures Valid()
      ensures match Stock.Adjust(old(Model()), w, slot, delta)
              case Ok(next) => Model() == next && slot in rows && r == Ok(rows[slot].available)
              case Err(e) => r == Err(e) && Model() == old(Model())
    {
      AdjustLaw(Model(), w, slot, delta);
      if w !in warehouses {
        return Err(NotFound);
      }
      if slot.bin !in bins || bins[slot.bin] != w {
        return Err(BadRequest);
      }
      var nextAvailable := (if slot in rows then rows[slot].available else 0) + delta;
      if nextAvailable < 0 {
        return Err(Conflict);
      }
      if slot !in rows {
        if delta < 0 {
          assert false;
        }
        rows := rows[slot := Row(w, delta, 0)];
      } else {
        rows := rows[slot := rows[slot].(available := rows[slot].available + delta)];
      }
      ledger := ledger + [Movement(w, slot.variant, Adjustment, delta)];
      return Ok(rows[slot].available);
    }

    method RegisterSerials(known: set<Serial>, serialNumbers: seq<Serial>) returns (r: Result<set<Serial>, Error>)
      ensures r == Register(known, serialNumbers)
    {
      var all := known;
      for i := 0 to |serialNumbers|
        invariant Register(all, serialNumbers[i..]) == Register(known, serialNumbers)
      {
        assert serialNumbers[i..][1..] == serialNumbers[i + 1..];
        if serialNumbers[i] in all {
          return Err(Conflict);
        }
        all := all + {serialNumbers[i]};
      }
      return Ok(all);
    }

    /** The loop works on a copy of the tables that is stored only if it ends, which is
        the database transaction: any rejected item leaves all tables as they were. */
    method CreateGoodsReceipt(number: DocumentNumber, w: WarehouseId, items: seq<ReceiptItem>)
      returns (r: Result<(), Error>)
      requires Valid()
      modifies this
      ensures Valid()
      ensures match Stock.Receive(old(Model()), number, w, items)
              case Ok(next) => r == Ok(()) && Model() == next
              case Err(e) => r == Err(e) && Model() == old(Model())
    {
      ReceiveLaw(Model(), number, w, items);
      if number in receipts {
        return Err(Conflict);
      }
      if |items| == 0 {
        return Err(BadRequest);
      }
      if w !in warehouses {
        return Err(NotFound);
      }
      var tx := Model().(receipts := receipts + {number});
      ghost var start := tx;
      for i := 0 to |items|
        invariant Model() == old(Model())
        invariant tx == start.(rows := tx.rows, ledger := tx.ledger, serials := tx.serials)
        invariant ReceiveItems(tx, w, items[i..]) == ReceiveItems(start, w, items)
      {
        assert items[i..][1..] == items[i + 1..];
        var item := items[i];
        if item.slot.bin !in bins || bins[item.slot.bin] != w {
          return Err(BadRequest);
        }
        var known := RegisterSerials(tx.serials, item.serialNumbers);
        if known.Err? {
          return Err(known.error);
        }
        tx := tx.(rows := Put(tx.rows, item.slot, w, item.quantity),
                  ledger := tx.ledger + [Movement(w, item.slot.variant, Purchase, item.quantity)],
                  serials := known.value);
      }
      receipts, rows, ledger, serials := tx.receipts, tx.rows, tx.ledger, tx.serials;
      return Ok(());
    }

    method CreateTransfer(number: DocumentNumber, source: WarehouseId, target: WarehouseId, items: seq<TransferItem>)
      returns (r: Result<(), Error>)
      requires Valid()
      modifies this
      ensures Valid()
      ensures match Stock.Transfer(old(Model()), number, source, target, items)
              case Ok(next) => r == Ok(()) && Model() == next
              case Err(e) => r == Err(e) && Model() == old(Model())
    {
      TransferLaw(Model(), number, source, target, items);
      if source == target {
        return Err(BadRequest);
      }
      if number in transfers {
        return Err(Conflict);
      }
      if source !in warehouses || target !in warehouses {
        return Err(NotFound);
      }
      var tx := Model().(transfers := transfers + {number});
      ghost var start := tx;
      for i := 0 to |items|
        invariant tx == start.(rows := tx.rows, ledger := tx.ledger)
        invariant TransferItems(tx, source, target, items[i..]) == TransferItems(start, source, target, items)
      {
        assert items[i..][1..] == items[i + 1..];
        var item := items[i];
        var fromSlot := Slot(item.fromBin, item.variant);
        if fromSlot !in tx.rows || tx.rows[fromSlot].available < item.quantity {
          return Err(Conflict);
        }
        if tx.rows[fromSlot].warehouse != source {
          return Err(BadRequest);
        }
        if item.toBin !in bins || bins[item.toBin] != target {
          return Err(BadRequest);
        }
        var toSlot := Slot(item.toBin, item.variant);
        var drained := tx.rows[fromSlot := tx.rows[fromSlot].(available := tx.rows[fromSlot].available - item.quantity)];
        tx := tx.(rows := Put(drained, toSlot, target, item.quantity),
                  ledger := tx.ledger + [Movement(source, item.variant, TransferOut, item.quantity),
                                         Movement(target, item.variant, TransferIn, item.quantity)]);
      }
      transfers, rows, ledger := tx.transfers, tx.rows, tx.ledger;
      return Ok(());
    }

    /** Order cancellation: the status is written first, then the order's active
        reservations are released one by one; `ids` is what the query returned. */
    method CancelOrder(order: OrderId, caller: nat, isAdmin: bool, ids: seq<ReservationId>)
      returns (r: Result<(), Error>)
      requires Valid() && IsActiveList(Model(), order, ids)
      modifies this
      ensures Valid()
      ensures match Stock.CancelOrder(plan, old(Model()), order, caller, isAdmin, ids)
              case Ok(next) => r == Ok(()) && Model() == next && IsActiveList(Model(), order, [])
              case Err(e) => r == Err(e) && Model() == old(Model())
    {
      CancelOrderLaw(plan, Model(), order, caller, isAdmin, ids);
      if order !in orders {
        return Err(NotFound);
      }
      if !isAdmin && orders[order].customer != caller {
        return Err(Forbidden);
      }
      if !Cancellable(orders[order].status) {
        return Err(Conflict);
      }
      SameTables(Model(), SetOrderStatus(Model(), order, Cancelled));
      orders := orders[order := orders[order].(status := Cancelled)];
      ghost var start := Model();
      for i := 0 to |ids|
        invariant Valid()
        invariant ReleaseEach(plan, Model(), ids[i..]) == ReleaseEach(plan, start, ids)
      {
        assert ids[i..][1..] == ids[i + 1..];
        var released := ReleaseReservation(ids[i]);
        if released.Err? {
          assert false;
        }
      }
      return Ok(());
    }
  }
}
