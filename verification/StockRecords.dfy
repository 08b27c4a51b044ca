/** What every stock operation writes, table by table, how it is refused, and that no document
    is ever booked twice. */
module StockRecords {
  import opened Totals
  import opened Stock
  import opened StockLaws
  import opened StockDocuments

  function HeldAt(rows: map<Slot, Row>, slot: Slot): int {
    if slot in rows then rows[slot].reserved else 0
  }

  // ---------------------------------------------------------------- reserve and release

  /** Rows are used up in the order listed: one that is touched follows only emptied ones. */
  ghost predicate Greedy(rows: map<Slot, Row>, rows': map<Slot, Row>, found: seq<Slot>, from: Side)
    requires forall slot :: slot in found ==> slot in rows && slot in rows'
  {
    forall i, j :: 0 <= i < j < |found| && rows'[found[j]] != rows[found[j]] ==> Count(rows'[found[i]], from) == 0
  }

  lemma {:induction false} ShiftGreedy(rows: map<Slot, Row>, found: seq<Slot>, q: int, from: Side)
    requires Distinct(found) && NonNegative(rows) && forall slot :: slot in found ==> slot in rows
    ensures var rows' := Shift(rows, found, q, from);
      && rows'.Keys == rows.Keys
      && (forall slot :: slot in rows && slot !in found ==> rows'[slot] == rows[slot])
      && Greedy(rows, rows', found, from)
    decreases |found|
  {
    if found != [] && q > 0 {
      var head, rest := found[0], found[1..];
      assert head !in rest && forall slot :: slot in rest ==> slot in found;
      var take := Min(Count(rows[head], from), q);
      var rows1 := if take <= 0 then rows else rows[head := Moved(rows[head], from, take)];
      ShiftGreedy(rows1, rest, q - (if take <= 0 then 0 else take), from);
      var rows' := Shift(rows, found, q, from);
      assert rows'[head] == rows1[head];
      forall i, j | 0 <= i < j < |found| && rows'[found[j]] != rows[found[j]] ensures Count(rows'[found[i]], from) == 0 {
        assert found[j] == rest[j - 1];
        if i > 0 {
          assert found[i] == rest[i - 1];
        }
      }
    }
  }

  /** reserve: refused for an unknown warehouse or too little stock; otherwise it writes one
      active reservation, one ledger entry and the rows in the order listed, nothing else. */
  lemma ReserveRecords(plan: Plan, s: State, w: WarehouseId, v: VariantId, q: Quantity, order: Option<OrderId>)
    requires PlanOk(plan) && Inv(s)
    ensures var r := Reserve(plan, s, w, v, q, order);
      && (r == Err(NotFound) <==> w !in s.warehouses)
      && (r == Err(Conflict) <==> w in s.warehouses && Available(s, w, v) < q)
      && (r.Ok? ==>
            var (s', id) := r.value;
            && s' == s.(rows := s'.rows, reservations := s.reservations[id := Reservation(w, v, q, order, Active)],
                        nextReservation := id + 1, ledger := s.ledger + [Movement(w, v, ReservationHold, q)])
            && id == s.nextReservation
            && s'.rows.Keys == s.rows.Keys && Greedy(s.rows, s'.rows, plan(s, w, v), OnHand))
  {
    QuerySum(s.rows, w, v, plan(s, w, v), OnHand);
    ShiftGreedy(s.rows, plan(s, w, v), q, OnHand);
  }

  lemma ReleaseRecords(plan: Plan, s: State, id: ReservationId)
    requires PlanOk(plan) && Inv(s)
    ensures var r := Release(plan, s, id);
      && (r == Err(NotFound) <==> id !in s.reservations)
      && (r == Err(Conflict) <==> id in s.reservations && s.reservations[id].status == Released)
      && (r.Ok? ==>
            var s', res := r.value, s.reservations[id];
            && s' == s.(rows := s'.rows, reservations := s.reservations[id := res.(status := Released)],
                        ledger := s.ledger + [Movement(res.warehouse, res.variant, ReservationRelease, res.quantity)])
            && s'.rows.Keys == s.rows.Keys && Greedy(s.rows, s'.rows, plan(s, res.warehouse, res.variant), Held))
  {
    if id in s.reservations {
      var res := s.reservations[id];
      ShiftGreedy(s.rows, plan(s, res.warehouse, res.variant), res.quantity, Held);
    }
  }

  lemma AdjustRecords(s: State, w: WarehouseId, slot: Slot, delta: int)
    requires Inv(s)
    ensures var r := Adjust(s, w, slot, delta);
      && (r == Err(NotFound) <==> w !in s.warehouses)
      && (r == Err(BadRequest) <==> w in s.warehouses && !BinIn(s, slot.bin, w))
      && (r == Err(Conflict) <==> w in s.warehouses && BinIn(s, slot.bin, w) && OnHandAt(s.rows, slot) + delta < 0)
      && (r.Ok? ==>
            && r.value == s.(rows := r.value.rows, ledger := s.ledger + [Movement(w, slot.variant, Adjustment, delta)])
            && slot in r.value.rows
            && forall t :: OnHandAt(r.value.rows, t) == OnHandAt(s.rows, t) + (if t == slot then delta else 0)
                           && HeldAt(r.value.rows, t) == HeldAt(s.rows, t))
  {
  }

  // ---------------------------------------------------------------- receipts

  function Purchases(w: WarehouseId, items: seq<ReceiptItem>): seq<Movement> {
    if items == [] then [] else [Movement(w, items[0].slot.variant, Purchase, items[0].quantity)] + Purchases(w, items[1..])
  }

  function ReceivedAt(items: seq<ReceiptItem>, slot: Slot): int {
    if items == [] then 0 else (if items[0].slot == slot then items[0].quantity else 0) + ReceivedAt(items[1..], slot)
  }

  /** Every slot gained what the lines bring to it, and no reserved counter moved. */
  ghost predicate Stocked(s: State, s': State, items: seq<ReceiptItem>) {
    forall slot :: OnHandAt(s'.rows, slot) == OnHandAt(s.rows, slot) + ReceivedAt(items, slot)
                   && HeldAt(s'.rows, slot) == HeldAt(s.rows, slot)
  }

  lemma {:induction false} ReceiveItemsFrame(s: State, w: WarehouseId, items: seq<ReceiptItem>)
    ensures var r := ReceiveItems(s, w, items);
      r.Ok? ==> r.value == s.(rows := r.value.rows, serials := r.value.serials, ledger := s.ledger + Purchases(w, items))
    decreases |items|
  {
    if items == [] {
      assert s.ledger + [] == s.ledger;
    } else {
      var first := ReceiveItem(s, w, items[0]);
      if first.Ok? {
        ReceiveItemsFrame(first.value, w, items[1..]);
        assert first.value.ledger + Purchases(w, items[1..]) == s.ledger + Purchases(w, items);
      }
    }
  }

  lemma {:induction false} ReceiveItemsStock(s: State, w: WarehouseId, items: seq<ReceiptItem>)
    ensures var r := ReceiveItems(s, w, items); r.Ok? ==> Stocked(s, r.value, items)
    decreases |items|
  {
    if items != [] {
      var first := ReceiveItem(s, w, items[0]);
      if first.Ok? {
        StockedOne(s, w, items[0]);
        ReceiveItemsStock(first.value, w, items[1..]);
        var r := ReceiveItems(first.value, w, items[1..]);
        if r.Ok? {
          StockedStep(s, first.value, r.value, items);
        }
      }
    }
  }

  lemma StockedOne(s: State, w: WarehouseId, item: ReceiptItem)
    requires ReceiveItem(s, w, item).Ok?
    ensures Stocked(s, ReceiveItem(s, w, item).value, [item])
  {
    forall slot ensures ReceivedAt([item], slot) == if item.slot == slot then item.quantity else 0 {
      assert ReceivedAt([item][1..], slot) == 0;
    }
  }

  lemma StockedStep(s: State, s1: State, s2: State, items: seq<ReceiptItem>)
    requires items != [] && Stocked(s, s1, [items[0]]) && Stocked(s1, s2, items[1..])
    ensures Stocked(s, s2, items)
  {
    forall slot ensures ReceivedAt(items, slot) == ReceivedAt([items[0]], slot) + ReceivedAt(items[1..], slot) {
      assert ReceivedAt([items[0]][1..], slot) == 0;
    }
  }

  /** receipt: the number is on record afterwards, every line has its ledger entry in order, every
      slot gained exactly its lines, and nothing else changed. A known number, an empty receipt
      and an unknown warehouse are refused in this order. */
  lemma ReceiptRecords(s: State, number: DocumentNumber, w: WarehouseId, items: seq<ReceiptItem>)
    ensures var r := Receive(s, number, w, items);
      && (number in s.receipts ==> r == Err(Conflict))
      && (number !in s.receipts && items == [] ==> r == Err(BadRequest))
      && (number !in s.receipts && items != [] && w !in s.warehouses ==> r == Err(NotFound))
      && (r.Ok? ==>
            && r.value == s.(receipts := s.receipts + {number}, rows := r.value.rows, serials := r.value.serials,
                             ledger := s.ledger + Purchases(w, items))
            && Stocked(s, r.value, items))
  {
    var s0 := s.(receipts := s.receipts + {number});
    ReceiveItemsFrame(s0, w, items);
    ReceiveItemsStock(s0, w, items);
  }

  /** A receipt refused for its lines: because of a serial number if all bins match, and because
      of a bin if all serial numbers are new. */
  lemma {:induction false} ReceiptLineRefusals(s: State, w: WarehouseId, items: seq<ReceiptItem>)
    requires ReceiveItems(s, w, items).Err?
    ensures BinsMatch(s, w, items) ==> ReceiveItems(s, w, items).error == Conflict
    ensures AllNew(s.serials, SerialsOf(items)) ==> ReceiveItems(s, w, items).error == BadRequest
    decreases |items|
  {
    var item, rest := items[0], items[1..];
    RegisterExact(s.serials, item.serialNumbers);
    RegisterConflict(s.serials, item.serialNumbers);
    AllNewConcat(s.serials, item.serialNumbers, SerialsOf(rest));
    var first := ReceiveItem(s, w, item);
    if first.Ok? {
      ReceiptLineRefusals(first.value, w, rest);
      assert BinsMatch(s, w, items) ==> BinsMatch(first.value, w, rest);
    } else {
      assert BinsMatch(s, w, items) ==> BinIn(s, items[0].slot.bin, w);
    }
  }

  lemma {:induction false} RegisterConflict(known: set<Serial>, serials: seq<Serial>)
    ensures Register(known, serials).Err? ==> Register(known, serials).error == Conflict
    decreases |serials|
  {
    if serials != [] {
      RegisterConflict(known + {serials[0]}, serials[1..]);
    }
  }

  // ---------------------------------------------------------------- transfers

  predicate InStock(s: State, item: TransferItem) {
    FromSlot(item) in s.rows && item.quantity <= s.rows[FromSlot(item)].available
  }

  /** A transfer refused for its lines: for want of stock if every line leads from a row of the
      source to a bin of the target. A line from a row of another warehouse, or to a bin outside
      the target, is a bad request if the stock is there. */
  lemma {:induction false} TransferLineRefusals(s: State, source: WarehouseId, target: WarehouseId, items: seq<TransferItem>)
    requires Inv(s) && source != target && TransferItems(s, source, target, items).Err?
    ensures (forall i :: 0 <= i < |items| ==> Routed(s, source, target, items[i])) ==>
      TransferItems(s, source, target, items).error == Conflict
    ensures InStock(s, items[0]) && !Routed(s, source, target, items[0]) ==>
      TransferItems(s, source, target, items).error == BadRequest
    decreases |items|
  {
    var first := TransferOne(s, source, target, items[0]);
    if first.Ok? {
      TransferOneLaw(s, source, target, items[0]);
      TransferLineRefusals(first.value, source, target, items[1..]);
      forall i | 0 <= i < |items[1..]|
        ensures Routed(first.value, source, target, items[1..][i]) <==> Routed(s, source, target, items[i + 1])
      {
        RouteKept(s, source, target, items[0], items[i + 1]);
      }
    }
  }

  function Shipments(source: WarehouseId, target: WarehouseId, items: seq<TransferItem>): seq<Movement> {
    if items == [] then [] else
      [Movement(source, items[0].variant, TransferOut, items[0].quantity), Movement(target, items[0].variant, TransferIn, items[0].quantity)]
      + Shipments(source, target, items[1..])
  }

  /** What a transfer brings to one slot. */
  function Filled(items: seq<TransferItem>, slot: Slot): int {
    if items == [] then 0 else
      (if Slot(items[0].toBin, items[0].variant) == slot then items[0].quantity else 0) + Filled(items[1..], slot)
  }

  /** Every slot lost what the lines draw from it and gained what they bring. */
  ghost predicate Carried(s: State, s': State, items: seq<TransferItem>) {
    forall slot :: OnHandAt(s'.rows, slot) == OnHandAt(s.rows, slot) - Drawn(items, slot) + Filled(items, slot)
                   && HeldAt(s'.rows, slot) == HeldAt(s.rows, slot)
  }

  lemma {:induction false} TransferItemsFrame(s: State, source: WarehouseId, target: WarehouseId, items: seq<TransferItem>)
    ensures var r := TransferItems(s, source, target, items);
      r.Ok? ==> r.value == s.(rows := r.value.rows, ledger := s.ledger + Shipments(source, target, items))
    decreases |items|
  {
    if items == [] {
      assert s.ledger + [] == s.ledger;
    } else {
      var first := TransferOne(s, source, target, items[0]);
      if first.Ok? {
        TransferItemsFrame(first.value, source, target, items[1..]);
        assert first.value.ledger + Shipments(source, target, items[1..]) == s.ledger + Shipments(source, target, items);
      }
    }
  }

  lemma {:induction false} TransferItemsStock(s: State, source: WarehouseId, target: WarehouseId, items: seq<TransferItem>)
    ensures var r := TransferItems(s, source, target, items); r.Ok? ==> Carried(s, r.value, items)
    decreases |items|
  {
    if items != [] {
      var first := TransferOne(s, source, target, items[0]);
      if first.Ok? {
        CarriedOne(s, source, target, items[0]);
        TransferItemsStock(first.value, source, target, items[1..]);
        var r := TransferItems(first.value, source, target, items[1..]);
        if r.Ok? {
          CarriedStep(s, first.value, r.value, items);
        }
      }
    }
  }

  lemma CarriedOne(s: State, source: WarehouseId, target: WarehouseId, item: TransferItem)
    requires TransferOne(s, source, target, item).Ok?
    ensures Carried(s, TransferOne(s, source, target, item).value, [item])
  {
    forall slot ensures Drawn([item], slot) == (if FromSlot(item) == slot then item.quantity else 0)
                        && Filled([item], slot) == (if Slot(item.toBin, item.variant) == slot then item.quantity else 0) {
      assert Drawn([item][1..], slot) == 0 && Filled([item][1..], slot) == 0;
    }
  }

  lemma CarriedStep(s: State, s1: State, s2: State, items: seq<TransferItem>)
    requires items != [] && Carried(s, s1, [items[0]]) && Carried(s1, s2, items[1..])
    ensures Carried(s, s2, items)
  {
    forall slot ensures Drawn(items, slot) == Drawn([items[0]], slot) + Drawn(items[1..], slot)
                        && Filled(items, slot) == Filled([items[0]], slot) + Filled(items[1..], slot) {
      assert Drawn([items[0]][1..], slot) == 0 && Filled([items[0]][1..], slot) == 0;
    }
  }

  lemma TransferRecords(s: State, number: DocumentNumber, source: WarehouseId, target: WarehouseId, items: seq<TransferItem>)
    ensures var r := Transfer(s, number, source, target, items);
      && (source == target ==> r == Err(BadRequest))
      && (source != target && number in s.transfers ==> r == Err(Conflict))
      && (source != target && number !in s.transfers && (source !in s.warehouses || target !in s.warehouses) ==> r == Err(NotFound))
      && (r.Ok? ==>
            && r.value == s.(transfers := s.transfers + {number}, rows := r.value.rows,
                             ledger := s.ledger + Shipments(source, target, items))
            && Carried(s, r.value, items))
  {
    var s0 := s.(transfers := s.transfers + {number});
    TransferItemsFrame(s0, source, target, items);
    TransferItemsStock(s0, source, target, items);
  }

  /** cancel: refused for an unknown order, a stranger, or a status past cancelling. */
  lemma CancelRefusals(plan: Plan, s: State, order: OrderId, caller: nat, isAdmin: bool, ids: seq<ReservationId>)
    requires PlanOk(plan) && Inv(s) && IsActiveList(s, order, ids)
    ensures var r := CancelOrder(plan, s, order, caller, isAdmin, ids);
      && (r == Err(NotFound) <==> order !in s.orders)
      && (r == Err(Forbidden) <==> order in s.orders && !isAdmin && s.orders[order].customer != caller)
      && (r == Err(Conflict) <==> order in s.orders && (isAdmin || s.orders[order].customer == caller)
                                  && s.orders[order].status !in {Pending, Confirmed})
  {
    CancelOrderLaw(plan, s, order, caller, isAdmin, ids);
  }

  // ---------------------------------------------------------------- documents over runs

  predicate Grows(s: State, s': State) {
    s.receipts <= s'.receipts && s.transfers <= s'.transfers && s.serials <= s'.serials
  }

  lemma NextGrows(plan: Plan, s: State, op: Op, s': State)
    requires PlanOk(plan) && Inv(s) && Next(plan, s, op, s')
    ensures Grows(s, s')
  {
    match op
    case DoReserve(w, v, q, order) =>
    case DoRelease(id) =>
    case DoAdjust(w, slot, delta) =>
    case DoReceive(number, w, items) =>
      ReceiptRecords(s, number, w, items);
      ReceiptExact(s, number, w, items);
    case DoTransfer(number, source, target, lines) => TransferRecords(s, number, source, target, lines);
    case DoCancel(order, caller, isAdmin, ids) =>
      if order in s.orders {
        ReleaseEachFrame(plan, SetOrderStatus(s, order, Cancelled), ids);
      }
  }

  lemma {:induction false} ReleaseEachFrame(plan: Plan, s: State, ids: seq<ReservationId>)
    requires PlanOk(plan)
    ensures var r := ReleaseEach(plan, s, ids); r.Ok? ==> Grows(s, r.value)
    decreases |ids|
  {
    if ids != [] {
      var r := Release(plan, s, ids[0]);
      if r.Ok? {
        ReleaseEachFrame(plan, r.value, ids[1..]);
      }
    }
  }

  lemma {:induction false} RunGrows(plan: Plan, states: seq<State>, ops: seq<Op>, i: nat, j: nat)
    requires PlanOk(plan) && IsRun(plan, states, ops) && Inv(states[0]) && i <= j < |states|
    ensures Grows(states[i], states[j])
    decreases j
  {
    if i < j {
      RunGrows(plan, states, ops, i, j - 1);
      RunLaw(plan, states, ops, j - 1);
      assert Next(plan, states[j - 1], ops[j - 1], states[j]);
      NextGrows(plan, states[j - 1], ops[j - 1], states[j]);
    }
  }

  predicate Accepted(s: State, op: Op) {
    match op
    case DoReceive(number, w, items) => Receive(s, number, w, items).Ok?
    case DoTransfer(number, source, target, lines) => Transfer(s, number, source, target, lines).Ok?
    case _ => false
  }

  /** In every run a receipt number is accepted at most once, and so is a transfer number, and a
      serial number is received at most once. */
  lemma BookedOnce(plan: Plan, states: seq<State>, ops: seq<Op>, i: nat, j: nat)
    requires PlanOk(plan) && IsRun(plan, states, ops) && Inv(states[0]) && i < j < |ops|
    requires Accepted(states[i], ops[i]) && Accepted(states[j], ops[j])
    ensures ops[i].DoReceive? && ops[j].DoReceive? ==>
      ops[i].number != ops[j].number && forall k :: k in SerialsOf(ops[i].items) ==> k !in SerialsOf(ops[j].items)
    ensures ops[i].DoTransfer? && ops[j].DoTransfer? ==> ops[i].number != ops[j].number
  {
    assert Next(plan, states[i], ops[i], states[i + 1]);
    RunGrows(plan, states, ops, i + 1, j);
    RunLaw(plan, states, ops, i);
    RunLaw(plan, states, ops, j);
    BookedAt(states[i], ops[i]);
    BookedAt(states[j], ops[j]);
  }

  /** What an accepted document needed and what it leaves on record. */
  lemma BookedAt(s: State, op: Op)
    requires Inv(s) && Accepted(s, op)
    ensures op.DoReceive? ==>
      var s' := Receive(s, op.number, op.w, op.items).value;
      && op.number !in s.receipts && op.number in s'.receipts
      && forall k :: k in SerialsOf(op.items) ==> k !in s.serials && k in s'.serials
    ensures op.DoTransfer? ==>
      op.number !in s.transfers && op.number in Transfer(s, op.number, op.source, op.target, op.lines).value.transfers
  {
    if op.DoReceive? {
      ReceiptRecords(s, op.number, op.w, op.items);
      ReceiptExact(s, op.number, op.w, op.items);
    } else {
      TransferRecords(s, op.number, op.source, op.target, op.lines);
    }
  }
}
