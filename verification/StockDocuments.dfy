/** Exactly when an adjustment, a goods receipt or a transfer is accepted, and exactly what it
    moves. */
module StockDocuments {
  import opened Totals
  import opened Stock
  import opened StockLaws

  // ---------------------------------------------------------------- adjustments

  /** An adjustment changes one warehouse's total of one variant by exactly the delta. */
  lemma AdjustmentExact(s: State, w: WarehouseId, slot: Slot, delta: int)
    requires Inv(s)
    ensures var r := Adjust(s, w, slot, delta);
      && (r.Ok? <==> w in s.warehouses && BinIn(s, slot.bin, w) && 0 <= OnHandAt(s.rows, slot) + delta)
      && (r.Ok? ==> AvailableChanges(s, r.value, w, slot.variant, delta))
  {
    if Adjust(s, w, slot, delta).Ok? {
      PutLaw(s, slot, w, delta, Adjust(s, w, slot, delta).value);
    }
  }

  // ---------------------------------------------------------------- goods receipts

  function Received(items: seq<ReceiptItem>, v: VariantId): int {
    if items == [] then 0 else
      (if items[0].slot.variant == v then items[0].quantity else 0) + Received(items[1..], v)
  }

  /** All serial numbers of a receipt, in order. */
  function SerialsOf(items: seq<ReceiptItem>): seq<Serial> {
    if items == [] then [] else items[0].serialNumbers + SerialsOf(items[1..])
  }

  function AsSet(serials: seq<Serial>): set<Serial> {
    set k | k in serials
  }

  /** New serial numbers: none known, none twice. */
  predicate AllNew(known: set<Serial>, serials: seq<Serial>) {
    Distinct(serials) && forall i :: 0 <= i < |serials| ==> serials[i] !in known
  }

  lemma AllNewConcat(known: set<Serial>, a: seq<Serial>, b: seq<Serial>)
    ensures AllNew(known, a + b) <==> AllNew(known, a) && AllNew(known + AsSet(a), b)
  {
    var c := a + b;
    if AllNew(known, c) {
      forall i | 0 <= i < |a| ensures a[i] !in known { assert c[i] == a[i]; }
      forall i, j | 0 <= i < j < |a| ensures a[i] != a[j] { assert c[i] == a[i] && c[j] == a[j]; }
      forall i | 0 <= i < |b| ensures b[i] !in known + AsSet(a) {
        assert c[|a| + i] == b[i];
        assert forall j :: 0 <= j < |a| ==> c[j] == a[j];
      }
      forall i, j | 0 <= i < j < |b| ensures b[i] != b[j] { assert c[|a| + i] == b[i] && c[|a| + j] == b[j]; }
    }
    if AllNew(known, a) && AllNew(known + AsSet(a), b) {
      forall i, j | 0 <= i < j < |c| ensures c[i] != c[j] {
        if i < |a| <= j {
          assert c[i] in AsSet(a) && c[j] == b[j - |a|];
        }
      }
    }
  }

  lemma {:induction false} RegisterExact(known: set<Serial>, serials: seq<Serial>)
    ensures Register(known, serials).Ok? <==> AllNew(known, serials)
    ensures Register(known, serials).Ok? ==> Register(known, serials).value == known + AsSet(serials)
    decreases |serials|
  {
    if serials != [] {
      var one, rest := [serials[0]], serials[1..];
      assert serials == one + rest;
      AllNewConcat(known, one, rest);
      assert AsSet(one) == {serials[0]};
      assert AsSet(serials) == AsSet(one) + AsSet(rest);
      RegisterExact(known + {serials[0]}, rest);
    }
  }

  predicate BinsMatch(s: State, w: WarehouseId, items: seq<ReceiptItem>) {
    forall i :: 0 <= i < |items| ==> BinIn(s, items[i].slot.bin, w)
  }

  /** Available stock of warehouse `w` grew by the given amounts, and nowhere else. */
  ghost predicate Arrived(s: State, s': State, w: WarehouseId, items: seq<ReceiptItem>) {
    forall w': WarehouseId, v: VariantId ::
      Available(s', w', v) == Available(s, w', v) + if w' == w then Received(items, v) else 0
  }

  lemma ArrivedStep(s: State, s1: State, s2: State, w: WarehouseId, items: seq<ReceiptItem>)
    requires items != [] && AvailableChanges(s, s1, w, items[0].slot.variant, items[0].quantity)
    requires Arrived(s1, s2, w, items[1..])
    ensures Arrived(s, s2, w, items)
  {
    forall w': WarehouseId, v: VariantId
      ensures Available(s2, w', v) == Available(s, w', v) + if w' == w then Received(items, v) else 0
    {
      assert Available(s2, w', v) == Available(s1, w', v) + if w' == w then Received(items[1..], v) else 0;
    }
  }

  lemma {:induction false} ReceiveItemsExact(s: State, w: WarehouseId, items: seq<ReceiptItem>)
    requires Inv(s)
    ensures var r := ReceiveItems(s, w, items);
      && (r.Ok? <==> BinsMatch(s, w, items) && AllNew(s.serials, SerialsOf(items)))
      && (r.Ok? ==> Arrived(s, r.value, w, items) && r.value.serials == s.serials + AsSet(SerialsOf(items)))
    decreases |items|
  {
    if items == [] {
      assert AsSet([]) == {};
    } else {
      var item, rest := items[0], items[1..];
      RegisterExact(s.serials, item.serialNumbers);
      AllNewConcat(s.serials, item.serialNumbers, SerialsOf(rest));
      assert AsSet(SerialsOf(items)) == AsSet(item.serialNumbers) + AsSet(SerialsOf(rest));
      assert BinsMatch(s, w, items) <==> BinIn(s, item.slot.bin, w) && BinsMatch(s, w, rest);
      var first := ReceiveItem(s, w, item);
      if first.Ok? {
        assert 0 <= OnHandAt(s.rows, item.slot);
        PutLaw(s, item.slot, w, item.quantity, first.value);
        ReceiveItemsExact(first.value, w, rest);
        var r := ReceiveItems(first.value, w, rest);
        if r.Ok? {
          ArrivedStep(s, first.value, r.value, w, items);
        }
      }
    }
  }

  /** A receipt is accepted exactly when its number is new, it has lines, its warehouse exists,
      every bin is in that warehouse and no serial number is known or repeated; it then adds
      exactly the received quantities, to that warehouse only. */
  lemma ReceiptExact(s: State, number: DocumentNumber, w: WarehouseId, items: seq<ReceiptItem>)
    requires Inv(s)
    ensures var r := Receive(s, number, w, items);
      && (r.Ok? <==> number !in s.receipts && items != [] && w in s.warehouses
                     && BinsMatch(s, w, items) && AllNew(s.serials, SerialsOf(items)))
      && (r.Ok? ==> Arrived(s, r.value, w, items) && r.value.serials == s.serials + AsSet(SerialsOf(items)))
  {
    var s0 := s.(receipts := s.receipts + {number});
    SameTables(s, s0);
    ReceiveItemsExact(s0, w, items);
    assert BinsMatch(s0, w, items) <==> BinsMatch(s, w, items);
    var r := Receive(s, number, w, items);
    if r.Ok? {
      forall w': WarehouseId, v: VariantId
        ensures Available(r.value, w', v) == Available(s, w', v) + if w' == w then Received(items, v) else 0
      {
        assert Available(s0, w', v) == Available(s, w', v);
      }
    }
  }

  // ---------------------------------------------------------------- transfers

  function Shipped(items: seq<TransferItem>, v: VariantId): int {
    if items == [] then 0 else (if items[0].variant == v then items[0].quantity else 0) + Shipped(items[1..], v)
  }

  function FromSlot(item: TransferItem): Slot {
    Slot(item.fromBin, item.variant)
  }

  /** What a transfer takes from one slot. */
  function Drawn(items: seq<TransferItem>, slot: Slot): int {
    if items == [] then 0 else (if FromSlot(items[0]) == slot then items[0].quantity else 0) + Drawn(items[1..], slot)
  }

  predicate Routed(s: State, source: WarehouseId, target: WarehouseId, item: TransferItem) {
    && FromSlot(item) in s.rows && s.rows[FromSlot(item)].warehouse == source
    && BinIn(s, item.toBin, target)
  }

  /** Every line leads from a row of the source to a bin of the target, and no slot is asked
      for more than it has, over all lines together. */
  predicate Deliverable(s: State, source: WarehouseId, target: WarehouseId, items: seq<TransferItem>) {
    forall i :: 0 <= i < |items| ==>
      Routed(s, source, target, items[i]) && Drawn(items, FromSlot(items[i])) <= s.rows[FromSlot(items[i])].available
  }

  lemma {:induction false} DrawnCovers(items: seq<TransferItem>, i: nat, slot: Slot)
    ensures 0 <= Drawn(items, slot)
    ensures i < |items| && FromSlot(items[i]) == slot ==> items[i].quantity <= Drawn(items, slot)
    decreases |items|
  {
    if items != [] {
      DrawnCovers(items[1..], if i > 0 then i - 1 else 0, slot);
    }
  }

  /** One line leaves the other lines' routes alone and takes from its own slot only. */
  lemma RouteKept(s: State, source: WarehouseId, target: WarehouseId, item: TransferItem, other: TransferItem)
    requires Inv(s) && source != target && TransferOne(s, source, target, item).Ok?
    ensures var s1 := TransferOne(s, source, target, item).value;
      && (Routed(s1, source, target, other) <==> Routed(s, source, target, other))
      && (Routed(s, source, target, other) ==>
            s1.rows[FromSlot(other)].available ==
            s.rows[FromSlot(other)].available - if FromSlot(other) == FromSlot(item) then item.quantity else 0)
  {
    var to := Slot(item.toBin, item.variant);
    assert to in s.rows ==> s.rows[to].warehouse == target;
  }

  lemma DeliverableStep(s: State, source: WarehouseId, target: WarehouseId, items: seq<TransferItem>)
    requires Inv(s) && source != target && items != [] && TransferOne(s, source, target, items[0]).Ok?
    ensures Deliverable(s, source, target, items) <==>
      Deliverable(TransferOne(s, source, target, items[0]).value, source, target, items[1..])
  {
    var s1, rest := TransferOne(s, source, target, items[0]).value, items[1..];
    forall i | 0 <= i < |rest|
      ensures Routed(s1, source, target, rest[i]) <==> Routed(s, source, target, rest[i])
      ensures Routed(s, source, target, rest[i]) ==>
        (Drawn(rest, FromSlot(rest[i])) <= s1.rows[FromSlot(rest[i])].available
         <==> Drawn(items, FromSlot(rest[i])) <= s.rows[FromSlot(rest[i])].available)
    {
      RouteKept(s, source, target, items[0], rest[i]);
    }
    if Deliverable(s, source, target, items) {
      forall i | 0 <= i < |rest|
        ensures Routed(s1, source, target, rest[i]) && Drawn(rest, FromSlot(rest[i])) <= s1.rows[FromSlot(rest[i])].available
      {
        assert rest[i] == items[i + 1];
      }
    }
    if Deliverable(s1, source, target, rest) {
      FirstLineFits(s, source, target, items);
      forall i | 0 <= i < |items|
        ensures Routed(s, source, target, items[i]) && Drawn(items, FromSlot(items[i])) <= s.rows[FromSlot(items[i])].available
      {
        if i > 0 {
          assert items[i] == rest[i - 1];
        }
      }
    }
  }

  lemma FirstLineFits(s: State, source: WarehouseId, target: WarehouseId, items: seq<TransferItem>)
    requires Inv(s) && source != target && items != [] && TransferOne(s, source, target, items[0]).Ok?
    requires Deliverable(TransferOne(s, source, target, items[0]).value, source, target, items[1..])
    ensures Drawn(items, FromSlot(items[0])) <= s.rows[FromSlot(items[0])].available
  {
    var s1, rest, slot := TransferOne(s, source, target, items[0]).value, items[1..], FromSlot(items[0]);
    RouteKept(s, source, target, items[0], items[0]);
    if i :| 0 <= i < |rest| && FromSlot(rest[i]) == slot {
      assert Drawn(rest, slot) <= s1.rows[slot].available;
    } else {
      DrawnNothing(rest, slot);
    }
  }

  lemma {:induction false} DrawnNothing(items: seq<TransferItem>, slot: Slot)
    requires forall i :: 0 <= i < |items| ==> FromSlot(items[i]) != slot
    ensures Drawn(items, slot) == 0
    decreases |items|
  {
    if items != [] {
      DrawnNothing(items[1..], slot);
    }
  }

  /** Available stock moved from source to target, and changed nowhere else. */
  ghost predicate Delivered(s: State, s': State, source: WarehouseId, target: WarehouseId, items: seq<TransferItem>) {
    forall w: WarehouseId, v: VariantId ::
      Available(s', w, v) == Available(s, w, v)
        + (if w == target then Shipped(items, v) else 0) - (if w == source then Shipped(items, v) else 0)
  }

  lemma TransferOneDelivers(s: State, source: WarehouseId, target: WarehouseId, item: TransferItem)
    requires Inv(s) && source != target && TransferOne(s, source, target, item).Ok?
    ensures Delivered(s, TransferOne(s, source, target, item).value, source, target, [item])
  {
    var s1 := TransferOne(s, source, target, item).value;
    var mid := s.(rows := Put(s.rows, FromSlot(item), source, 0 - item.quantity));
    PutLaw(s, FromSlot(item), source, 0 - item.quantity, mid);
    assert 0 <= OnHandAt(mid.rows, Slot(item.toBin, item.variant));
    PutLaw(mid, Slot(item.toBin, item.variant), target, item.quantity, s1);
    PairDelivers(s, mid, s1, source, target, item);
  }

  lemma PairDelivers(s: State, mid: State, s1: State, source: WarehouseId, target: WarehouseId, item: TransferItem)
    requires source != target && AvailableChanges(s, mid, source, item.variant, 0 - item.quantity)
    requires AvailableChanges(mid, s1, target, item.variant, item.quantity)
    ensures Delivered(s, s1, source, target, [item])
  {
    forall w: WarehouseId, v: VariantId
      ensures Available(s1, w, v) == Available(s, w, v)
        + (if w == target then Shipped([item], v) else 0) - (if w == source then Shipped([item], v) else 0)
    {
      assert Shipped([item][1..], v) == 0;
      assert Available(s1, w, v) == Available(mid, w, v) + if (w, v) == (target, item.variant) then item.quantity else 0;
    }
  }

  lemma DeliveredStep(s: State, s1: State, s2: State, source: WarehouseId, target: WarehouseId, items: seq<TransferItem>)
    requires items != [] && Delivered(s, s1, source, target, [items[0]]) && Delivered(s1, s2, source, target, items[1..])
    ensures Delivered(s, s2, source, target, items)
  {
    forall w: WarehouseId, v: VariantId
      ensures Available(s2, w, v) == Available(s, w, v)
        + (if w == target then Shipped(items, v) else 0) - (if w == source then Shipped(items, v) else 0)
    {
      assert Shipped([items[0]][1..], v) == 0;
      assert Shipped(items, v) == Shipped([items[0]], v) + Shipped(items[1..], v);
    }
  }

  lemma {:induction false} TransferItemsExact(s: State, source: WarehouseId, target: WarehouseId, items: seq<TransferItem>)
    requires Inv(s) && source != target
    ensures var r := TransferItems(s, source, target, items);
      && (r.Ok? <==> Deliverable(s, source, target, items))
      && (r.Ok? ==> Delivered(s, r.value, source, target, items))
    decreases |items|
  {
    if items != [] {
      var first := TransferOne(s, source, target, items[0]);
      if first.Ok? {
        TransferOneLaw(s, source, target, items[0]);
        TransferOneDelivers(s, source, target, items[0]);
        DeliverableStep(s, source, target, items);
        TransferItemsExact(first.value, source, target, items[1..]);
        var r := TransferItems(first.value, source, target, items[1..]);
        if r.Ok? {
          DeliveredStep(s, first.value, r.value, source, target, items);
        }
      } else {
        DrawnCovers(items, 0, FromSlot(items[0]));
      }
    }
  }

  /** A transfer is accepted exactly when the warehouses differ and exist, its number is new
      and every line can be delivered, counting all lines that draw on one slot together; it
      then moves exactly the listed quantities from source to target. */
  lemma TransferExact(s: State, number: DocumentNumber, source: WarehouseId, target: WarehouseId, items: seq<TransferItem>)
    requires Inv(s)
    ensures var r := Transfer(s, number, source, target, items);
      && (r.Ok? <==> source != target && number !in s.transfers && source in s.warehouses && target in s.warehouses
                     && Deliverable(s, source, target, items))
      && (r.Ok? ==> Delivered(s, r.value, source, target, items))
  {
    if source != target {
      var s0 := s.(transfers := s.transfers + {number});
      SameTables(s, s0);
      TransferItemsExact(s0, source, target, items);
      assert Deliverable(s0, source, target, items) <==> Deliverable(s, source, target, items) by {
        assert forall item :: Routed(s0, source, target, item) <==> Routed(s, source, target, item);
      }
      var r := Transfer(s, number, source, target, items);
      if r.Ok? {
        forall w: WarehouseId, v: VariantId
          ensures Available(r.value, w, v) == Available(s, w, v)
            + (if w == target then Shipped(items, v) else 0) - (if w == source then Shipped(items, v) else 0)
        {
          assert Available(s0, w, v) == Available(s, w, v);
        }
      }
    }
  }
}
