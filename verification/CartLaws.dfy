/** Reserving a cart line by line: what is taken, how far the loop gets, and that its
    reservations can be released again. */
module CartLaws {
  import opened Totals
  import opened Stock
  import opened StockLaws
  import opened Checkout

  // ---------------------------------------------------------------- what is taken

  /** Total available and total reserved are the same for every warehouse and variant. */
  ghost predicate Restored(s: State, s': State) {
    forall w: WarehouseId, v: VariantId ::
      Available(s', w, v) == Available(s, w, v) && Reserved(s', w, v) == Reserved(s, w, v)
  }

  ghost predicate Taken(s: State, s': State, ids: seq<ReservationId>)
    requires forall id :: id in ids ==> id in s'.reservations
  {
    forall w: WarehouseId, v: VariantId ::
      && Available(s', w, v) == Available(s, w, v) - PromisedBy(s', ids, w, v)
      && Reserved(s', w, v) == Reserved(s, w, v) + PromisedBy(s', ids, w, v)
  }

  /** The reservations `ids` are new, active and belong to `order`; older ones are as they were. */
  ghost predicate NewReservations(s: State, s': State, order: Option<OrderId>, ids: seq<ReservationId>) {
    && Distinct(ids)
    && s.nextReservation <= s'.nextReservation
    && (forall id :: id in ids ==>
          && s.nextReservation <= id && id in s'.reservations
          && s'.reservations[id].status == Active && s'.reservations[id].order == order)
    && (forall id :: id in s.reservations ==> id in s'.reservations && s'.reservations[id] == s.reservations[id])
    && (forall id :: id in s'.reservations ==> id in s.reservations || id in ids)
  }

  lemma TakenStep(s: State, s1: State, s2: State, id: ReservationId, rest: seq<ReservationId>)
    requires id in s2.reservations && forall k :: k in rest ==> k in s2.reservations
    requires Transferred(s, s1, s2.reservations[id].warehouse, s2.reservations[id].variant, OnHand, s2.reservations[id].quantity)
    requires Taken(s1, s2, rest)
    ensures forall k :: k in [id] + rest ==> k in s2.reservations
    ensures Taken(s, s2, [id] + rest)
  {
    assert ([id] + rest)[1..] == rest;
    forall w: WarehouseId, v: VariantId
      ensures Available(s2, w, v) == Available(s, w, v) - PromisedBy(s2, [id] + rest, w, v)
      ensures Reserved(s2, w, v) == Reserved(s, w, v) + PromisedBy(s2, [id] + rest, w, v)
    {
      assert Available(s2, w, v) == Available(s1, w, v) - PromisedBy(s2, rest, w, v);
    }
  }

  lemma NewReservationsStep(s: State, s1: State, s2: State, order: Option<OrderId>, id: ReservationId, rest: seq<ReservationId>)
    requires id == s.nextReservation && s1.nextReservation == id + 1 && IdsFresh(s)
    requires exists w: WarehouseId, v: VariantId, q: Quantity ::
      s1.reservations == s.reservations[id := Reservation(w, v, q, order, Active)]
    requires NewReservations(s1, s2, order, rest)
    ensures NewReservations(s, s2, order, [id] + rest)
  {
    forall k | 0 <= k < |rest| ensures id < rest[k] {
      assert rest[k] in rest;
    }
  }

  lemma {:induction false} ReserveCartLaw(plan: Plan, s: State, w: WarehouseId, order: Option<OrderId>, items: seq<CartItem>)
    requires PlanOk(plan) && Inv(s)
    ensures var done := ReserveCart(plan, s, w, order, items);
      && Inv(done.stock) && Explained(s, done.stock) && done.stock.orders == s.orders
      && NewReservations(s, done.stock, order, done.ids)
      && Taken(s, done.stock, done.ids)
      && (done.ids != [] <==> items != [] && w in s.warehouses && items[0].quantity <= Available(s, w, items[0].variant))
    decreases |items|
  {
    SameTables(s, s);
    if items != [] {
      var item := items[0];
      ReserveLaw(plan, s, w, item.variant, item.quantity, order);
      var r := Reserve(plan, s, w, item.variant, item.quantity, order);
      if r.Ok? {
        var (s1, id) := r.value;
        ReserveCartLaw(plan, s1, w, order, items[1..]);
        var rest := ReserveCart(plan, s1, w, order, items[1..]);
        ExplainedTransitive(s, s1, rest.stock);
        assert s1.reservations == s.reservations[id := Reservation(w, item.variant, item.quantity, order, Active)];
        NewReservationsStep(s, s1, rest.stock, order, id, rest.ids);
        TakenStep(s, s1, rest.stock, id, rest.ids);
      }
    }
  }

  /** Reserving at least one line changes the totals. */
  lemma TakenNotRestored(s: State, s': State, ids: seq<ReservationId>)
    requires (forall id :: id in ids ==> id in s'.reservations) && Taken(s, s', ids)
    ensures Restored(s, s') <==> ids == []
  {
    if ids != [] {
      var r := s'.reservations[ids[0]];
      PromisedByNonNegative(s', ids[1..], r.warehouse, r.variant);
      assert Available(s', r.warehouse, r.variant) < Available(s, r.warehouse, r.variant);
    }
  }

  lemma {:induction false} PromisedByNonNegative(s: State, ids: seq<ReservationId>, w: WarehouseId, v: VariantId)
    requires forall id :: id in ids ==> id in s.reservations
    ensures 0 <= PromisedBy(s, ids, w, v)
    decreases |ids|
  {
    if ids != [] {
      PromisedByNonNegative(s, ids[1..], w, v);
    }
  }

  lemma {:induction false} ReleaseQuietlyIsReleaseEach(plan: Plan, s: State, ids: seq<ReservationId>)
    requires PlanOk(plan) && Inv(s) && Distinct(ids) && AllActive(s, ids)
    ensures ReleaseEach(plan, s, ids) == Ok(ReleaseQuietly(plan, s, ids))
    decreases |ids|
  {
    if ids != [] {
      ReleaseLaw(plan, s, ids[0]);
      var s1 := Release(plan, s, ids[0]).value;
      assert forall id :: id in ids[1..] ==> id in ids && id != ids[0];
      ReleaseQuietlyIsReleaseEach(plan, s1, ids[1..]);
    }
  }

  // ---------------------------------------------------------------- how far the loop gets

  /** What all lines of a cart ask of one variant. */
  function Demand(items: seq<CartItem>, v: VariantId): int {
    if items == [] then 0 else (if items[0].variant == v then items[0].quantity else 0) + Demand(items[1..], v)
  }

  /** The warehouse has, of every variant, what all lines together ask for. */
  ghost predicate CartFits(s: State, w: WarehouseId, items: seq<CartItem>) {
    items == [] ||
    (w in s.warehouses && forall i :: 0 <= i < |items| ==> Demand(items, items[i].variant) <= Available(s, w, items[i].variant))
  }

  /** The reservations are those of the cart's first lines, in order. */
  ghost predicate LinesReserved(s: State, ids: seq<ReservationId>, w: WarehouseId, order: Option<OrderId>, items: seq<CartItem>) {
    |ids| <= |items| &&
    forall i :: 0 <= i < |ids| ==>
      ids[i] in s.reservations &&
      s.reservations[ids[i]] == Reservation(w, items[i].variant, items[i].quantity, order, Active)
  }

  lemma {:induction false} DemandNonNegative(items: seq<CartItem>, v: VariantId)
    ensures 0 <= Demand(items, v)
    ensures (forall i :: 0 <= i < |items| ==> items[i].variant != v) ==> Demand(items, v) == 0
    decreases |items|
  {
    if items != [] {
      DemandNonNegative(items[1..], v);
    }
  }

  /** A cart fits exactly when its first line does and the others fit what that leaves. */
  lemma CartFitsStep(s: State, s1: State, w: WarehouseId, items: seq<CartItem>)
    requires items != [] && w in s.warehouses && s1.warehouses == s.warehouses
    requires items[0].quantity <= Available(s, w, items[0].variant)
    requires Transferred(s, s1, w, items[0].variant, OnHand, items[0].quantity)
    ensures CartFits(s, w, items) <==> CartFits(s1, w, items[1..])
  {
    var rest := items[1..];
    forall v: VariantId
      ensures Demand(rest, v) <= Available(s1, w, v) <==> Demand(items, v) <= Available(s, w, v)
    {
      assert Available(s1, w, v) == Available(s, w, v) - if v == items[0].variant then items[0].quantity else 0;
    }
    if CartFits(s, w, items) {
      forall i | 0 <= i < |rest| ensures Demand(rest, rest[i].variant) <= Available(s1, w, rest[i].variant) {
        assert rest[i] == items[i + 1];
      }
    }
    if CartFits(s1, w, rest) {
      forall i | 0 <= i < |items| ensures Demand(items, items[i].variant) <= Available(s, w, items[i].variant) {
        if j :| 0 <= j < |rest| && rest[j].variant == items[i].variant {
          assert Demand(rest, rest[j].variant) <= Available(s1, w, rest[j].variant);
        } else {
          DemandNonNegative(rest, items[i].variant);
          assert i > 0 ==> items[i] == rest[i - 1];
        }
      }
    }
  }

  lemma FirstOfFitting(s: State, w: WarehouseId, items: seq<CartItem>)
    requires items != [] && CartFits(s, w, items)
    ensures w in s.warehouses && items[0].quantity <= Available(s, w, items[0].variant)
  {
    DemandNonNegative(items[1..], items[0].variant);
    assert Demand(items, items[0].variant) <= Available(s, w, items[0].variant);
  }

  /** Older reservations are untouched, so the first line's is still there at the end. */
  lemma LinesReservedStep(s1: State, s2: State, id: ReservationId, rest: seq<ReservationId>, w: WarehouseId,
                          order: Option<OrderId>, items: seq<CartItem>)
    requires items != [] && id in s1.reservations && NewReservations(s1, s2, order, rest)
    requires s1.reservations[id] == Reservation(w, items[0].variant, items[0].quantity, order, Active)
    requires LinesReserved(s2, rest, w, order, items[1..])
    ensures LinesReserved(s2, [id] + rest, w, order, items)
  {
    var ids := [id] + rest;
    forall i | 0 <= i < |ids|
      ensures ids[i] in s2.reservations
      ensures s2.reservations[ids[i]] == Reservation(w, items[i].variant, items[i].quantity, order, Active)
    {
      if i > 0 {
        assert ids[i] == rest[i - 1] && items[i] == items[1..][i - 1];
      }
    }
  }

  /** The loop reaches its end exactly when the whole cart fits, and its reservations are
      those of the cart's lines, one each and in order. */
  lemma {:induction false} ReserveCartExact(plan: Plan, s: State, w: WarehouseId, order: Option<OrderId>, items: seq<CartItem>)
    requires PlanOk(plan) && Inv(s)
    ensures var done := ReserveCart(plan, s, w, order, items);
      && (done.complete <==> CartFits(s, w, items))
      && (done.complete <==> |done.ids| == |items|)
      && LinesReserved(done.stock, done.ids, w, order, items)
    decreases |items|
  {
    if items != [] {
      var item := items[0];
      ReserveLaw(plan, s, w, item.variant, item.quantity, order);
      var r := Reserve(plan, s, w, item.variant, item.quantity, order);
      if r.Ok? {
        var (s1, id) := r.value;
        ReserveCartLaw(plan, s1, w, order, items[1..]);
        ReserveCartExact(plan, s1, w, order, items[1..]);
        var rest := ReserveCart(plan, s1, w, order, items[1..]);
        CartFitsStep(s, s1, w, items);
        LinesReservedStep(s1, rest.stock, id, rest.ids, w, order, items);
      } else if CartFits(s, w, items) {
        FirstOfFitting(s, w, items);
      }
    }
  }

  lemma {:induction false} PrefixComplete(plan: Plan, s: State, w: WarehouseId, order: Option<OrderId>, items: seq<CartItem>, k: nat)
    requires PlanOk(plan) && k <= |items|
    ensures ReserveCart(plan, s, w, order, items[..k]).complete <==> k <= |ReserveCart(plan, s, w, order, items).ids|
    decreases |items|
  {
    if k > 0 {
      var r := Reserve(plan, s, w, items[0].variant, items[0].quantity, order);
      assert items[..k][0] == items[0] && items[..k][1..] == items[1..][..k - 1];
      if r.Ok? {
        PrefixComplete(plan, r.value.0, w, order, items[1..], k - 1);
      }
    }
  }

  /** The lines reserved are the longest part of the cart, from its start, that fits. */
  lemma LongestFittingPrefix(plan: Plan, s: State, w: WarehouseId, order: Option<OrderId>, items: seq<CartItem>, k: nat)
    requires PlanOk(plan) && Inv(s) && k <= |items|
    ensures k <= |ReserveCart(plan, s, w, order, items).ids| <==> CartFits(s, w, items[..k])
  {
    PrefixComplete(plan, s, w, order, items, k);
    ReserveCartExact(plan, s, w, order, items[..k]);
  }
}
