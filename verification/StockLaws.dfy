/** What every operation on the stock tables keeps, and what follows for whole runs:
    reserved counters equal the active reservations, no counter is negative, every row
    lies in its bin's warehouse, and the movement ledger replays to the available stock. */
module StockLaws {
  import opened Totals
  import opened Stock

  // ---------------------------------------------------------------- invariant

  ghost predicate RowsMatchBins(s: State) {
    forall slot :: slot in s.rows ==> BinIn(s, slot.bin, s.rows[slot].warehouse)
  }

  ghost predicate NonNegative(rows: map<Slot, Row>) {
    forall slot :: slot in rows ==> 0 <= rows[slot].available && 0 <= rows[slot].reserved
  }

  ghost predicate ReservationsCovered(s: State) {
    forall w: WarehouseId, v: VariantId :: Reserved(s, w, v) == Promised(s, w, v)
  }

  ghost predicate IdsFresh(s: State) {
    forall id :: id in s.reservations ==> id < s.nextReservation
  }

  ghost predicate Inv(s: State) {
    RowsMatchBins(s) && NonNegative(s.rows) && ReservationsCovered(s) && IdsFresh(s)
  }

  /** The ledger only grows, and its growth explains every change of available stock. */
  ghost predicate Explained(s: State, s': State) {
    && s.ledger <= s'.ledger
    && forall w: WarehouseId, v: VariantId ::
         Available(s', w, v) - Available(s, w, v) == Replay(s'.ledger, w, v) - Replay(s.ledger, w, v)
  }

  // ---------------------------------------------------------------- sums over rows

  ghost function CountsOf(rows: map<Slot, Row>, found: seq<Slot>, side: Side): map<Slot, int>
    requires forall slot :: slot in found ==> slot in rows
  {
    map slot | slot in found :: if slot in found then Count(rows[slot], side) else 0
  }

  lemma CountsOfRest(rows: map<Slot, Row>, found: seq<Slot>, side: Side)
    requires found != [] && Distinct(found) && forall slot :: slot in found ==> slot in rows
    ensures CountsOf(rows, found, side) - {found[0]} == CountsOf(rows, found[1..], side)
  {
    assert forall slot :: slot in found <==> slot == found[0] || slot in found[1..];
    assert found[0] !in found[1..];
  }

  lemma {:induction false} SumOfIsTotal(rows: map<Slot, Row>, found: seq<Slot>, side: Side)
    requires Distinct(found) && forall slot :: slot in found ==> slot in rows
    ensures SumOf(rows, found, side) == Total(CountsOf(rows, found, side))
    decreases |found|
  {
    if found != [] {
      assert found[0] in found;
      CountsOfRest(rows, found, side);
      SumOfIsTotal(rows, found[1..], side);
      TotalRemove(CountsOf(rows, found, side), found[0]);
    }
  }

  /** The list names each row of the variant in the warehouse once. */
  ghost predicate Enumerates(rows: map<Slot, Row>, w: WarehouseId, v: VariantId, found: seq<Slot>) {
    Distinct(found) && forall slot :: slot in found <==> slot in rows && Stores(rows, slot, w, v)
  }

  /** The total that `reserve` compares with the request is the warehouse total. */
  lemma QuerySum(rows: map<Slot, Row>, w: WarehouseId, v: VariantId, found: seq<Slot>, side: Side)
    requires Enumerates(rows, w, v, found)
    ensures SumOf(rows, found, side) == Sum(rows, w, v, side)
  {
    SumOfIsTotal(rows, found, side);
    assert CountsOf(rows, found, side) == Counts(rows, w, v, side);
  }

  /** Replacing one row by another of the same warehouse changes only that warehouse's sum. */
  lemma SumUpdate(rows: map<Slot, Row>, slot: Slot, row: Row, w: WarehouseId, v: VariantId, side: Side)
    requires slot in rows ==> rows[slot].warehouse == row.warehouse
    ensures Sum(rows[slot := row], w, v, side) == Sum(rows, w, v, side) +
            if row.warehouse == w && slot.variant == v
            then Count(row, side) - (if slot in rows then Count(rows[slot], side) else 0)
            else 0
  {
    var rows' := rows[slot := row];
    if row.warehouse == w && slot.variant == v {
      assert Counts(rows', w, v, side) == Counts(rows, w, v, side)[slot := Count(row, side)];
      TotalUpdate(Counts(rows, w, v, side), slot, Count(row, side));
    } else {
      assert Counts(rows', w, v, side) == Counts(rows, w, v, side);
    }
  }

  // ---------------------------------------------------------------- the greedy loop

  /** Units change counters inside their own row and nowhere else. */
  ghost predicate MovesWithinRows(rows: map<Slot, Row>, rows': map<Slot, Row>, found: seq<Slot>) {
    && rows'.Keys == rows.Keys
    && (forall slot :: slot in rows ==>
          && rows'[slot].warehouse == rows[slot].warehouse
          && rows'[slot].available + rows'[slot].reserved == rows[slot].available + rows[slot].reserved)
    && (forall slot :: slot in rows && slot !in found ==> rows'[slot] == rows[slot])
  }

  ghost predicate AllStored(rows: map<Slot, Row>, found: seq<Slot>, w: WarehouseId, v: VariantId) {
    forall slot :: slot in found ==> slot in rows && Stores(rows, slot, w, v)
  }

  lemma ShiftStep(rows: map<Slot, Row>, found: seq<Slot>, take: int, from: Side, w: WarehouseId, v: VariantId)
    requires NonNegative(rows) && Distinct(found) && found != [] && AllStored(rows, found, w, v)
    requires 0 < take <= Count(rows[found[0]], from)
    ensures var rows1 := rows[found[0] := Moved(rows[found[0]], from, take)];
      && NonNegative(rows1) && AllStored(rows1, found[1..], w, v)
      && MovesWithinRows(rows, rows1, [found[0]])
      && (forall side :: SumOf(rows1, found[1..], side) == SumOf(rows, found[1..], side))
  {
    var rows1 := rows[found[0] := Moved(rows[found[0]], from, take)];
    assert forall slot :: slot in found[1..] ==> slot in found && slot != found[0];
    SumOfFrame(rows, rows1, found[1..], OnHand);
    SumOfFrame(rows, rows1, found[1..], Held);
  }

  lemma MovesCompose(rows: map<Slot, Row>, rows1: map<Slot, Row>, rows2: map<Slot, Row>, found: seq<Slot>)
    requires found != [] && MovesWithinRows(rows, rows1, [found[0]]) && MovesWithinRows(rows1, rows2, found[1..])
    ensures MovesWithinRows(rows, rows2, found)
  {
    assert forall slot :: slot in found <==> slot == found[0] || slot in found[1..];
  }

  /** One turn of the loop that takes something. */
  lemma ShiftUnfold(rows: map<Slot, Row>, found: seq<Slot>, q: int, from: Side)
    requires found != [] && forall slot :: slot in found ==> slot in rows
    requires 0 < Min(Count(rows[found[0]], from), q)
    ensures var take := Min(Count(rows[found[0]], from), q);
      var rows1 := rows[found[0] := Moved(rows[found[0]], from, take)];
      && (forall slot :: slot in found[1..] ==> slot in rows1)
      && Shift(rows, found, q, from) == Shift(rows1, found[1..], q - take, from)
  {
  }

  lemma RestStored(rows: map<Slot, Row>, found: seq<Slot>, w: WarehouseId, v: VariantId)
    requires found != [] && Distinct(found) && AllStored(rows, found, w, v)
    ensures Stores(rows, found[0], w, v) && found[0] !in found[1..]
    ensures Distinct(found[1..]) && AllStored(rows, found[1..], w, v)
  {
    assert forall slot :: slot in found[1..] ==> slot in found;
  }

  /** The greedy loop: every row keeps the sum of its counters and neither becomes negative. */
  lemma {:induction false} ShiftShape(rows: map<Slot, Row>, found: seq<Slot>, q: int, from: Side, w: WarehouseId, v: VariantId)
    requires NonNegative(rows) && Distinct(found) && AllStored(rows, found, w, v)
    ensures NonNegative(Shift(rows, found, q, from)) && MovesWithinRows(rows, Shift(rows, found, q, from), found)
    decreases |found|
  {
    if found != [] && q > 0 {
      RestStored(rows, found, w, v);
      var take := Min(Count(rows[found[0]], from), q);
      if take <= 0 {
        ShiftShape(rows, found[1..], q, from, w, v);
      } else {
        ShiftStep(rows, found, take, from, w, v);
        ShiftUnfold(rows, found, q, from);
        var rows1 := rows[found[0] := Moved(rows[found[0]], from, take)];
        ShiftShape(rows1, found[1..], q - take, from, w, v);
        MovesCompose(rows, rows1, Shift(rows1, found[1..], q - take, from), found);
      }
    }
  }

  /** What moves in total is the smaller of the request and what the listed rows hold. */
  ghost predicate SumsMove(rows: map<Slot, Row>, rows': map<Slot, Row>, found: seq<Slot>, from: Side, n: int) {
    && SumOf(rows', found, from) == SumOf(rows, found, from) - n
    && SumOf(rows', found, Other(from)) == SumOf(rows, found, Other(from)) + n
  }

  lemma SumsMoveStep(rows: map<Slot, Row>, rows1: map<Slot, Row>, rows': map<Slot, Row>, found: seq<Slot>, from: Side, take: int, n: int)
    requires found != [] && found[0] in rows && found[0] in rows1 && found[0] in rows'
    requires rows1[found[0]] == Moved(rows[found[0]], from, take) && rows'[found[0]] == rows1[found[0]]
    requires forall side :: SumOf(rows1, found[1..], side) == SumOf(rows, found[1..], side)
    requires SumsMove(rows1, rows', found[1..], from, n)
    ensures SumsMove(rows, rows', found, from, take + n)
  {
    assert SumOf(rows1, found[1..], from) == SumOf(rows, found[1..], from);
    assert SumOf(rows1, found[1..], Other(from)) == SumOf(rows, found[1..], Other(from));
  }

  lemma ShiftSumsTake(rows: map<Slot, Row>, rows1: map<Slot, Row>, found: seq<Slot>, q: int, from: Side, take: int, w: WarehouseId, v: VariantId)
    requires NonNegative(rows) && Distinct(found) && found != [] && AllStored(rows, found, w, v)
    requires take == Min(Count(rows[found[0]], from), q) && 0 < take
    requires rows1 == rows[found[0] := Moved(rows[found[0]], from, take)] && AllStored(rows1, found[1..], w, v)
    requires NonNegative(rows1) && 0 <= SumOf(rows1, found[1..], from)
    requires SumsMove(rows1, Shift(rows1, found[1..], q - take, from), found[1..], from, Min(q - take, SumOf(rows1, found[1..], from)))
    ensures 0 <= SumOf(rows, found, from)
    ensures SumsMove(rows, Shift(rows, found, q, from), found, from, Min(q, SumOf(rows, found, from)))
  {
    ShiftStep(rows, found, take, from, w, v);
    ShiftUnfold(rows, found, q, from);
    RestStored(rows, found, w, v);
    var rest := found[1..];
    ShiftShape(rows1, rest, q - take, from, w, v);
    SumsMoveStep(rows, rows1, Shift(rows1, rest, q - take, from), found, from, take,
                 Min(q - take, SumOf(rows1, rest, from)));
    assert SumOf(rows1, rest, from) == SumOf(rows, rest, from);
  }

  lemma {:induction false} ShiftSums(rows: map<Slot, Row>, found: seq<Slot>, q: int, from: Side, w: WarehouseId, v: VariantId)
    requires NonNegative(rows) && 0 <= q && Distinct(found) && AllStored(rows, found, w, v)
    ensures 0 <= SumOf(rows, found, from)
    ensures SumsMove(rows, Shift(rows, found, q, from), found, from, Min(q, SumOf(rows, found, from)))
    decreases |found|
  {
    if found != [] {
      RestStored(rows, found, w, v);
      var take := Min(Count(rows[found[0]], from), q);
      if take <= 0 {
        ShiftSums(rows, found[1..], q, from, w, v);
        ShiftShape(rows, found[1..], q, from, w, v);
        assert Shift(rows, found, q, from) == Shift(rows, found[1..], q, from);
      } else {
        ShiftStep(rows, found, take, from, w, v);
        var rows1 := rows[found[0] := Moved(rows[found[0]], from, take)];
        ShiftSums(rows1, found[1..], q - take, from, w, v);
        ShiftSumsTake(rows, rows1, found, q, from, take, w, v);
      }
    }
  }

  lemma {:induction false} SumOfFrame(rows: map<Slot, Row>, rows': map<Slot, Row>, found: seq<Slot>, side: Side)
    requires forall slot :: slot in found ==> slot in rows && slot in rows' && rows'[slot] == rows[slot]
    ensures SumOf(rows', found, side) == SumOf(rows, found, side)
    decreases |found|
  {
    if found != [] {
      SumOfFrame(rows, rows', found[1..], side);
    }
  }

  /** Sums of other variants and warehouses are untouched by the loop. */
  lemma ShiftFrame(rows: map<Slot, Row>, rows': map<Slot, Row>, found: seq<Slot>, w: WarehouseId, v: VariantId,
                   w': WarehouseId, v': VariantId, side: Side)
    requires MovesWithinRows(rows, rows', found) && (w, v) != (w', v')
    requires AllStored(rows, found, w, v)
    ensures Sum(rows', w', v', side) == Sum(rows, w', v', side)
  {
    assert Counts(rows', w', v', side) == Counts(rows, w', v', side);
  }

  // ---------------------------------------------------------------- ledger

  lemma ReplayAppend(ledger: seq<Movement>, m: Movement, w: WarehouseId, v: VariantId)
    ensures Replay(ledger + [m], w, v) == Replay(ledger, w, v) + Effect(m, w, v)
  {
    assert (ledger + [m])[..|ledger|] == ledger;
  }

  ghost predicate AvailableChanges(s: State, s': State, w: WarehouseId, v: VariantId, delta: int) {
    forall w': WarehouseId, v': VariantId ::
      Available(s', w', v') == Available(s, w', v') + if (w', v') == (w, v) then delta else 0
  }

  lemma ExplainedByOne(s: State, s': State, m: Movement)
    requires s'.ledger == s.ledger + [m]
    requires AvailableChanges(s, s', m.warehouse, m.variant, Effect(m, m.warehouse, m.variant))
    ensures Explained(s, s')
  {
    forall w: WarehouseId, v: VariantId
      ensures Available(s', w, v) - Available(s, w, v) == Replay(s'.ledger, w, v) - Replay(s.ledger, w, v)
    {
      ReplayAppend(s.ledger, m, w, v);
    }
  }

  lemma ExplainedTransitive(s0: State, s1: State, s2: State)
    requires Explained(s0, s1) && Explained(s1, s2)
    ensures Explained(s0, s2)
  {
    forall w: WarehouseId, v: VariantId
      ensures Available(s2, w, v) - Available(s0, w, v) == Replay(s2.ledger, w, v) - Replay(s0.ledger, w, v)
    {
      assert Available(s1, w, v) - Available(s0, w, v) == Replay(s1.ledger, w, v) - Replay(s0.ledger, w, v);
      assert Available(s2, w, v) - Available(s1, w, v) == Replay(s2.ledger, w, v) - Replay(s1.ledger, w, v);
    }
  }

  // ---------------------------------------------------------------- reserve and release

  /** `n` units of one variant in one warehouse moved from counter `from` to the other one. */
  ghost predicate Transferred(s: State, s': State, w: WarehouseId, v: VariantId, from: Side, n: int) {
    forall w': WarehouseId, v': VariantId ::
      var d := if (w', v') == (w, v) then n else 0;
      && Sum(s'.rows, w', v', from) == Sum(s.rows, w', v', from) - d
      && Sum(s'.rows, w', v', Other(from)) == Sum(s.rows, w', v', Other(from)) + d
  }

  lemma ShiftTransfers(s: State, s': State, w: WarehouseId, v: VariantId, found: seq<Slot>, q: int, from: Side)
    requires NonNegative(s.rows) && 0 <= q && IsQueryResult(s.rows, w, v, found)
    requires q <= Sum(s.rows, w, v, from)
    requires s'.rows == Shift(s.rows, found, q, from) && s'.bins == s.bins && RowsMatchBins(s)
    ensures NonNegative(s'.rows) && RowsMatchBins(s')
    ensures Transferred(s, s', w, v, from, q)
  {
    QuerySum(s.rows, w, v, found, from);
    QuerySum(s.rows, w, v, found, Other(from));
    ShiftShape(s.rows, found, q, from, w, v);
    ShiftSums(s.rows, found, q, from, w, v);
    assert Enumerates(s'.rows, w, v, found);
    QuerySum(s'.rows, w, v, found, from);
    QuerySum(s'.rows, w, v, found, Other(from));
    forall w': WarehouseId, v': VariantId | (w', v') != (w, v)
      ensures Sum(s'.rows, w', v', OnHand) == Sum(s.rows, w', v', OnHand)
      ensures Sum(s'.rows, w', v', Held) == Sum(s.rows, w', v', Held)
    {
      ShiftFrame(s.rows, s'.rows, found, w, v, w', v', OnHand);
      ShiftFrame(s.rows, s'.rows, found, w, v, w', v', Held);
    }
  }

  lemma TransferredExplained(s: State, s': State, w: WarehouseId, v: VariantId, from: Side, n: int, m: Movement)
    requires Transferred(s, s', w, v, from, n)
    requires s'.ledger == s.ledger + [m]
    requires m == Movement(w, v, if from == OnHand then ReservationHold else ReservationRelease, n)
    ensures Explained(s, s')
  {
    assert AvailableChanges(s, s', w, v, Effect(m, w, v)) by {
      forall w': WarehouseId, v': VariantId
        ensures Available(s', w', v') == Available(s, w', v') + if (w', v') == (w, v) then Effect(m, w, v) else 0
      {
        assert Sum(s'.rows, w', v', from) == Sum(s.rows, w', v', from) - if (w', v') == (w, v) then n else 0;
      }
    }
    ExplainedByOne(s, s', m);
  }

  /** Changing one reservation changes the promised total of its own variant only. */
  lemma PromisedUpdate(rs: map<ReservationId, Reservation>, id: ReservationId, r: Reservation, w: WarehouseId, v: VariantId)
    requires id in rs ==> rs[id].warehouse == r.warehouse && rs[id].variant == r.variant
    ensures Total(ActiveQuantities(rs[id := r], w, v)) == Total(ActiveQuantities(rs, w, v))
            + (if IsActiveFor(r, w, v) then r.quantity else 0)
            - (if id in rs && IsActiveFor(rs[id], w, v) then rs[id].quantity else 0)
  {
    var old_ := ActiveQuantities(rs, w, v);
    var new_ := ActiveQuantities(rs[id := r], w, v);
    if IsActiveFor(r, w, v) {
      assert new_ == old_[id := r.quantity as int];
      TotalUpdate(old_, id, r.quantity);
    } else if id in rs && IsActiveFor(rs[id], w, v) {
      assert new_ == old_ - {id};
      TotalRemove(old_, id);
    } else {
      assert new_ == old_;
    }
  }

  /** If the reserved counters and one reservation change by the same amount, the reserved
      counters still equal what the active reservations promise. */
  lemma StillCovered(s: State, s': State, id: ReservationId, r: Reservation, from: Side)
    requires ReservationsCovered(s)
    requires s'.reservations == s.reservations[id := r]
    requires from == OnHand ==> id !in s.reservations && r.status == Active
    requires from == Held ==> id in s.reservations && r == s.reservations[id].(status := Released) && s.reservations[id].status == Active
    requires Transferred(s, s', r.warehouse, r.variant, from, r.quantity)
    ensures ReservationsCovered(s')
  {
    forall w: WarehouseId, v: VariantId ensures Reserved(s', w, v) == Promised(s', w, v) {
      PromisedUpdate(s.reservations, id, r, w, v);
      assert Reserved(s, w, v) == Promised(s, w, v);
      assert Sum(s'.rows, w, v, from) == Sum(s.rows, w, v, from) - if (w, v) == (r.warehouse, r.variant) then r.quantity else 0;
    }
  }

  /** reserve: available falls and reserved rises by exactly the request, in that
      warehouse and variant only, and the new reservation accounts for it. */
  lemma ReserveLaw(plan: Plan, s: State, w: WarehouseId, v: VariantId, q: Quantity, order: Option<OrderId>)
    requires PlanOk(plan) && Inv(s)
    ensures var r := Reserve(plan, s, w, v, q, order);
      && (r.Ok? <==> w in s.warehouses && q <= Available(s, w, v))
      && (r.Ok? ==>
            && r.value.1 !in s.reservations && r.value.0.orders == s.orders
            && r.value.0.reservations == s.reservations[r.value.1 := Reservation(w, v, q, order, Active)]
            && Inv(r.value.0) && Explained(s, r.value.0)
            && Transferred(s, r.value.0, w, v, OnHand, q))
  {
    var found := plan(s, w, v);
    QuerySum(s.rows, w, v, found, OnHand);
    var r := Reserve(plan, s, w, v, q, order);
    if r.Ok? {
      var s' := r.value.0;
      ShiftTransfers(s, s', w, v, found, q, OnHand);
      TransferredExplained(s, s', w, v, OnHand, q, Movement(w, v, ReservationHold, q));
      StillCovered(s, s', r.value.1, Reservation(w, v, q, order, Active), OnHand);
    }
  }

  /** An active reservation never promises more than the rows hold. */
  lemma ActiveIsHeld(s: State, id: ReservationId)
    requires Inv(s) && id in s.reservations && s.reservations[id].status == Active
    ensures s.reservations[id].quantity <= Reserved(s, s.reservations[id].warehouse, s.reservations[id].variant)
  {
    var r := s.reservations[id];
    var active := ActiveQuantities(s.reservations, r.warehouse, r.variant);
    TotalRemove(active, id);
    TotalNonNegative(active - {id});
    assert Reserved(s, r.warehouse, r.variant) == Promised(s, r.warehouse, r.variant);
  }

  /** release: on an active reservation it always drains exactly the reserved quantity. */
  lemma ReleaseLaw(plan: Plan, s: State, id: ReservationId)
    requires PlanOk(plan) && Inv(s)
    ensures var r := Release(plan, s, id);
      && (r.Ok? <==> id in s.reservations && s.reservations[id].status == Active)
      && (r.Ok? ==>
            var res := s.reservations[id];
            && Inv(r.value) && Explained(s, r.value)
            && Transferred(s, r.value, res.warehouse, res.variant, Held, res.quantity)
            && r.value.reservations == s.reservations[id := res.(status := Released)]
            && r.value.orders == s.orders)
  {
    var r := Release(plan, s, id);
    if r.Ok? {
      var s' := r.value;
      var res := s.reservations[id];
      ActiveIsHeld(s, id);
      ShiftTransfers(s, s', res.warehouse, res.variant, plan(s, res.warehouse, res.variant), res.quantity, Held);
      TransferredExplained(s, s', res.warehouse, res.variant, Held, res.quantity,
                           Movement(res.warehouse, res.variant, ReservationRelease, res.quantity));
      StillCovered(s, s', id, res.(status := Released), Held);
    }
  }

  // ---------------------------------------------------------------- adjust, receive, transfer

  lemma PutSums(rows: map<Slot, Row>, slot: Slot, w: WarehouseId, delta: int, w': WarehouseId, v': VariantId)
    requires slot in rows ==> rows[slot].warehouse == w
    ensures var rows' := Put(rows, slot, w, delta);
      && Sum(rows', w', v', OnHand) == Sum(rows, w', v', OnHand) + (if (w', v') == (w, slot.variant) then delta else 0)
      && Sum(rows', w', v', Held) == Sum(rows, w', v', Held)
  {
    var row := Put(rows, slot, w, delta)[slot];
    SumUpdate(rows, slot, row, w', v', OnHand);
    SumUpdate(rows, slot, row, w', v', Held);
  }

  /** Putting stock into a bin changes that variant's available total and nothing else. */
  lemma PutLaw(s: State, slot: Slot, w: WarehouseId, delta: int, s': State)
    requires Inv(s) && BinIn(s, slot.bin, w)
    requires 0 <= OnHandAt(s.rows, slot) + delta
    requires s'.rows == Put(s.rows, slot, w, delta) && s'.bins == s.bins
    requires s'.reservations == s.reservations && s'.nextReservation == s.nextReservation
    ensures Inv(s')
    ensures AvailableChanges(s, s', w, slot.variant, delta)
  {
    forall w': WarehouseId, v': VariantId
      ensures Available(s', w', v') == Available(s, w', v') + if (w', v') == (w, slot.variant) then delta else 0
      ensures Reserved(s', w', v') == Promised(s', w', v')
    {
      PutSums(s.rows, slot, w, delta, w', v');
      assert Reserved(s, w', v') == Promised(s, w', v');
    }
  }

  lemma AdjustLaw(s: State, w: WarehouseId, slot: Slot, delta: int)
    requires Inv(s)
    ensures var r := Adjust(s, w, slot, delta);
      && (r.Ok? <==> w in s.warehouses && BinIn(s, slot.bin, w) && 0 <= OnHandAt(s.rows, slot) + delta)
      && (r.Ok? ==> Inv(r.value) && Explained(s, r.value))
  {
    var r := Adjust(s, w, slot, delta);
    if r.Ok? {
      PutLaw(s, slot, w, delta, r.value);
      ExplainedByOne(s, r.value, Movement(w, slot.variant, Adjustment, delta));
    }
  }

  lemma {:induction false} ReceiveItemsLaw(s: State, w: WarehouseId, items: seq<ReceiptItem>)
    requires Inv(s)
    ensures var r := ReceiveItems(s, w, items);
      r.Ok? ==> Inv(r.value) && Explained(s, r.value)
    decreases |items|
  {
    if items != [] {
      var first := ReceiveItem(s, w, items[0]);
      if first.Ok? {
        var item := items[0];
        assert 0 <= OnHandAt(s.rows, item.slot);
        PutLaw(s, item.slot, w, item.quantity, first.value);
        ExplainedByOne(s, first.value, Movement(w, item.slot.variant, Purchase, item.quantity));
        ReceiveItemsLaw(first.value, w, items[1..]);
        var r := ReceiveItems(first.value, w, items[1..]);
        if r.Ok? {
          ExplainedTransitive(s, first.value, r.value);
        }
      }
    }
  }

  lemma ReceiveLaw(s: State, number: DocumentNumber, w: WarehouseId, items: seq<ReceiptItem>)
    requires Inv(s)
    ensures var r := Receive(s, number, w, items);
      r.Ok? ==> Inv(r.value) && Explained(s, r.value)
  {
    var s0 := s.(receipts := s.receipts + {number});
    SameTables(s, s0);
    ReceiveItemsLaw(s0, w, items);
    if Receive(s, number, w, items).Ok? {
      ExplainedTransitive(s, s0, Receive(s, number, w, items).value);
    }
  }

  lemma SameTables(s: State, s': State)
    requires Inv(s)
    requires s'.rows == s.rows && s'.bins == s.bins && s'.ledger == s.ledger
    requires s'.reservations == s.reservations && s'.nextReservation == s.nextReservation
    ensures Inv(s') && Explained(s, s')
  {
    forall w: WarehouseId, v: VariantId ensures Reserved(s', w, v) == Promised(s', w, v) {
      assert Reserved(s, w, v) == Promised(s, w, v);
    }
  }

  /** Stock of a variant in both warehouses of a transfer. */
  ghost predicate Conserved(s: State, s': State, source: WarehouseId, target: WarehouseId) {
    forall v: VariantId ::
      Available(s', source, v) + Available(s', target, v) == Available(s, source, v) + Available(s, target, v)
  }

  lemma ConservedByPair(s: State, mid: State, s': State, source: WarehouseId, target: WarehouseId, v: VariantId, q: int)
    requires source != target
    requires AvailableChanges(s, mid, source, v, 0 - q) && AvailableChanges(mid, s', target, v, q)
    ensures Conserved(s, s', source, target)
  {
  }

  lemma TransferOneLaw(s: State, source: WarehouseId, target: WarehouseId, item: TransferItem)
    requires Inv(s) && source != target
    ensures var r := TransferOne(s, source, target, item);
      r.Ok? ==> Inv(r.value) && Explained(s, r.value) && Conserved(s, r.value, source, target)
  {
    var r := TransferOne(s, source, target, item);
    if r.Ok? {
      var out := Movement(source, item.variant, TransferOut, item.quantity);
      var in_ := Movement(target, item.variant, TransferIn, item.quantity);
      var fromSlot := Slot(item.fromBin, item.variant);
      var toSlot := Slot(item.toBin, item.variant);
      var mid := s.(rows := Put(s.rows, fromSlot, source, 0 - item.quantity), ledger := s.ledger + [out]);
      PutLaw(s, fromSlot, source, 0 - item.quantity, mid);
      ExplainedByOne(s, mid, out);
      assert fromSlot != toSlot;
      assert 0 <= OnHandAt(mid.rows, toSlot);
      PutLaw(mid, toSlot, target, item.quantity, r.value);
      assert r.value.ledger == mid.ledger + [in_];
      ExplainedByOne(mid, r.value, in_);
      ExplainedTransitive(s, mid, r.value);
      ConservedByPair(s, mid, r.value, source, target, item.variant, item.quantity);
    }
  }

  lemma {:induction false} TransferItemsLaw(s: State, source: WarehouseId, target: WarehouseId, items: seq<TransferItem>)
    requires Inv(s) && source != target
    ensures var r := TransferItems(s, source, target, items);
      r.Ok? ==> Inv(r.value) && Explained(s, r.value) && Conserved(s, r.value, source, target)
    decreases |items|
  {
    if items != [] {
      TransferOneLaw(s, source, target, items[0]);
      var first := TransferOne(s, source, target, items[0]);
      if first.Ok? {
        TransferItemsLaw(first.value, source, target, items[1..]);
        var r := TransferItems(first.value, source, target, items[1..]);
        if r.Ok? {
          ExplainedTransitive(s, first.value, r.value);
        }
      }
    }
  }

  /** transfer: each variant's total over both warehouses is conserved. */
  lemma TransferLaw(s: State, number: DocumentNumber, source: WarehouseId, target: WarehouseId, items: seq<TransferItem>)
    requires Inv(s)
    ensures var r := Transfer(s, number, source, target, items);
      r.Ok? ==> Inv(r.value) && Explained(s, r.value) && Conserved(s, r.value, source, target)
  {
    if source != target {
      var s0 := s.(transfers := s.transfers + {number});
      SameTables(s, s0);
      TransferItemsLaw(s0, source, target, items);
      var r := Transfer(s, number, source, target, items);
      if r.Ok? {
        ExplainedTransitive(s, s0, r.value);
      }
    }
  }

  // ---------------------------------------------------------------- releasing lists, cancelling orders

  ghost predicate AllActive(s: State, ids: seq<ReservationId>) {
    forall id :: id in ids ==> id in s.reservations && s.reservations[id].status == Active
  }

  /** What a list of reservations promises for one variant in one warehouse. */
  ghost function PromisedBy(s: State, ids: seq<ReservationId>, w: WarehouseId, v: VariantId): int
    requires forall id :: id in ids ==> id in s.reservations
  {
    if ids == [] then 0 else
      var r := s.reservations[ids[0]];
      (if r.warehouse == w && r.variant == v then r.quantity else 0) + PromisedBy(s, ids[1..], w, v)
  }

  lemma {:induction false} PromisedByFrame(s: State, s': State, ids: seq<ReservationId>, w: WarehouseId, v: VariantId)
    requires forall id :: id in ids ==>
      id in s.reservations && id in s'.reservations && s'.reservations[id] == s.reservations[id]
    ensures PromisedBy(s', ids, w, v) == PromisedBy(s, ids, w, v)
    decreases |ids|
  {
    if ids != [] {
      PromisedByFrame(s, s', ids[1..], w, v);
    }
  }

  /** Exactly the listed reservations changed, to released. */
  ghost predicate OnlyReleased(s: State, s': State, ids: seq<ReservationId>) {
    && s'.reservations.Keys == s.reservations.Keys
    && forall id :: id in s.reservations ==>
         s'.reservations[id] ==
           if id in ids then s.reservations[id].(status := Released) else s.reservations[id]
  }

  /** What the listed reservations promised is available instead of reserved. */
  ghost predicate GivenBack(s: State, s': State, ids: seq<ReservationId>)
    requires forall id :: id in ids ==> id in s.reservations
  {
    forall w: WarehouseId, v: VariantId ::
      && Available(s', w, v) == Available(s, w, v) + PromisedBy(s, ids, w, v)
      && Reserved(s', w, v) == Reserved(s, w, v) - PromisedBy(s, ids, w, v)
  }

  lemma GivenBackStep(s: State, s1: State, s2: State, ids: seq<ReservationId>)
    requires ids != [] && Distinct(ids) && AllActive(s, ids)
    requires s1.reservations == s.reservations[ids[0] := s.reservations[ids[0]].(status := Released)]
    requires Transferred(s, s1, s.reservations[ids[0]].warehouse, s.reservations[ids[0]].variant, Held,
                         s.reservations[ids[0]].quantity)
    requires (forall id :: id in ids[1..] ==> id in s1.reservations) && GivenBack(s1, s2, ids[1..])
    ensures GivenBack(s, s2, ids)
  {
    var rest := ids[1..];
    assert forall id :: id in rest ==> id in ids && id != ids[0];
    forall w: WarehouseId, v: VariantId
      ensures Available(s2, w, v) == Available(s, w, v) + PromisedBy(s, ids, w, v)
      ensures Reserved(s2, w, v) == Reserved(s, w, v) - PromisedBy(s, ids, w, v)
    {
      PromisedByFrame(s, s1, rest, w, v);
      assert Available(s2, w, v) == Available(s1, w, v) + PromisedBy(s1, rest, w, v);
    }
  }

  lemma OnlyReleasedStep(s: State, s1: State, s2: State, ids: seq<ReservationId>)
    requires ids != [] && ids[0] in s.reservations
    requires s1.reservations == s.reservations[ids[0] := s.reservations[ids[0]].(status := Released)]
    requires OnlyReleased(s1, s2, ids[1..])
    ensures OnlyReleased(s, s2, ids)
  {
  }

  /** Releasing distinct active reservations never fails and gives back exactly what
      they promised. */
  lemma {:induction false} ReleaseEachLaw(plan: Plan, s: State, ids: seq<ReservationId>)
    requires PlanOk(plan) && Inv(s) && Distinct(ids) && AllActive(s, ids)
    ensures var r := ReleaseEach(plan, s, ids);
      && r.Ok?
      && Inv(r.value) && Explained(s, r.value)
      && r.value.orders == s.orders
      && OnlyReleased(s, r.value, ids)
      && GivenBack(s, r.value, ids)
    decreases |ids|
  {
    if ids == [] {
      SameTables(s, s);
    } else {
      ReleaseLaw(plan, s, ids[0]);
      var s1 := Release(plan, s, ids[0]).value;
      var rest := ids[1..];
      assert forall id :: id in rest ==> id in ids && id != ids[0];
      ReleaseEachLaw(plan, s1, rest);
      var s2 := ReleaseEach(plan, s1, rest).value;
      ExplainedTransitive(s, s1, s2);
      GivenBackStep(s, s1, s2, ids);
      OnlyReleasedStep(s, s1, s2, ids);
    }
  }

  /** cancel: an order that may be cancelled is, exactly its active reservations are
      released, and the stock they held is available again. */
  lemma CancelOrderLaw(plan: Plan, s: State, order: OrderId, caller: nat, isAdmin: bool, ids: seq<ReservationId>)
    requires PlanOk(plan) && Inv(s) && IsActiveList(s, order, ids)
    ensures var r := CancelOrder(plan, s, order, caller, isAdmin, ids);
      && (r.Ok? <==> order in s.orders && (isAdmin || s.orders[order].customer == caller)
                     && Cancellable(s.orders[order].status))
      && (r.Ok? ==>
            && Inv(r.value) && Explained(s, r.value)
            && r.value.orders == s.orders[order := s.orders[order].(status := Cancelled)]
            && IsActiveList(r.value, order, []) && OnlyReleased(s, r.value, ids)
            && forall w: WarehouseId, v: VariantId ::
                 Available(r.value, w, v) == Available(s, w, v) + PromisedBy(s, ids, w, v))
  {
    if order in s.orders {
      var s0 := SetOrderStatus(s, order, Cancelled);
      SameTables(s, s0);
      ReleaseEachLaw(plan, s0, ids);
      var s1 := ReleaseEach(plan, s0, ids).value;
      ExplainedTransitive(s, s0, s1);
      forall w: WarehouseId, v: VariantId ensures PromisedBy(s0, ids, w, v) == PromisedBy(s, ids, w, v) {
        PromisedByFrame(s, s0, ids, w, v);
      }
    }
  }

  // ---------------------------------------------------------------- runs

  datatype Op =
    | DoReserve(w: WarehouseId, v: VariantId, q: Quantity, order: Option<OrderId>)
    | DoRelease(id: ReservationId)
    | DoAdjust(w: WarehouseId, slot: Slot, delta: int)
    | DoReceive(number: DocumentNumber, w: WarehouseId, items: seq<ReceiptItem>)
    | DoTransfer(number: DocumentNumber, source: WarehouseId, target: WarehouseId, lines: seq<TransferItem>)
    | DoCancel(orderId: OrderId, caller: nat, isAdmin: bool, ids: seq<ReservationId>)

  /** One call: a rejected one leaves the state as it was. */
  ghost predicate Next(plan: Plan, s: State, op: Op, s': State)
    requires PlanOk(plan)
  {
    match op
    case DoReserve(w, v, q, order) =>
      var r := Reserve(plan, s, w, v, q, order); s' == if r.Ok? then r.value.0 else s
    case DoRelease(id) =>
      var r := Release(plan, s, id); s' == if r.Ok? then r.value else s
    case DoAdjust(w, slot, delta) =>
      var r := Adjust(s, w, slot, delta); s' == if r.Ok? then r.value else s
    case DoReceive(number, w, items) =>
      var r := Receive(s, number, w, items); s' == if r.Ok? then r.value else s
    case DoTransfer(number, source, target, lines) =>
      var r := Transfer(s, number, source, target, lines); s' == if r.Ok? then r.value else s
    case DoCancel(order, caller, isAdmin, ids) =>
      && IsActiveList(s, order, ids)
      && var r := CancelOrder(plan, s, order, caller, isAdmin, ids); s' == if r.Ok? then r.value else s
  }

  lemma NextKeeps(plan: Plan, s: State, op: Op, s': State)
    requires PlanOk(plan) && Inv(s) && Next(plan, s, op, s')
    ensures Inv(s') && Explained(s, s')
  {
    SameTables(s, s);
    match op
    case DoReserve(w, v, q, order) => ReserveLaw(plan, s, w, v, q, order);
    case DoRelease(id) => ReleaseLaw(plan, s, id);
    case DoAdjust(w, slot, delta) => AdjustLaw(s, w, slot, delta);
    case DoReceive(number, w, items) => ReceiveLaw(s, number, w, items);
    case DoTransfer(number, source, target, lines) => TransferLaw(s, number, source, target, lines);
    case DoCancel(order, caller, isAdmin, ids) => CancelOrderLaw(plan, s, order, caller, isAdmin, ids);
  }

  /** The same fact with fewer details, for callers that only need the invariant. */
  lemma StepsKeepInv(plan: Plan, s: State, op: Op)
    requires PlanOk(plan) && Inv(s)
    ensures forall s' :: Next(plan, s, op, s') ==> Inv(s')
  {
    forall s' | Next(plan, s, op, s') ensures Inv(s') {
      NextKeeps(plan, s, op, s');
    }
  }

  /** `states` is what the database goes through while the calls `ops` are served. */
  ghost predicate IsRun(plan: Plan, states: seq<State>, ops: seq<Op>)
    requires PlanOk(plan)
  {
    && |states| == |ops| + 1
    && forall i :: 0 <= i < |ops| ==> Next(plan, states[i], ops[i], states[i + 1])
  }

  /** Along every run of reserve, release, adjust, receipt, transfer and order cancel:
      reserved stock equals the active reservations, no counter is negative, and available
      stock is the initial stock plus the replay of the ledger entries written since. */
  lemma {:induction false} RunLaw(plan: Plan, states: seq<State>, ops: seq<Op>, n: nat)
    requires PlanOk(plan) && IsRun(plan, states, ops) && Inv(states[0]) && n < |states|
    ensures Inv(states[n]) && Explained(states[0], states[n])
    decreases n
  {
    if n == 0 {
      SameTables(states[0], states[0]);
    } else {
      RunLaw(plan, states, ops, n - 1);
      NextKeeps(plan, states[n - 1], ops[n - 1], states[n]);
      ExplainedTransitive(states[0], states[n - 1], states[n]);
    }
  }

  /** From an empty ledger, the replay of the whole ledger is the change of stock. */
  lemma LedgerReplaysStock(plan: Plan, states: seq<State>, ops: seq<Op>, n: nat, w: WarehouseId, v: VariantId)
    requires PlanOk(plan) && IsRun(plan, states, ops) && Inv(states[0]) && n < |states|
    requires states[0].ledger == []
    ensures Available(states[n], w, v) == Available(states[0], w, v) + Replay(states[n].ledger, w, v)
    ensures Reserved(states[n], w, v) == Promised(states[n], w, v)
  {
    RunLaw(plan, states, ops, n);
    assert Replay(states[0].ledger, w, v) == 0;
  }
}
