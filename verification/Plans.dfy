/** A database can list rows as the stock operations expect: an order of rows exists for
    every state, so nothing that is proved under `PlanOk` is empty. */
module Plans {
  import opened Totals
  import opened Stock

  /** A slot with the most available units. */
  lemma {:induction false} Fullest(rows: map<Slot, Row>, slots: set<Slot>) returns (top: Slot)
    requires slots != {} && slots <= rows.Keys
    ensures top in slots && forall slot :: slot in slots ==> rows[slot].available <= rows[top].available
    decreases slots
  {
    var one :| one in slots;
    top := one;
    if slots != {one} {
      var rest := slots - {one};
      assert slots == rest + {one};
      var next := Fullest(rows, rest);
      if rows[one].available < rows[next].available {
        top := next;
      }
    }
  }

  ghost predicate IsFullest(rows: map<Slot, Row>, slots: set<Slot>, top: Slot)
    requires slots <= rows.Keys
  {
    top in slots && forall slot :: slot in slots ==> rows[slot].available <= rows[top].available
  }

  /** The slots by descending available quantity. */
  ghost function Descending(rows: map<Slot, Row>, slots: set<Slot>): (found: seq<Slot>)
    requires slots <= rows.Keys
    ensures Distinct(found) && forall slot :: slot in found <==> slot in slots
    ensures forall i, j :: 0 <= i < j < |found| ==> rows[found[i]].available >= rows[found[j]].available
    decreases slots
  {
    if slots == {} then [] else
      FullestExists(rows, slots);
      var top :| IsFullest(rows, slots, top);
      var rest := Descending(rows, slots - {top});
      assert forall i :: 0 <= i < |rest| ==> rest[i] in rest;
      [top] + rest
  }

  lemma FullestExists(rows: map<Slot, Row>, slots: set<Slot>)
    requires slots != {} && slots <= rows.Keys
    ensures exists top :: IsFullest(rows, slots, top)
  {
    var top := Fullest(rows, slots);
    assert IsFullest(rows, slots, top);
  }

  ghost function Query(s: State, w: WarehouseId, v: VariantId): (found: seq<Slot>)
    ensures IsQueryResult(s.rows, w, v, found)
  {
    Descending(s.rows, set slot | slot in s.rows && Stores(s.rows, slot, w, v))
  }

  lemma PlanExists()
    ensures exists plan: Plan :: PlanOk(plan)
  {
    var plan: Plan := (s: State, w: WarehouseId, v: VariantId) => Query(s, w, v);
    assert PlanOk(plan);
  }
}
