/** `reserve` between its read of the rows and its last row update, with other requests
    running in between. The lock on (warehouse, variant) excludes other reserve, release and
    adjust calls for the same pair. Goods receipts and incoming transfers take other lock
    keys, so they may add to any row or create rows at any moment. */
module ReserveInterleaving {
  import opened Totals
  import opened Stock
  import opened StockLaws

  /** What stays fixed during one call: the rows as read, the order in which they were
      listed, and the request. */
  datatype Call = Call(base: map<Slot, Row>, found: seq<Slot>, w: WarehouseId, v: VariantId, q: Quantity)

  /** `deposited` counts what others added to this warehouse and variant meanwhile. */
  datatype Progress = Progress(rows: map<Slot, Row>, position: nat, remaining: int, deposited: int)

  /** The call has read its rows and passed the availability check. */
  ghost predicate Admitted(c: Call) {
    && IsQueryResult(c.base, c.w, c.v, c.found)
    && NonNegative(c.base)
    && c.q <= SumOf(c.base, c.found, OnHand)
  }

  ghost predicate Init(c: Call, p: Progress) {
    p == Progress(c.base, 0, c.q, 0)
  }

  predicate Finished(c: Call, p: Progress) {
    p.position >= |c.found| || p.remaining <= 0
  }

  /** One iteration: the take is computed from the row as read, the update decrements and
      increments the row as it is now. */
  ghost predicate OwnStep(c: Call, p: Progress, p': Progress) {
    && !Finished(c, p)
    && c.found[p.position] in c.base
    && c.found[p.position] in p.rows
    && var slot := c.found[p.position];
       var take := Min(c.base[slot].available, p.remaining);
       p' == if take <= 0 then p.(position := p.position + 1)
             else p.(rows := p.rows[slot := Moved(p.rows[slot], OnHand, take)],
                     position := p.position + 1,
                     remaining := p.remaining - take)
  }

  /** A receipt line or the incoming half of a transfer line. */
  ghost predicate Deposit(c: Call, p: Progress, slot: Slot, target: WarehouseId, n: Quantity, p': Progress) {
    && (slot in p.rows ==> p.rows[slot].warehouse == target)
    && p' == p.(rows := Put(p.rows, slot, target, n),
                deposited := p.deposited + if (target, slot.variant) == (c.w, c.v) then n else 0)
  }

  /** Any other operation: it works on other variants or other warehouses. */
  ghost predicate Elsewhere(c: Call, p: Progress, p': Progress) {
    && NonNegative(p'.rows)
    && (forall slot :: Stores(p.rows, slot, c.w, c.v) <==> Stores(p'.rows, slot, c.w, c.v))
    && (forall slot :: slot in p.rows && Stores(p.rows, slot, c.w, c.v) ==> p'.rows[slot] == p.rows[slot])
    && p' == p.(rows := p'.rows)
  }

  ghost predicate Next(c: Call, p: Progress, p': Progress) {
    || OwnStep(c, p, p')
    || (exists slot: Slot, target: WarehouseId, n: Quantity :: Deposit(c, p, slot, target, n, p'))
    || Elsewhere(c, p, p')
  }

  /** The snapshot stays a lower bound of the rows not visited yet. */
  ghost predicate SnapshotBelow(c: Call, p: Progress) {
    forall i :: p.position <= i < |c.found| ==>
      && c.found[i] in c.base && Stores(p.rows, c.found[i], c.w, c.v)
      && c.base[c.found[i]].available <= p.rows[c.found[i]].available
  }

  ghost predicate Inv(c: Call, p: Progress)
    requires Admitted(c)
  {
    && p.position <= |c.found|
    && NonNegative(p.rows)
    && SnapshotBelow(c, p)
    && (forall slot :: slot in c.found[p.position..] ==> slot in c.base)
    && 0 <= p.remaining <= SumOf(c.base, c.found[p.position..], OnHand)
    && Sum(p.rows, c.w, c.v, Held) == Sum(c.base, c.w, c.v, Held) + (c.q - p.remaining)
    && Sum(p.rows, c.w, c.v, OnHand) == Sum(c.base, c.w, c.v, OnHand) - (c.q - p.remaining) + p.deposited
  }

  lemma InitInv(c: Call, p: Progress)
    requires Admitted(c) && Init(c, p)
    ensures Inv(c, p)
  {
    assert c.found[0..] == c.found;
    forall i | 0 <= i < |c.found| ensures Stores(c.base, c.found[i], c.w, c.v) {
      assert c.found[i] in c.found;
    }
  }

  lemma OwnStepSnapshot(c: Call, p: Progress, p': Progress)
    requires Admitted(c) && p.position < |c.found| && NonNegative(p.rows) && SnapshotBelow(c, p)
    requires OwnStep(c, p, p')
    ensures NonNegative(p'.rows) && SnapshotBelow(c, p')
  {
    var slot := c.found[p.position];
    assert forall i :: p.position < i < |c.found| ==> c.found[i] != slot;
  }

  lemma OwnStepSums(c: Call, p: Progress, p': Progress)
    requires p.position < |c.found| && Stores(p.rows, c.found[p.position], c.w, c.v) && OwnStep(c, p, p')
    ensures Sum(p'.rows, c.w, c.v, Held) - Sum(p.rows, c.w, c.v, Held) == p.remaining - p'.remaining
    ensures Sum(p'.rows, c.w, c.v, OnHand) - Sum(p.rows, c.w, c.v, OnHand) == p'.remaining - p.remaining
  {
    var slot := c.found[p.position];
    SumUpdate(p.rows, slot, p'.rows[slot], c.w, c.v, OnHand);
    SumUpdate(p.rows, slot, p'.rows[slot], c.w, c.v, Held);
    assert p'.rows == p.rows[slot := p'.rows[slot]];
  }

  lemma OwnStepKeeps(c: Call, p: Progress, p': Progress)
    requires Admitted(c) && Inv(c, p) && OwnStep(c, p, p')
    ensures Inv(c, p')
  {
    OwnStepSnapshot(c, p, p');
    OwnStepSums(c, p, p');
    var rest := c.found[p.position + 1..];
    assert c.found[p.position..][1..] == rest;
    assert forall slot :: slot in rest ==> slot in c.found[p.position..];
    SumOfNonNegative(c.base, rest);
  }

  lemma {:induction false} SumOfNonNegative(rows: map<Slot, Row>, found: seq<Slot>)
    requires NonNegative(rows) && forall slot :: slot in found ==> slot in rows
    ensures 0 <= SumOf(rows, found, OnHand)
    decreases |found|
  {
    if found != [] {
      SumOfNonNegative(rows, found[1..]);
    }
  }

  lemma DepositKeeps(c: Call, p: Progress, slot: Slot, target: WarehouseId, n: Quantity, p': Progress)
    requires Admitted(c) && Inv(c, p) && Deposit(c, p, slot, target, n, p')
    ensures Inv(c, p')
  {
    PutSums(p.rows, slot, target, n, c.w, c.v);
    DepositSnapshot(c, p, slot, target, n, p');
  }

  lemma DepositSnapshot(c: Call, p: Progress, slot: Slot, target: WarehouseId, n: Quantity, p': Progress)
    requires NonNegative(p.rows) && SnapshotBelow(c, p) && Deposit(c, p, slot, target, n, p')
    ensures NonNegative(p'.rows) && SnapshotBelow(c, p')
  {
  }

  lemma ElsewhereKeeps(c: Call, p: Progress, p': Progress)
    requires Admitted(c) && Inv(c, p) && Elsewhere(c, p, p')
    ensures Inv(c, p')
  {
    assert Counts(p'.rows, c.w, c.v, OnHand) == Counts(p.rows, c.w, c.v, OnHand);
    assert Counts(p'.rows, c.w, c.v, Held) == Counts(p.rows, c.w, c.v, Held);
  }

  ghost predicate IsInterleaving(c: Call, trace: seq<Progress>) {
    && |trace| > 0 && Init(c, trace[0])
    && forall i :: 0 <= i < |trace| - 1 ==> Next(c, trace[i], trace[i + 1])
  }

  lemma {:induction false} TraceInv(c: Call, trace: seq<Progress>, n: nat)
    requires Admitted(c) && IsInterleaving(c, trace) && n < |trace|
    ensures Inv(c, trace[n])
    decreases n
  {
    if n == 0 {
      InitInv(c, trace[0]);
    } else {
      TraceInv(c, trace, n - 1);
      var p, p' := trace[n - 1], trace[n];
      assert Next(c, p, p');
      if OwnStep(c, p, p') {
        OwnStepKeeps(c, p, p');
      } else if Elsewhere(c, p, p') {
        ElsewhereKeeps(c, p, p');
      } else {
        var slot: Slot, target: WarehouseId, m: Quantity :| Deposit(c, p, slot, target, m, p');
        DepositKeeps(c, p, slot, target, m, p');
      }
    }
  }

  /** In every interleaving: no row is ever negative, and once the loop ends exactly the
      requested quantity has moved from available to reserved. */
  lemma InterleavedReserveExact(c: Call, trace: seq<Progress>)
    requires Admitted(c) && IsInterleaving(c, trace)
    ensures forall n :: 0 <= n < |trace| ==> NonNegative(trace[n].rows) && SnapshotBelow(c, trace[n])
    ensures var last := trace[|trace| - 1];
      Finished(c, last) ==>
        && last.remaining == 0
        && Sum(last.rows, c.w, c.v, Held) == Sum(c.base, c.w, c.v, Held) + c.q
        && Sum(last.rows, c.w, c.v, OnHand) == Sum(c.base, c.w, c.v, OnHand) - c.q + last.deposited
  {
    forall n | 0 <= n < |trace| ensures Inv(c, trace[n]) {
      TraceInv(c, trace, n);
    }
  }
}
