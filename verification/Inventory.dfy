/** inventory-service: stock rows, the ledger, and the reserve/release/upsert/adjust operations. */
module Inventory {
  import opened Common
  import opened Events
  import opened Ledger

  datatype Stock = Stock(quantity: int, reserved: int, available: int)

  type Stocks = map<ProductId, Stock>

  datatype InventoryDb = InventoryDb(stock: Stocks, ledger: seq<LedgerRow>, outbox: seq<Event>)

  const EMPTY := InventoryDb(map[], [], [])

  datatype ReserveResult = Reserved | Refused
  datatype AdjustResult = Adjusted | NotFound | NegativeStock

  function Max(a: int, b: int): int { if a >= b then a else b }

  /** The row UPDATE of a reservation. */
  function Taken(row: Stock, quantity: int): Stock {
    Stock(row.quantity, row.reserved + quantity, row.available - quantity)
  }

  /** The row UPDATE of a release, with its clamp. */
  function GivenBack(row: Stock, quantity: int): Stock {
    Stock(row.quantity, Max(0, row.reserved - quantity), row.available + quantity)
  }

  // ---- What each operation is meant to do, stated over whole orders ----

  /** Every product's total demand, repeats included, fits what is available. */
  ghost predicate Fits(stock: Stocks, items: seq<Item>) {
    forall p: ProductId :: Demand(items, p) > 0 ==> p in stock && Demand(items, p) <= stock[p].available
  }

  /** Demand moved from available to reserved. */
  ghost function Deducted(stock: Stocks, items: seq<Item>): Stocks {
    map p | p in stock ::
      Taken(stock[p], Demand(items, p))
  }

  /** Demand moved back, with reserved clamped at zero as the UPDATE does. */
  ghost function Returned(stock: Stocks, items: seq<Item>): Stocks {
    map p | p in stock ::
      if Demand(items, p) == 0 then stock[p]
      else GivenBack(stock[p], Demand(items, p))
  }

  lemma {:induction false} PrefixOfPrefix(items: seq<Item>, n: nat, k: nat)
    requires k <= n <= |items|
    ensures items[..n][..k] == items[..k]
  {
  }

  /** The first item whose prefix no longer fits. */
  ghost function FirstMisfit(stock: Stocks, items: seq<Item>): (k: nat)
    requires !Fits(stock, items)
    ensures k < |items| && Fits(stock, items[..k]) && !Fits(stock, items[..k + 1])
  {
    var n := |items| - 1;
    if !Fits(stock, items[..n]) then
      var k := FirstMisfit(stock, items[..n]);
      PrefixOfPrefix(items, n, k);
      PrefixOfPrefix(items, n, k + 1);
      k
    else
      assert items[..n + 1] == items;
      n
  }

  /** What the failing SELECT sees as available: earlier items of the same order are already deducted. */
  ghost function Left(stock: Stocks, earlier: seq<Item>, p: ProductId): int {
    if p in stock then stock[p].available - Demand(earlier, p) else 0
  }

  ghost function ReserveNext(db: InventoryDb, o: OrderId, items: seq<Item>): InventoryDb {
    if HasRow(db.ledger, RESERVE, o) then db
    else if Fits(db.stock, items) then
      InventoryDb(
        Deducted(db.stock, items), db.ledger + ReserveRows(o, items), db.outbox + [InventoryReserved(o, items)])
    else
      var k := FirstMisfit(db.stock, items);
      var bad := items[k];
      var left := Left(db.stock, items[..k], bad.product);
      db.(outbox := db.outbox + [ReservationFailed(o, bad.product, bad.quantity, left)])
  }

  ghost function ReleaseNext(db: InventoryDb, o: OrderId, items: seq<Item>): InventoryDb {
    if HasRow(db.ledger, RELEASE, o) then db
    else
      InventoryDb(
        Returned(db.stock, items), db.ledger + ReleaseRows(o, items), db.outbox + [InventoryReleased(o, items)])
  }

  function UpsertNext(db: InventoryDb, p: ProductId, quantity: nat): InventoryDb {
    var row :=
      if p !in db.stock then Stock(quantity, 0, quantity)
      else
        var was := db.stock[p];
        Stock(quantity, was.reserved, Max(0, was.available + (quantity - was.quantity)));
    InventoryDb(
      db.stock[p := row],
      db.ledger + [LedgerRow(p, RESTOCK, quantity, None)],
      db.outbox + [StockUpdated(p, row.available, row.quantity)])
  }

  /** An adjustment is refused when it would make the quantity or the available count negative. */
  predicate AdjustAllowed(db: InventoryDb, p: ProductId, delta: int) {
    p in db.stock && db.stock[p].quantity + delta >= 0 && db.stock[p].available + delta >= 0
  }

  function AdjustNext(db: InventoryDb, p: ProductId, delta: int): InventoryDb {
    if !AdjustAllowed(db, p, delta) then db
    else
      var row := Stock(db.stock[p].quantity + delta, db.stock[p].reserved, db.stock[p].available + delta);
      InventoryDb(
        db.stock[p := row],
        db.ledger + [LedgerRow(p, ADJUST, delta, None)],
        db.outbox + [StockUpdated(p, row.available, row.quantity)])
  }

  datatype InventoryOp =
    | Upsert(product: ProductId, quantity: nat)
    | Adjust(product: ProductId, delta: int)
    | Reserve(order: OrderId, items: seq<Item>)
    | Release(order: OrderId, items: seq<Item>)

  ghost function InventoryNext(db: InventoryDb, op: InventoryOp): InventoryDb {
    match op
    case Upsert(p, q) => UpsertNext(db, p, q)
    case Adjust(p, d) => AdjustNext(db, p, d)
    case Reserve(o, items) => ReserveNext(db, o, items)
    case Release(o, items) => ReleaseNext(db, o, items)
  }

  ghost function InventoryRun(db: InventoryDb, ops: seq<InventoryOp>): InventoryDb {
    if ops == [] then db
    else InventoryNext(InventoryRun(db, ops[..|ops| - 1]), ops[|ops| - 1])
  }

  // ---- One item more: how the loops advance ----

  lemma {:induction false} FitsSnoc(stock: Stocks, items: seq<Item>, item: Item)
    ensures Fits(stock, items + [item]) <==>
              Fits(stock, items) && item.product in stock && Left(stock, items, item.product) >= item.quantity
  {
    forall p { DemandSnoc(items, item, p); }
    if Fits(stock, items + [item]) {
      assert Demand(items + [item], item.product) > 0;
      forall p: ProductId | Demand(items, p) > 0
        ensures p in stock && Demand(items, p) <= stock[p].available
      {
        assert Demand(items + [item], p) >= Demand(items, p);
      }
    }
  }

  lemma {:induction false} FitsPrefix(stock: Stocks, items: seq<Item>, k: nat, n: nat)
    requires k <= n <= |items| && Fits(stock, items[..n])
    ensures Fits(stock, items[..k])
  {
    assert items[..n][..k] == items[..k];
    forall p: ProductId | Demand(items[..k], p) > 0
      ensures p in stock && Demand(items[..k], p) <= stock[p].available
    {
      DemandPrefix(items[..n], k, p);
    }
  }

  lemma {:induction false} DeductedSnoc(stock: Stocks, items: seq<Item>, item: Item)
    requires item.product in stock
    ensures Deducted(stock, items + [item]) ==
              var s := Deducted(stock, items);
              var row := s[item.product];
              s[item.product := Taken(row, item.quantity)]
  {
    forall p { DemandSnoc(items, item, p); }
  }

  lemma {:induction false} ReturnedSnoc(stock: Stocks, items: seq<Item>, item: Item)
    ensures Returned(stock, items + [item]) ==
              var s := Returned(stock, items);
              if item.product !in s then s
              else
                var row := s[item.product];
                s[item.product := GivenBack(row, item.quantity)]
  {
    forall p { DemandSnoc(items, item, p); }
  }

  /** The tables of the reserve loop after i items. */
  ghost predicate ReservedSoFar(db0: InventoryDb, db: InventoryDb, o: OrderId, items: seq<Item>, i: nat)
    requires i <= |items|
  {
    && Fits(db0.stock, items[..i])
    && db == db0.(stock := Deducted(db0.stock, items[..i]), ledger := db0.ledger + ReserveRows(o, items[..i]))
  }

  lemma {:induction false} ReserveStarts(db0: InventoryDb, o: OrderId, items: seq<Item>)
    ensures ReservedSoFar(db0, db0, o, items, 0)
  {
    assert items[..0] == [];
  }

  /** Whether the loop finds enough of item i. */
  predicate Suffices(stock: Stocks, item: Item) {
    item.product in stock && stock[item.product].available >= item.quantity
  }

  lemma {:induction false} ReserveAdvances(db0: InventoryDb, db: InventoryDb, o: OrderId, items: seq<Item>, i: nat)
    requires i < |items| && ReservedSoFar(db0, db, o, items, i) && Suffices(db.stock, items[i])
    ensures var item := items[i];
            var db' := db.(stock := db.stock[item.product := Taken(db.stock[item.product], item.quantity)],
                           ledger := db.ledger + [ReserveRow(o, item)]);
            ReservedSoFar(db0, db', o, items, i + 1)
  {
    assert items[..i + 1] == items[..i] + [items[i]];
    FitsSnoc(db0.stock, items[..i], items[i]);
    DeductedSnoc(db0.stock, items[..i], items[i]);
    assert ReserveRows(o, items[..i + 1]) == ReserveRows(o, items[..i]) + [ReserveRow(o, items[i])];
  }

  lemma {:induction false} ReserveStops(db0: InventoryDb, db: InventoryDb, o: OrderId, items: seq<Item>, i: nat)
    requires i < |items| && ReservedSoFar(db0, db, o, items, i) && !Suffices(db.stock, items[i])
    ensures !Fits(db0.stock, items) && FirstMisfit(db0.stock, items) == i
    ensures var p := items[i].product;
            Left(db0.stock, items[..i], p) == if p in db.stock then db.stock[p].available else 0
  {
    assert items[..i + 1] == items[..i] + [items[i]];
    FitsSnoc(db0.stock, items[..i], items[i]);
    MisfitHere(db0.stock, items, i);
  }

  /** The tables of the release loop after i items. */
  ghost predicate ReleasedSoFar(db0: InventoryDb, db: InventoryDb, o: OrderId, items: seq<Item>, i: nat)
    requires i <= |items|
  {
    db == db0.(stock := Returned(db0.stock, items[..i]), ledger := db0.ledger + ReleaseRows(o, items[..i]))
  }

  lemma {:induction false} ReleaseStarts(db0: InventoryDb, o: OrderId, items: seq<Item>)
    ensures ReleasedSoFar(db0, db0, o, items, 0)
  {
    assert items[..0] == [];
    assert Returned(db0.stock, []) == db0.stock;
  }

  lemma {:induction false} ReleaseAdvances(db0: InventoryDb, db: InventoryDb, o: OrderId, items: seq<Item>, i: nat)
    requires i < |items| && ReleasedSoFar(db0, db, o, items, i)
    ensures var item := items[i];
            var stock := if item.product !in db.stock then db.stock
                         else db.stock[item.product := GivenBack(db.stock[item.product], item.quantity)];
            ReleasedSoFar(db0, db.(stock := stock, ledger := db.ledger + [ReleaseRow(o, item)]), o, items, i + 1)
  {
    assert items[..i + 1] == items[..i] + [items[i]];
    ReturnedSnoc(db0.stock, items[..i], items[i]);
    assert ReleaseRows(o, items[..i + 1]) == ReleaseRows(o, items[..i]) + [ReleaseRow(o, items[i])];
  }

  // ---- What the service promises about its tables, column by column ----

  /** Each product's demand leaves available for reserved, and nothing else changes. */
  ghost predicate Moves(before: Stocks, after: Stocks, items: seq<Item>) {
    && after.Keys == before.Keys
    && forall p | p in before ::
         && after[p].quantity == before[p].quantity
         && after[p].reserved == before[p].reserved + Demand(items, p)
         && after[p].available == before[p].available - Demand(items, p)
  }

  /** The same backwards, for each product with a demand, but reserved stops at zero. */
  ghost predicate GivesBack(before: Stocks, after: Stocks, items: seq<Item>) {
    && after.Keys == before.Keys
    && forall p | p in before ::
         var left := before[p].reserved - Demand(items, p);
         && after[p].quantity == before[p].quantity
         && after[p].available == before[p].available + Demand(items, p)
         && after[p].reserved == if Demand(items, p) > 0 && left < 0 then 0 else left
  }

  /** One row per item, in its place, with the item's product and its quantity with the sign given. */
  predicate AppendsRows(
    before: seq<LedgerRow>, after: seq<LedgerRow>, kind: LedgerType, o: OrderId, items: seq<Item>, sign: int)
  {
    && |after| == |before| + |items| && before <= after
    && forall k | 0 <= k < |items| ::
         after[|before| + k] == LedgerRow(items[k].product, kind, sign * items[k].quantity, Some(o))
  }

  /** Item k is the first whose demand, earlier items included, exceeds what there is; left is what they leave. */
  ghost predicate IsMisfit(stock: Stocks, items: seq<Item>, k: nat, left: int)
    requires k < |items|
  {
    var item := items[k];
    && left == (if item.product in stock then stock[item.product].available - Demand(items[..k], item.product) else 0)
    && (item.product !in stock || left < item.quantity)
    && forall p: ProductId | Demand(items[..k], p) > 0 ::
         p in stock && Demand(items[..k], p) <= stock[p].available
  }

  lemma {:induction false} MisfitSeen(stock: Stocks, items: seq<Item>, k: nat, left: int)
    requires k < |items| && Fits(stock, items[..k]) && left == Left(stock, items[..k], items[k].product)
    requires items[k].product !in stock || left < items[k].quantity
    ensures IsMisfit(stock, items, k, left)
  {
  }

  /** The service object: its fields are the tables of the inventory database. */
  class InventoryService {
    var stock: Stocks
    var ledger: seq<LedgerRow>
    var outbox: seq<Event>

    constructor ()
      ensures Db() == EMPTY
    {
      stock, ledger, outbox := map[], [], [];
    }

    ghost function Db(): InventoryDb
      reads this
    {
      InventoryDb(stock, ledger, outbox)
    }

    /**
     * Reserves item by item inside a transaction and rolls back at the first item that does not fit.
     * Whole orders succeed exactly when every product's total demand fits.
     */
    method ReserveOrder(o: OrderId, items: seq<Item>) returns (res: ReserveResult)
      modifies this
      ensures Db() == ReserveNext(old(Db()), o, items)
      ensures res == Reserved <==>
        (HasRow(old(ledger), RESERVE, o) ||
         forall p: ProductId | Demand(items, p) > 0 ::
           p in old(stock) && Demand(items, p) <= old(stock)[p].available)
      ensures HasRow(old(ledger), RESERVE, o) ==> unchanged(this)
      ensures res == Reserved && !HasRow(old(ledger), RESERVE, o) ==>
        && Moves(old(stock), stock, items)
        && AppendsRows(old(ledger), ledger, RESERVE, o, items, -1)
        && outbox == old(outbox) + [InventoryReserved(o, items)]
      ensures res == Refused ==>
        && stock == old(stock) && ledger == old(ledger)
        && exists k, left | 0 <= k < |items| && IsMisfit(old(stock), items, k, left) ::
             outbox == old(outbox) + [ReservationFailed(o, items[k].product, items[k].quantity, left)]
    {
      if HasRow(ledger, RESERVE, o) {
        return Reserved;
      }
      var stock0, ledger0 := stock, ledger;
      ghost var db0 := Db();
      ReserveStarts(db0, o, items);
      var i := 0;
      while i < |items|
        invariant i <= |items|
        invariant ReservedSoFar(db0, Db(), o, items, i)
      {
        var item := items[i];
        if item.product !in stock || stock[item.product].available < item.quantity {
          ReserveStops(db0, Db(), o, items, i);
          var available := if item.product in stock then stock[item.product].available else 0;
          MisfitSeen(db0.stock, items, i, available);
          stock, ledger := stock0, ledger0; // rollbackTransaction
          outbox := outbox + [ReservationFailed(o, item.product, item.quantity, available)];
          return Refused;
        }
        ReserveAdvances(db0, Db(), o, items, i);
        stock := stock[item.product := Taken(stock[item.product], item.quantity)];
        ledger := ledger + [ReserveRow(o, item)];
        i := i + 1;
      }
      assert items[..|items|] == items;
      outbox := outbox + [InventoryReserved(o, items)];
      return Reserved;
    }

    method ReleaseOrder(o: OrderId, items: seq<Item>)
      modifies this
      ensures Db() == ReleaseNext(old(Db()), o, items)
      ensures HasRow(old(ledger), RELEASE, o) ==> unchanged(this)
      ensures !HasRow(old(ledger), RELEASE, o) ==>
        && GivesBack(old(stock), stock, items)
        && AppendsRows(old(ledger), ledger, RELEASE, o, items, 1)
        && outbox == old(outbox) + [InventoryReleased(o, items)]
    {
      if HasRow(ledger, RELEASE, o) {
        return;
      }
      ghost var db0 := Db();
      ReleaseStarts(db0, o, items);
      var i := 0;
      while i < |items|
        invariant i <= |items|
        invariant ReleasedSoFar(db0, Db(), o, items, i)
      {
        var item := items[i];
        ReleaseAdvances(db0, Db(), o, items, i);
        if item.product in stock { // the UPDATE touches no row when the product is unknown
          stock := stock[item.product := GivenBack(stock[item.product], item.quantity)];
        }
        ledger := ledger + [ReleaseRow(o, item)];
        i := i + 1;
      }
      assert items[..|items|] == items;
      outbox := outbox + [InventoryReleased(o, items)];
    }

    method UpsertStock(p: ProductId, quantity: nat)
      modifies this
      ensures Db() == UpsertNext(old(Db()), p, quantity)
      ensures stock.Keys == old(stock).Keys + {p} && stock[p].quantity == quantity
      ensures forall q | q in old(stock) && q != p :: stock[q] == old(stock)[q]
      ensures p !in old(stock) ==> stock[p].reserved == 0 && stock[p].available == quantity
      ensures p in old(stock) ==>
        var was, shifted := old(stock)[p], old(stock)[p].available + quantity - old(stock)[p].quantity;
        stock[p].reserved == was.reserved && stock[p].available == if shifted >= 0 then shifted else 0
      ensures ledger == old(ledger) + [LedgerRow(p, RESTOCK, quantity, None)]
      ensures outbox == old(outbox) + [StockUpdated(p, stock[p].available, quantity)]
    {
      if p !in stock {
        stock := stock[p := Stock(quantity, 0, quantity)];
      } else {
        var delta := quantity - stock[p].quantity;
        stock := stock[p := Stock(quantity, stock[p].reserved, Max(0, stock[p].available + delta))];
      }
      ledger := ledger + [LedgerRow(p, RESTOCK, quantity, None)];
      outbox := outbox + [StockUpdated(p, stock[p].available, stock[p].quantity)];
    }

    method AdjustStock(p: ProductId, delta: int) returns (res: AdjustResult)
      modifies this
      ensures Db() == AdjustNext(old(Db()), p, delta)
      ensures res == NotFound <==> p !in old(stock)
      ensures res == NegativeStock <==>
        (p in old(stock) && (old(stock)[p].quantity + delta < 0 || old(stock)[p].available + delta < 0))
      ensures res != Adjusted ==> unchanged(this)
      ensures res == Adjusted ==>
        && stock.Keys == old(stock).Keys && (forall q | q in stock && q != p :: stock[q] == old(stock)[q])
        && stock[p].quantity == old(stock)[p].quantity + delta
        && stock[p].available == old(stock)[p].available + delta
        && stock[p].reserved == old(stock)[p].reserved
        && ledger == old(ledger) + [LedgerRow(p, ADJUST, delta, None)]
        && outbox == old(outbox) + [StockUpdated(p, stock[p].available, stock[p].quantity)]
    {
      if p !in stock {
        return NotFound;
      }
      var newQuantity, newAvailable := stock[p].quantity + delta, stock[p].available + delta;
      if newQuantity < 0 || newAvailable < 0 {
        return NegativeStock;
      }
      stock := stock[p := Stock(newQuantity, stock[p].reserved, newAvailable)];
      ledger := ledger + [LedgerRow(p, ADJUST, delta, None)];
      outbox := outbox + [StockUpdated(p, newAvailable, newQuantity)];
      return Adjusted;
    }
  }

  /** The first failing prefix is where the loop stops. */
  lemma {:induction false} MisfitHere(stock: Stocks, items: seq<Item>, i: nat)
    requires i < |items| && Fits(stock, items[..i]) && !Fits(stock, items[..i + 1])
    ensures !Fits(stock, items) && FirstMisfit(stock, items) == i
  {
    assert items[..|items|] == items;
    if Fits(stock, items) {
      FitsPrefix(stock, items, i + 1, |items|);
    }
    var k := FirstMisfit(stock, items);
    if k < i {
      FitsPrefix(stock, items, k + 1, i);
    } else if i < k {
      FitsPrefix(stock, items, i + 1, k);
    }
  }

  /** Neither the verdict nor the stock depends on the order in which items are listed. */
  lemma {:induction false} ReserveIgnoresItemOrder(db: InventoryDb, o: OrderId, a: seq<Item>, b: seq<Item>)
    requires multiset(a) == multiset(b)
    ensures Fits(db.stock, a) <==> Fits(db.stock, b)
    ensures ReserveNext(db, o, a).stock == ReserveNext(db, o, b).stock
    ensures forall p :: HeldTotal(ReserveNext(db, o, a).ledger, p) == HeldTotal(ReserveNext(db, o, b).ledger, p)
  {
    forall p { DemandPermutation(a, b, p); }
    forall p
      ensures HeldTotal(ReserveNext(db, o, a).ledger, p) == HeldTotal(ReserveNext(db, o, b).ledger, p)
    {
      HeldTotalAppend(db.ledger, ReserveRows(o, a), p);
      HeldTotalAppend(db.ledger, ReserveRows(o, b), p);
      HeldByReserveRows(o, a, p);
      HeldByReserveRows(o, b, p);
    }
  }

  // ---- Duplicate commands ----

  lemma {:induction false} ReserveRowsHaveRow(ledger: seq<LedgerRow>, o: OrderId, items: seq<Item>, q: OrderId)
    ensures HasRow(ledger + ReserveRows(o, items), RESERVE, q)
       <==> HasRow(ledger, RESERVE, q) || (q == o && items != [])
    ensures HasRow(ledger + ReserveRows(o, items), RELEASE, q) <==> HasRow(ledger, RELEASE, q)
  {
    HasRowAppend(ledger, ReserveRows(o, items), RESERVE, q);
    HasRowAppend(ledger, ReserveRows(o, items), RELEASE, q);
    assert items != [] ==> IsRow(ReserveRows(o, items)[0], RESERVE, o);
  }

  lemma {:induction false} ReleaseRowsHaveRow(ledger: seq<LedgerRow>, o: OrderId, items: seq<Item>, q: OrderId)
    ensures HasRow(ledger + ReleaseRows(o, items), RELEASE, q)
       <==> HasRow(ledger, RELEASE, q) || (q == o && items != [])
    ensures HasRow(ledger + ReleaseRows(o, items), RESERVE, q) <==> HasRow(ledger, RESERVE, q)
  {
    HasRowAppend(ledger, ReleaseRows(o, items), RELEASE, q);
    HasRowAppend(ledger, ReleaseRows(o, items), RESERVE, q);
    assert items != [] ==> IsRow(ReleaseRows(o, items)[0], RELEASE, o);
  }

  /** A command is ignored exactly when its ledger lookup finds a row. */
  lemma {:induction false} IgnoredIff(db: InventoryDb, o: OrderId, items: seq<Item>)
    ensures ReserveNext(db, o, items) == db <==> HasRow(db.ledger, RESERVE, o)
    ensures ReleaseNext(db, o, items) == db <==> HasRow(db.ledger, RELEASE, o)
  {
    if !HasRow(db.ledger, RESERVE, o) {
      assert |ReserveNext(db, o, items).outbox| > |db.outbox|;
    }
    if !HasRow(db.ledger, RELEASE, o) {
      assert |ReleaseNext(db, o, items).outbox| > |db.outbox|;
    }
  }

  /** Operation i of a run reserves order o: its command names an item, and everything it asks for fits. */
  ghost predicate Reserves(db: InventoryDb, ops: seq<InventoryOp>, i: nat, o: OrderId)
    requires i < |ops|
  {
    ops[i].Reserve? && ops[i].order == o && ops[i].items != [] && Fits(InventoryRun(db, ops[..i]).stock, ops[i].items)
  }

  predicate Releases(op: InventoryOp, o: OrderId) {
    op.Release? && op.order == o && op.items != []
  }

  lemma {:induction false} StepLeavesRow(db: InventoryDb, op: InventoryOp, o: OrderId)
    ensures HasRow(InventoryNext(db, op).ledger, RESERVE, o)
       <==> HasRow(db.ledger, RESERVE, o)
            || (op.Reserve? && op.order == o && op.items != [] && Fits(db.stock, op.items))
    ensures HasRow(InventoryNext(db, op).ledger, RELEASE, o) <==> HasRow(db.ledger, RELEASE, o) || Releases(op, o)
  {
    match op
    case Reserve(r, items) => ReserveRowsHaveRow(db.ledger, r, items, o);
    case Release(r, items) => ReleaseRowsHaveRow(db.ledger, r, items, o);
    case Upsert(p, quantity) => OtherRowAdded(db.ledger, LedgerRow(p, RESTOCK, quantity, None), o);
    case Adjust(p, delta) => OtherRowAdded(db.ledger, LedgerRow(p, ADJUST, delta, None), o);
  }

  lemma {:induction false} OtherRowAdded(ledger: seq<LedgerRow>, row: LedgerRow, o: OrderId)
    requires row.kind !in {RESERVE, RELEASE}
    ensures HasRow(ledger + [row], RESERVE, o) <==> HasRow(ledger, RESERVE, o)
    ensures HasRow(ledger + [row], RELEASE, o) <==> HasRow(ledger, RELEASE, o)
  {
    HasRowSnoc(ledger, row, RESERVE, o);
    HasRowSnoc(ledger, row, RELEASE, o);
  }

  lemma {:induction false} ReservesSnoc(db: InventoryDb, ops: seq<InventoryOp>, o: OrderId)
    requires ops != []
    ensures var n := |ops| - 1;
            (exists i: nat | i < |ops| :: Reserves(db, ops, i, o)) <==>
              Reserves(db, ops, n, o) || exists i: nat | i < n :: Reserves(db, ops[..n], i, o)
  {
    var n := |ops| - 1;
    forall i: nat | i < n ensures Reserves(db, ops[..n], i, o) <==> Reserves(db, ops, i, o) {
      assert ops[..n][..i] == ops[..i];
    }
  }

  lemma {:induction false} ReleasesSnoc(ops: seq<InventoryOp>, o: OrderId)
    requires ops != []
    ensures var n := |ops| - 1;
            (exists i: nat | i < |ops| :: Releases(ops[i], o)) <==>
              Releases(ops[n], o) || exists i: nat | i < n :: Releases(ops[..n][i], o)
  {
    var n := |ops| - 1;
    forall i: nat | i < n ensures Releases(ops[..n][i], o) <==> Releases(ops[i], o) {}
  }

  /** Which orders have rows after any operations: those that had them, and those reserved or released since. */
  lemma {:induction false} RowsIff(db: InventoryDb, ops: seq<InventoryOp>, o: OrderId)
    ensures HasRow(InventoryRun(db, ops).ledger, RESERVE, o)
       <==> HasRow(db.ledger, RESERVE, o) || exists i: nat | i < |ops| :: Reserves(db, ops, i, o)
    ensures HasRow(InventoryRun(db, ops).ledger, RELEASE, o)
       <==> HasRow(db.ledger, RELEASE, o) || exists i: nat | i < |ops| :: Releases(ops[i], o)
    decreases |ops|
  {
    if ops != [] {
      var n := |ops| - 1;
      RowsIff(db, ops[..n], o);
      StepLeavesRow(InventoryRun(db, ops[..n]), ops[n], o);
      ReservesSnoc(db, ops, o);
      ReleasesSnoc(ops, o);
    }
  }

  /**
   * After any operations, a further reserve of an order is ignored if and only if one of them reserved it, or it was
   * reserved before: an earlier delivery that was refused, or that named no item, does not count. A further release
   * is ignored if and only if an earlier one named an item.
   */
  lemma {:induction false} DuplicateIgnoredIff(db: InventoryDb, ops: seq<InventoryOp>, o: OrderId, items: seq<Item>)
    ensures var later := InventoryRun(db, ops);
            ReserveNext(later, o, items) == later <==>
              HasRow(db.ledger, RESERVE, o) || exists i: nat | i < |ops| :: Reserves(db, ops, i, o)
    ensures var later := InventoryRun(db, ops);
            ReleaseNext(later, o, items) == later <==>
              HasRow(db.ledger, RELEASE, o) || exists i: nat | i < |ops| :: Releases(ops[i], o)
  {
    IgnoredIff(InventoryRun(db, ops), o, items);
    RowsIff(db, ops, o);
  }

  /** A refusal leaves no trace that a replay would find: after a restock the same command reserves. */
  lemma {:induction false} RefusalIsNotRemembered()
    ensures var refused := ReserveNext(EMPTY, 1, [Item(7, 2)]);
            var replayed := ReserveNext(UpsertNext(refused, 7, 5), 1, [Item(7, 2)]);
            && refused.outbox == [ReservationFailed(1, 7, 2, 0)]
            && replayed.stock == map[7 := Stock(5, 2, 3)]
            && HasRow(replayed.ledger, RESERVE, 1)
  {
    var items := [Item(7, 2)];
    assert items[..0] == [];
    forall p: ProductId ensures Demand(items, p) == if p == 7 then 2 else 0 {}
    assert Demand(items, 7) > 0 && !Fits(EMPTY.stock, items);
    var refused := ReserveNext(EMPTY, 1, items);
    var restocked := UpsertNext(refused, 7, 5);
    assert restocked.stock == map[7 := Stock(5, 0, 5)];
    assert Fits(restocked.stock, items);
    ReserveRowsHaveRow(restocked.ledger, 1, items, 1);
  }

  // ---- The stock arithmetic over any run ----

  function Gap(db: InventoryDb, p: ProductId): int {
    if p in db.stock then db.stock[p].available + db.stock[p].reserved - db.stock[p].quantity else 0
  }

  /** No column is negative, and the split of a product never falls short of its quantity. */
  predicate Sane(db: InventoryDb) {
    forall p :: p in db.stock ==>
      db.stock[p].quantity >= 0 && db.stock[p].reserved >= 0 && db.stock[p].available >= 0 && Gap(db, p) >= 0
  }

  /** The two places where the code clamps at zero. */
  ghost predicate ClampFires(db: InventoryDb, op: InventoryOp, p: ProductId) {
    p in db.stock &&
    match op
    case Upsert(q, quantity) => q == p && db.stock[p].available + (quantity - db.stock[p].quantity) < 0
    case Release(o, items) => !HasRow(db.ledger, RELEASE, o) && Demand(items, p) > db.stock[p].reserved
    case _ => false
  }

  lemma {:induction false} StepKeepsSane(db: InventoryDb, op: InventoryOp, p: ProductId)
    requires Sane(db)
    ensures Sane(InventoryNext(db, op))
    ensures Gap(InventoryNext(db, op), p) >= Gap(db, p)
    ensures Gap(InventoryNext(db, op), p) > Gap(db, p) <==> ClampFires(db, op, p)
  {
    match op
    case Reserve(o, items) =>
      if !HasRow(db.ledger, RESERVE, o) && Fits(db.stock, items) {
        forall q | q in db.stock ensures Demand(items, q) <= db.stock[q].available {}
      }
    case _ =>
  }

  lemma {:induction false} RunIsSane(ops: seq<InventoryOp>)
    ensures Sane(InventoryRun(EMPTY, ops))
    decreases |ops|
  {
    if ops != [] {
      RunIsSane(ops[..|ops| - 1]);
      StepKeepsSane(InventoryRun(EMPTY, ops[..|ops| - 1]), ops[|ops| - 1], 0);
    }
  }

  /** Over any run of operations no column goes negative and the gap only ever grows. */
  lemma {:induction false} RunKeepsSane(ops: seq<InventoryOp>, k: nat, p: ProductId)
    requires k <= |ops|
    ensures Sane(InventoryRun(EMPTY, ops))
    ensures 0 <= Gap(InventoryRun(EMPTY, ops[..k]), p) <= Gap(InventoryRun(EMPTY, ops), p)
  {
    RunIsSane(ops);
    RunIsSane(ops[..k]);
    GapGrows(ops, k, p);
  }

  lemma {:induction false} GapGrows(ops: seq<InventoryOp>, k: nat, p: ProductId)
    requires k <= |ops|
    ensures Gap(InventoryRun(EMPTY, ops[..k]), p) <= Gap(InventoryRun(EMPTY, ops), p)
    decreases |ops|
  {
    if k == |ops| {
      assert ops[..k] == ops;
    } else {
      var n := |ops| - 1;
      assert ops[..n][..k] == ops[..k];
      GapGrows(ops[..n], k, p);
      GapStep(ops, p);
    }
  }

  lemma {:induction false} GapStep(ops: seq<InventoryOp>, p: ProductId)
    requires ops != []
    ensures Gap(InventoryRun(EMPTY, ops[..|ops| - 1]), p) <= Gap(InventoryRun(EMPTY, ops), p)
  {
    RunIsSane(ops[..|ops| - 1]);
    StepKeepsSane(InventoryRun(EMPTY, ops[..|ops| - 1]), ops[|ops| - 1], p);
  }

  ghost predicate ClampsAt(ops: seq<InventoryOp>, i: nat, p: ProductId)
    requires i < |ops|
  {
    ClampFires(InventoryRun(EMPTY, ops[..i]), ops[i], p)
  }

  /** The stored split is exact at the end of a run if and only if no clamp fired along the way. */
  lemma {:induction false} GapZeroIffNoClamp(ops: seq<InventoryOp>, p: ProductId)
    ensures Gap(InventoryRun(EMPTY, ops), p) == 0 <==> forall i: nat | i < |ops| :: !ClampsAt(ops, i, p)
    decreases |ops|
  {
    if ops != [] {
      var n := |ops| - 1;
      var before := ops[..n];
      GapZeroIffNoClamp(before, p);
      RunIsSane(before);
      RunIsSane(ops);
      StepKeepsSane(InventoryRun(EMPTY, before), ops[n], p);
      assert ClampsAt(ops, n, p) <==> Gap(InventoryRun(EMPTY, ops), p) > Gap(InventoryRun(EMPTY, before), p);
      forall i: nat | i < n
        ensures ClampsAt(before, i, p) <==> ClampsAt(ops, i, p)
      {
        assert before[..i] == ops[..i];
      }
    }
  }

  /** The gap does open: lowering a product's quantity below what is reserved clamps available at zero. */
  lemma {:induction false} UpsertClampHappens()
    ensures var ops := [Upsert(7, 5), Reserve(1, [Item(7, 3)]), Upsert(7, 1)];
            var db := InventoryRun(EMPTY, ops);
            && ClampsAt(ops, 2, 7)
            && db.stock == map[7 := Stock(1, 3, 0)] && Gap(db, 7) == 2
  {
    var ops := [Upsert(7, 5), Reserve(1, [Item(7, 3)]), Upsert(7, 1)];
    assert ops[..2] == [Upsert(7, 5), Reserve(1, [Item(7, 3)])] && ops[..2][..1] == [Upsert(7, 5)];
    assert [Upsert(7, 5)][..0] == [];
    var restocked := InventoryRun(EMPTY, ops[..2][..1]);
    assert restocked == InventoryNext(InventoryRun(EMPTY, []), Upsert(7, 5));
    assert restocked.stock == map[7 := Stock(5, 0, 5)];
    var items := [Item(7, 3)];
    assert items[..0] == [];
    forall p: ProductId ensures Demand(items, p) == if p == 7 then 3 else 0 {}
    assert Fits(restocked.stock, items);
    assert !HasRow(restocked.ledger, RESERVE, 1);
    assert InventoryRun(EMPTY, ops[..2]).stock == map[7 := Stock(5, 3, 2)];
  }
}
