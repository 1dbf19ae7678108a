/** The stock ledger: which rows an order has, and what they hold of each product. */
module Ledger {
  import opened Common
  import opened Events

  datatype LedgerType = RESTOCK | RESERVE | RELEASE | ADJUST

  datatype LedgerRow = LedgerRow(product: ProductId, kind: LedgerType, delta: int, ref: Option<OrderId>)

  predicate IsRow(row: LedgerRow, kind: LedgerType, o: OrderId) {
    row.kind == kind && row.ref == Some(o)
  }

  /** The idempotency lookup: does order o already have a row of this kind? */
  predicate HasRow(ledger: seq<LedgerRow>, kind: LedgerType, o: OrderId) {
    exists i | 0 <= i < |ledger| :: IsRow(ledger[i], kind, o)
  }

  /** A row of the kind that refers to the order. */
  lemma {:induction false} HasRowIff(ledger: seq<LedgerRow>, kind: LedgerType, o: OrderId)
    ensures HasRow(ledger, kind, o) <==> exists row | row in ledger :: row.kind == kind && row.ref == Some(o)
  {
    if row :| row in ledger && row.kind == kind && row.ref == Some(o) {
      var i :| 0 <= i < |ledger| && ledger[i] == row;
      assert IsRow(ledger[i], kind, o);
    }
  }

  function ReserveRow(o: OrderId, item: Item): LedgerRow {
    LedgerRow(item.product, RESERVE, 0 - item.quantity, Some(o))
  }

  function ReleaseRow(o: OrderId, item: Item): LedgerRow {
    LedgerRow(item.product, RELEASE, item.quantity, Some(o))
  }

  function ReserveRows(o: OrderId, items: seq<Item>): (rows: seq<LedgerRow>)
    ensures |rows| == |items|
  {
    seq(|items|, i requires 0 <= i < |items| => ReserveRow(o, items[i]))
  }

  function ReleaseRows(o: OrderId, items: seq<Item>): (rows: seq<LedgerRow>)
    ensures |rows| == |items|
  {
    seq(|items|, i requires 0 <= i < |items| => ReleaseRow(o, items[i]))
  }

  /** Order o's rows of one kind, in insertion order. */
  function RowsOf(ledger: seq<LedgerRow>, kind: LedgerType, o: OrderId): seq<LedgerRow> {
    if ledger == [] then []
    else
      var n := |ledger| - 1;
      RowsOf(ledger[..n], kind, o) + if IsRow(ledger[n], kind, o) then [ledger[n]] else []
  }

  lemma {:induction false} RowsOfAppend(a: seq<LedgerRow>, b: seq<LedgerRow>, kind: LedgerType, o: OrderId)
    ensures RowsOf(a + b, kind, o) == RowsOf(a, kind, o) + RowsOf(b, kind, o)
    decreases |b|
  {
    if b == [] {
      assert a + b == a;
    } else {
      var n := |b| - 1;
      assert (a + b)[..|a + b| - 1] == a + b[..n];
      RowsOfAppend(a, b[..n], kind, o);
    }
  }

  /** Rows that are all of one kind and one order are kept or dropped as a whole. */
  lemma {:induction false} RowsOfUniform(rows: seq<LedgerRow>, k: LedgerType, r: OrderId, kind: LedgerType, o: OrderId)
    requires forall i | 0 <= i < |rows| :: IsRow(rows[i], k, r)
    ensures RowsOf(rows, kind, o) == if k == kind && r == o then rows else []
    decreases |rows|
  {
    if rows != [] {
      RowsOfUniform(rows[..|rows| - 1], k, r, kind, o);
    }
  }

  lemma {:induction false} RowsOfEmptyIff(ledger: seq<LedgerRow>, kind: LedgerType, o: OrderId)
    ensures RowsOf(ledger, kind, o) != [] <==> HasRow(ledger, kind, o)
    decreases |ledger|
  {
    if ledger != [] {
      var n := |ledger| - 1;
      RowsOfEmptyIff(ledger[..n], kind, o);
      if HasRow(ledger[..n], kind, o) {
        var i :| 0 <= i < n && IsRow(ledger[..n][i], kind, o);
        assert IsRow(ledger[i], kind, o);
      }
      if HasRow(ledger, kind, o) && !IsRow(ledger[n], kind, o) {
        var i :| 0 <= i < |ledger| && IsRow(ledger[i], kind, o);
        assert IsRow(ledger[..n][i], kind, o);
      }
    }
  }

  /** Appending keeps every row there was. */
  lemma {:induction false} HasRowAppend(a: seq<LedgerRow>, b: seq<LedgerRow>, kind: LedgerType, o: OrderId)
    ensures HasRow(a + b, kind, o) <==> HasRow(a, kind, o) || HasRow(b, kind, o)
  {
    RowsOfAppend(a, b, kind, o);
    RowsOfEmptyIff(a, kind, o);
    RowsOfEmptyIff(b, kind, o);
    RowsOfEmptyIff(a + b, kind, o);
  }

  /** The rows a reservation appends change no other order's rows. */
  lemma {:induction false} RowsOfAfterReserve(
    ledger: seq<LedgerRow>, r: OrderId, items: seq<Item>, kind: LedgerType, o: OrderId)
    ensures RowsOf(ledger + ReserveRows(r, items), kind, o)
         == RowsOf(ledger, kind, o) + if kind == RESERVE && r == o then ReserveRows(r, items) else []
  {
    RowsOfAppend(ledger, ReserveRows(r, items), kind, o);
    RowsOfUniform(ReserveRows(r, items), RESERVE, r, kind, o);
  }

  // ---- What the rows hold ----

  /** Minus the sum of the RESERVE and RELEASE deltas of product p. */
  function HeldTotal(ledger: seq<LedgerRow>, p: ProductId): int {
    if ledger == [] then 0
    else
      var n := |ledger| - 1;
      HeldTotal(ledger[..n], p) -
      if ledger[n].kind in {RESERVE, RELEASE} && ledger[n].product == p then ledger[n].delta else 0
  }

  /** What order o's own RESERVE and RELEASE rows hold of product p. */
  function HeldBy(ledger: seq<LedgerRow>, o: OrderId, p: ProductId): int {
    HeldTotal(RowsOf(ledger, RESERVE, o), p) + HeldTotal(RowsOf(ledger, RELEASE, o), p)
  }

  lemma {:induction false} HeldTotalAppend(a: seq<LedgerRow>, b: seq<LedgerRow>, p: ProductId)
    ensures HeldTotal(a + b, p) == HeldTotal(a, p) + HeldTotal(b, p)
    decreases |b|
  {
    if b == [] {
      assert a + b == a;
    } else {
      assert (a + b)[..|a + b| - 1] == a + b[..|b| - 1];
      HeldTotalAppend(a, b[..|b| - 1], p);
    }
  }

  lemma {:induction false} HeldByReserveRows(o: OrderId, items: seq<Item>, p: ProductId)
    ensures HeldTotal(ReserveRows(o, items), p) == Demand(items, p)
    ensures HeldTotal(ReleaseRows(o, items), p) == 0 - Demand(items, p)
    decreases |items|
  {
    if items != [] {
      var n := |items| - 1;
      HeldByReserveRows(o, items[..n], p);
      assert ReserveRows(o, items)[..n] == ReserveRows(o, items[..n]);
      assert ReleaseRows(o, items)[..n] == ReleaseRows(o, items[..n]);
    }
  }

  /** The orders that RESERVE and RELEASE rows refer to. */
  function Refs(ledger: seq<LedgerRow>): set<OrderId> {
    if ledger == [] then {} else Refs(ledger[..|ledger| - 1]) + RefOf(ledger[|ledger| - 1])
  }

  function RefOf(row: LedgerRow): set<OrderId> {
    if row.kind in {RESERVE, RELEASE} && row.ref.Some? then {row.ref.value} else {}
  }

  ghost function HeldMap(ledger: seq<LedgerRow>, p: ProductId): map<OrderId, int> {
    map o | o in Refs(ledger) :: HeldBy(ledger, o, p)
  }

  /** Every RESERVE and RELEASE row names the order it belongs to. */
  predicate Attributed(ledger: seq<LedgerRow>) {
    forall i | 0 <= i < |ledger| :: ledger[i].kind in {RESERVE, RELEASE} ==> ledger[i].ref.Some?
  }

  lemma {:induction false} HeldKindSnoc(
    ledger: seq<LedgerRow>, row: LedgerRow, kind: LedgerType, o: OrderId, p: ProductId)
    requires kind in {RESERVE, RELEASE}
    ensures HeldTotal(RowsOf(ledger + [row], kind, o), p)
         == HeldTotal(RowsOf(ledger, kind, o), p) - if IsRow(row, kind, o) && row.product == p then row.delta else 0
  {
    assert (ledger + [row])[..|ledger|] == ledger;
    var rows := RowsOf(ledger, kind, o);
    if IsRow(row, kind, o) {
      assert (rows + [row])[..|rows|] == rows;
    } else {
      assert rows + [] == rows;
    }
  }

  /** One appended row changes what its own order holds, and nothing else. */
  lemma {:induction false} HeldBySnoc(ledger: seq<LedgerRow>, row: LedgerRow, o: OrderId, p: ProductId)
    ensures HeldBy(ledger + [row], o, p)
         == HeldBy(ledger, o, p) - if o in RefOf(row) && row.product == p then row.delta else 0
  {
    HeldKindSnoc(ledger, row, RESERVE, o, p);
    HeldKindSnoc(ledger, row, RELEASE, o, p);
  }

  /** The referenced orders are those that have rows. */
  lemma {:induction false} RefsHaveRows(ledger: seq<LedgerRow>, o: OrderId)
    ensures o in Refs(ledger) <==> HasRow(ledger, RESERVE, o) || HasRow(ledger, RELEASE, o)
    decreases |ledger|
  {
    if ledger != [] {
      var front, row := ledger[..|ledger| - 1], ledger[|ledger| - 1];
      RefsHaveRows(front, o);
      assert ledger == front + [row];
      HasRowSnoc(front, row, RESERVE, o);
      HasRowSnoc(front, row, RELEASE, o);
    }
  }

  lemma {:induction false} HasRowSnoc(ledger: seq<LedgerRow>, row: LedgerRow, kind: LedgerType, o: OrderId)
    ensures HasRow(ledger + [row], kind, o) <==> HasRow(ledger, kind, o) || IsRow(row, kind, o)
  {
    RowsOfEmptyIff(ledger, kind, o);
    RowsOfEmptyIff(ledger + [row], kind, o);
    assert (ledger + [row])[..|ledger|] == ledger;
  }

  lemma {:induction false} HeldByNone(ledger: seq<LedgerRow>, o: OrderId, p: ProductId)
    requires o !in Refs(ledger)
    ensures HeldBy(ledger, o, p) == 0
  {
    RefsHaveRows(ledger, o);
    RowsOfEmptyIff(ledger, RESERVE, o);
    RowsOfEmptyIff(ledger, RELEASE, o);
  }

  lemma {:induction false} RefsSnoc(ledger: seq<LedgerRow>, row: LedgerRow)
    ensures Refs(ledger + [row]) == Refs(ledger) + RefOf(row)
  {
    assert (ledger + [row])[..|ledger|] == ledger;
  }

  lemma {:induction false} HeldMapSnocAt(ledger: seq<LedgerRow>, row: LedgerRow, p: ProductId, q: OrderId)
    requires row.kind in {RESERVE, RELEASE} && row.ref.Some?
    requires q in Refs(ledger + [row])
    ensures q == row.ref.value || q in Refs(ledger)
    ensures q != row.ref.value ==> HeldMap(ledger + [row], p)[q] == HeldMap(ledger, p)[q]
  {
    RefsSnoc(ledger, row);
    HeldBySnoc(ledger, row, q, p);
  }

  lemma {:induction false} HeldMapSnoc(ledger: seq<LedgerRow>, row: LedgerRow, p: ProductId)
    requires row.kind in {RESERVE, RELEASE} && row.ref.Some?
    ensures HeldMap(ledger + [row], p) == HeldMap(ledger, p)[row.ref.value := HeldBy(ledger + [row], row.ref.value, p)]
  {
    var o := row.ref.value;
    var big, small := HeldMap(ledger + [row], p), HeldMap(ledger, p)[o := HeldBy(ledger + [row], o, p)];
    RefsSnoc(ledger, row);
    assert big.Keys == Refs(ledger) + {o} == small.Keys;
    forall q | q in big.Keys ensures big[q] == small[q] {
      HeldMapSnocAt(ledger, row, p, q);
    }
    SameMap(big, small);
  }

  lemma {:induction false} HeldMapSkip(ledger: seq<LedgerRow>, row: LedgerRow, p: ProductId)
    requires row.kind !in {RESERVE, RELEASE}
    ensures HeldMap(ledger + [row], p) == HeldMap(ledger, p)
  {
    RefsSnoc(ledger, row);
    forall q | q in Refs(ledger) { HeldBySnoc(ledger, row, q, p); }
  }

  /** What is held of a product is the sum of what each order holds of it. */
  lemma {:induction false} HeldPartition(ledger: seq<LedgerRow>, p: ProductId)
    requires Attributed(ledger)
    ensures HeldTotal(ledger, p) == Sum(HeldMap(ledger, p))
    decreases |ledger|
  {
    if ledger == [] {
      assert HeldMap(ledger, p) == map[];
    } else {
      var n := |ledger| - 1;
      var front, row := ledger[..n], ledger[n];
      assert ledger == front + [row];
      HeldPartition(front, p);
      if row.kind in {RESERVE, RELEASE} {
        HeldMapSnoc(front, row, p);
        if row.ref.value !in Refs(front) { HeldByNone(front, row.ref.value, p); }
        HeldBySnoc(front, row, row.ref.value, p);
        SumUpdate(HeldMap(front, p), row.ref.value, HeldBy(ledger, row.ref.value, p));
      } else {
        HeldMapSkip(front, row, p);
      }
    }
  }
}
