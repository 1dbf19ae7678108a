/** What the public product list shows, in terms of the product table alone. */
module Listing {
  import opened Common
  import opened Pagination

  /** A product that the public may see and the request asks for. */
  predicate Shown(row: Product, q: Query) {
    && row.status == ACTIVE && row.deleted == false
    && (q.category == None || q.category == Some(row.category))
    && (q.minPrice == None || q.minPrice.value <= row.price)
    && (q.maxPrice == None || row.price <= q.maxPrice.value)
  }

  /** Newest first; of one instant, the greater id first. */
  predicate Newer(a: Product, b: Product) {
    if a.createdAt == b.createdAt then a.id > b.id else a.createdAt > b.createdAt
  }

  /** The rows a request chooses its page from. */
  predicate Candidate(row: Product, q: Query, cursor: Option<Cursor>) {
    && Shown(row, q)
    && (cursor.Some? ==>
          var c := cursor.value;
          if row.createdAt == c.createdAt then row.id < c.id else row.createdAt < c.createdAt)
  }

  /** The candidates that come before a row. */
  ghost function Ahead(table: seq<Product>, q: Query, cursor: Option<Cursor>, row: Product): set<Product> {
    set x | x in table && Candidate(x, q, cursor) && Newer(x, row)
  }

  /** The primary key is unique. */
  lemma {:induction false} DistinctIff(table: seq<Product>)
    ensures DistinctIds(table) <==> forall i, j | 0 <= i < j < |table| :: table[i].id != table[j].id
    decreases |table|
  {
    if table != [] {
      DistinctIff(table[1..]);
      assert forall j | 0 < j < |table| :: table[j] == table[1..][j - 1];
    }
  }

  // ---- Which rows are selected ----

  /** The filter keeps exactly the shown rows, as often as they occur. */
  lemma {:induction false} FilterIff(table: seq<Product>, q: Query, row: Product)
    ensures multiset(Filter(table, q))[row] == if Shown(row, q) then multiset(table)[row] else 0
    decreases |table|
  {
    if table != [] {
      FilterIff(table[1..], q, row);
      assert table == [table[0]] + table[1..];
    }
  }

  lemma {:induction false} AfterIff(rows: seq<Product>, c: Cursor, row: Product)
    ensures multiset(After(rows, c))[row] ==
      if (if row.createdAt == c.createdAt then row.id < c.id else row.createdAt < c.createdAt)
      then multiset(rows)[row] else 0
    decreases |rows|
  {
    if rows != [] {
      AfterIff(rows[1..], c, row);
      assert rows == [rows[0]] + rows[1..];
    }
  }

  /** The candidates in order. */
  function InOrder(table: seq<Product>, q: Query, cursor: Option<Cursor>): seq<Product> {
    Sort(if cursor.Some? then After(Filter(table, q), cursor.value) else Filter(table, q))
  }

  lemma {:induction false} InOrderIff(table: seq<Product>, q: Query, cursor: Option<Cursor>, row: Product)
    ensures multiset(InOrder(table, q, cursor))[row] == if Candidate(row, q, cursor) then multiset(table)[row] else 0
  {
    FilterIff(table, q, row);
    if cursor.Some? {
      AfterIff(Filter(table, q), cursor.value, row);
      SortPermutes(After(Filter(table, q), cursor.value));
    } else {
      SortPermutes(Filter(table, q));
    }
  }

  lemma {:induction false} InOrderIn(table: seq<Product>, q: Query, cursor: Option<Cursor>, row: Product)
    ensures row in InOrder(table, q, cursor) <==> row in table && Candidate(row, q, cursor)
  {
    InOrderIff(table, q, cursor, row);
    assert row in InOrder(table, q, cursor) <==> row in multiset(InOrder(table, q, cursor));
    assert row in table <==> row in multiset(table);
  }

  lemma {:induction false} AfterKeepsNewId(id: nat, rows: seq<Product>, c: Cursor)
    requires NewId(id, rows)
    ensures NewId(id, After(rows, c))
  {
    forall i: nat | i < |After(rows, c)| ensures After(rows, c)[i].id != id { AfterIsSub(rows, c, i); }
  }

  lemma {:induction false} AfterKeepsDistinct(rows: seq<Product>, c: Cursor)
    requires DistinctIds(rows)
    ensures DistinctIds(After(rows, c))
    decreases |rows|
  {
    if rows != [] {
      AfterKeepsDistinct(rows[1..], c);
      AfterKeepsNewId(rows[0].id, rows[1..], c);
      assert rows == [rows[0]] + rows[1..];
      AfterCons(rows[0], rows[1..], c);
      assert ([rows[0]] + After(rows[1..], c))[1..] == After(rows[1..], c);
    }
  }

  lemma {:induction false} InOrderSorted(table: seq<Product>, q: Query, cursor: Option<Cursor>)
    requires DistinctIds(table)
    ensures Sorted(InOrder(table, q, cursor))
  {
    FilterKeepsDistinct(table, q);
    if cursor.Some? {
      AfterKeepsDistinct(Filter(table, q), cursor.value);
      SortSorts(After(Filter(table, q), cursor.value));
    } else {
      SortSorts(Filter(table, q));
    }
  }

  lemma {:induction false} SortedIsNewer(list: seq<Product>, i: nat, j: nat)
    requires Sorted(list) && i < j < |list|
    ensures Newer(list[i], list[j]) && !Newer(list[j], list[i])
  {
    SortedAt(list, i, j);
  }

  lemma {:induction false} AheadIs(table: seq<Product>, q: Query, cursor: Option<Cursor>, i: nat, x: Product)
    requires DistinctIds(table) && i < |InOrder(table, q, cursor)|
    ensures var list := InOrder(table, q, cursor);
            x in Ahead(table, q, cursor, list[i]) <==> x in Elements(list[..i])
  {
    var list := InOrder(table, q, cursor);
    InOrderSorted(table, q, cursor);
    InOrderIn(table, q, cursor, x);
    if x in list {
      var j :| 0 <= j < |list| && list[j] == x;
      if j < i {
        SortedIsNewer(list, j, i);
        assert list[..i][j] == x;
      } else {
        if i < j { SortedIsNewer(list, i, j); }
        forall k: nat | k < i ensures list[..i][k] != x { SortedIsNewer(list, k, j); }
      }
    }
  }

  /** A row's place in the order is the number of candidates before it. */
  lemma {:induction false} PlaceIs(table: seq<Product>, q: Query, cursor: Option<Cursor>, i: nat)
    requires DistinctIds(table) && i < |InOrder(table, q, cursor)|
    ensures |Ahead(table, q, cursor, InOrder(table, q, cursor)[i])| == i
  {
    var list := InOrder(table, q, cursor);
    InOrderSorted(table, q, cursor);
    forall j: nat, k: nat | j < k < i ensures list[..i][j] != list[..i][k] { SortedIsNewer(list, j, k); }
    ElementsSize(list[..i]);
    forall x { AheadIs(table, q, cursor, i, x); }
    assert Ahead(table, q, cursor, list[i]) == Elements(list[..i]);
  }

  // ---- What one request returns ----

  /** How many candidates are left out in front: the earlier pages, or none below a cursor. */
  function LeftOut(q: Query, cursor: Option<Cursor>): nat {
    if cursor.Some? then 0 else (q.page - 1) * q.limit
  }

  /** n rows of a list from a position on, or as many as there are. */
  function Slice(list: seq<Product>, lo: nat, n: nat): seq<Product> {
    if lo >= |list| then [] else if lo + n >= |list| then list[lo..] else list[lo..lo + n]
  }

  lemma {:induction false} InSlice(list: seq<Product>, lo: nat, n: nat, row: Product)
    ensures row in Slice(list, lo, n) <==> exists i: nat | lo <= i < lo + n && i < |list| :: list[i] == row
  {
    var slice := Slice(list, lo, n);
    if row in slice {
      var k :| 0 <= k < |slice| && slice[k] == row;
      assert list[lo + k] == row;
    }
    if i: nat :| lo <= i < lo + n && i < |list| && list[i] == row {
      assert slice[i - lo] == row;
    }
  }

  lemma {:induction false} SliceInOrder(list: seq<Product>, lo: nat, n: nat)
    requires Sorted(list)
    ensures var data := Slice(list, lo, n);
            |data| <= n && forall i, j | 0 <= i < j < |data| :: Newer(data[i], data[j])
  {
    var data := Slice(list, lo, n);
    forall i, j | 0 <= i < j < |data| ensures Newer(data[i], data[j]) {
      assert data[i] == list[lo + i] && data[j] == list[lo + j];
      SortedIsNewer(list, lo + i, lo + j);
    }
  }

  lemma {:induction false} DataIs(table: seq<Product>, q: Query, cursor: Option<Cursor>)
    ensures FindAll(table, q, cursor).data == Slice(InOrder(table, q, cursor), LeftOut(q, cursor), q.limit)
  {
    var list, lo := InOrder(table, q, cursor), LeftOut(q, cursor);
    if lo < |list| && lo + q.limit < |list| {
      assert list[lo..][..q.limit] == list[lo..lo + q.limit];
    }
    assert list[0..] == list;
  }

  /** Only the row in a place has that many candidates ahead. */
  lemma {:induction false} PlaceIff(
    table: seq<Product>, q: Query, cursor: Option<Cursor>, row: Product, lo: nat, n: nat)
    requires DistinctIds(table)
    ensures row in Slice(InOrder(table, q, cursor), lo, n) <==>
      row in InOrder(table, q, cursor) && lo <= |Ahead(table, q, cursor, row)| < lo + n
  {
    var list := InOrder(table, q, cursor);
    InSlice(list, lo, n, row);
    if row in list {
      var i :| 0 <= i < |list| && list[i] == row;
      PlaceIs(table, q, cursor, i);
      if k: nat :| lo <= k < lo + n && k < |list| && list[k] == row { PlaceIs(table, q, cursor, k); }
    }
  }

  /** A request returns exactly the candidates whose place is on its page. */
  lemma {:induction false} PageIff(table: seq<Product>, q: Query, cursor: Option<Cursor>, row: Product)
    requires DistinctIds(table)
    ensures row in FindAll(table, q, cursor).data <==>
              && row in table && Candidate(row, q, cursor)
              && LeftOut(q, cursor) <= |Ahead(table, q, cursor, row)| < LeftOut(q, cursor) + q.limit
  {
    DataIs(table, q, cursor);
    InOrderIn(table, q, cursor, row);
    PlaceIff(table, q, cursor, row, LeftOut(q, cursor), q.limit);
  }

  /** The page is in order, and its cursor is the last row's id and its time cut to milliseconds, if it is full. */
  lemma {:induction false} PageInOrder(table: seq<Product>, q: Query, cursor: Option<Cursor>)
    requires DistinctIds(table)
    ensures var page := FindAll(table, q, cursor);
            && (forall i, j | 0 <= i < j < |page.data| :: Newer(page.data[i], page.data[j]))
            && |page.data| <= q.limit
            && (page.nextCursor.Some? <==> |page.data| == q.limit)
            && (page.nextCursor.Some? ==>
                  var last, c := page.data[q.limit - 1], page.nextCursor.value;
                  c.id == last.id && c.createdAt % 1000 == 0 && c.createdAt <= last.createdAt < c.createdAt + 1000)
  {
    DataIs(table, q, cursor);
    InOrderSorted(table, q, cursor);
    SliceInOrder(InOrder(table, q, cursor), LeftOut(q, cursor), q.limit);
  }

  // ---- What a client collects ----

  lemma {:induction false} PageCounts(table: seq<Product>, q: Query, cursor: Option<Cursor>, row: Product)
    ensures row in FindAll(table, q, cursor).data ==> row in table && Shown(row, q)
  {
    DataIs(table, q, cursor);
    InSlice(InOrder(table, q, cursor), LeftOut(q, cursor), q.limit, row);
    InOrderIn(table, q, cursor, row);
  }

  /** Following cursors never shows a row that may not be shown or was not asked for. */
  lemma {:induction false} FollowShows(table: seq<Product>, q: Query, cursor: Option<Cursor>, row: Product)
    requires row in Follow(table, q, cursor)
    ensures row in table && Shown(row, q)
    decreases Remaining(table, q, cursor)
  {
    var page := FindAll(table, q, cursor);
    PageCounts(table, q, cursor, row);
    if page.nextCursor.Some? {
      FollowProgress(table, q, cursor);
      if row in Follow(table, q, page.nextCursor) { FollowShows(table, q, page.nextCursor, row); }
    }
  }

  /** From the first page on, with times of millisecond resolution, it shows each, as often as the table has it. */
  lemma {:induction false} FollowShowsAll(table: seq<Product>, q: Query, row: Product)
    requires DistinctIds(table) && q.page == 1
    requires forall i | 0 <= i < |table| :: table[i].createdAt % 1000 == 0
    ensures multiset(Follow(table, q, None))[row] == if Shown(row, q) then multiset(table)[row] else 0
  {
    FollowIsExactAtResolution(table, q);
    FilterIff(table, q, row);
    SortPermutes(Filter(table, q));
  }

  /** Enough pages by number show each of them, whatever the times. */
  lemma {:induction false} NumberedPagesShowAll(table: seq<Product>, q: Query, n: nat, row: Product)
    requires DistinctIds(table) && n * q.limit >= |table|
    ensures multiset(NumberedPages(table, q, n))[row] == if Shown(row, q) then multiset(table)[row] else 0
  {
    NumberedPagesAreExact(table, q, n);
    FilterIff(table, q, row);
    FilterAtMost(table, q);
    SortPermutes(Filter(table, q));
    assert |Sort(Filter(table, q))| == |multiset(Sort(Filter(table, q)))| == |Filter(table, q)|;
  }

  lemma {:induction false} FilterAtMost(table: seq<Product>, q: Query)
    ensures |Filter(table, q)| <= |table|
    decreases |table|
  {
    if table != [] { FilterAtMost(table[1..], q); }
  }
}
