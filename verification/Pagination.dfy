/** The public product list: default sort, first page by offset, further pages by keyset cursor. */
module Pagination {
  import opened Common

  /** Microseconds, the resolution of the createdAt column. */
  type Time = nat

  datatype ProductStatus = PENDING_REVIEW | ACTIVE | REJECTED | SUSPENDED | DELETED

  datatype Product = Product(id: nat, createdAt: Time, category: nat, price: int, status: ProductStatus, deleted: bool)

  /** A price bound is text: any but an absent or empty one filters, also "0". */
  datatype Query = Query(category: Option<nat>, minPrice: Option<int>, maxPrice: Option<int>, page: pos, limit: pos)

  /** A cursor carries the last row's id and its timestamp as a JSON date, which keeps milliseconds only. */
  datatype Cursor = Cursor(createdAt: Time, id: nat)

  const RESOLUTION: pos := 1000

  function Truncate(t: Time): (r: Time)
    ensures r <= t
  {
    t - t % RESOLUTION
  }

  function CursorOf(row: Product): Cursor {
    Cursor(Truncate(row.createdAt), row.id)
  }

  predicate Matches(row: Product, q: Query) {
    && row.status == ACTIVE && !row.deleted
    && (q.category.Some? ==> row.category == q.category.value)
    && (q.minPrice.Some? ==> row.price >= q.minPrice.value)
    && (q.maxPrice.Some? ==> row.price <= q.maxPrice.value)
  }

  /** The cursor condition of the WHERE clause. */
  predicate Below(row: Product, c: Cursor) {
    row.createdAt < c.createdAt || (row.createdAt == c.createdAt && row.id < c.id)
  }

  /** ORDER BY createdAt DESC, id DESC. */
  predicate Precedes(a: Product, b: Product) {
    a.createdAt > b.createdAt || (a.createdAt == b.createdAt && a.id > b.id)
  }

  function Filter(rows: seq<Product>, q: Query): seq<Product> {
    if rows == [] then []
    else (if Matches(rows[0], q) then [rows[0]] else []) + Filter(rows[1..], q)
  }

  function After(rows: seq<Product>, c: Cursor): seq<Product> {
    if rows == [] then []
    else (if Below(rows[0], c) then [rows[0]] else []) + After(rows[1..], c)
  }

  function Insert(row: Product, sorted: seq<Product>): seq<Product> {
    if sorted == [] || Precedes(row, sorted[0]) then [row] + sorted
    else [sorted[0]] + Insert(row, sorted[1..])
  }

  function Sort(rows: seq<Product>): seq<Product> {
    if rows == [] then [] else Insert(rows[0], Sort(rows[1..]))
  }

  function Take(rows: seq<Product>, n: nat): seq<Product> {
    if |rows| <= n then rows else rows[..n]
  }

  function Drop(rows: seq<Product>, n: nat): seq<Product> {
    if |rows| <= n then [] else rows[n..]
  }

  datatype Page = Page(data: seq<Product>, nextCursor: Option<Cursor>)

  function Skip(q: Query): nat {
    (q.page - 1) * q.limit
  }

  /** The page ends with a cursor exactly when it is full. */
  function PageOf(rows: seq<Product>, limit: pos): Page {
    var data := Take(rows, limit);
    Page(data, if |data| == limit then Some(CursorOf(data[|data| - 1])) else None)
  }

  /** With a cursor: the rows below it, from the start. Without: skip the pages before the one asked for. */
  function Selected(where: seq<Product>, q: Query, cursor: Option<Cursor>): seq<Product> {
    if cursor.Some? then Sort(After(where, cursor.value)) else Drop(Sort(where), Skip(q))
  }

  function FindAll(table: seq<Product>, q: Query, cursor: Option<Cursor>): Page {
    PageOf(Selected(Filter(table, q), q, cursor), q.limit)
  }

  // ---- The specification: the filtered table in order ----

  predicate Leads(row: Product, rest: seq<Product>) {
    forall i | 0 <= i < |rest| :: Precedes(row, rest[i])
  }

  /** Strictly descending by (createdAt, id). */
  predicate Sorted(rows: seq<Product>) {
    rows == [] || (Leads(rows[0], rows[1..]) && Sorted(rows[1..]))
  }

  predicate NewId(id: nat, rows: seq<Product>) {
    forall i | 0 <= i < |rows| :: rows[i].id != id
  }

  /** The primary key. */
  predicate DistinctIds(rows: seq<Product>) {
    rows == [] || (NewId(rows[0].id, rows[1..]) && DistinctIds(rows[1..]))
  }

  lemma {:induction false} SortedAt(rows: seq<Product>, i: nat, j: nat)
    requires Sorted(rows) && i < j < |rows|
    ensures Precedes(rows[i], rows[j])
    decreases |rows|
  {
    if i > 0 { SortedAt(rows[1..], i - 1, j - 1); }
  }

  lemma {:induction false} InsertPermutes(row: Product, rows: seq<Product>)
    ensures multiset(Insert(row, rows)) == multiset(rows) + multiset{row}
    decreases |rows|
  {
    if rows != [] && !Precedes(row, rows[0]) {
      InsertPermutes(row, rows[1..]);
      assert rows == [rows[0]] + rows[1..];
    }
  }

  lemma {:induction false} SortPermutes(rows: seq<Product>)
    ensures multiset(Sort(rows)) == multiset(rows)
    decreases |rows|
  {
    if rows != [] {
      SortPermutes(rows[1..]);
      InsertPermutes(rows[0], Sort(rows[1..]));
      assert rows == [rows[0]] + rows[1..];
    }
  }

  lemma {:induction false} SameRows(a: seq<Product>, b: seq<Product>, i: nat)
    requires multiset(a) == multiset(b) && i < |a|
    ensures a[i] in b
  {
    assert a[i] in multiset(a);
  }

  lemma {:induction false} InsertSorts(row: Product, sorted: seq<Product>)
    requires Sorted(sorted) && NewId(row.id, sorted)
    ensures Sorted(Insert(row, sorted))
    decreases |sorted|
  {
    if sorted == [] {
    } else if Precedes(row, sorted[0]) {
      assert ([row] + sorted)[1..] == sorted;
      forall i | 0 <= i < |sorted| ensures Precedes(row, sorted[i]) {
        if i > 0 { SortedAt(sorted, 0, i); }
      }
    } else {
      var rest := Insert(row, sorted[1..]);
      InsertSorts(row, sorted[1..]);
      InsertPermutes(row, sorted[1..]);
      assert ([sorted[0]] + rest)[1..] == rest;
      forall i | 0 <= i < |rest| ensures Precedes(sorted[0], rest[i]) {
        SameRows(rest, sorted[1..] + [row], i);
      }
    }
  }

  lemma {:induction false} SortKeepsNewId(id: nat, rows: seq<Product>)
    requires NewId(id, rows)
    ensures NewId(id, Sort(rows))
  {
    SortPermutes(rows);
    forall i | 0 <= i < |Sort(rows)| ensures Sort(rows)[i].id != id {
      SameRows(Sort(rows), rows, i);
    }
  }

  /** Sorting gives a strictly descending arrangement of exactly the given rows. */
  lemma {:induction false} SortSorts(rows: seq<Product>)
    requires DistinctIds(rows)
    ensures Sorted(Sort(rows)) && multiset(Sort(rows)) == multiset(rows)
    decreases |rows|
  {
    SortPermutes(rows);
    if rows != [] {
      SortSorts(rows[1..]);
      SortKeepsNewId(rows[0].id, rows[1..]);
      InsertSorts(rows[0], Sort(rows[1..]));
    }
  }

  lemma {:induction false} FilterKeepsNewId(id: nat, rows: seq<Product>, q: Query)
    requires NewId(id, rows)
    ensures NewId(id, Filter(rows, q))
    decreases |rows|
  {
    if rows != [] { FilterKeepsNewId(id, rows[1..], q); }
  }

  lemma {:induction false} FilterKeepsDistinct(rows: seq<Product>, q: Query)
    requires DistinctIds(rows)
    ensures DistinctIds(Filter(rows, q))
    decreases |rows|
  {
    if rows != [] {
      FilterKeepsDistinct(rows[1..], q);
      FilterKeepsNewId(rows[0].id, rows[1..], q);
      assert ([rows[0]] + Filter(rows[1..], q))[1..] == Filter(rows[1..], q);
      assert [] + Filter(rows[1..], q) == Filter(rows[1..], q);
    }
  }

  lemma {:induction false} AfterCons(row: Product, rest: seq<Product>, c: Cursor)
    ensures After([row] + rest, c) == if Below(row, c) then [row] + After(rest, c) else After(rest, c)
  {
    assert ([row] + rest)[1..] == rest;
    assert [] + After(rest, c) == After(rest, c);
  }

  lemma {:induction false} AfterIsSub(rows: seq<Product>, c: Cursor, i: nat)
    requires i < |After(rows, c)|
    ensures After(rows, c)[i] in rows && Below(After(rows, c)[i], c)
    decreases |rows|
  {
    AfterCons(rows[0], rows[1..], c);
    assert rows == [rows[0]] + rows[1..];
    if Below(rows[0], c) {
      if i > 0 { AfterIsSub(rows[1..], c, i - 1); }
    } else {
      AfterIsSub(rows[1..], c, i);
    }
  }

  /** Inserting a row that leads a list puts it in front, also after the cursor condition. */
  lemma {:induction false} InsertInFront(row: Product, rows: seq<Product>)
    requires Leads(row, rows)
    ensures Insert(row, rows) == [row] + rows
  {
  }

  lemma {:induction false} LeadsAfter(row: Product, sorted: seq<Product>, c: Cursor)
    requires Sorted(sorted) && sorted != [] && Precedes(row, sorted[0])
    ensures Leads(row, After(sorted, c))
  {
    forall i: nat | i < |After(sorted, c)| ensures Precedes(row, After(sorted, c)[i]) {
      AfterIsSub(sorted, c, i);
      var j :| 0 <= j < |sorted| && sorted[j] == After(sorted, c)[i];
      if j > 0 { SortedAt(sorted, 0, j); }
    }
  }

  /** The cursor condition commutes with insertion. */
  lemma {:induction false} AfterInsert(row: Product, sorted: seq<Product>, c: Cursor)
    requires Sorted(sorted) && NewId(row.id, sorted)
    ensures After(Insert(row, sorted), c) == if Below(row, c) then Insert(row, After(sorted, c)) else After(sorted, c)
    decreases |sorted|
  {
    if sorted == [] {
      AfterCons(row, [], c);
    } else if Precedes(row, sorted[0]) {
      AfterCons(row, sorted, c);
      LeadsAfter(row, sorted, c);
      InsertInFront(row, After(sorted, c));
    } else {
      AfterInsert(row, sorted[1..], c);
      if Below(sorted[0], c) {
        InsertPastHead(row, sorted, c);
      } else {
        InsertBelowHead(row, sorted, c);
      }
    }
  }

  lemma {:induction false} InsertPastHead(row: Product, sorted: seq<Product>, c: Cursor)
    requires sorted != [] && !Precedes(row, sorted[0]) && Below(sorted[0], c)
    ensures After(sorted, c) == [sorted[0]] + After(sorted[1..], c)
    ensures After(Insert(row, sorted), c) == [sorted[0]] + After(Insert(row, sorted[1..]), c)
    ensures Insert(row, After(sorted, c)) == [sorted[0]] + Insert(row, After(sorted[1..], c))
  {
    assert sorted == [sorted[0]] + sorted[1..];
    AfterCons(sorted[0], sorted[1..], c);
    AfterCons(sorted[0], Insert(row, sorted[1..]), c);
    assert ([sorted[0]] + After(sorted[1..], c))[1..] == After(sorted[1..], c);
  }

  /** If the head of a list is not below the cursor, a row that comes after the head is inserted past it either way. */
  lemma {:induction false} InsertBelowHead(row: Product, sorted: seq<Product>, c: Cursor)
    requires sorted != [] && !Precedes(row, sorted[0]) && !Below(sorted[0], c)
    ensures After(sorted, c) == After(sorted[1..], c)
    ensures After(Insert(row, sorted), c) == After(Insert(row, sorted[1..]), c)
  {
    assert sorted == [sorted[0]] + sorted[1..];
    AfterCons(sorted[0], sorted[1..], c);
    AfterCons(sorted[0], Insert(row, sorted[1..]), c);
  }

  lemma {:induction false} SortCons(row: Product, rest: seq<Product>)
    ensures Sort([row] + rest) == Insert(row, Sort(rest))
  {
    assert ([row] + rest)[1..] == rest;
  }

  lemma {:induction false} AfterSortOne(row: Product, rest: seq<Product>, c: Cursor)
    requires DistinctIds(rest) && NewId(row.id, rest) && Sort(After(rest, c)) == After(Sort(rest), c)
    ensures Sort(After([row] + rest, c)) == After(Sort([row] + rest), c)
  {
    SortSorts(rest);
    SortKeepsNewId(row.id, rest);
    AfterInsert(row, Sort(rest), c);
    AfterCons(row, rest, c);
    SortCons(row, rest);
    SortCons(row, After(rest, c));
  }

  /** The cursor condition commutes with sorting. */
  lemma {:induction false} AfterSort(rows: seq<Product>, c: Cursor)
    requires DistinctIds(rows)
    ensures Sort(After(rows, c)) == After(Sort(rows), c)
    decreases |rows|
  {
    if rows != [] {
      AfterSort(rows[1..], c);
      AfterSortOne(rows[0], rows[1..], c);
      assert rows == [rows[0]] + rows[1..];
    }
  }

  // ---- Pages of one sorted list ----

  /** Where the rows below a cursor begin. */
  function FirstBelow(list: seq<Product>, c: Cursor): (k: nat)
    ensures k <= |list|
    ensures forall i | 0 <= i < k :: !Below(list[i], c)
    ensures k < |list| ==> Below(list[k], c)
  {
    if list == [] || Below(list[0], c) then 0 else FirstBelow(list[1..], c) + 1
  }

  /** Whatever comes after a row below the cursor is below it too. */
  lemma {:induction false} BelowIsClosed(a: Product, b: Product, c: Cursor)
    requires Precedes(a, b) && Below(a, c)
    ensures Below(b, c)
  {
  }

  lemma {:induction false} AllBelow(rows: seq<Product>, c: Cursor)
    requires forall i | 0 <= i < |rows| :: Below(rows[i], c)
    ensures After(rows, c) == rows
    decreases |rows|
  {
    if rows != [] {
      AllBelow(rows[1..], c);
      assert rows == [rows[0]] + rows[1..];
    }
  }

  /** In a sorted list the rows below a cursor are a suffix. */
  lemma {:induction false} AfterIsSuffix(list: seq<Product>, c: Cursor)
    requires Sorted(list)
    ensures After(list, c) == list[FirstBelow(list, c)..]
    decreases |list|
  {
    if list == [] {
    } else if Below(list[0], c) {
      forall i | 0 <= i < |list| ensures Below(list[i], c) {
        if i > 0 {
          SortedAt(list, 0, i);
          BelowIsClosed(list[0], list[i], c);
        }
      }
      AllBelow(list, c);
    } else {
      AfterIsSuffix(list[1..], c);
      AfterCons(list[0], list[1..], c);
      assert list == [list[0]] + list[1..];
    }
  }

  /** The position at which the page after the one starting at start begins. */
  function NextStart(list: seq<Product>, limit: pos, start: nat): (next: nat)
    requires Sorted(list) && start + limit <= |list|
    ensures start + limit <= next <= |list|
  {
    var c := CursorOf(list[start + limit - 1]);
    var next := FirstBelow(list, c);
    AboveCursor(list, start + limit - 1);
    next
  }

  lemma {:induction false} NotBelowOwnCursor(row: Product)
    ensures !Below(row, CursorOf(row))
  {
  }

  /** A row and everything before it is not below its own cursor, so no row is ever listed twice. */
  lemma {:induction false} AboveCursor(list: seq<Product>, k: nat)
    requires Sorted(list) && k < |list|
    ensures FirstBelow(list, CursorOf(list[k])) > k
  {
    var c := CursorOf(list[k]);
    var first := FirstBelow(list, c);
    NotBelowOwnCursor(list[k]);
    if first < k {
      SortedAt(list, first, k);
      BelowIsClosed(list[first], list[k], c);
    }
  }

  /** The concatenation of the pages from position start on. */
  function Pages(list: seq<Product>, limit: pos, start: nat): (r: seq<Product>)
    requires Sorted(list) && start <= |list|
    ensures |r| <= |list| - start
    decreases |list| - start
  {
    if |list| - start < limit then list[start..]
    else list[start..start + limit] + Pages(list, limit, NextStart(list, limit, start))
  }

  /** From each page boundary at or after start, the next row is below the cursor. */
  predicate SafeFrom(list: seq<Product>, limit: pos, start: nat)
    decreases |list| - start
  {
    start + limit >= |list| ||
    (Below(list[start + limit], CursorOf(list[start + limit - 1])) && SafeFrom(list, limit, start + limit))
  }

  lemma {:induction false} SplitPage(list: seq<Product>, limit: pos, start: nat)
    requires start + limit <= |list|
    ensures list[start..] == list[start..start + limit] + list[start + limit..]
  {
  }

  lemma {:induction false} SamePrefix(page: seq<Product>, a: seq<Product>, b: seq<Product>)
    ensures page + a == page + b <==> a == b
  {
    assert (page + a)[|page|..] == a && (page + b)[|page|..] == b;
  }

  lemma {:induction false} PagesUnfold(list: seq<Product>, limit: pos, start: nat, next: nat)
    requires Sorted(list) && start + limit <= |list| && next == NextStart(list, limit, start)
    ensures Pages(list, limit, start) == list[start..start + limit] + Pages(list, limit, next)
  {
  }

  /** What starts at next and is all of the list from a position on starts there. */
  lemma {:induction false} NoneSkipped(list: seq<Product>, from: nat, next: nat, rest: seq<Product>)
    requires from <= next <= |list| && |rest| <= |list| - next
    ensures rest == list[from..] <==> next == from && rest == list[next..]
  {
  }

  /** One full page: the rest follows exactly when no row is skipped and the later pages are exact. */
  lemma {:induction false} PageStep(list: seq<Product>, limit: pos, start: nat, next: nat)
    requires Sorted(list) && start + limit <= |list| && next == NextStart(list, limit, start)
    ensures Pages(list, limit, start) == list[start..]
       <==> next == start + limit && Pages(list, limit, next) == list[next..]
  {
    var page, rest := list[start..start + limit], Pages(list, limit, next);
    PagesUnfold(list, limit, start, next);
    SplitPage(list, limit, start);
    SamePrefix(page, rest, list[start + limit..]);
    NoneSkipped(list, start + limit, next, rest);
  }

  lemma {:induction false} NextIsAdjacentIff(list: seq<Product>, limit: pos, start: nat)
    requires Sorted(list) && start + limit < |list|
    ensures NextStart(list, limit, start) == start + limit
       <==> Below(list[start + limit], CursorOf(list[start + limit - 1]))
  {
  }

  lemma {:induction false} PagesContinue(list: seq<Product>, limit: pos, start: nat)
    requires Sorted(list) && start + limit < |list|
    ensures Pages(list, limit, start) == list[start..]
       <==> Below(list[start + limit], CursorOf(list[start + limit - 1]))
            && Pages(list, limit, start + limit) == list[start + limit..]
  {
    NextIsAdjacentIff(list, limit, start);
    PageStep(list, limit, start, NextStart(list, limit, start));
  }

  lemma {:induction false} PagesEnd(list: seq<Product>, limit: pos, start: nat)
    requires Sorted(list) && start <= |list| <= start + limit
    ensures Pages(list, limit, start) == list[start..]
  {
    if start + limit == |list| {
      PageStep(list, limit, start, |list|);
    }
  }

  lemma {:induction false} PagesExactIff(list: seq<Product>, limit: pos, start: nat)
    requires Sorted(list) && start <= |list|
    ensures Pages(list, limit, start) == list[start..] <==> SafeFrom(list, limit, start)
    decreases |list| - start
  {
    if start + limit < |list| {
      PagesContinue(list, limit, start);
      PagesExactIff(list, limit, start + limit);
    } else {
      PagesEnd(list, limit, start);
    }
  }

  /** At every page boundary of the list after start, the next row is below the cursor made from the row before it. */
  predicate BoundariesSafe(list: seq<Product>, limit: pos, start: nat) {
    forall j: nat | start < j < |list| && j % limit == 0 :: Below(list[j], CursorOf(list[j - 1]))
  }

  lemma {:induction false} SafeIffBoundaries(list: seq<Product>, limit: pos, start: nat)
    requires start % limit == 0
    ensures SafeFrom(list, limit, start) <==> BoundariesSafe(list, limit, start)
    decreases |list| - start
  {
    MultiplesApart(start, limit);
    if start + limit < |list| {
      SafeIffBoundaries(list, limit, start + limit);
    }
  }

  lemma {:induction false} MultiplesApart(start: nat, limit: pos)
    requires start % limit == 0
    ensures (start + limit) % limit == 0
    ensures forall j: nat | start < j < start + limit :: j % limit != 0
  {
    var q := start / limit;
    assert start == q * limit;
    ModOf(q + 1, limit, 0);
    assert (q + 1) * limit == start + limit;
    forall j: nat | start < j < start + limit ensures j % limit != 0 {
      ModOf(q, limit, j - start);
    }
  }

  lemma {:induction false} ModOf(q: nat, d: pos, r: nat)
    requires r < d
    ensures (q * d + r) % d == r
  {
    var n := q * d + r;
    var q', r' := n / d, n % d;
    assert n == d * q' + r';
    if q < q' { MulGap(q, q', d); } else if q' < q { MulGap(q', q, d); }
  }

  lemma {:induction false} MulGap(a: nat, b: nat, d: pos)
    requires a < b
    ensures a * d + d <= b * d
  {
    var e: nat := b - a - 1;
    assert b == a + 1 + e;
    assert (a + 1 + e) * d == a * d + d + e * d;
  }

  // ---- A client that follows nextCursor ----

  /** How many rows a request selects before paging; a request without a cursor counts one more than any with one. */
  function Remaining(table: seq<Product>, q: Query, cursor: Option<Cursor>): nat {
    match cursor
    case None => |Filter(table, q)| + 1
    case Some(c) => |After(Filter(table, q), c)|
  }

  /** What a client collects by following nextCursor until there is none. That this ends is part of the definition. */
  function Follow(table: seq<Product>, q: Query, cursor: Option<Cursor>): seq<Product>
    decreases Remaining(table, q, cursor)
  {
    var page := FindAll(table, q, cursor);
    if page.nextCursor.None? then page.data
    else
      FollowProgress(table, q, cursor);
      page.data + Follow(table, q, page.nextCursor)
  }

  lemma {:induction false} AfterShrinks(rows: seq<Product>, c: Cursor, c': Cursor, row: Product)
    requires forall r | Below(r, c') :: Below(r, c)
    requires Below(row, c) && !Below(row, c')
    ensures |After(rows, c')| <= |After(rows, c)|
    ensures row in rows ==> |After(rows, c')| < |After(rows, c)|
    decreases |rows|
  {
    if rows != [] {
      AfterShrinks(rows[1..], c, c', row);
      assert rows == [rows[0]] + rows[1..];
      AfterCons(rows[0], rows[1..], c);
      AfterCons(rows[0], rows[1..], c');
    }
  }

  lemma {:induction false} AfterAtMost(rows: seq<Product>, c: Cursor)
    ensures |After(rows, c)| <= |rows|
    decreases |rows|
  {
    if rows != [] { AfterAtMost(rows[1..], c); }
  }

  lemma {:induction false} LastIsSelected(rows: seq<Product>, limit: pos)
    requires |Take(Sort(rows), limit)| == limit
    ensures Take(Sort(rows), limit)[limit - 1] in rows
  {
    SortPermutes(rows);
    SameRows(Sort(rows), rows, limit - 1);
  }

  lemma {:induction false} CursorAdvances(where: seq<Product>, c: Cursor, row: Product)
    requires row in After(where, c)
    ensures |After(where, CursorOf(row))| < |After(where, c)|
  {
    var i :| 0 <= i < |After(where, c)| && After(where, c)[i] == row;
    AfterIsSub(where, c, i);
    NotBelowOwnCursor(row);
    AfterShrinks(where, c, CursorOf(row), row);
  }

  /** Each cursor selects fewer rows than the request that produced it. */
  lemma {:induction false} FollowProgress(table: seq<Product>, q: Query, cursor: Option<Cursor>)
    requires FindAll(table, q, cursor).nextCursor.Some?
    ensures Remaining(table, q, FindAll(table, q, cursor).nextCursor) < Remaining(table, q, cursor)
  {
    var where, page := Filter(table, q), FindAll(table, q, cursor);
    var last := page.data[q.limit - 1];
    match cursor
    case None => AfterAtMost(where, CursorOf(last));
    case Some(c) =>
      LastIsSelected(After(where, c), q.limit);
      CursorAdvances(where, c, last);
  }

  /** Where the rows a request selects begin in the full sorted list. */
  function StartOf(list: seq<Product>, q: Query, cursor: Option<Cursor>): (start: nat)
    ensures start <= |list|
  {
    if cursor.Some? then FirstBelow(list, cursor.value)
    else if Skip(q) <= |list| then Skip(q) else |list|
  }

  /** The page that begins at a position of the full sorted list. */
  function PageAt(list: seq<Product>, limit: pos, start: nat): Page
    requires start <= |list|
  {
    if |list| - start < limit then Page(list[start..], None)
    else Page(list[start..start + limit], Some(CursorOf(list[start + limit - 1])))
  }

  lemma {:induction false} CursorSelectsSuffix(where: seq<Product>, c: Cursor)
    requires DistinctIds(where)
    ensures Sort(After(where, c)) == Sort(where)[FirstBelow(Sort(where), c)..]
  {
    SortSorts(where);
    AfterSort(where, c);
    AfterIsSuffix(Sort(where), c);
  }

  lemma {:induction false} TakeSlice(list: seq<Product>, limit: pos, start: nat)
    requires start <= |list|
    ensures PageOf(list[start..], limit) == PageAt(list, limit, start)
  {
    if |list| - start >= limit {
      assert list[start..][..limit] == list[start..start + limit];
    }
  }

  lemma {:induction false} SelectedRows(table: seq<Product>, q: Query, cursor: Option<Cursor>, list: seq<Product>)
    requires DistinctIds(table) && list == Sort(Filter(table, q))
    ensures Selected(Filter(table, q), q, cursor) == list[StartOf(list, q, cursor)..]
  {
    if cursor.Some? {
      FilterKeepsDistinct(table, q);
      CursorSelectsSuffix(Filter(table, q), cursor.value);
    }
  }

  /** What one request returns, read off the full sorted list. */
  lemma {:induction false} PageIsSlice(table: seq<Product>, q: Query, cursor: Option<Cursor>, list: seq<Product>)
    requires DistinctIds(table) && list == Sort(Filter(table, q))
    ensures FindAll(table, q, cursor) == PageAt(list, q.limit, StartOf(list, q, cursor))
  {
    SelectedRows(table, q, cursor, list);
    TakeSlice(list, q.limit, StartOf(list, q, cursor));
  }

  lemma {:induction false} PagesStep(list: seq<Product>, q: Query, start: nat)
    requires Sorted(list) && start <= |list|
    ensures var page := PageAt(list, q.limit, start);
            Pages(list, q.limit, start) ==
              if page.nextCursor.None? then page.data
              else page.data + Pages(list, q.limit, StartOf(list, q, page.nextCursor))
  {
  }

  /** A client that follows nextCursor walks the pages of the full sorted list. */
  lemma {:induction false} FollowIsPages(table: seq<Product>, q: Query, cursor: Option<Cursor>, list: seq<Product>)
    requires DistinctIds(table) && list == Sort(Filter(table, q)) && Sorted(list)
    ensures Follow(table, q, cursor) == Pages(list, q.limit, StartOf(list, q, cursor))
    decreases Remaining(table, q, cursor)
  {
    var next := FindAll(table, q, cursor).nextCursor;
    PageIsSlice(table, q, cursor, list);
    PagesStep(list, q, StartOf(list, q, cursor));
    if next.Some? {
      FollowProgress(table, q, cursor);
      FollowIsPages(table, q, next, list);
    }
  }

  lemma {:induction false} ListSorted(table: seq<Product>, q: Query)
    requires DistinctIds(table)
    ensures Sorted(Sort(Filter(table, q)))
    ensures multiset(Sort(Filter(table, q))) == multiset(Filter(table, q))
  {
    FilterKeepsDistinct(table, q);
    SortSorts(Filter(table, q));
  }

  lemma {:induction false} SkipIsBoundary(q: Query)
    ensures Skip(q) % q.limit == 0
  {
    ModOf(q.page - 1, q.limit, 0);
  }

  /**
   * Following nextCursor always ends, and it yields the full filtered list in order from the first page asked for,
   * with no skips or repeats, if and only if every later page boundary falls between two rows that the cursor's
   * millisecond timestamp tells apart. With page 1 that is the whole list.
   */
  lemma {:induction false} FollowIsExactIff(table: seq<Product>, q: Query)
    requires DistinctIds(table)
    ensures var list := Sort(Filter(table, q));
            Follow(table, q, None) == Drop(list, Skip(q)) <==> BoundariesSafe(list, q.limit, Skip(q))
  {
    var list := Sort(Filter(table, q));
    var start := StartOf(list, q, None);
    ListSorted(table, q);
    FollowIsPages(table, q, None, list);
    PagesExactIff(list, q.limit, start);
    assert Drop(list, Skip(q)) == list[start..];
    if Skip(q) <= |list| {
      SkipIsBoundary(q);
      SafeIffBoundaries(list, q.limit, start);
    }
  }

  /** At the cursor's resolution the enumeration is exact for every page size. */
  lemma {:induction false} FollowIsExactAtResolution(table: seq<Product>, q: Query)
    requires DistinctIds(table)
    requires forall i | 0 <= i < |table| :: table[i].createdAt % RESOLUTION == 0
    ensures Follow(table, q, None) == Drop(Sort(Filter(table, q)), Skip(q))
  {
    var list := Sort(Filter(table, q));
    ListSorted(table, q);
    forall j: nat | 0 < j < |list| && j % q.limit == 0
      ensures Below(list[j], CursorOf(list[j - 1]))
    {
      SortedAt(list, j - 1, j);
      SameRows(list, Filter(table, q), j - 1);
      FilterIsSub(table, q, list[j - 1]);
    }
    FollowIsExactIff(table, q);
  }

  /** The rows of the first n pages fetched by page number. */
  function NumberedPages(table: seq<Product>, q: Query, n: nat): seq<Product> {
    if n == 0 then [] else NumberedPages(table, q, n - 1) + FindAll(table, q.(page := n), None).data
  }

  lemma {:induction false} NumberedPage(table: seq<Product>, q: Query, n: pos, list: seq<Product>)
    requires DistinctIds(table) && list == Sort(Filter(table, q))
    ensures Take(list, n * q.limit) == Take(list, (n - 1) * q.limit) + FindAll(table, q.(page := n), None).data
  {
    var q' := q.(page := n);
    SameFilter(table, q, q');
    PageIsSlice(table, q', None, list);
    TakeGrows(list, q.limit, Skip(q'));
    SkipNext(q');
  }

  /** Fetching by page number has no boundary condition: the first n pages are the first n * limit rows of the list. */
  lemma {:induction false} NumberedPagesAreExact(table: seq<Product>, q: Query, n: nat)
    requires DistinctIds(table)
    ensures NumberedPages(table, q, n) == Take(Sort(Filter(table, q)), n * q.limit)
  {
    if n > 0 {
      NumberedPagesAreExact(table, q, n - 1);
      NumberedPage(table, q, n, Sort(Filter(table, q)));
    }
  }

  lemma {:induction false} SkipNext(q: Query)
    ensures q.page * q.limit == Skip(q) + q.limit
  {
  }

  lemma {:induction false} TakeGrows(list: seq<Product>, limit: pos, skip: nat)
    ensures var start := if skip <= |list| then skip else |list|;
            Take(list, skip + limit) == Take(list, skip) + PageAt(list, limit, start).data
  {
    if skip + limit <= |list| {
      assert list[..skip + limit] == list[..skip] + list[skip..skip + limit];
    } else if skip <= |list| {
      assert list == list[..skip] + list[skip..];
    } else {
      assert list == list + list[|list|..];
    }
  }

  lemma {:induction false} SameFilter(table: seq<Product>, q: Query, q': Query)
    requires q' == q.(page := q'.page)
    ensures Filter(table, q') == Filter(table, q)
    decreases |table|
  {
    if table != [] { SameFilter(table[1..], q, q'); }
  }

  lemma {:induction false} FilterIsSub(rows: seq<Product>, q: Query, row: Product)
    requires row in Filter(rows, q)
    ensures row in rows && Matches(row, q)
    decreases |rows|
  {
    if row in Filter(rows[1..], q) { FilterIsSub(rows[1..], q, row); }
  }

  /** Finer timestamps do lose rows: with page size 1, the older of two products of one millisecond is never listed. */
  lemma {:induction false} SameMillisecondIsSkipped()
    ensures var newer, older := Product(1, 2500, 0, 0, ACTIVE, false), Product(2, 2400, 0, 0, ACTIVE, false);
            Follow([newer, older], Query(None, None, None, 1, 1), None) == [newer]
  {
    var newer, older := Product(1, 2500, 0, 0, ACTIVE, false), Product(2, 2400, 0, 0, ACTIVE, false);
    var q := Query(None, None, None, 1, 1);
    var c := CursorOf(newer);
    assert [newer, older] == [newer] + [older] && [newer, older][1..] == [older] && [older][1..] == [];
    assert Filter([older], q) == [older] + Filter([], q);
    assert Filter([newer, older], q) == [newer] + Filter([older], q);
    assert Sort([older]) == Insert(older, []) == [older];
    assert Sort([newer, older]) == Insert(newer, [older]);
    assert [older] + [] == [older];
    AfterCons(newer, [older], c);
    AfterCons(older, [], c);
    assert After([], c) == [];
    assert Sort([]) == [];
    assert FindAll([newer, older], q, None) == Page([newer], Some(c));
    assert FindAll([newer, older], q, Some(c)) == Page([], None);
  }
}
