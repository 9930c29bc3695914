/**
 The speedtest history as it is read back: the export that walks it page by
 page, the failure streak three narrow queries answer, one read split into many.
 */
module History {
  import opened Wrappers
  import opened Sorting

  /** A stored test. `created` is the instant its ISO-8601 text names, in milliseconds since the year 0. */
  datatype Row = Row(id: nat, created: nat, target: Option<int>, error: Option<string>,
                     ping: real, download: real, upload: real)

  type Table = seq<Row>

  /** Ids are the primary key. */
  ghost predicate Keyed(table: Table) {
    forall i, j :: 0 <= i < j < |table| ==> table[i].id != table[j].id
  }

  /** LIST_ORDER: newest first, ties settled by id. */
  predicate Newer(a: Row, b: Row) {
    a.created > b.created || (a.created == b.created && a.id > b.id)
  }

  /** The rows of one target. */
  function OfTarget(target: int): Row -> bool {
    (r: Row) => r.target == Some(target)
  }

  function Newest(table: Table): Table {
    Sort(table, Newer)
  }

  lemma NewerOrders(table: Table)
    requires Keyed(table)
    ensures StrictOrder(Newer) && Total(table, Newer)
  {
  }

  // ------------------------------------------------------------------- the export

  datatype Cursor = Cursor(created: nat, id: nat)

  /** listFilter's cursor condition. */
  predicate Past(after: Option<Cursor>, r: Row) {
    after.Some? ==>
      r.created < after.value.created || (r.created == after.value.created && r.id < after.value.id)
  }

  function PastFilter(after: Option<Cursor>): Row -> bool {
    r => Past(after, r)
  }

  /** One page: where, order, limit. */
  function Page(table: Table, after: Option<Cursor>, pageSize: nat): (rows: Table)
    ensures |rows| <= pageSize
    ensures forall r :: r in rows ==> r in table && Past(after, r)
    ensures rows != [] ==> Past(after, rows[|rows| - 1])
  {
    var left := Filter(table, PastFilter(after));
    var sorted := Newest(left);
    FilterIs(table, PastFilter(after));
    SortIs(left, Newer);
    assert forall r :: r in Take(sorted, pageSize) ==> r in sorted;
    var rows := Take(sorted, pageSize);
    assert rows != [] ==> rows[|rows| - 1] in rows;
    rows
  }

  function After(r: Row): Option<Cursor> {
    Some(Cursor(r.created, r.id))
  }

  /** How far down a cursor stands: at the very top, or at its row. */
  function AtTop(after: Option<Cursor>): nat {
    if after.None? then 1 else 0
  }

  function CreatedOf(after: Option<Cursor>): nat {
    if after.None? then 0 else after.value.created
  }

  function IdOf(after: Option<Cursor>): nat {
    if after.None? then 0 else after.value.id
  }

  /** The pages of a walk whose k-th read finds the table as `worlds(k)`, from read n on. */
  function Pages(worlds: nat -> Table, n: nat, after: Option<Cursor>, pageSize: nat): seq<Table>
    requires pageSize >= 1
    decreases AtTop(after), CreatedOf(after), IdOf(after)
  {
    var rows := Page(worlds(n), after, pageSize);
    if rows == [] then []
    else if |rows| < pageSize then [rows]
    else [rows] + Pages(worlds, n + 1, After(rows[|rows| - 1]), pageSize)
  }

  lemma PagesFrom(worlds: nat -> Table, n: nat, after: Option<Cursor>, pageSize: nat)
    requires pageSize >= 1
    ensures var rows := Page(worlds(n), after, pageSize);
            Pages(worlds, n, after, pageSize)
            == if rows == [] then []
               else if |rows| < pageSize then [rows]
               else [rows] + Pages(worlds, n + 1, After(rows[|rows| - 1]), pageSize)
  {
  }

  /** A page, what a walk has read with it, and what is left of the walk behind it. */
  lemma NextPage(worlds: nat -> Table, pageSize: nat, pages: seq<Table>, n: nat, after: Option<Cursor>,
                 whole: seq<Table>)
    requires pageSize >= 1 && whole == pages + Pages(worlds, n, after, pageSize)
    ensures var rows := Page(worlds(n), after, pageSize);
            if rows == [] then whole == pages
            else if |rows| < pageSize then whole == pages + [rows]
            else whole == (pages + [rows]) + Pages(worlds, n + 1, After(rows[|rows| - 1]), pageSize)
  {
    PagesFrom(worlds, n, after, pageSize);
    var rows := Page(worlds(n), after, pageSize);
    if |rows| == pageSize {
      Regrouped(pages, [rows], Pages(worlds, n + 1, After(rows[pageSize - 1]), pageSize));
    }
  }

  /** SELECT ... WHERE ... ORDER BY ... LIMIT: one page's query. */
  method ReadPage(table: Table, after: Option<Cursor>, pageSize: nat) returns (rows: Table)
    ensures rows == Page(table, after, pageSize)
    ensures |rows| <= pageSize && (rows != [] ==> Past(after, rows[|rows| - 1]))
  {
    rows := Page(table, after, pageSize);
  }

  /** listPages. It ends however the table changes under it: the cursor only moves down. */
  method ListPages(worlds: nat -> Table, pageSize: nat) returns (pages: seq<Table>)
    requires pageSize >= 1
    ensures pages == Pages(worlds, 0, None, pageSize)
  {
    ghost var whole := Pages(worlds, 0, None, pageSize);
    pages := [];
    var after := None;
    var read := 0;
    while true
      invariant whole == pages + Pages(worlds, read, after, pageSize)
      decreases AtTop(after), CreatedOf(after), IdOf(after)
    {
      NextPage(worlds, pageSize, pages, read, after, whole);
      var rows := ReadPage(worlds(read), after, pageSize);
      if |rows| == 0 { return; }
      pages := pages + [rows];
      if |rows| < pageSize { return; }
      after := After(rows[|rows| - 1]);
      read := read + 1;
    }
  }

  lemma TakeOfSorted(sorted: Table, n: nat, r: Row)
    requires Sorted(sorted, Newer) && n >= 1 && r in sorted
    ensures var rows := Take(sorted, n); r in rows || (|rows| == n && Newer(rows[n - 1], r))
  {
    var k :| 0 <= k < |sorted| && sorted[k] == r;
    if k < |Take(sorted, n)| {
      assert Take(sorted, n)[k] == r;
    }
  }

  /** A page is the newest of what the cursor leaves; what it leaves out comes after its last row. */
  lemma PageIsNewest(table: Table, after: Option<Cursor>, pageSize: nat)
    requires Keyed(table) && pageSize >= 1
    ensures Sorted(Page(table, after, pageSize), Newer)
    ensures forall r :: r in table && Past(after, r) ==>
              var rows := Page(table, after, pageSize);
              r in rows || (|rows| == pageSize && Past(After(rows[pageSize - 1]), r))
  {
    var left := Filter(table, PastFilter(after));
    NewerOrders(table);
    FilterKeepsTotal(table, PastFilter(after), Newer);
    SortSorts(left, Newer);
    FilterIs(table, PastFilter(after));
    SortIs(left, Newer);
    forall r | r in table && Past(after, r)
      ensures var rows := Page(table, after, pageSize);
              r in rows || (|rows| == pageSize && Past(After(rows[pageSize - 1]), r))
    {
      TakeOfSorted(Newest(left), pageSize, r);
    }
  }

  lemma PageHasOrLeaves(table: Table, after: Option<Cursor>, pageSize: nat, r: Row)
    requires Keyed(table) && pageSize >= 1 && r in table && Past(after, r)
    ensures var rows := Page(table, after, pageSize);
            r in rows || (|rows| == pageSize && Past(After(rows[pageSize - 1]), r))
  {
    PageIsNewest(table, after, pageSize);
  }

  lemma PageDescends(table: Table, after: Option<Cursor>, pageSize: nat)
    requires Keyed(table) && pageSize >= 1
    ensures Sorted(Page(table, after, pageSize), Newer)
  {
    PageIsNewest(table, after, pageSize);
  }

  ghost predicate AlwaysKeyed(worlds: nat -> Table) {
    forall k :: Keyed(worlds(k))
  }

  lemma ChainedOnto(rows: Table, pages: seq<Table>)
    ensures Chained([rows] + pages) == rows + Chained(pages)
  {
    assert ([rows] + pages)[1..] == pages;
  }

  /** The rows of a walk: its first page, and those past that page's last row. */
  lemma WalkFrom(worlds: nat -> Table, n: nat, after: Option<Cursor>, pageSize: nat)
    requires pageSize >= 1
    ensures var rows := Page(worlds(n), after, pageSize);
            Chained(Pages(worlds, n, after, pageSize))
            == rows + if |rows| == pageSize then Chained(Pages(worlds, n + 1, After(rows[pageSize - 1]), pageSize))
              else []
  {
    var rows := Page(worlds(n), after, pageSize);
    PagesFrom(worlds, n, after, pageSize);
    if |rows| == pageSize {
      ChainedOnto(rows, Pages(worlds, n + 1, After(rows[pageSize - 1]), pageSize));
    } else {
      ChainedOnto(rows, []);
    }
  }

  lemma WalkLength(worlds: nat -> Table, n: nat, after: Option<Cursor>, pageSize: nat)
    requires pageSize >= 1 && |Page(worlds(n), after, pageSize)| == pageSize
    ensures |Pages(worlds, n, after, pageSize)|
         == 1 + |Pages(worlds, n + 1, After(Page(worlds(n), after, pageSize)[pageSize - 1]), pageSize)|
  {
    PagesFrom(worlds, n, after, pageSize);
  }

  lemma JoinSorted(rows: Table, rest: Table)
    requires Sorted(rows, Newer) && Sorted(rest, Newer) && rows != []
    requires forall s :: s in rest ==> Newer(rows[|rows| - 1], s)
    ensures Sorted(rows + rest, Newer)
  {
    forall i, j | 0 <= i < |rows| && 0 <= j < |rest| ensures Newer(rows[i], rest[j]) {
      assert i == |rows| - 1 || Newer(rows[i], rows[|rows| - 1]);
      assert rest[j] in rest;
    }
  }

  /** A descending page, and rows that descend from its last one on. */
  lemma DescendOn(rows: Table, rest: Table, after: Option<Cursor>)
    requires rows != [] && Sorted(rows, Newer) && Sorted(rest, Newer)
    requires forall r :: r in rows ==> Past(after, r)
    requires forall r :: r in rest ==> Past(After(rows[|rows| - 1]), r)
    ensures Sorted(rows + rest, Newer)
    ensures forall r :: r in rows + rest ==> Past(after, r)
  {
    assert rows[|rows| - 1] in rows;
    JoinSorted(rows, rest);
  }

  /** Every row of the walk comes after its cursor, and each after the one before it. */
  lemma {:induction false} WalkDescends(worlds: nat -> Table, n: nat, after: Option<Cursor>, pageSize: nat)
    requires pageSize >= 1 && AlwaysKeyed(worlds)
    ensures Sorted(Chained(Pages(worlds, n, after, pageSize)), Newer)
    ensures forall r :: r in Chained(Pages(worlds, n, after, pageSize)) ==> Past(after, r)
    decreases AtTop(after), CreatedOf(after), IdOf(after)
  {
    var rows := Page(worlds(n), after, pageSize);
    PageDescends(worlds(n), after, pageSize);
    WalkFrom(worlds, n, after, pageSize);
    if |rows| == pageSize {
      var last := rows[|rows| - 1];
      WalkDescends(worlds, n + 1, After(last), pageSize);
      DescendOn(rows, Chained(Pages(worlds, n + 1, After(last), pageSize)), after);
    }
  }

  /** The row is in the table at each of the reads n to m. */
  ghost predicate Throughout(worlds: nat -> Table, r: Row, n: nat, m: nat) {
    forall k :: n <= k <= m ==> r in worlds(k)
  }

  /** A row the first page misses is left to the rest of the walk. */
  lemma FirstPageOrLater(worlds: nat -> Table, n: nat, after: Option<Cursor>, pageSize: nat, r: Row)
    requires pageSize >= 1 && Keyed(worlds(n)) && r in worlds(n) && Past(after, r)
    ensures var rows := Page(worlds(n), after, pageSize);
            r in rows || (&& |rows| == pageSize && Past(After(rows[pageSize - 1]), r)
                          && |Pages(worlds, n, after, pageSize)|
                             == 1 + |Pages(worlds, n + 1, After(rows[pageSize - 1]), pageSize)|)
  {
    PageHasOrLeaves(worlds(n), after, pageSize, r);
    if r !in Page(worlds(n), after, pageSize) {
      WalkLength(worlds, n, after, pageSize);
    }
  }

  lemma WalkHolds(worlds: nat -> Table, n: nat, after: Option<Cursor>, pageSize: nat, r: Row)
    requires pageSize >= 1
    ensures var rows := Page(worlds(n), after, pageSize);
            r in Chained(Pages(worlds, n, after, pageSize))
            <==> || r in rows
                 || (|rows| == pageSize && r in Chained(Pages(worlds, n + 1, After(rows[pageSize - 1]), pageSize)))
  {
    WalkFrom(worlds, n, after, pageSize);
  }

  /** A row that is there at every read of the walk is on one of its pages. */
  lemma {:induction false} WalkFinds(worlds: nat -> Table, n: nat, m: nat, after: Option<Cursor>, pageSize: nat, r: Row)
    requires pageSize >= 1 && AlwaysKeyed(worlds) && Past(after, r)
    requires n + |Pages(worlds, n, after, pageSize)| <= m && Throughout(worlds, r, n, m)
    ensures r in Chained(Pages(worlds, n, after, pageSize))
    decreases AtTop(after), CreatedOf(after), IdOf(after)
  {
    var rows := Page(worlds(n), after, pageSize);
    FirstPageOrLater(worlds, n, after, pageSize, r);
    if r !in rows {
      WalkFinds(worlds, n + 1, m, After(rows[pageSize - 1]), pageSize, r);
    }
    WalkHolds(worlds, n, after, pageSize, r);
  }

  /**
   The export of a changing table: whatever is inserted, deleted or rewritten
   between its pages, no row is on it twice, and every row that is there as it
   is throughout is on it exactly once, newest first.
   */
  lemma ExportOfChangingTable(worlds: nat -> Table, pageSize: nat, r: Row)
    requires pageSize >= 1 && AlwaysKeyed(worlds)
    ensures var rows := Chained(Pages(worlds, 0, None, pageSize));
            forall i, j :: 0 <= i < j < |rows| ==>
              rows[i].created > rows[j].created || (rows[i].created == rows[j].created && rows[i].id > rows[j].id)
    ensures (Throughout(worlds, r, 0, |Pages(worlds, 0, None, pageSize)|)) ==>
              multiset(Chained(Pages(worlds, 0, None, pageSize)))[r] == 1
  {
    WalkDescends(worlds, 0, None, pageSize);
    var exported := Chained(Pages(worlds, 0, None, pageSize));
    if Throughout(worlds, r, 0, |Pages(worlds, 0, None, pageSize)|) {
      WalkFinds(worlds, 0, |Pages(worlds, 0, None, pageSize)|, None, pageSize, r);
      forall i, j | 0 <= i < j < |exported| ensures exported[i] != exported[j] {
        assert Newer(exported[i], exported[j]);
      }
      OnceEach(exported, r);
    }
  }

  /** A table nobody touches. */
  function Still(table: Table): nat -> Table {
    k => table
  }

  /** The export of a table nobody touches is the table, newest first, whatever the page size. */
  lemma ExportOfStaticTable(table: Table, pageSize: nat)
    requires pageSize >= 1 && Keyed(table)
    ensures Chained(Pages(Still(table), 0, None, pageSize)) == Newest(table)
  {
    var worlds := Still(table);
    WalkDescends(worlds, 0, None, pageSize);
    NewerOrders(table);
    SortSorts(table, Newer);
    SortIs(table, Newer);
    var exported := Chained(Pages(worlds, 0, None, pageSize));
    forall r ensures r in exported <==> r in Newest(table) {
      if r in table {
        WalkFinds(worlds, 0, |Pages(worlds, 0, None, pageSize)|, None, pageSize, r);
      }
      if r in exported {
        WalkOnlyReads(worlds, 0, None, pageSize, r);
      }
    }
    OneSortedList(exported, Newest(table), Newer);
  }

  ghost predicate EverThere(worlds: nat -> Table, r: Row) {
    exists k :: r in worlds(k)
  }

  lemma SeenAt(worlds: nat -> Table, n: nat, r: Row)
    requires r in worlds(n)
    ensures EverThere(worlds, r)
  {
  }

  /** The walk makes no rows up. */
  lemma {:induction false} WalkOnlyReads(worlds: nat -> Table, n: nat, after: Option<Cursor>, pageSize: nat, r: Row)
    requires pageSize >= 1 && r in Chained(Pages(worlds, n, after, pageSize))
    ensures EverThere(worlds, r)
    decreases AtTop(after), CreatedOf(after), IdOf(after)
  {
    var rows := Page(worlds(n), after, pageSize);
    WalkHolds(worlds, n, after, pageSize, r);
    if r in rows {
      SeenAt(worlds, n, r);
    } else {
      WalkOnlyReads(worlds, n + 1, After(rows[|rows| - 1]), pageSize, r);
    }
  }

  /** A test keeps the instant it was stored with, whatever else is rewritten. */
  ghost predicate CreatedStands(worlds: nat -> Table) {
    forall a, b | EverThere(worlds, a) && EverThere(worlds, b) :: a.id == b.id ==> a.created == b.created
  }

  /**
   No test is on the export twice, not even in two versions, as long as none has
   its `created` rewritten between pages.
   */
  lemma NoTestTwice(worlds: nat -> Table, pageSize: nat)
    requires pageSize >= 1 && AlwaysKeyed(worlds) && CreatedStands(worlds)
    ensures Keyed(Chained(Pages(worlds, 0, None, pageSize)))
  {
    WalkDescends(worlds, 0, None, pageSize);
    var exported := Chained(Pages(worlds, 0, None, pageSize));
    forall i, j | 0 <= i < j < |exported| ensures exported[i].id != exported[j].id {
      WalkOnlyReads(worlds, 0, None, pageSize, exported[i]);
      WalkOnlyReads(worlds, 0, None, pageSize, exported[j]);
      assert Newer(exported[i], exported[j]);
    }
  }

  lemma OneRowWalk(worlds: nat -> Table, n: nat, after: Option<Cursor>, row: Row)
    requires worlds(n) == [row] && Past(after, row)
    ensures Chained(Pages(worlds, n, after, 1)) == [row] + Chained(Pages(worlds, n + 1, After(row), 1))
  {
    OnePage(row, after);
    WalkFrom(worlds, n, after, 1);
  }

  lemma TwoRowWalk(worlds: nat -> Table, a: Row, b: Row)
    requires worlds(0) == [a] && worlds(1) == [b] && worlds(2) == [] && Past(After(a), b)
    ensures Chained(Pages(worlds, 0, None, 1)) == [a, b]
  {
    OneRowWalk(worlds, 0, None, a);
    OneRowWalk(worlds, 1, After(a), b);
    PagesFrom(worlds, 2, After(b), 1);
    assert Page([], After(b), 1) == [];
  }

  function MovedBetween(before: Row, after: Row): nat -> Table {
    k => if k == 0 then [before] else if k == 1 then [after] else []
  }

  /** Without that, it can be: a test moved into the past between two pages is listed twice. */
  lemma MovedTestIsListedTwice()
    ensures var before, after := Row(1, 9, None, None, 1.0, 1.0, 1.0), Row(1, 5, None, None, 1.0, 1.0, 1.0);
            var worlds := MovedBetween(before, after);
            AlwaysKeyed(worlds) && Chained(Pages(worlds, 0, None, 1)) == [before, after]
  {
    var before, after := Row(1, 9, None, None, 1.0, 1.0, 1.0), Row(1, 5, None, None, 1.0, 1.0, 1.0);
    TwoRowWalk(MovedBetween(before, after), before, after);
  }

  lemma OnePage(row: Row, after: Option<Cursor>)
    requires Past(after, row)
    ensures Page([row], after, 1) == [row]
  {
    assert Filter([row], PastFilter(after)) == [row];
    assert Sort([row], Newer) == [row];
  }
}
