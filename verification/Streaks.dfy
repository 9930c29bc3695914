/** How long a target has been failing: three narrow queries in place of a walk over its history. */
module Streaks {
  import opened Wrappers
  import opened Sorting
  import opened History

  // ------------------------------------------------------ success and failure, as asked

  const FAILED_TEST := -1.0

  /** isFailedTest, on a row of the three NOT NULL columns. */
  predicate IsFailed(r: Row) {
    r.error.GetOr("") != "" || (r.ping == FAILED_TEST && r.download == FAILED_TEST && r.upload == FAILED_TEST)
  }

  /** What SQL makes of a comparison: a null operand makes it unknown. */
  datatype Truth = True | False | Unknown

  function Not(a: Truth): Truth {
    match a case True => False case False => True case Unknown => Unknown
  }

  function And(a: Truth, b: Truth): Truth {
    if a.False? || b.False? then False else if a.True? && b.True? then True else Unknown
  }

  function Or(a: Truth, b: Truth): Truth {
    Not(And(Not(a), Not(b)))
  }

  function Equals<T(==)>(a: Option<T>, b: T): Truth {
    if a.None? then Unknown else if a.value == b then True else False
  }

  function IsNull<T>(a: Option<T>): Truth {
    if a.None? then True else False
  }

  /** FAILED_TEST_FILTER, over columns that may be null. */
  function FailedFilter(error: Option<string>, ping: Option<real>, download: Option<real>,
                        upload: Option<real>): Truth {
    Or(And(Not(IsNull(error)), Not(Equals(error, ""))),
       And(And(Equals(ping, FAILED_TEST), Equals(download, FAILED_TEST)), Equals(upload, FAILED_TEST)))
  }

  /** SUCCESSFUL_TEST_FILTER, negated column by column. */
  function SuccessfulFilter(error: Option<string>, ping: Option<real>, download: Option<real>,
                            upload: Option<real>): Truth {
    And(Or(IsNull(error), Equals(error, "")),
        Or(Or(Not(Equals(ping, FAILED_TEST)), Not(Equals(download, FAILED_TEST))), Not(Equals(upload, FAILED_TEST))))
  }

  /** A real reading: a column that is there and is not the placeholder. */
  predicate Reads(column: Option<real>) {
    column.Some? && column.value != FAILED_TEST
  }

  /**
   Every row is kept by exactly one of the two filters unless nothing decides it:
   no message, no reading, and a null among the three columns.
   */
  lemma FiltersSplitTheTable(error: Option<string>, ping: Option<real>, download: Option<real>, upload: Option<real>)
    ensures var failed, successful :=
              FailedFilter(error, ping, download, upload), SuccessfulFilter(error, ping, download, upload);
            var undecided := error.GetOr("") == "" && !Reads(ping) && !Reads(download) && !Reads(upload)
                             && (ping.None? || download.None? || upload.None?);
            && !(failed.True? && successful.True?)
            && (failed.True? || successful.True? <==> !undecided)
  {
  }

  predicate Failed(r: Row) {
    FailedFilter(r.error, Some(r.ping), Some(r.download), Some(r.upload)).True?
  }

  predicate Successful(r: Row) {
    SuccessfulFilter(r.error, Some(r.ping), Some(r.download), Some(r.upload)).True?
  }

  /** Over the stored columns the filters say what the predicate says. */
  lemma FiltersAgreeWithPredicate(r: Row)
    ensures Failed(r) <==> IsFailed(r)
    ensures Successful(r) <==> !IsFailed(r)
  {
  }

  // ------------------------------------------------------------------- the streak

  datatype Streak = Streak(count: nat, since: Option<nat>)

  function SuccessOf(target: int): Row -> bool {
    (r: Row) => Successful(r) && r.target == Some(target)
  }

  /** The rows counted: failures of the target, after its newest success when it has one. */
  function FailureOf(target: int, newestSuccess: Option<Row>): Row -> bool {
    (r: Row) => Failed(r) && r.target == Some(target) && (newestSuccess.Some? ==> Newer(r, newestSuccess.value))
  }

  function Earliest(rows: Table): nat
    requires rows != []
  {
    if |rows| == 1 then rows[0].created
    else
      var rest := Earliest(rows[1..]);
      if rows[0].created < rest then rows[0].created else rest
  }

  /** failureStreak: findOne, count, min. */
  function FailureStreak(table: Table, target: int): Streak {
    var successes := Newest(Filter(table, SuccessOf(target)));
    var newestSuccess := if successes == [] then None else Some(successes[0]);
    var counted := Filter(table, FailureOf(target, newestSuccess));
    if counted == [] then Streak(0, None) else Streak(|counted|, Some(Earliest(counted)))
  }

  /** The walk it replaces: down the target's history, newest first, to the first row that measured something. */
  function LeadingFailures(history: Table): Table {
    if history == [] || !IsFailed(history[0]) then [] else [history[0]] + LeadingFailures(history[1..])
  }

  function Walk(table: Table, target: int): Streak {
    var run := LeadingFailures(Newest(Filter(table, OfTarget(target))));
    if run == [] then Streak(0, None) else Streak(|run|, Some(run[|run| - 1].created))
  }

  // -------------------------------------------------------- the queries are the walk

  /** The walk stops at the newest success: it collects the failures after it, all of them. */
  lemma {:induction false} LeadingFailuresAre(history: Table)
    requires Sorted(history, Newer)
    ensures var run := LeadingFailures(history);
            && run <= history && (forall r :: r in run ==> IsFailed(r))
            && (|run| < |history| ==> !IsFailed(history[|run|]))
  {
    if history != [] && IsFailed(history[0]) {
      LeadingFailuresAre(history[1..]);
    }
  }

  /** Where the newest success of an ordered history stands: right behind the leading failures. */
  lemma NewestSuccessEndsTheRun(history: Table, successes: Table)
    requires Sorted(history, Newer) && StrictOrder(Newer)
    requires Sorted(successes, Newer) && forall r :: r in successes <==> r in history && !IsFailed(r)
    ensures var run := LeadingFailures(history);
            if successes == [] then run == history else |run| < |history| && history[|run|] == successes[0]
  {
    LeadingFailuresAre(history);
    var run := LeadingFailures(history);
    assert successes == [] || successes[0] in successes;
    if |run| < |history| {
      assert history[|run|] in successes;
      HeadIsFirst(successes, history[|run|], Newer);
      var k :| 0 <= k < |history| && history[k] == successes[0];
      OutsideThePrefix(history, run, k);
    }
  }

  lemma OutsideThePrefix(history: Table, run: Table, k: nat)
    requires run <= history && k < |history| && history[k] !in run
    ensures |run| <= k
  {
  }

  lemma NewerIsBefore(history: Table, i: nat, r: Row)
    requires Sorted(history, Newer) && StrictOrder(Newer) && i < |history| && r in history && Newer(r, history[i])
    ensures r in history[..i]
  {
    var k :| 0 <= k < |history| && history[k] == r;
    assert k < i;
    assert history[..i][k] == r;
  }

  lemma CountedAreTheRun(history: Table, newestSuccess: Option<Row>, r: Row)
    requires Sorted(history, Newer) && StrictOrder(Newer)
    requires var run := LeadingFailures(history);
             if newestSuccess.None? then run == history else |run| < |history| && history[|run|] == newestSuccess.value
    ensures r in LeadingFailures(history)
            <==> r in history && IsFailed(r) && (newestSuccess.Some? ==> Newer(r, newestSuccess.value))
  {
    LeadingFailuresAre(history);
    var run := LeadingFailures(history);
    if r in run {
      var k :| 0 <= k < |run| && run[k] == r;
      assert history[k] == r;
    }
    if r in history && newestSuccess.Some? && Newer(r, newestSuccess.value) {
      NewerIsBefore(history, |run|, r);
    }
  }

  /** The earliest of rows listed newest first is the last of them. */
  lemma {:induction false} EarliestIsLast(rows: Table, listed: Table)
    requires Sorted(listed, Newer) && listed != [] && rows != [] && forall r :: r in rows <==> r in listed
    ensures Earliest(rows) == listed[|listed| - 1].created
  {
    EarliestIs(rows);
    var r :| r in rows && r.created == Earliest(rows);
    var k :| 0 <= k < |listed| && listed[k] == r;
    assert k == |listed| - 1 || Newer(listed[k], listed[|listed| - 1]);
    assert listed[|listed| - 1] in rows;
  }

  lemma {:induction false} EarliestIs(rows: Table)
    requires rows != []
    ensures forall r :: r in rows ==> Earliest(rows) <= r.created
    ensures exists r :: r in rows && r.created == Earliest(rows)
  {
    if |rows| > 1 {
      EarliestIs(rows[1..]);
      assert forall r :: r in rows <==> r == rows[0] || r in rows[1..];
    } else {
      assert rows[0] in rows;
    }
  }

  lemma SameRowsSameCount(table: Table, keep: Row -> bool, listed: Table)
    requires Keyed(table) && Sorted(listed, Newer) && forall r :: r in listed <==> r in table && keep(r)
    ensures |Filter(table, keep)| == |listed|
  {
    NewerOrders(table);
    FilterKeepsTotal(table, keep, Newer);
    FilterIs(table, keep);
    SortSorts(Filter(table, keep), Newer);
    SortIs(Filter(table, keep), Newer);
    OneSortedList(Sort(Filter(table, keep), Newer), listed, Newer);
  }

  lemma NewestIs(table: Table, keep: Row -> bool)
    requires Keyed(table)
    ensures Sorted(Newest(Filter(table, keep)), Newer)
    ensures forall r :: r in Newest(Filter(table, keep)) <==> r in table && keep(r)
  {
    NewerOrders(table);
    FilterKeepsTotal(table, keep, Newer);
    FilterIs(table, keep);
    SortSorts(Filter(table, keep), Newer);
    SortIs(Filter(table, keep), Newer);
  }

  /** The three queries answer what the walk over the whole history would, shared instants included. */
  lemma StreakIsTheWalk(table: Table, target: int)
    requires Keyed(table)
    ensures FailureStreak(table, target) == Walk(table, target)
  {
    var history := Newest(Filter(table, OfTarget(target)));
    var successes := Newest(Filter(table, SuccessOf(target)));
    var newestSuccess := if successes == [] then None else Some(successes[0]);
    NewerOrders(table);
    NewestIs(table, OfTarget(target));
    NewestIs(table, SuccessOf(target));
    forall r ensures r in successes <==> r in history && !IsFailed(r) {
      FiltersAgreeWithPredicate(r);
    }
    NewestSuccessEndsTheRun(history, successes);
    RunIsCounted(table, target, history, newestSuccess);
  }

  lemma RunIsCounted(table: Table, target: int, history: Table, newestSuccess: Option<Row>)
    requires Keyed(table) && Sorted(history, Newer) && StrictOrder(Newer)
    requires forall r :: r in history <==> r in table && r.target == Some(target)
    requires var run := LeadingFailures(history);
             if newestSuccess.None? then run == history else |run| < |history| && history[|run|] == newestSuccess.value
    ensures var counted, run := Filter(table, FailureOf(target, newestSuccess)), LeadingFailures(history);
            && |counted| == |run|
            && (run != [] ==> Earliest(counted) == run[|run| - 1].created)
  {
    var keep, run := FailureOf(target, newestSuccess), LeadingFailures(history);
    LeadingFailuresAre(history);
    forall r ensures r in run <==> r in table && keep(r) {
      RowIsCounted(target, history, newestSuccess, r);
    }
    CountAndEarliest(table, keep, run);
  }

  lemma RowIsCounted(target: int, history: Table, newestSuccess: Option<Row>, r: Row)
    requires Sorted(history, Newer) && StrictOrder(Newer)
    requires var run := LeadingFailures(history);
             if newestSuccess.None? then run == history else |run| < |history| && history[|run|] == newestSuccess.value
    ensures r.target == Some(target) ==>
              (r in LeadingFailures(history) <==> r in history && FailureOf(target, newestSuccess)(r))
    ensures FailureOf(target, newestSuccess)(r) ==> r.target == Some(target)
  {
    FiltersAgreeWithPredicate(r);
    CountedAreTheRun(history, newestSuccess, r);
  }

  lemma CountAndEarliest(table: Table, keep: Row -> bool, run: Table)
    requires Keyed(table) && Sorted(run, Newer) && forall r :: r in run <==> r in table && keep(r)
    ensures |Filter(table, keep)| == |run|
    ensures run != [] ==> Filter(table, keep) != [] && Earliest(Filter(table, keep)) == run[|run| - 1].created
  {
    SameRowsSameCount(table, keep, run);
    FilterIs(table, keep);
    if run != [] {
      EarliestIsLast(Filter(table, keep), run);
    }
  }

  // ---------------------------------------------------------------- the next result

  /** A row after everything its target has recorded. */
  ghost predicate IsNext(table: Table, row: Row, target: int) {
    && Keyed(table + [row]) && row.target == Some(target)
    && forall r :: r in table && r.target == Some(target) ==> Newer(row, r)
  }

  /** The next result heads the target's history. */
  lemma NextHeadsTheHistory(table: Table, row: Row, target: int)
    requires IsNext(table, row, target)
    ensures Newest(Filter(table + [row], OfTarget(target))) == [row] + Newest(Filter(table, OfTarget(target)))
  {
    var before := Newest(Filter(table, OfTarget(target)));
    assert Keyed(table) by {
      forall i, j | 0 <= i < j < |table| ensures table[i].id != table[j].id {
        assert (table + [row])[i].id != (table + [row])[j].id;
      }
    }
    NewerOrders(table + [row]);
    NewestIs(table, OfTarget(target));
    NewestIs(table + [row], OfTarget(target));
    assert Sorted([row] + before, Newer) by {
      forall j | 0 <= j < |before| ensures Newer(row, before[j]) {
        assert before[j] in before;
      }
    }
    forall r ensures r in Newest(Filter(table + [row], OfTarget(target))) <==> r in [row] + before {
    }
    OneSortedList(Newest(Filter(table + [row], OfTarget(target))), [row] + before, Newer);
  }

  /** A newest failure extends the streak by exactly one, down since the same test; a newest success ends it. */
  lemma NextResult(table: Table, row: Row, target: int)
    requires Keyed(table) && IsNext(table, row, target)
    ensures var before, after := FailureStreak(table, target), FailureStreak(table + [row], target);
            if IsFailed(row)
            then after == Streak(before.count + 1, Some(before.since.GetOr(row.created)))
            else after == Streak(0, None)
  {
    StreakIsTheWalk(table, target);
    StreakIsTheWalk(table + [row], target);
    NextHeadsTheHistory(table, row, target);
    var before := Newest(Filter(table, OfTarget(target)));
    assert ([row] + before)[1..] == before;
  }
}
