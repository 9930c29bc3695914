/** The statistics of several targets from one read, or one and a comparison's, split in memory. */
module TargetStatistics {
  import opened Wrappers
  import opened Sorting
  import opened History

  /** The three states of a comparison: not asked for, asked for without a window to take it over, or taken. */
  datatype Previous<P> = NotAsked | NoWindow | Over(summary: P)

  /**
   What the statistics are made with: which rows a window holds, the window a
   range is compared against, and the summaries of the rows read for either.
   */
  datatype Summaries<!W, !P, !S> = Summaries(
    within: (W, Row) -> bool,
    comparison: W -> Option<W>,
    compared: (Table, W) -> P,
    summarise: (Table, Option<W>, Previous<P>) -> S)

  /** What is asked about; all time is the absence of a range. */
  datatype Question<W> = Question(range: Option<W>, compare: bool)

  /** The tables the two reads of a request find, each in the order it is read in. */
  datatype Reads = Reads(first: Table, second: Table)

  // ---------------------------------------------------------------------- the queries

  function InRange<W, P, S>(how: Summaries<W, P, S>, range: Option<W>): Row -> bool {
    r => range.None? || how.within(range.value, r)
  }

  function OfOne(window: Row -> bool, id: int): Row -> bool {
    r => window(r) && r.target == Some(id)
  }

  function OfSeveral(window: Row -> bool, ids: seq<int>): Row -> bool {
    r => window(r) && r.target.Some? && r.target.value in ids
  }

  /** The window to compare against, None in the first place when no comparison is asked for. */
  function Comparison<W, P, S>(how: Summaries<W, P, S>, q: Question<W>): Option<Option<W>> {
    if q.range.Some? && q.compare then Some(how.comparison(q.range.value)) else None
  }

  // -------------------------------------------------------------------- a single answer

  function PreviousOf<W, P, S>(how: Summaries<W, P, S>, comparison: Option<Option<W>>, rows: Table): Previous<P> {
    match comparison
    case None => NotAsked
    case Some(None) => NoWindow
    case Some(Some(window)) => Over(how.compared(rows, window))
  }

  /** The rows of one target the comparison is taken over, if there is a window for it. */
  function ComparedRows<W, P, S>(how: Summaries<W, P, S>, table: Table, comparison: Option<Option<W>>, id: int): Table {
    if comparison.Some? && comparison.value.Some? then Filter(table, OfOne(InRange(how, comparison.value), id)) else []
  }

  /** listStatistics, asked about one target. */
  function ListStatistics<W, P, S>(how: Summaries<W, P, S>, tables: Reads, q: Question<W>, id: int): S {
    var comparison := Comparison(how, q);
    how.summarise(Filter(tables.first, OfOne(InRange(how, q.range), id)), q.range,
                  PreviousOf(how, comparison, ComparedRows(how, tables.second, comparison, id)))
  }

  // ------------------------------------------------------------------ several at once

  /** The rows of one read, split into the target each of them measured; a bucket for every id asked about. */
  method GroupByTarget(entries: Table, ids: seq<int>) returns (grouped: map<int, Table>)
    ensures forall id :: id in grouped <==> id in ids
    ensures forall id :: id in ids ==> grouped[id] == Filter(entries, OfTarget(id))
  {
    grouped := map id | id in ids :: [];
    for i := 0 to |entries|
      invariant forall id :: id in grouped <==> id in ids
      invariant forall id :: id in ids ==> grouped[id] == Filter(entries[..i], OfTarget(id))
    {
      var entry := entries[i];
      forall id: int ensures Filter(entries[..i + 1], OfTarget(id))
                          == Filter(entries[..i], OfTarget(id)) + if entry.target == Some(id) then [entry] else [] {
        assert entries[..i + 1] == entries[..i] + [entry];
        FilterAppends(entries[..i], [entry], OfTarget(id));
      }
      if entry.target.Some? && entry.target.value in grouped {
        grouped := grouped[entry.target.value := grouped[entry.target.value] + [entry]];
      }
    }
    assert entries[..|entries|] == entries;
  }

  /** A target's share of the shared read is the read of that target alone, row for row. */
  lemma {:induction false} BatchedReadIsEachRead(table: Table, window: Row -> bool, ids: seq<int>, id: int)
    requires id in ids
    ensures Filter(Filter(table, OfSeveral(window, ids)), OfTarget(id)) == Filter(table, OfOne(window, id))
  {
    if table == [] {
    } else {
      BatchedReadIsEachRead(table[1..], window, ids, id);
      if OfSeveral(window, ids)(table[0]) {
        assert Filter(table, OfSeveral(window, ids))[1..] == Filter(table[1..], OfSeveral(window, ids));
      }
    }
  }

  /** One entry for every distinct id, in the order they were first asked about. */
  method Distinct(ids: seq<int>) returns (wanted: seq<int>)
    ensures forall id :: id in wanted <==> id in ids
    ensures forall i, j :: 0 <= i < j < |wanted| ==> wanted[i] != wanted[j]
  {
    wanted := [];
    for i := 0 to |ids|
      invariant forall id :: id in wanted <==> id in ids[..i]
      invariant forall i, j :: 0 <= i < j < |wanted| ==> wanted[i] != wanted[j]
    {
      assert forall id :: id in ids[..i + 1] <==> id in ids[..i] || id == ids[i];
      if ids[i] !in wanted {
        wanted := wanted + [ids[i]];
      }
    }
    assert ids[..|ids|] == ids;
  }

  method ReadByTarget(table: Table, window: Row -> bool, ids: seq<int>) returns (rows: map<int, Table>)
    ensures forall id :: id in rows <==> id in ids
    ensures forall id :: id in ids ==> rows[id] == Filter(table, OfOne(window, id))
  {
    rows := GroupByTarget(Filter(table, OfSeveral(window, ids)), ids);
    forall id | id in ids ensures rows[id] == Filter(table, OfOne(window, id)) {
      BatchedReadIsEachRead(table, window, ids, id);
    }
  }

  /**
   listStatisticsByTarget: an entry for each id asked about and for no other, and
   each what a request for that target alone would have answered - its own rows,
   its own previous window's, and the same state of the comparison.
   */
  method ListStatisticsByTarget<W, P, S>(how: Summaries<W, P, S>, tables: Reads, q: Question<W>, ids: seq<int>)
    returns (answer: map<int, S>)
    ensures forall id :: id in answer <==> id in ids
    ensures forall id :: id in ids ==> answer[id] == ListStatistics(how, tables, q, id)
  {
    answer := map[];
    var wanted := Distinct(ids);
    if |wanted| == 0 { return; }
    var rows := ReadByTarget(tables.first, InRange(how, q.range), wanted);
    var comparison := Comparison(how, q);
    var comparisonRows: map<int, Table> := map id | id in wanted :: [];
    if comparison.Some? && comparison.value.Some? {
      comparisonRows := ReadByTarget(tables.second, InRange(how, comparison.value), wanted);
    }
    assert forall id :: id in wanted ==> comparisonRows[id] == ComparedRows(how, tables.second, comparison, id);
    for i := 0 to |wanted|
      invariant forall id :: id in answer <==> id in wanted[..i]
      invariant forall id :: id in wanted[..i] ==> answer[id] == ListStatistics(how, tables, q, id)
    {
      var id := wanted[i];
      answer := answer[id := how.summarise(rows[id], q.range, PreviousOf(how, comparison, comparisonRows[id]))];
      assert wanted[..i + 1] == wanted[..i] + [id];
    }
    assert wanted[..|wanted|] == wanted;
  }

  // ------------------------------------------------------------------ what one answer is made of

  /** A target's rows in a window, all of its rows where there is none. */
  function RowsIn<W, P, S>(how: Summaries<W, P, S>, table: Table, window: Option<W>, id: int): Table {
    if table == [] then []
    else
      (if table[0].target == Some(id) && (window == None || how.within(window.value, table[0])) then [table[0]] else [])
      + RowsIn(how, table[1..], window, id)
  }

  lemma {:induction false} RowsInAre<W, P, S>(how: Summaries<W, P, S>, table: Table, window: Option<W>, id: int)
    ensures Filter(table, OfOne(InRange(how, window), id)) == RowsIn(how, table, window, id)
  {
    if table == [] {
    } else {
      RowsInAre(how, table[1..], window, id);
    }
  }

  /**
   One target's statistics: its rows in the range, or all of them; compared only when
   a range is asked about and a comparison with it, over the same target's rows in the
   window there is for that range, if there is one.
   */
  lemma ListStatisticsIs<W, P, S>(how: Summaries<W, P, S>, tables: Reads, q: Question<W>, id: int)
    ensures var rows, answer := RowsIn(how, tables.first, q.range, id), ListStatistics(how, tables, q, id);
            && (q.range.None? || !q.compare ==> answer == how.summarise(rows, q.range, NotAsked))
            && (q.range.Some? && q.compare ==>
                  match how.comparison(q.range.value)
                  case None => answer == how.summarise(rows, q.range, NoWindow)
                  case Some(window) =>
                    answer == how.summarise(rows, q.range,
                                            Over(how.compared(RowsIn(how, tables.second, Some(window), id), window))))
  {
    RowsInAre(how, tables.first, q.range, id);
    if q.range.Some? && how.comparison(q.range.value).Some? {
      RowsInAre(how, tables.second, how.comparison(q.range.value), id);
    }
  }
}
