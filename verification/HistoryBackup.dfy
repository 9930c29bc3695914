/**
 A backup of the history, there and back: the export's pages as one file, imported
 into an emptied table on the instance they came from.
 */
module HistoryBackup {
  import opened Wrappers
  import opened Sorting
  import opened Json
  import opened History
  import opened HistoryImport
  import Targets
  import TargetStore
  import ImportRows

  // ----------------------------------------------------------------- rows there and back

  type Target = Targets.Target

  /** The history: each row's id beside what is stored of it. */
  type Stored = seq<(nat, Entry)>

  function ExportedAll(env: ImportRows.Env, listed: seq<Target>, table: Stored): seq<Value> {
    seq(|table|, i requires 0 <= i < |table| => Object(ImportRows.Exported(env, listed, table[i].0, table[i].1)))
  }

  function Plain(table: Stored): seq<Entry> {
    seq(|table|, i requires 0 <= i < |table| => table[i].1)
  }

  function Each<R, S>(rows: seq<R>, f: R -> S): seq<S> {
    seq(|rows|, i requires 0 <= i < |rows| => f(rows[i]))
  }

  lemma {:induction false} JudgedNoMore<E, R>(data: seq<E>, judge: E -> Option<R>)
    ensures |Judged(data, judge)| <= |data|
  {
    if data == [] {
    } else {
      JudgedNoMore(data[..|data| - 1], judge);
    }
  }

  predicate Back<R, S(==)>(row: Option<R>, f: R -> S, plain: S) {
    row.Some? && f(row.value) == plain
  }

  lemma OneMoreBack<R, S>(init: seq<R>, row: R, f: R -> S, plain: seq<S>)
    requires plain != []
    ensures Each(init + [row], f) == plain
            <==> Each(init, f) == plain[..|plain| - 1] && f(row) == plain[|plain| - 1]
  {
    var n := |plain| - 1;
    assert Each(init + [row], f) == Each(init, f) + [f(row)];
    assert plain == plain[..n] + [plain[n]];
  }

  /** Element by element, what comes back: nothing dropped, nothing changed. */
  lemma {:induction false} AllComeBackIff<E, R, S>(data: seq<E>, judge: E -> Option<R>, f: R -> S, plain: seq<S>)
    requires |plain| == |data|
    ensures Each(Judged(data, judge), f) == plain
            <==> forall i :: 0 <= i < |data| ==> Back(judge(data[i]), f, plain[i])
  {
    if data == [] {
    } else {
      var n := |data| - 1;
      var init := Judged(data[..n], judge);
      AllComeBackIff(data[..n], judge, f, plain[..n]);
      JudgedNoMore(data[..n], judge);
      match judge(data[n])
      case Some(row) => OneMoreBack(init, row, f, plain);
      case None => assert |Each(Judged(data, judge), f)| < |plain|;
    }
  }

  const STORED: Entry -> Entry := row => ImportRows.Stored(row)

  lemma RowComesBackIff(env: ImportRows.Env, now: int, listed: seq<Target>, id: int, stored: Entry)
    requires TargetStore.DistinctIds(listed) && stored.Keys == ImportRows.COLUMNS
    ensures Back(JudgeWith(env, now, listed)(Object(ImportRows.Exported(env, listed, id, stored))), STORED, stored)
            <==> ImportRows.Sound(env, now, listed, stored)
  {
    ImportRows.ExportImportIff(env, now, listed, id, stored);
  }

  ghost predicate AllSound(env: ImportRows.Env, now: int, listed: seq<Target>, rows: seq<Entry>) {
    forall i :: 0 <= i < |rows| ==> ImportRows.Sound(env, now, listed, rows[i])
  }

  /** What the import makes of exported rows: the same rows in their order, exactly when each is one that comes back. */
  lemma FileComesBackIff(env: ImportRows.Env, now: int, listed: seq<Target>, table: Stored)
    requires TargetStore.DistinctIds(listed)
    requires forall i :: 0 <= i < |table| ==> table[i].1.Keys == ImportRows.COLUMNS
    ensures Each(Judged(ExportedAll(env, listed, table), JudgeWith(env, now, listed)), STORED) == Plain(table)
            <==> AllSound(env, now, listed, Plain(table))
  {
    var data, judge := ExportedAll(env, listed, table), JudgeWith(env, now, listed);
    AllComeBackIff(data, judge, STORED, Plain(table));
    forall i | 0 <= i < |table|
      ensures Back(judge(data[i]), STORED, Plain(table)[i]) <==> ImportRows.Sound(env, now, listed, Plain(table)[i])
    {
      RowComesBackIff(env, now, listed, table[i].0, table[i].1);
    }
  }

  // ------------------------------------------------------------------- the stored history

  function TextOf(v: Value): string {
    if v.Text? then v.text else ""
  }

  function FigureOf(v: Value): real {
    if v.Number? then v.value else 0.0
  }

  /** `created` names an instant, as both ways in guarantee. */
  predicate Dated(env: ImportRows.Env, entry: Entry) {
    && "created" in entry && entry["created"].Text?
    && env.parse(entry["created"].text).Some? && env.parse(entry["created"].text).value >= 0
  }

  function InstantOf(env: ImportRows.Env, entry: Entry): nat {
    if Dated(env, entry) then env.parse(entry["created"].text).value else 0
  }

  /** The row as the queries see it. */
  function RowOf(env: ImportRows.Env, id: nat, entry: Entry): Row {
    var target := At(entry, "targetId");
    Row(id, InstantOf(env, entry),
        if target.Some? && target.value.Number? then Some(target.value.value.Floor) else None,
        match At(entry, "error") case Some(Text(text)) => Some(text) case _ => None,
        FigureOf(At(entry, "ping").GetOr(Null)), FigureOf(At(entry, "download").GetOr(Null)),
        FigureOf(At(entry, "upload").GetOr(Null)))
  }

  function Rows(env: ImportRows.Env, h: Stored): Table {
    seq(|h|, i requires 0 <= i < |h| => RowOf(env, h[i].0, h[i].1))
  }

  function EntryOf(h: Stored, id: nat): Entry {
    if h == [] then map[] else if h[0].0 == id then h[0].1 else EntryOf(h[1..], id)
  }

  /** Ids are the primary key, and every column is there. */
  ghost predicate Whole(env: ImportRows.Env, h: Stored) {
    && (forall i, j :: 0 <= i < j < |h| ==> h[i].0 != h[j].0)
    && (forall i :: 0 <= i < |h| ==> h[i].1.Keys == ImportRows.COLUMNS && Dated(env, h[i].1))
  }

  lemma {:induction false} EntryAt(h: Stored, i: nat)
    requires i < |h| && forall j, k :: 0 <= j < k < |h| ==> h[j].0 != h[k].0
    ensures EntryOf(h, h[i].0) == h[i].1
  {
    if i > 0 {
      EntryAt(h[1..], i - 1);
    }
  }

  /** What is stored of the listed rows, in the order they are listed. */
  function Listing(h: Stored, listing: Table): Stored {
    seq(|listing|, i requires 0 <= i < |listing| => (listing[i].id, EntryOf(h, listing[i].id)))
  }

  /** The history newest first, as the export lists it. */
  function InOrder(env: ImportRows.Env, h: Stored): Stored {
    Listing(h, Newest(Rows(env, h)))
  }

  /** The file: every page of the walk, each row with its target's name. */
  function File(env: ImportRows.Env, listed: seq<Target>, h: Stored, pageSize: nat): seq<Value>
    requires pageSize >= 1
  {
    ExportedAll(env, listed, Listing(h, Chained(Pages(Still(Rows(env, h)), 0, None, pageSize))))
  }

  /** The table an import leaves where there was none: ids counted on from `first`. */
  function Filed(rows: seq<Entry>, first: nat): Stored {
    seq(|rows|, i requires 0 <= i < |rows| => (first + i, ImportRows.Stored(rows[i])))
  }

  /** The rows under ids counted on from `first`. */
  function Numbered(rows: Stored, first: nat): Stored {
    seq(|rows|, i requires 0 <= i < |rows| => (first + i, rows[i].1))
  }

  /** The same history, newest first, under new ids. */
  function Refiled(env: ImportRows.Env, h: Stored, first: nat): Stored {
    Numbered(InOrder(env, h), first)
  }

  /** A database that takes every row of the file and loses no chunk of it. */
  ghost predicate TakesAll(backend: Backend, rows: seq<Entry>, chunk: nat)
    requires chunk >= 1
  {
    && (forall i :: 0 <= i < |rows| ==> backend.accepts(rows[i]))
    && forall i :: 0 <= i < |ChunksOf(rows, chunk)| ==> !Lost(backend, ChunksOf(rows, chunk)[i])
  }

  lemma RowsAreKeyed(env: ImportRows.Env, h: Stored)
    requires Whole(env, h)
    ensures Keyed(Rows(env, h))
    ensures |InOrder(env, h)| == |h|
  {
    SortIs(Rows(env, h), Newer);
  }

  lemma ListedRowIsStored(env: ImportRows.Env, h: Stored, r: Row) returns (i: nat)
    requires Whole(env, h) && r in Newest(Rows(env, h))
    ensures i < |h| && h[i] == (r.id, EntryOf(h, r.id)) && r == RowOf(env, h[i].0, h[i].1)
  {
    SortIs(Rows(env, h), Newer);
    i :| 0 <= i < |Rows(env, h)| && Rows(env, h)[i] == r;
    EntryAt(h, i);
  }

  lemma InOrderIsWhole(env: ImportRows.Env, h: Stored)
    requires Whole(env, h)
    ensures forall k :: 0 <= k < |InOrder(env, h)| ==> InOrder(env, h)[k] in h
    ensures forall i :: 0 <= i < |h| ==> h[i] in InOrder(env, h)
  {
    var newest := Newest(Rows(env, h));
    SortIs(Rows(env, h), Newer);
    forall k | 0 <= k < |newest| ensures InOrder(env, h)[k] in h {
      assert newest[k] in newest;
      var i := ListedRowIsStored(env, h, newest[k]);
      assert h[i] in h;
    }
    forall i | 0 <= i < |h| ensures h[i] in InOrder(env, h) {
      var r := Rows(env, h)[i];
      assert r in newest;
      var k :| 0 <= k < |newest| && newest[k] == r;
      EntryAt(h, i);
      assert InOrder(env, h)[k] == h[i];
    }
  }

  lemma SoundAmong(env: ImportRows.Env, now: int, listed: seq<Target>, rows: seq<Entry>, some: seq<Entry>)
    requires AllSound(env, now, listed, rows) && forall e :: e in some ==> e in rows
    ensures AllSound(env, now, listed, some)
  {
    forall k | 0 <= k < |some| ensures ImportRows.Sound(env, now, listed, some[k]) {
      assert some[k] in rows;
      var i :| 0 <= i < |rows| && rows[i] == some[k];
    }
  }

  lemma PlainAmong(h: Stored, some: Stored, e: Entry)
    requires (forall k :: 0 <= k < |some| ==> some[k] in h) && e in Plain(some)
    ensures e in Plain(h)
  {
    var k :| 0 <= k < |some| && Plain(some)[k] == e;
    assert some[k] in h;
    var i :| 0 <= i < |h| && h[i] == some[k];
    assert Plain(h)[i] == e;
  }

  lemma SameRowsInOrder(env: ImportRows.Env, h: Stored)
    requires Whole(env, h)
    ensures forall e :: e in Plain(InOrder(env, h)) <==> e in Plain(h)
  {
    InOrderIsWhole(env, h);
    forall e ensures e in Plain(InOrder(env, h)) <==> e in Plain(h) {
      if e in Plain(InOrder(env, h)) { PlainAmong(h, InOrder(env, h), e); }
      if e in Plain(h) { PlainAmong(InOrder(env, h), h, e); }
    }
  }

  lemma SoundInAnyOrder(env: ImportRows.Env, now: int, listed: seq<Target>, h: Stored)
    requires Whole(env, h)
    ensures AllSound(env, now, listed, Plain(InOrder(env, h))) <==> AllSound(env, now, listed, Plain(h))
  {
    SameRowsInOrder(env, h);
    if AllSound(env, now, listed, Plain(h)) {
      SoundAmong(env, now, listed, Plain(h), Plain(InOrder(env, h)));
    }
    if AllSound(env, now, listed, Plain(InOrder(env, h))) {
      SoundAmong(env, now, listed, Plain(InOrder(env, h)), Plain(h));
    }
  }

  lemma FiledIsRefiled(env: ImportRows.Env, h: Stored, rows: seq<Entry>, first: nat)
    ensures Filed(rows, first) == Refiled(env, h, first) <==> Each(rows, STORED) == Plain(InOrder(env, h))
  {
    var filed, refiled, listing := Filed(rows, first), Refiled(env, h, first), InOrder(env, h);
    if filed == refiled {
      forall i | 0 <= i < |rows| ensures Each(rows, STORED)[i] == Plain(listing)[i] {
        assert filed[i] == refiled[i];
      }
      assert |filed| == |refiled|;
    }
    if Each(rows, STORED) == Plain(listing) {
      forall i | 0 <= i < |rows| ensures filed[i] == refiled[i] {
        assert Each(rows, STORED)[i] == Plain(listing)[i];
      }
      assert |Each(rows, STORED)| == |Plain(listing)|;
    }
  }

  /**
   A backup is whole: the pages of a history nobody touches meanwhile, in one file,
   imported into an emptied table by a database that takes all of it, leave exactly
   that history, newest first under new ids - exactly when every row is one a run
   could have written, on no target or on a live one that answers to its own name.
   Neither the size of the pages nor that of the chunks matters.
   */
  lemma BackupComesBackIff(env: ImportRows.Env, backend: Backend, now: int, listed: seq<Target>, h: Stored,
                           pageSize: nat, chunk: nat, first: nat)
    requires TargetStore.DistinctIds(listed) && Whole(env, h) && pageSize >= 1 && chunk >= 1
    requires TakesAll(backend, Judged(File(env, listed, h, pageSize), JudgeWith(env, now, listed)), chunk)
    ensures var judged := Judged(File(env, listed, h, pageSize), JudgeWith(env, now, listed));
            var (rows, lost) := Imported(backend, judged, chunk);
            && !lost
            && (Filed(rows, first) == Refiled(env, h, first) <==> AllSound(env, now, listed, Plain(h)))
  {
    var judged := Judged(File(env, listed, h, pageSize), JudgeWith(env, now, listed));
    RowsAreKeyed(env, h);
    ExportOfStaticTable(Rows(env, h), pageSize);
    ImportedAre(backend, judged, chunk);
    FilterOfAll(judged, backend.accepts);
    FiledIsRefiled(env, h, judged, first);
    InOrderKeepsColumns(env, h);
    FileComesBackIff(env, now, listed, InOrder(env, h));
    SoundInAnyOrder(env, now, listed, h);
  }

  lemma InOrderKeepsColumns(env: ImportRows.Env, h: Stored)
    requires Whole(env, h)
    ensures forall k :: 0 <= k < |InOrder(env, h)| ==>
              InOrder(env, h)[k].1.Keys == ImportRows.COLUMNS && Dated(env, InOrder(env, h)[k].1)
  {
    InOrderIsWhole(env, h);
  }

  // ------------------------------------------------------------------ the order of a backup

  /** Rows as they are listed, under ids counted on from `first`. */
  function Renumbered(listing: Table, first: nat): Table {
    seq(|listing|, i requires 0 <= i < |listing| => listing[i].(id := first + i))
  }

  lemma RenumberedAreKeyed(listing: Table, first: nat)
    ensures Keyed(Renumbered(listing, first))
  {
  }

  lemma NewestIsSorted(table: Table)
    requires Keyed(table)
    ensures StrictOrder(Newer) && Sorted(Newest(table), Newer) && |Newest(table)| == |table|
    ensures forall r :: r in Newest(table) <==> r in table
  {
    NewerOrders(table);
    SortSorts(table, Newer);
    SortIs(table, Newer);
  }

  /** Listed newest first and filed anew, a row comes ahead of an earlier one exactly when both are of one instant. */
  lemma FiledLaterIsNewerIff(listing: Table, first: nat, i: nat, j: nat)
    requires Sorted(listing, Newer) && i < j < |listing|
    ensures var filed := Renumbered(listing, first);
            if listing[i].created == listing[j].created then Newer(filed[j], filed[i]) else Newer(filed[i], filed[j])
  {
    assert Newer(listing[i], listing[j]);
  }

  /** Where a filed row stands in the next listing. */
  lemma NextPlace(listing: Table, first: nat, m: nat) returns (k: nat)
    requires m < |listing|
    ensures var next := Newest(Renumbered(listing, first)); k < |next| && next[k] == Renumbered(listing, first)[m]
  {
    var filed := Renumbered(listing, first);
    RenumberedAreKeyed(listing, first);
    NewestIsSorted(filed);
    assert filed[m] in Newest(filed);
    k :| 0 <= k < |Newest(filed)| && Newest(filed)[k] == filed[m];
  }

  /** The places of the filed rows in the next listing. */
  ghost predicate Places(listing: Table, first: nat, at: seq<nat>) {
    var filed := Renumbered(listing, first);
    && |at| == |listing| == |Newest(filed)|
    && forall m :: 0 <= m < |at| ==> at[m] < |Newest(filed)| && Newest(filed)[at[m]] == filed[m]
  }

  lemma {:induction false} PlacesOf(listing: Table, first: nat, n: nat) returns (at: seq<nat>)
    requires n <= |listing|
    ensures var filed := Renumbered(listing, first);
            |at| == n && forall m :: 0 <= m < n ==> at[m] < |Newest(filed)| && Newest(filed)[at[m]] == filed[m]
  {
    if n == 0 {
      at := [];
    } else {
      var init := PlacesOf(listing, first, n - 1);
      var last := NextPlace(listing, first, n - 1);
      at := init + [last];
    }
  }

  lemma PlacesReverseTies(listing: Table, first: nat, at: seq<nat>, i: nat, j: nat)
    requires Sorted(listing, Newer) && Places(listing, first, at) && i < j < |listing|
    ensures if listing[i].created == listing[j].created then at[j] < at[i] else at[i] < at[j]
  {
    var filed := Renumbered(listing, first);
    RenumberedAreKeyed(listing, first);
    NewestIsSorted(filed);
    FiledLaterIsNewerIff(listing, first, i, j);
    if listing[i].created == listing[j].created {
      RankedAhead(Newest(filed), Newer, at[j], at[i]);
    } else {
      RankedAhead(Newest(filed), Newer, at[i], at[j]);
    }
  }

  /** The rows of the second filing, in the order of the first listing. */
  function SecondFiling(listing: Table, first: nat, second: nat, at: seq<nat>): Table
    requires |at| == |Newest(Renumbered(listing, first))|
    requires forall m :: 0 <= m < |at| ==> at[m] < |at|
  {
    seq(|at|, m requires 0 <= m < |at| => Renumbered(Newest(Renumbered(listing, first)), second)[at[m]])
  }

  lemma SecondFilingAt(listing: Table, first: nat, second: nat, at: seq<nat>, m: nat)
    requires Places(listing, first, at) && m < |at|
    ensures var filing := SecondFiling(listing, first, second, at);
            |filing| == |at| && filing[m].id == second + at[m] && filing[m].created == listing[m].created
  {
    var filed := Renumbered(listing, first);
    assert Newest(filed)[at[m]] == filed[m];
    assert Renumbered(Newest(filed), second)[at[m]] == Newest(filed)[at[m]].(id := second + at[m]);
  }

  lemma SecondFilingIsSorted(listing: Table, first: nat, second: nat, at: seq<nat>)
    requires Sorted(listing, Newer) && Places(listing, first, at)
    ensures Sorted(SecondFiling(listing, first, second, at), Newer)
  {
    var filing := SecondFiling(listing, first, second, at);
    forall i, j | 0 <= i < j < |filing| ensures Newer(filing[i], filing[j]) {
      PlacesReverseTies(listing, first, at, i, j);
      assert Newer(listing[i], listing[j]);
      SecondFilingAt(listing, first, second, at, i);
      SecondFilingAt(listing, first, second, at, j);
    }
  }

  lemma SecondFilingIsAll(listing: Table, first: nat, second: nat, at: seq<nat>)
    requires Places(listing, first, at)
    ensures var filing := SecondFiling(listing, first, second, at);
            forall r :: r in filing <==> r in Renumbered(Newest(Renumbered(listing, first)), second)
  {
    var filed := Renumbered(listing, first);
    var next := Newest(filed);
    var again, filing := Renumbered(next, second), SecondFiling(listing, first, second, at);
    RenumberedAreKeyed(listing, first);
    NewestIsSorted(filed);
    forall k | 0 <= k < |again| ensures again[k] in filing {
      assert next[k] in filed;
      var m :| 0 <= m < |filed| && filed[m] == next[k];
      OnePlace(next, Newer, k, at[m]);
      assert filing[m] == again[k];
    }
  }

  /** Filed twice, the rows are listed again as they were the first time. */
  lemma ListedAsTheFirstTime(listing: Table, first: nat, second: nat, at: seq<nat>)
    requires Sorted(listing, Newer) && Places(listing, first, at)
    ensures Newest(Renumbered(Newest(Renumbered(listing, first)), second)) == SecondFiling(listing, first, second, at)
  {
    var again := Renumbered(Newest(Renumbered(listing, first)), second);
    RenumberedAreKeyed(Newest(Renumbered(listing, first)), second);
    NewestIsSorted(again);
    SecondFilingIsSorted(listing, first, second, at);
    SecondFilingIsAll(listing, first, second, at);
    OneSortedList(SecondFiling(listing, first, second, at), Newest(again), Newer);
  }

  lemma RefiledIsWhole(env: ImportRows.Env, h: Stored, first: nat)
    requires Whole(env, h)
    ensures Whole(env, Refiled(env, h, first)) && |Refiled(env, h, first)| == |h|
  {
    RowsAreKeyed(env, h);
    InOrderKeepsColumns(env, h);
  }

  lemma RefiledRows(env: ImportRows.Env, h: Stored, first: nat)
    requires Whole(env, h)
    ensures Rows(env, Refiled(env, h, first)) == Renumbered(Newest(Rows(env, h)), first)
  {
    var newest := Newest(Rows(env, h));
    forall i | 0 <= i < |newest|
      ensures Rows(env, Refiled(env, h, first))[i] == Renumbered(newest, first)[i]
    {
      assert newest[i] in newest;
      var k := ListedRowIsStored(env, h, newest[i]);
    }
  }

  lemma NumberedAt(rows: Stored, first: nat, i: nat)
    requires i < |rows|
    ensures EntryOf(Numbered(rows, first), first + i) == rows[i].1
  {
    EntryAt(Numbered(rows, first), i);
  }

  /**
   What a trip does to the order: of two rows of a backup, the later one comes first
   in the next backup exactly when both are of one instant. Rows of one instant are
   exported by descending id, and take ascending ids on import.
   */
  lemma OneTripReversesTies(env: ImportRows.Env, h: Stored, first: nat, i: nat, j: nat, p: nat, q: nat)
    requires Whole(env, h) && i < j < |h|
    requires var next := InOrder(env, Refiled(env, h, first));
             p < |next| && q < |next| && next[p].0 == first + i && next[q].0 == first + j
    ensures |InOrder(env, h)| == |h|
    ensures q < p <==> InstantOf(env, InOrder(env, h)[i].1) == InstantOf(env, InOrder(env, h)[j].1)
  {
    var listing := Newest(Rows(env, h));
    var filed := Renumbered(listing, first);
    RowsAreKeyed(env, h);
    NewestIsSorted(Rows(env, h));
    RefiledRows(env, h, first);
    RenumberedAreKeyed(listing, first);
    NewestIsSorted(filed);
    var next := Newest(filed);
    OfOneId(filed, next, p, i, first);
    OfOneId(filed, next, q, j, first);
    FiledLaterIsNewerIff(listing, first, i, j);
    ListedInstant(env, h, i);
    ListedInstant(env, h, j);
    if listing[i].created == listing[j].created {
      RankedAhead(next, Newer, q, p);
    } else {
      RankedAhead(next, Newer, p, q);
    }
  }

  lemma OfOneId(filed: Table, next: Table, p: nat, i: nat, first: nat)
    requires Keyed(filed) && (forall r :: r in next ==> r in filed) && p < |next| && i < |filed|
    requires next[p].id == first + i && forall k :: 0 <= k < |filed| ==> filed[k].id == first + k
    ensures next[p] == filed[i]
  {
    assert next[p] in filed;
    var k :| 0 <= k < |filed| && filed[k] == next[p];
  }

  lemma ListedInstant(env: ImportRows.Env, h: Stored, i: nat)
    requires Whole(env, h) && i < |Newest(Rows(env, h))|
    ensures Newest(Rows(env, h))[i].created == InstantOf(env, InOrder(env, h)[i].1)
  {
    var r := Newest(Rows(env, h))[i];
    assert r in Newest(Rows(env, h));
    var k := ListedRowIsStored(env, h, r);
  }

  /** What is stored of a row, found through two filings and the listings between them. */
  lemma TwiceFiledAt(h: Stored, listing: Table, next: Table, last: Table, first: nat, second: nat, k: nat, m: nat)
    requires m < |listing| && k < |next| && m < |last|
    requires next[k].id == first + m && last[m].id == second + k
    ensures var once := Numbered(Listing(h, listing), first);
            Listing(Numbered(Listing(once, next), second), last)[m].1 == Listing(h, listing)[m].1
  {
    var once := Numbered(Listing(h, listing), first);
    NumberedAt(Listing(h, listing), first, m);
    NumberedAt(Listing(once, next), second, k);
  }

  /** And two trips restore it: the third backup lists the very rows of the first in its order. */
  lemma TwoTripsRestoreTheOrder(env: ImportRows.Env, h: Stored, first: nat, second: nat)
    requires Whole(env, h)
    ensures Plain(InOrder(env, Refiled(env, Refiled(env, h, first), second))) == Plain(InOrder(env, h))
  {
    var once := Refiled(env, h, first);
    var twice := Refiled(env, once, second);
    var listing, next, last := Newest(Rows(env, h)), Newest(Rows(env, once)), Newest(Rows(env, twice));
    RowsAreKeyed(env, h);
    NewestIsSorted(Rows(env, h));
    RefiledIsWhole(env, h, first);
    RefiledRows(env, h, first);
    RefiledIsWhole(env, once, second);
    RefiledRows(env, once, second);
    LastIsFirst(h, listing, next, last, first, second);
  }

  lemma LastIsFirst(h: Stored, listing: Table, next: Table, last: Table, first: nat, second: nat)
    requires Sorted(listing, Newer)
    requires next == Newest(Renumbered(listing, first)) && last == Newest(Renumbered(next, second))
    ensures var once := Numbered(Listing(h, listing), first);
            Plain(Listing(Numbered(Listing(once, next), second), last)) == Plain(Listing(h, listing))
  {
    var once := Numbered(Listing(h, listing), first);
    var at := PlacesOf(listing, first, |listing|);
    RenumberedAreKeyed(listing, first);
    NewestIsSorted(Renumbered(listing, first));
    ListedAsTheFirstTime(listing, first, second, at);
    forall m | 0 <= m < |listing|
      ensures Listing(Numbered(Listing(once, next), second), last)[m].1 == Listing(h, listing)[m].1
    {
      SecondFilingAt(listing, first, second, at, m);
      assert next[at[m]] == Renumbered(listing, first)[m];
      TwiceFiledAt(h, listing, next, last, first, second, at[m], m);
    }
  }
}
