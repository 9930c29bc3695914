/**
 The life of an instance: targets come, go and are restored while tests run,
 imports file rows, and a restore reads the history in one step and writes in
 another. Which line a result is shown under, and exactly when that changes.
 */
module RestoreLife {
  import opened Wrappers
  import opened Text
  import opened Restore
  import opened RestoreRuns
  import Sorting

  /** What is measured, told apart from every other: by when it entered the table, and the id it got. */
  datatype Line = Line(birth: nat, id: int)

  /** A result filed under an id, and the line that was measured. */
  datatype Row = Row(id: int, line: Line)

  /** A restore under way: its file, the ids whose history it has asked for, and those that had some. */
  datatype Reading = Reading(rows: seq<FileRow>, asked: set<int>, occupied: set<int>)

  /**
   `lines` names the line behind each live id; `working` holds what each test
   or import under way has read, and will file under, without asking again.
   */
  datatype Instance = Instance(live: seq<Target>, lines: map<int, Line>, filed: set<Row>, working: multiset<Row>,
                               restoring: Option<Reading>, high: int, epoch: nat)

  datatype Event =
    | Create(name: string)
    | Rename(id: int, name: string)
    | Delete(id: int)
    | Reorder(order: seq<Target>)
    | Reset
    | Forget(pruned: set<Row>)
    | WorkerReads(id: int)
    | WorkerFiles(row: Row)
    | WorkerEnds(row: Row)
    | RestoreBegins(rows: seq<FileRow>)
    | RestoreReads(ids: set<int>)
    | RestoreCommits
    | RestoreFails

  function Renamed(live: seq<Target>, id: int, name: string): seq<Target> {
    seq(|live|, i requires 0 <= i < |live| => if live[i].id == id then Target(id, name) else live[i])
  }

  function Without(live: seq<Target>, id: int): (r: seq<Target>)
    ensures forall t :: t in r <==> t in live && t.id != id
  {
    if live == [] then []
    else Without(live[..|live| - 1], id) + if live[|live| - 1].id == id then [] else [live[|live| - 1]]
  }

  function FiledIds(filed: set<Row>): set<int> {
    set r | r in filed :: r.id
  }

  function IdSet(rows: seq<FileRow>): set<int> {
    set id | id in FileIds(rows)
  }

  /** The ids the restore under way would hand out. */
  function Handed(s: Instance): seq<Option<int>>
    requires s.restoring.Some?
  {
    RestoredIds(s.live, s.restoring.value.occupied, s.restoring.value.rows)
  }

  function LiveIds(live: seq<Target>): set<int> {
    set t | t in live :: t.id
  }

  /** The same line goes on under its id and name; anything else is a line of its own. */
  function LineAfter(s: Instance, table: seq<Target>, id: int): Line {
    if NameOf(s.live, id).Some? && NameOf(s.live, id) == NameOf(table, id) && id in s.lines
    then s.lines[id] else Line(s.epoch, id)
  }

  function LinesAfter(s: Instance, table: seq<Target>): map<int, Line> {
    map id | id in LiveIds(table) :: LineAfter(s, table, id)
  }

  function Committed(s: Instance): Instance
    requires s.restoring.Some?
  {
    var (table, top) := Reinserted(Handed(s), s.restoring.value.rows, s.high);
    s.(live := table, lines := LinesAfter(s, table), high := top, epoch := s.epoch + 1, restoring := None)
  }

  /** Every id of the file has been asked about, in however many queries. */
  predicate Due(s: Instance) {
    s.restoring.Some? && IdSet(s.restoring.value.rows) <= s.restoring.value.asked
  }

  /** One event. The administrator's own changes queue behind a restore; tests, imports and retention do not. */
  function After(s: Instance, e: Event): Instance {
    match e
    case Create(name) =>
      if s.restoring.Some? then s
      else s.(live := s.live + [Target(s.high + 1, name)], high := s.high + 1, epoch := s.epoch + 1,
              lines := s.lines[s.high + 1 := Line(s.epoch, s.high + 1)])
    case Rename(id, name) => if s.restoring.Some? then s else s.(live := Renamed(s.live, id, name))
    case Delete(id) => if s.restoring.Some? then s else s.(live := Without(s.live, id), lines := s.lines - {id})
    case Reorder(order) =>
      if s.restoring.Some? || multiset(order) != multiset(s.live) then s else s.(live := order)
    case Reset => if s.restoring.Some? then s else s.(live := [], lines := map[])
    case Forget(pruned) => s.(filed := s.filed - pruned)
    case WorkerReads(id) => if id in s.lines then s.(working := s.working + multiset{Row(id, s.lines[id])}) else s
    case WorkerFiles(row) => if row in s.working then s.(filed := s.filed + {row}) else s
    case WorkerEnds(row) => s.(working := s.working - multiset{row})
    case RestoreBegins(rows) =>
      if s.restoring.Some? || !Distinct(FileIds(rows)) then s else s.(restoring := Some(Reading(rows, {}, {})))
    case RestoreReads(ids) =>
      if s.restoring.None? then s
      else
        var r := s.restoring.value;
        var found := ids * IdSet(r.rows) * FiledIds(s.filed);
        s.(restoring := Some(Reading(r.rows, r.asked + ids, r.occupied + found)))
    case RestoreCommits => if Due(s) then Committed(s) else s
    case RestoreFails => s.(restoring := None)
  }

  const EMPTY := Instance([], map[], {}, multiset{}, None, 0, 0)

  function Life(s: Instance, events: seq<Event>): Instance {
    if events == [] then s else After(Life(s, events[..|events| - 1]), events[|events| - 1])
  }

  // ------------------------------------------------------------------- what holds always

  ghost predicate Older(s: Instance, row: Row) {
    row.line.birth < s.epoch && row.id <= s.high
  }

  /** Every id has its line, and everything known was born before now. */
  ghost predicate Kept(s: Instance) {
    && DistinctIds(s.live) && AtMost(s.live, s.high) && s.lines.Keys == LiveIds(s.live)
    && (forall id :: id in s.lines ==> s.lines[id].birth < s.epoch)
    && (forall r :: r in s.filed ==> Older(s, r))
    && (forall r :: r in s.working ==> Older(s, r))
  }

  /** What is shown under a live id was measured on the line that holds it. */
  ghost predicate Attributed(s: Instance) {
    forall r :: r in s.filed && r.id in s.lines ==> s.lines[r.id] == r.line
  }

  /** And what is under way will be. */
  ghost predicate Bound(s: Instance) {
    forall r :: r in s.working && r.id in s.lines ==> s.lines[r.id] == r.line
  }

  ghost predicate Safe(s: Instance) {
    Attributed(s) && Bound(s)
  }

  /** Row i takes the id it names although no live target of its name wears it. */
  ghost predicate TakesOver(s: Instance, i: nat)
    requires s.restoring.Some? && i < |s.restoring.value.rows|
  {
    var row, id := s.restoring.value.rows[i], Handed(s)[i];
    id.Some? && id == row.id && NameOf(s.live, id.value) != Some(Trim(row.name))
  }

  /**
   The condition, in what stands when the restore writes: no id a row takes over
   has a result filed under it by now, nor a test or import under way.
   */
  ghost predicate Clear(s: Instance)
    requires s.restoring.Some?
  {
    forall i, r :: 0 <= i < |s.restoring.value.rows| && TakesOver(s, i) && (r in s.filed || r in s.working) ==>
      r.id != Handed(s)[i].value
  }

  lemma IdsOf(live: seq<Target>, id: int)
    ensures id in LiveIds(live) <==> NameOf(live, id).Some?
    decreases live
  {
    if live == [] {
    } else {
      IdsOf(live[1..], id);
      assert live == [live[0]] + live[1..];
      if id in LiveIds(live) {
        var t :| t in live && t.id == id;
        if t != live[0] {
          assert t in live[1..];
          assert id in LiveIds(live[1..]);
        }
      }
      if id in LiveIds(live[1..]) {
        var t :| t in live[1..] && t.id == id;
        assert t in live;
      }
    }
  }

  // ------------------------------------------------------------------ one restore's write

  lemma ApartFromNameIsOwn(live: seq<Target>, occupied: set<int>, rows: seq<FileRow>, i: nat)
    requires DistinctIds(live) && i < |rows|
    ensures var id := RestoredIds(live, occupied, rows)[i];
            id.Some? ==> NameOf(live, id.value) == Some(Trim(rows[i].name)) || id == rows[i].id
  {
    RestoredAt(live, occupied, rows, i);
    IdOfWears(live, Trim(rows[i].name));
    var settled := IdOf(live, Trim(rows[i].name));
    if settled.Some? {
      NameOfIsWorn(live, settled.value);
    }
  }

  /** The line behind a restored id: another only when its row takes the id over, or the id is new. */
  lemma LineOfRow(s: Instance, t: Target, i: nat)
    requires Kept(s) && s.restoring.Some? && i < |s.restoring.value.rows|
    requires t in Committed(s).live
    requires ComesFrom(Handed(s), s.restoring.value.rows, s.high, t, i)
    ensures t.id in Committed(s).lines
    ensures t.id <= s.high && !TakesOver(s, i) ==> t.id in s.lines && Committed(s).lines[t.id] == s.lines[t.id]
    ensures Handed(s)[i].Some? && TakesOver(s, i) ==> Committed(s).lines[t.id].birth == s.epoch
  {
    var r := s.restoring.value;
    var table := Committed(s).live;
    ReinsertedAre(s.live, r.occupied, r.rows, s.high);
    RestoredNamesAreTrimmed(s.live, r.occupied, r.rows, s.high, t);
    NameOfIsWorn(table, t.id);
    IdsOf(table, t.id);
    IdsOf(s.live, t.id);
    ApartFromNameIsOwn(s.live, r.occupied, r.rows, i);
  }

  lemma ClearKeepsRow(s: Instance, r: Row)
    requires Kept(s) && s.restoring.Some? && Clear(s)
    requires (r in s.filed || r in s.working) && (r.id in s.lines ==> s.lines[r.id] == r.line)
    ensures r.id in Committed(s).lines ==> Committed(s).lines[r.id] == r.line
  {
    var after := Committed(s);
    if r.id in after.lines {
      var t :| t in after.live && t.id == r.id;
      ReinsertedAre(s.live, s.restoring.value.occupied, s.restoring.value.rows, s.high);
      var i :| ComesFrom(Handed(s), s.restoring.value.rows, s.high, t, i);
      LineOfRow(s, t, i);
    }
  }

  lemma UnclearBreaksRow(s: Instance, i: nat, r: Row)
    requires Kept(s) && s.restoring.Some? && i < |s.restoring.value.rows| && TakesOver(s, i)
    requires (r in s.filed || r in s.working) && r.id == Handed(s)[i].value
    ensures r.id in Committed(s).lines && Committed(s).lines[r.id] != r.line
  {
    var reading := s.restoring.value;
    var t := Target(r.id, Trim(reading.rows[i].name));
    ReinsertedAre(s.live, reading.occupied, reading.rows, s.high);
    assert t in Committed(s).live;
    assert ComesFrom(Handed(s), reading.rows, s.high, t, i);
    LineOfRow(s, t, i);
  }

  /** Exactly when the write of a restore keeps every result, filed or still to come, with its line. */
  lemma CommitKeepsSafeIff(s: Instance)
    requires Kept(s) && Safe(s) && s.restoring.Some?
    ensures Safe(Committed(s)) <==> Clear(s)
  {
    if Clear(s) {
      forall r | r in s.filed || r in s.working
        ensures r.id in Committed(s).lines ==> Committed(s).lines[r.id] == r.line
      {
        ClearKeepsRow(s, r);
      }
    } else {
      var i, r :| 0 <= i < |s.restoring.value.rows| && TakesOver(s, i) && (r in s.filed || r in s.working)
                  && r.id == Handed(s)[i].value;
      UnclearBreaksRow(s, i, r);
    }
  }

  lemma CommitKeepsKept(s: Instance)
    requires Kept(s) && s.restoring.Some?
    ensures Kept(Committed(s))
  {
    var r := s.restoring.value;
    ReinsertedAre(s.live, r.occupied, r.rows, s.high);
  }

  // ---------------------------------------------------------------------- every event

  lemma {:induction false} WithoutKeepsDistinct(live: seq<Target>, id: int)
    requires DistinctIds(live)
    ensures DistinctIds(Without(live, id))
  {
    if live == [] {
    } else {
      WithoutKeepsDistinct(live[..|live| - 1], id);
      var before := Without(live[..|live| - 1], id);
      forall i | 0 <= i < |before| ensures before[i].id != live[|live| - 1].id {
        assert before[i] in live[..|live| - 1];
      }
    }
  }

  lemma ReorderKeepsDistinct(live: seq<Target>, order: seq<Target>)
    requires DistinctIds(live) && multiset(order) == multiset(live)
    ensures DistinctIds(order) && forall t :: t in order <==> t in live
  {
    assert forall t :: t in order <==> t in multiset(order);
    assert forall t :: t in live <==> t in multiset(live);
    forall i, j | 0 <= i < j < |order| ensures order[i].id != order[j].id {
      if order[i].id == order[j].id {
        assert order[i] in live && order[j] in live;
        assert order[i] == order[j];
        assert order == order[..i] + [order[i]] + order[i + 1..j] + [order[j]] + order[j + 1..];
        assert multiset(order)[order[i]] >= 2;
        Sorting.OnceEach(live, order[i]);
      }
    }
  }

  lemma RenamedKeepsIds(live: seq<Target>, id: int, name: string)
    requires DistinctIds(live)
    ensures DistinctIds(Renamed(live, id, name)) && LiveIds(Renamed(live, id, name)) == LiveIds(live)
  {
    var after := Renamed(live, id, name);
    assert forall i :: 0 <= i < |live| ==> after[i].id == live[i].id;
    forall k ensures k in LiveIds(after) <==> k in LiveIds(live) {
      if k in LiveIds(after) {
        var t :| t in after && t.id == k;
        var i :| 0 <= i < |after| && after[i] == t;
        assert live[i] in live;
      }
      if k in LiveIds(live) {
        var t :| t in live && t.id == k;
        var i :| 0 <= i < |live| && live[i] == t;
        assert after[i] in after;
      }
    }
  }

  lemma CreateKeepsKept(s: Instance, name: string)
    requires Kept(s)
    ensures Kept(After(s, Create(name)))
  {
    if s.restoring.None? {
      var t := Target(s.high + 1, name);
      AppendedIsDistinct(s.live, t);
      assert LiveIds(s.live + [t]) == LiveIds(s.live) + {t.id} by {
        assert t in s.live + [t];
        forall u | u in s.live ensures u in s.live + [t] {
        }
      }
    }
  }

  lemma RenameKeepsKept(s: Instance, id: int, name: string)
    requires Kept(s)
    ensures Kept(After(s, Rename(id, name)))
  {
    RenamedKeepsIds(s.live, id, name);
    forall t | t in Renamed(s.live, id, name) ensures t.id <= s.high {
      assert t.id in LiveIds(Renamed(s.live, id, name));
    }
  }

  lemma DeleteKeepsKept(s: Instance, id: int)
    requires Kept(s)
    ensures Kept(After(s, Delete(id)))
  {
    WithoutKeepsDistinct(s.live, id);
    assert LiveIds(Without(s.live, id)) == LiveIds(s.live) - {id};
  }

  lemma WorkKeepsKept(s: Instance, e: Event)
    requires Kept(s) && (e.Forget? || e.WorkerReads? || e.WorkerFiles? || e.WorkerEnds?)
    ensures Kept(After(s, e))
  {
    var after := After(s, e);
    forall r | r in after.filed || r in after.working ensures Older(after, r) {
      if e.WorkerReads? && e.id in s.lines && r == Row(e.id, s.lines[e.id]) {
        var t :| t in s.live && t.id == e.id;
      } else {
        assert r in s.filed || r in s.working;
      }
    }
  }

  lemma EventKeepsKept(s: Instance, e: Event)
    requires Kept(s)
    ensures Kept(After(s, e))
  {
    match e
    case Create(name) => CreateKeepsKept(s, name);
    case Rename(id, name) => RenameKeepsKept(s, id, name);
    case Delete(id) => DeleteKeepsKept(s, id);
    case Reorder(order) =>
      if multiset(order) == multiset(s.live) { ReorderKeepsDistinct(s.live, order); }
    case RestoreCommits =>
      if Due(s) { CommitKeepsKept(s); }
    case Reset => assert LiveIds([]) == {};
    case RestoreBegins(_) =>
    case RestoreReads(_) =>
    case RestoreFails =>
    case _ => WorkKeepsKept(s, e);
  }

  predicate Commits(s: Instance, e: Event) {
    e.RestoreCommits? && Due(s)
  }

  /** What a result must still have after an event that does not write a restore. */
  lemma OtherEventKeepsRow(s: Instance, e: Event, r: Row)
    requires Kept(s) && Safe(s) && !Commits(s, e) && (r in After(s, e).filed || r in After(s, e).working)
    ensures r.id in After(s, e).lines ==> After(s, e).lines[r.id] == r.line
  {
    if e.WorkerReads? && e.id in s.lines && r == Row(e.id, s.lines[e.id]) {
    } else {
      assert r in s.filed || r in s.working;
      assert Older(s, r);
    }
  }

  /**
   Exactly what keeps every result with its line: any event but a restore's
   write does, and that one does when it is clear.
   */
  lemma EventKeepsSafeIff(s: Instance, e: Event)
    requires Kept(s) && Safe(s)
    ensures Safe(After(s, e)) <==> (Commits(s, e) ==> Clear(s))
  {
    if Commits(s, e) {
      CommitKeepsSafeIff(s);
    } else {
      forall r | r in After(s, e).filed || r in After(s, e).working
        ensures r.id in After(s, e).lines ==> After(s, e).lines[r.id] == r.line
      {
        OtherEventKeepsRow(s, e, r);
      }
    }
  }

  /** Over the life so far, every restore that wrote was clear. */
  ghost predicate ClearLife(events: seq<Event>) {
    forall n :: 0 <= n < |events| && Commits(Life(EMPTY, events[..n]), events[n]) ==> Clear(Life(EMPTY, events[..n]))
  }

  lemma {:induction false} LifeKeepsKept(events: seq<Event>)
    ensures Kept(Life(EMPTY, events))
  {
    if events == [] {
    } else {
      LifeKeepsKept(events[..|events| - 1]);
      EventKeepsKept(Life(EMPTY, events[..|events| - 1]), events[|events| - 1]);
    }
  }

  /** Over any life of an instance whose restores were clear when they wrote, no result is ever under another line. */
  lemma {:induction false} RunKeepsAttribution(events: seq<Event>)
    requires ClearLife(events)
    ensures Safe(Life(EMPTY, events))
  {
    if events == [] {
    } else {
      var before, last := events[..|events| - 1], events[|events| - 1];
      forall n | 0 <= n < |before| && Commits(Life(EMPTY, before[..n]), before[n])
        ensures Clear(Life(EMPTY, before[..n])) {
        assert before[..n] == events[..n];
      }
      RunKeepsAttribution(before);
      LifeKeepsKept(before);
      assert events[..|events| - 1] == before;
      EventKeepsSafeIff(Life(EMPTY, before), last);
    }
  }

  lemma FiledNext(s: Instance, r: Row)
    requires r in s.working && r.id in s.lines && s.lines[r.id] != r.line
    ensures exists w :: w in s.working && !Attributed(After(s, WorkerFiles(w)))
  {
    assert r in After(s, WorkerFiles(r)).filed;
  }

  /** A restore that was not clear has put a result under another line, or one under way there goes next. */
  lemma UnclearMisfiles(s: Instance)
    requires Kept(s) && Safe(s) && Due(s) && !Clear(s)
    ensures var after := After(s, RestoreCommits);
            !Attributed(after) || exists r :: r in after.working && !Attributed(After(after, WorkerFiles(r)))
  {
    var i, r :| 0 <= i < |s.restoring.value.rows| && TakesOver(s, i) && (r in s.filed || r in s.working)
                && r.id == Handed(s)[i].value;
    UnclearBreaksRow(s, i, r);
    if r !in s.filed {
      FiledNext(After(s, RestoreCommits), r);
    }
  }

  // ----------------------------------------------------------- what there is to check

  /** Which rows take an id over, from the file, the live targets and what was read of the history. */
  lemma TakesOverIff(s: Instance, i: nat)
    requires Kept(s) && s.restoring.Some? && i < |s.restoring.value.rows|
    ensures var r := s.restoring.value;
            var row, taken := r.rows[i], Restore.Kept(Handed(s)[..i]);
            TakesOver(s, i) <==>
              row.id.Some? && row.id.value !in r.occupied && row.id.value !in taken && !LandsOnName(s.live, taken, row)
  {
    var r := s.restoring.value;
    RestoredAt(s.live, r.occupied, r.rows, i);
    ApartFromNameIsOwn(s.live, r.occupied, r.rows, i);
    var settled := IdOf(s.live, Trim(r.rows[i].name));
    IdOfWears(s.live, Trim(r.rows[i].name));
    if settled.Some? {
      NameOfIsWorn(s.live, settled.value);
    }
  }

  /** No test or import is under way, and a restore that is reading has seen every result there is of what it asked. */
  ghost predicate Quiet(s: Instance) {
    && s.working == multiset{}
    && (s.restoring.Some? ==>
          forall r :: r in s.filed && r.id in s.restoring.value.asked && r.id in IdSet(s.restoring.value.rows) ==>
            r.id in s.restoring.value.occupied)
  }

  lemma EventKeepsQuiet(s: Instance, e: Event)
    requires Quiet(s) && !e.WorkerReads?
    ensures Quiet(After(s, e))
  {
    if e.RestoreReads? && s.restoring.Some? {
      assert forall r :: r in s.filed ==> r.id in FiledIds(s.filed);
    }
  }

  lemma QuietIsClear(s: Instance)
    requires Kept(s) && Quiet(s) && Due(s)
    ensures Clear(s)
  {
    var reading := s.restoring.value;
    forall i, r | 0 <= i < |reading.rows| && TakesOver(s, i) && (r in s.filed || r in s.working)
      ensures r.id != Handed(s)[i].value
    {
      TakesOverIff(s, i);
      FileIdsAre(reading.rows);
    }
  }

  lemma LaterLife(earlier: seq<Event>, later: seq<Event>)
    requires later != []
    ensures Life(EMPTY, earlier + later) == After(Life(EMPTY, earlier + later[..|later| - 1]), later[|later| - 1])
  {
    WithoutTheLast(earlier, later);
    LifeEnds(earlier + later);
  }

  lemma WithoutTheLast<T>(a: seq<T>, b: seq<T>)
    requires b != []
    ensures (a + b)[..|a + b| - 1] == a + b[..|b| - 1] && (a + b)[|a + b| - 1] == b[|b| - 1]
  {
  }

  lemma LifeEnds(events: seq<Event>)
    requires events != []
    ensures Life(EMPTY, events) == After(Life(EMPTY, events[..|events| - 1]), events[|events| - 1])
  {
  }

  /** Once it is quiet, it stays so for as long as no test or import begins, and every restore that writes is clear. */
  lemma {:induction false} QuietStaysClear(earlier: seq<Event>, later: seq<Event>)
    requires Quiet(Life(EMPTY, earlier)) && forall n :: 0 <= n < |later| ==> !later[n].WorkerReads?
    ensures var s := Life(EMPTY, earlier + later); Quiet(s) && (Due(s) ==> Clear(s))
    decreases |later|
  {
    LifeKeepsKept(earlier + later);
    if later == [] {
      assert earlier + later == earlier;
    } else {
      QuietStaysClear(earlier, later[..|later| - 1]);
      LaterLife(earlier, later);
      EventKeepsQuiet(Life(EMPTY, earlier + later[..|later| - 1]), later[|later| - 1]);
    }
    if Due(Life(EMPTY, earlier + later)) {
      QuietIsClear(Life(EMPTY, earlier + later));
    }
  }

  /** Neither a restore, nor a test, nor an import is under way. */
  ghost predicate Idle(s: Instance) {
    s.restoring.None? && s.working == multiset{}
  }

  /**
   What an administrator can see to beforehand: from a moment with no restore, test
   or import under way, for as long as no test or import begins, every restore that
   writes is clear.
   */
  lemma RestoringInPeaceIsClear(earlier: seq<Event>, later: seq<Event>)
    requires Idle(Life(EMPTY, earlier)) && forall n :: 0 <= n < |later| ==> !later[n].WorkerReads?
    ensures var s := Life(EMPTY, earlier + later); Due(s) ==> Clear(s)
  {
    QuietStaysClear(earlier, later);
  }

  // ------------------------------------------------------------- lives that are not clear

  lemma OneMore(events: seq<Event>, e: Event)
    ensures Life(EMPTY, events + [e]) == After(Life(EMPTY, events), e)
  {
    assert (events + [e])[..|events|] == events;
  }

  const STRANGER := FileRow(Some(1), "B")

  /** A test of a new instance's only target has begun, and a restore has found no history under it. */
  const UNDER_WAY :=
    [Create("A"), WorkerReads(1), RestoreBegins([STRANGER]), RestoreReads({1})]

  const FIRST := Row(1, Line(0, 1))

  /** The instance at that moment, whatever has been filed and ended since. */
  function Meanwhile(filed: set<Row>, working: multiset<Row>): Instance {
    Instance([Target(1, "A")], map[1 := Line(0, 1)], filed, working, Some(Reading([STRANGER], {1}, {})), 1, 1)
  }

  lemma TestBegins()
    ensures Life(EMPTY, [Create("A"), WorkerReads(1)])
         == Instance([Target(1, "A")], map[1 := Line(0, 1)], {}, multiset{FIRST}, None, 1, 1)
  {
    OneMore([], Create("A"));
    assert [] + [Create("A")] == [Create("A")];
    OneMore([Create("A")], WorkerReads(1));
    assert [Create("A")] + [WorkerReads(1)] == [Create("A"), WorkerReads(1)];
    assert [] + [Target(1, "A")] == [Target(1, "A")];
  }

  lemma StrangerIds()
    ensures FileIds([STRANGER]) == [1] && IdSet([STRANGER]) == {1}
  {
    assert [STRANGER][..0] == [];
  }

  lemma UnderWay()
    ensures Life(EMPTY, UNDER_WAY) == Meanwhile({}, multiset{FIRST})
  {
    var test := [Create("A"), WorkerReads(1)];
    TestBegins();
    StrangerIds();
    OneMore(test, RestoreBegins([STRANGER]));
    var begun := Life(EMPTY, test + [RestoreBegins([STRANGER])]);
    assert begun == Meanwhile({}, multiset{FIRST}).(restoring := Some(Reading([STRANGER], {}, {})));
    OneMore(test + [RestoreBegins([STRANGER])], RestoreReads({1}));
    assert test + [RestoreBegins([STRANGER])] + [RestoreReads({1})] == UNDER_WAY;
    var none: set<int>, found := {}, {1} * IdSet([STRANGER]) * FiledIds(begun.filed);
    assert found == none && none + found == none && none + {1} == {1};
    assert After(begun, RestoreReads({1})) == Meanwhile({}, multiset{FIRST});
  }

  lemma StrangerIsRestored()
    ensures var live := [Target(1, "A")];
            && Trim("A") != Trim("B") && RestoredIds(live, {}, [STRANGER]) == [Some(1)]
            && Target(1, "B") in Reinserted([Some(1)], [STRANGER], 1).0
            && DistinctIds(Reinserted([Some(1)], [STRANGER], 1).0)
  {
    var live := [Target(1, "A")];
    assert Trim("A") == "A" && Trim("B") == "B" by { assert TrimStart("A") == "A" && TrimStart("B") == "B"; }
    OneLive(live[0], 1, "B");
    assert [STRANGER][..0] == [];
    assert RestoredIds(live, {}, [STRANGER]) == [RestoredId(live, {}, {}, STRANGER)];
    ReinsertedAre(live, {}, [STRANGER], 1);
  }

  /** The stranger takes the id over from under the test. */
  lemma StrangerTakesOver(filed: set<Row>, working: multiset<Row>)
    ensures var s := Meanwhile(filed, working);
            Due(s) && 1 in Committed(s).lines && Committed(s).lines[1] == Line(1, 1) && Committed(s).filed == filed
    ensures FIRST in filed ==> !Attributed(Committed(Meanwhile(filed, working)))
  {
    var s := Meanwhile(filed, working);
    StrangerIds();
    StrangerIsRestored();
    OneLive(s.live[0], 1, "B");
    NameOfIsWorn(Committed(s).live, 1);
    IdsOf(Committed(s).live, 1);
  }

  lemma FiledUnderTheStranger(s: Instance)
    requires FIRST in s.working && 1 in s.lines && s.lines[1] == Line(1, 1)
    ensures !Attributed(After(s, WorkerFiles(FIRST)))
  {
    assert FIRST in After(s, WorkerFiles(FIRST)).filed;
  }

  /**
   The case the rule was written for, one tick later: a fresh instance whose
   first test is under way is restored, and the test is filed under the stranger.
   */
  lemma RunningTestIsMisfiled()
    ensures Attributed(Life(EMPTY, UNDER_WAY + [RestoreCommits]))
    ensures !Attributed(Life(EMPTY, UNDER_WAY + [RestoreCommits, WorkerFiles(FIRST)]))
  {
    UnderWay();
    StrangerTakesOver({}, multiset{FIRST});
    OneMore(UNDER_WAY, RestoreCommits);
    assert UNDER_WAY + [RestoreCommits] + [WorkerFiles(FIRST)] == UNDER_WAY + [RestoreCommits, WorkerFiles(FIRST)];
    OneMore(UNDER_WAY + [RestoreCommits], WorkerFiles(FIRST));
    FiledUnderTheStranger(Committed(Meanwhile({}, multiset{FIRST})));
  }

  lemma Landed()
    ensures Life(EMPTY, UNDER_WAY + [WorkerFiles(FIRST)]) == Meanwhile({FIRST}, multiset{FIRST})
  {
    UnderWay();
    OneMore(UNDER_WAY, WorkerFiles(FIRST));
    assert Meanwhile({}, multiset{FIRST}).filed + {FIRST} == {FIRST};
  }

  /** A first result that lands between the read and the write is the stranger's with the write. */
  lemma LandedResultIsMisfiled()
    ensures Attributed(Life(EMPTY, UNDER_WAY + [WorkerFiles(FIRST)]))
    ensures !Attributed(Life(EMPTY, (UNDER_WAY + [WorkerFiles(FIRST)]) + [RestoreCommits]))
  {
    Landed();
    StrangerTakesOver({FIRST}, multiset{FIRST});
    OneMore(UNDER_WAY + [WorkerFiles(FIRST)], RestoreCommits);
  }

  lemma Drained()
    ensures Life(EMPTY, UNDER_WAY + [WorkerFiles(FIRST)] + [WorkerEnds(FIRST)]) == Meanwhile({FIRST}, multiset{})
  {
    Landed();
    OneMore(UNDER_WAY + [WorkerFiles(FIRST)], WorkerEnds(FIRST));
    assert multiset{FIRST} - multiset{FIRST} == multiset{};
  }

  /**
   Nor is it enough that the last test has ended by the time a restore that is
   already reading writes: its result landed too late to be seen.
   */
  lemma DrainedMidwayIsMisfiled()
    ensures var drained := UNDER_WAY + [WorkerFiles(FIRST)] + [WorkerEnds(FIRST)];
            && Life(EMPTY, drained).working == multiset{} && Attributed(Life(EMPTY, drained))
            && !Attributed(Life(EMPTY, drained + [RestoreCommits]))
  {
    Drained();
    StrangerTakesOver({FIRST}, multiset{});
    OneMore(UNDER_WAY + [WorkerFiles(FIRST)] + [WorkerEnds(FIRST)], RestoreCommits);
  }
}
