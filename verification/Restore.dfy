/**
 Which id each restored target takes, and what becomes of the history filed
 under the ids this instance already knows.
 */
module Restore {
  import opened Wrappers
  import opened Text

  /** A row of the backup: `id` is present only when it is a whole number. */
  datatype FileRow = FileRow(id: Option<int>, name: string)

  datatype Target = Target(id: int, name: string)

  // ------------------------------------------------------- the live targets, read

  predicate Distinct<T(==)>(s: seq<T>) {
    forall i, j :: 0 <= i < j < |s| ==> s[i] != s[j]
  }

  ghost predicate DistinctIds(live: seq<Target>) {
    forall i, j :: 0 <= i < j < |live| ==> live[i].id != live[j].id
  }

  /** liveNames: the trimmed name worn under an id. */
  function NameOf(live: seq<Target>, id: int): Option<string> {
    if live == [] then None
    else if live[0].id == id then Some(Trim(live[0].name))
    else NameOf(live[1..], id)
  }

  /** liveIdsByName: the first target in round order wins a shared name. */
  function IdOf(live: seq<Target>, name: string): Option<int> {
    if live == [] then None
    else if Trim(live[0].name) == name then Some(live[0].id)
    else IdOf(live[1..], name)
  }

  lemma {:induction false} NameOfIsWorn(live: seq<Target>, id: int)
    requires DistinctIds(live)
    ensures forall t :: t in live && t.id == id ==> NameOf(live, id) == Some(Trim(t.name))
    ensures NameOf(live, id).Some? ==> exists t :: t in live && t.id == id
  {
    if live == [] {
    } else {
      NameOfIsWorn(live[1..], id);
      assert live == [live[0]] + live[1..];
      assert forall t :: t in live[1..] ==> t.id != live[0].id;
    }
  }

  lemma {:induction false} IdOfWears(live: seq<Target>, name: string)
    ensures IdOf(live, name).Some? ==> exists t :: t in live && t.id == IdOf(live, name).value && Trim(t.name) == name
    ensures IdOf(live, name).None? ==> forall t :: t in live ==> Trim(t.name) != name
  {
    if live == [] {
    } else {
      IdOfWears(live[1..], name);
      assert live == [live[0]] + live[1..];
    }
  }

  // ---------------------------------------------------------------- settling

  /** The id a row's name decides, wherever it is worn. */
  function Settled(live: seq<Target>, row: FileRow): Option<int> {
    var name := Trim(row.name);
    if row.id.Some? && NameOf(live, row.id.value) == Some(name) then row.id else IdOf(live, name)
  }

  predicate LandsOnName(live: seq<Target>, taken: set<int>, row: FileRow) {
    Settled(live, row).Some? && Settled(live, row).value !in taken
  }

  /** restoredId's answer: a live target's id, the file's own, or none for a fresh one. */
  function RestoredId(live: seq<Target>, occupied: set<int>, taken: set<int>, row: FileRow): Option<int> {
    if LandsOnName(live, taken, row) then Settled(live, row)
    else if row.id.None? || row.id.value in taken then None
    else if row.id.value !in occupied then row.id
    else None
  }

  /** The file's id is given up to the history standing under it. */
  predicate Strips(live: seq<Target>, occupied: set<int>, taken: set<int>, row: FileRow) {
    && !LandsOnName(live, taken, row)
    && row.id.Some? && row.id.value !in taken && row.id.value in occupied
  }

  function Add(taken: set<int>, id: Option<int>): set<int> {
    if id.Some? then taken + {id.value} else taken
  }

  /** The greedy pass, row by row. */
  function RestoredIds(live: seq<Target>, occupied: set<int>, rows: seq<FileRow>): (ids: seq<Option<int>>)
    ensures |ids| == |rows|
  {
    if rows == [] then []
    else
      var before := RestoredIds(live, occupied, rows[..|rows| - 1]);
      before + [RestoredId(live, occupied, Kept(before), rows[|rows| - 1])]
  }

  /** The ids handed out. */
  function Kept(ids: seq<Option<int>>): set<int> {
    if ids == [] then {} else Add(Kept(ids[..|ids| - 1]), ids[|ids| - 1])
  }

  function Stripped(live: seq<Target>, occupied: set<int>, rows: seq<FileRow>): set<int> {
    if rows == [] then {}
    else
      var before, row := rows[..|rows| - 1], rows[|rows| - 1];
      Stripped(live, occupied, before)
      + if Strips(live, occupied, Kept(RestoredIds(live, occupied, before)), row) then {row.id.value} else {}
  }

  function FileIds(rows: seq<FileRow>): seq<int> {
    if rows == [] then []
    else FileIds(rows[..|rows| - 1]) + if rows[|rows| - 1].id.Some? then [rows[|rows| - 1].id.value] else []
  }

  /** Those of the file's ids that local history is filed under. */
  function Occupied(rows: seq<FileRow>, history: set<int>): set<int> {
    set id | id in FileIds(rows) && id in history
  }

  /** The history query, in chunks of `chunk` ids: which of the file's ids have rows here. */
  method OccupiedIds(fileIds: seq<int>, history: set<int>, chunk: nat) returns (occupied: set<int>)
    requires chunk >= 1
    ensures occupied == set id | id in fileIds && id in history
  {
    occupied := {};
    var offset := 0;
    while offset < |fileIds|
      invariant 0 <= offset
      invariant occupied == set k | 0 <= k < offset && k < |fileIds| && fileIds[k] in history :: fileIds[k]
    {
      var end := if offset + chunk < |fileIds| then offset + chunk else |fileIds|;
      var candidates := fileIds[offset..end];
      occupied := occupied + set id | id in candidates && id in history;
      offset := offset + chunk;
    }
  }

  /** The settling loop of importConfig. */
  method SettleTargets(live: seq<Target>, occupied: set<int>, rows: seq<FileRow>)
    returns (restoredIds: seq<Option<int>>, stripped: set<int>)
    ensures restoredIds == RestoredIds(live, occupied, rows)
    ensures stripped == Stripped(live, occupied, rows)
  {
    var taken := {};
    stripped := {};
    restoredIds := [];
    for i := 0 to |rows|
      invariant restoredIds == RestoredIds(live, occupied, rows[..i])
      invariant taken == Kept(restoredIds)
      invariant stripped == Stripped(live, occupied, rows[..i])
    {
      var row := rows[i];
      assert rows[..i + 1][..i] == rows[..i];
      var id := RestoredId(live, occupied, taken, row);
      if Strips(live, occupied, taken, row) {
        stripped := stripped + {row.id.value};
      }
      taken := Add(taken, id);
      restoredIds := restoredIds + [id];
      assert restoredIds[..i] == RestoredIds(live, occupied, rows[..i]);
    }
    assert rows[..|rows|] == rows;
  }

  // --------------------------------------------------------------- what is inserted

  datatype Restored = Restored(id: Option<int>, name: string)

  function RestoredRows(ids: seq<Option<int>>, rows: seq<FileRow>): seq<Restored>
    requires |ids| == |rows|
  {
    seq(|rows|, i requires 0 <= i < |rows| => Restored(ids[i], Trim(rows[i].name)))
  }

  function WithId(rows: seq<Restored>): seq<Restored> {
    if rows == [] then []
    else WithId(rows[..|rows| - 1]) + if rows[|rows| - 1].id.Some? then [rows[|rows| - 1]] else []
  }

  function WithoutId(rows: seq<Restored>): seq<Restored> {
    if rows == [] then []
    else WithoutId(rows[..|rows| - 1]) + if rows[|rows| - 1].id.None? then [rows[|rows| - 1]] else []
  }

  /** An auto-incremented table: `high` is the highest id it ever held, and it never hands one out again. */
  function InsertAll(rows: seq<Restored>, high: int): (seq<Target>, int) {
    if rows == [] then ([], high)
    else
      var (before, top) := InsertAll(rows[..|rows| - 1], high);
      match rows[|rows| - 1].id
      case Some(id) => (before + [Target(id, rows[|rows| - 1].name)], Max(top, id))
      case None => (before + [Target(top + 1, rows[|rows| - 1].name)], top + 1)
  }

  /** The table a restore leaves: rows keeping an id first, then the rest past the highest. */
  function Reinserted(ids: seq<Option<int>>, rows: seq<FileRow>, high: int): (seq<Target>, int)
    requires |ids| == |rows|
  {
    var restored := RestoredRows(ids, rows);
    InsertAll(WithId(restored) + WithoutId(restored), high)
  }

  /** importConfig's target half: refused when the file's own ids collide, settled and reinserted otherwise. */
  function RestoreTargets(live: seq<Target>, history: set<int>, rows: seq<FileRow>, high: int): Option<(seq<Target>,
                          int)> {
    if !Distinct(FileIds(rows)) then None
    else Some(Reinserted(RestoredIds(live, Occupied(rows, history), rows), rows, high))
  }

  // ------------------------------------------------------------ ids are handed out once

  lemma {:induction false} KeptIsHandedOut(ids: seq<Option<int>>)
    ensures forall i :: 0 <= i < |ids| && ids[i].Some? ==> ids[i].value in Kept(ids)
    ensures forall id :: id in Kept(ids) ==> exists i :: 0 <= i < |ids| && ids[i] == Some(id)
  {
    if ids == [] {
    } else {
      var before := ids[..|ids| - 1];
      KeptIsHandedOut(before);
      forall id | id in Kept(ids) ensures exists i :: 0 <= i < |ids| && ids[i] == Some(id) {
        if id in Kept(before) {
          var i :| 0 <= i < |before| && before[i] == Some(id);
          assert ids[i] == Some(id);
        } else {
          assert ids[|ids| - 1] == Some(id);
        }
      }
    }
  }

  lemma {:induction false} FileIdsAre(rows: seq<FileRow>)
    ensures forall i :: 0 <= i < |rows| && rows[i].id.Some? ==> rows[i].id.value in FileIds(rows)
  {
    if rows == [] {
    } else {
      FileIdsAre(rows[..|rows| - 1]);
      forall i | 0 <= i < |rows| && rows[i].id.Some? ensures rows[i].id.value in FileIds(rows) {
        if i < |rows| - 1 {
          assert rows[..|rows| - 1][i] == rows[i];
        }
      }
    }
  }

  /** Row i is settled against what the rows before it took. */
  lemma {:induction false} RestoredAt(live: seq<Target>, occupied: set<int>, rows: seq<FileRow>, i: nat)
    requires i < |rows|
    ensures RestoredIds(live, occupied, rows)[i]
         == RestoredId(live, occupied, Kept(RestoredIds(live, occupied, rows)[..i]), rows[i])
    ensures RestoredIds(live, occupied, rows)[..i] == RestoredIds(live, occupied, rows[..i])
  {
    var before := rows[..|rows| - 1];
    if i < |before| {
      RestoredAt(live, occupied, before, i);
      assert before[..i] == rows[..i];
      assert RestoredIds(live, occupied, rows)[..i] == RestoredIds(live, occupied, before)[..i];
    } else {
      assert RestoredIds(live, occupied, rows)[..i] == RestoredIds(live, occupied, before);
    }
  }

  lemma NoIdTwice(live: seq<Target>, occupied: set<int>, rows: seq<FileRow>, i: nat, j: nat)
    requires i < j < |rows| && RestoredIds(live, occupied, rows)[i].Some?
    ensures RestoredIds(live, occupied, rows)[i] != RestoredIds(live, occupied, rows)[j]
  {
    var ids := RestoredIds(live, occupied, rows);
    RestoredAt(live, occupied, rows, j);
    KeptIsHandedOut(ids[..j]);
    assert ids[..j][i] == ids[i];
  }

  /** An id standing under history goes to nobody but its wearer's namesake. */
  lemma KeptIdsAreWorn(live: seq<Target>, history: set<int>, rows: seq<FileRow>, i: nat)
    requires DistinctIds(live) && i < |rows|
    ensures var ids := RestoredIds(live, Occupied(rows, history), rows);
            ids[i].Some? && ids[i].value in history ==>
              exists t :: t in live && t.id == ids[i].value && Trim(t.name) == Trim(rows[i].name)
  {
    var occupied := Occupied(rows, history);
    RestoredAt(live, occupied, rows, i);
    FileIdsAre(rows);
    IdOfWears(live, Trim(rows[i].name));
    if rows[i].id.Some? {
      NameOfIsWorn(live, rows[i].id.value);
    }
  }

  // ------------------------------------------------------------------- inserting

  lemma {:induction false} WithIdIs(rows: seq<Restored>)
    ensures forall r :: r in WithId(rows) <==> r in rows && r.id.Some?
    ensures forall r :: r in WithoutId(rows) <==> r in rows && r.id.None?
    ensures |WithId(rows)| + |WithoutId(rows)| == |rows|
  {
    if rows == [] {
    } else {
      var before, last := rows[..|rows| - 1], rows[|rows| - 1];
      WithIdIs(before);
      forall r ensures r in rows <==> r in before || r == last {
        assert rows == before + [last];
      }
      assert forall r :: r in WithId(rows) <==> r in WithId(before) || (r == last && last.id.Some?);
      assert forall r :: r in WithoutId(rows) <==> r in WithoutId(before) || (r == last && last.id.None?);
    }
  }

  /** Kept ids never repeat among the rows that keep one. */
  ghost predicate DistinctKept(rows: seq<Restored>) {
    forall i, j :: 0 <= i < j < |rows| && rows[i].id.Some? ==> rows[i].id != rows[j].id
  }

  lemma {:induction false} WithIdKeepsDistinct(rows: seq<Restored>)
    requires DistinctKept(rows)
    ensures DistinctKept(WithId(rows))
  {
    if rows == [] {
    } else {
      WithIdKeepsDistinct(rows[..|rows| - 1]);
      WithIdIs(rows[..|rows| - 1]);
      var before, last := WithId(rows[..|rows| - 1]), rows[|rows| - 1];
      forall i | 0 <= i < |before| ensures last.id.Some? ==> before[i].id != last.id {
        assert before[i] in rows[..|rows| - 1];
      }
    }
  }

  ghost predicate AtMost(table: seq<Target>, top: int) {
    forall t :: t in table ==> t.id <= top
  }

  lemma AppendedIsDistinct(table: seq<Target>, t: Target)
    requires DistinctIds(table) && forall u :: u in table ==> u.id != t.id
    ensures DistinctIds(table + [t])
  {
    forall i | 0 <= i < |table| ensures table[i].id != t.id {
      assert table[i] in table;
    }
  }

  lemma {:induction false} KeptInserted(kept: seq<Restored>, high: int)
    requires DistinctKept(kept) && forall r :: r in kept ==> r.id.Some?
    ensures var (table, top) := InsertAll(kept, high);
            && DistinctIds(table) && |table| == |kept| && high <= top && AtMost(table, top)
            && forall i :: 0 <= i < |kept| ==> table[i] == Target(kept[i].id.value, kept[i].name)
  {
    if kept == [] {
    } else {
      var before, last := kept[..|kept| - 1], kept[|kept| - 1];
      KeptInserted(before, high);
      var (table, top) := InsertAll(before, high);
      forall u | u in table ensures u.id != last.id.value {
        var i :| 0 <= i < |table| && table[i] == u;
        assert kept[i].id != last.id;
      }
      AppendedIsDistinct(table, Target(last.id.value, last.name));
    }
  }

  /** Explicit ids before automatic ones: nothing collides, and automatic ids are new to the instance. */
  lemma {:induction false} InsertedAre(kept: seq<Restored>, fresh_: seq<Restored>, high: int)
    requires DistinctKept(kept) && forall r :: r in kept ==> r.id.Some?
    requires forall r :: r in fresh_ ==> r.id.None?
    ensures var (table, top) := InsertAll(kept + fresh_, high);
            && DistinctIds(table) && |table| == |kept| + |fresh_| && high <= top && AtMost(table, top)
            && (forall i :: 0 <= i < |kept| ==> table[i] == Target(kept[i].id.value, kept[i].name))
            && (forall i :: |kept| <= i < |table| ==> high < table[i].id && table[i].name == fresh_[i - |kept|].name)
  {
    if fresh_ == [] {
      assert kept + fresh_ == kept;
      KeptInserted(kept, high);
    } else {
      var before, last := fresh_[..|fresh_| - 1], fresh_[|fresh_| - 1];
      InsertedAre(kept, before, high);
      assert (kept + fresh_)[..|kept + fresh_| - 1] == kept + before;
      assert (kept + fresh_)[|kept + fresh_| - 1] == last;
      var (table, top) := InsertAll(kept + before, high);
      AppendedIsDistinct(table, Target(top + 1, last.name));
    }
  }

  /** Row i of the file is where this target came from: on the id settled for it, or on a fresh one. */
  ghost predicate ComesFrom(ids: seq<Option<int>>, rows: seq<FileRow>, high: int, t: Target, i: int)
    requires |ids| == |rows|
  {
    0 <= i < |rows| && Trim(rows[i].name) == t.name && (ids[i] == Some(t.id) || (ids[i].None? && high < t.id))
  }

  lemma RestoredKeptApart(live: seq<Target>, occupied: set<int>, rows: seq<FileRow>)
    ensures DistinctKept(RestoredRows(RestoredIds(live, occupied, rows), rows))
  {
    var restored := RestoredRows(RestoredIds(live, occupied, rows), rows);
    forall i, j | 0 <= i < j < |restored| && restored[i].id.Some? ensures restored[i].id != restored[j].id {
      NoIdTwice(live, occupied, rows, i, j);
    }
  }

  /** What a restore leaves, target by target and row by row. */
  lemma ReinsertedAre(live: seq<Target>, occupied: set<int>, rows: seq<FileRow>, high: int)
    ensures var (table, top) := Reinserted(RestoredIds(live, occupied, rows), rows, high);
            DistinctIds(table) && |table| == |rows| && high <= top && AtMost(table, top)
    ensures var ids := RestoredIds(live, occupied, rows);
            && (forall i :: 0 <= i < |rows| && ids[i].Some? ==>
                  Target(ids[i].value, Trim(rows[i].name)) in Reinserted(ids, rows, high).0)
            && (forall t :: t in Reinserted(ids, rows, high).0 ==> exists i :: ComesFrom(ids, rows, high, t, i))
  {
    var ids := RestoredIds(live, occupied, rows);
    var restored := RestoredRows(ids, rows);
    var kept, fresh_ := WithId(restored), WithoutId(restored);
    RestoredKeptApart(live, occupied, rows);
    WithIdIs(restored);
    WithIdKeepsDistinct(restored);
    InsertedAre(kept, fresh_, high);
    var table := Reinserted(ids, rows, high).0;
    forall i | 0 <= i < |rows| && ids[i].Some? ensures Target(ids[i].value, Trim(rows[i].name)) in table {
      assert restored[i] in kept;
      var k :| 0 <= k < |kept| && kept[k] == restored[i];
      assert table[k] == Target(ids[i].value, Trim(rows[i].name));
    }
    forall t | t in table ensures exists i :: ComesFrom(ids, rows, high, t, i) {
      var k :| 0 <= k < |table| && table[k] == t;
      Origin(ids, rows, high, t, if k < |kept| then kept[k] else fresh_[k - |kept|]);
    }
  }

  lemma Origin(ids: seq<Option<int>>, rows: seq<FileRow>, high: int, t: Target, r: Restored)
    requires |ids| == |rows| && r in RestoredRows(ids, rows)
    requires r.name == t.name && (r.id == Some(t.id) || (r.id.None? && high < t.id))
    ensures exists i :: ComesFrom(ids, rows, high, t, i)
  {
    var i :| 0 <= i < |rows| && RestoredRows(ids, rows)[i] == r;
    assert ComesFrom(ids, rows, high, t, i);
  }

  /**
   A restore re-attributes no history: an id under which rows are filed here is
   left to nobody, or given to a row wearing the name its live holder wore.
   */
  lemma NoReattribution(live: seq<Target>, history: set<int>, rows: seq<FileRow>, high: int, t: Target)
    requires DistinctIds(live) && (forall id :: id in history ==> id <= high)
    requires var r := RestoreTargets(live, history, rows, high); r.Some? && t in r.value.0 && t.id in history
    ensures exists l :: l in live && l.id == t.id && Trim(l.name) == t.name
  {
    var occupied := Occupied(rows, history);
    ReinsertedAre(live, occupied, rows, high);
    var i :| ComesFrom(RestoredIds(live, occupied, rows), rows, high, t, i);
    KeptIdsAreWorn(live, history, rows, i);
  }
}
