/** Restores repeated, and the ids a restore gives up to standing history. */
module RestoreRuns {
  import opened Wrappers
  import opened Text
  import opened Restore

  // ------------------------------------------------------------ restoring again

  ghost predicate DistinctNames(rows: seq<FileRow>) {
    forall i, j :: 0 <= i < j < |rows| ==> Trim(rows[i].name) != Trim(rows[j].name)
  }

  /** One live target, and only one, wears the name. */
  ghost predicate WornOnce(live: seq<Target>, name: string) {
    && IdOf(live, name).Some?
    && forall t :: t in live && Trim(t.name) == name ==> t.id == IdOf(live, name).value
  }

  ghost predicate AllWornOnce(live: seq<Target>, rows: seq<FileRow>) {
    forall k :: 0 <= k < |rows| ==> WornOnce(live, Trim(rows[k].name))
  }

  lemma DifferentNamesDifferentIds(live: seq<Target>, a: string, b: string)
    requires DistinctIds(live) && a != b && IdOf(live, a).Some? && IdOf(live, b).Some?
    ensures IdOf(live, a) != IdOf(live, b)
  {
    IdOfWears(live, a);
    IdOfWears(live, b);
  }

  lemma SettledOnWearer(live: seq<Target>, row: FileRow)
    requires DistinctIds(live) && WornOnce(live, Trim(row.name))
    ensures Settled(live, row) == IdOf(live, Trim(row.name))
  {
    if row.id.Some? {
      NameOfIsWorn(live, row.id.value);
    }
  }

  /** A row whose name one live target wears is restored onto that target, whatever the file calls it. */
  lemma {:induction false} LandsOnWearer(live: seq<Target>, occupied: set<int>, rows: seq<FileRow>, i: nat)
    requires DistinctIds(live) && DistinctNames(rows) && i < |rows| && AllWornOnce(live, rows)
    ensures RestoredIds(live, occupied, rows)[i] == IdOf(live, Trim(rows[i].name))
    decreases i, 1
  {
    RestoredAt(live, occupied, rows, i);
    WearerIsFree(live, occupied, rows, i);
    SettledOnWearer(live, rows[i]);
  }

  lemma {:induction false} WearerIsFree(live: seq<Target>, occupied: set<int>, rows: seq<FileRow>, i: nat)
    requires DistinctIds(live) && DistinctNames(rows) && i < |rows| && AllWornOnce(live, rows)
    ensures IdOf(live, Trim(rows[i].name)).value !in Kept(RestoredIds(live, occupied, rows)[..i])
    decreases i, 0
  {
    var earlier := RestoredIds(live, occupied, rows)[..i];
    assert WornOnce(live, Trim(rows[i].name));
    var id := IdOf(live, Trim(rows[i].name)).value;
    KeptIsHandedOut(earlier);
    if id in Kept(earlier) {
      var k :| 0 <= k < |earlier| && earlier[k] == Some(id);
      LandsOnWearer(live, occupied, rows, k);
      DifferentNamesDifferentIds(live, Trim(rows[k].name), Trim(rows[i].name));
    }
  }

  function Elements(table: seq<Target>): set<Target> {
    set t | t in table
  }

  ghost predicate Apart(rows: seq<Restored>) {
    forall i, j :: 0 <= i < j < |rows| ==> rows[i].name != rows[j].name
  }

  lemma {:induction false} EachHalfStaysApart(rows: seq<Restored>)
    requires Apart(rows)
    ensures Apart(WithId(rows)) && Apart(WithoutId(rows))
  {
    if rows == [] {
    } else {
      EachHalfStaysApart(rows[..|rows| - 1]);
      WithIdIs(rows[..|rows| - 1]);
    }
  }

  lemma NamesakesAmongRows(rows: seq<Restored>, a: Restored, b: Restored)
    requires Apart(rows) && a in rows && b in rows && a.name == b.name
    ensures a == b
  {
  }

  /** Rows of different names stay so when those keeping an id go first. */
  lemma SortingKeepsApart(rows: seq<Restored>)
    requires Apart(rows)
    ensures Apart(WithId(rows) + WithoutId(rows))
  {
    var kept, fresh_ := WithId(rows), WithoutId(rows);
    EachHalfStaysApart(rows);
    WithIdIs(rows);
    forall i, j | 0 <= i < |kept| && 0 <= j < |fresh_| ensures kept[i].name != fresh_[j].name {
      assert kept[i] in kept && fresh_[j] in fresh_;
      if kept[i].name == fresh_[j].name {
        NamesakesAmongRows(rows, kept[i], fresh_[j]);
      }
    }
  }

  /** The rows a restore inserts, in the order it inserts them. */
  function Inserted(live: seq<Target>, occupied: set<int>, rows: seq<FileRow>): seq<Restored> {
    var restored := RestoredRows(RestoredIds(live, occupied, rows), rows);
    WithId(restored) + WithoutId(restored)
  }

  lemma {:induction false} InsertingKeepsNames(rows: seq<Restored>, high: int)
    ensures var table := InsertAll(rows, high).0;
            |table| == |rows| && forall k :: 0 <= k < |table| ==> table[k].name == rows[k].name
  {
    if rows == [] {
    } else {
      InsertingKeepsNames(rows[..|rows| - 1], high);
    }
  }

  lemma NamesAreInserted(live: seq<Target>, occupied: set<int>, rows: seq<FileRow>, high: int)
    ensures var table := Reinserted(RestoredIds(live, occupied, rows), rows, high).0;
            && |table| == |Inserted(live, occupied, rows)|
            && (forall k :: 0 <= k < |table| ==> table[k].name == Inserted(live, occupied, rows)[k].name)
  {
    InsertingKeepsNames(Inserted(live, occupied, rows), high);
  }

  /** The names of a restored table: each of the file's, exactly once. */
  lemma NamesakesAreOne(live: seq<Target>, occupied: set<int>, rows: seq<FileRow>, high: int, u: Target, t: Target)
    requires DistinctNames(rows)
    requires u in Reinserted(RestoredIds(live, occupied, rows), rows, high).0
    requires t in Reinserted(RestoredIds(live, occupied, rows), rows, high).0
    requires u.name == t.name
    ensures u == t
  {
    NamesAreInserted(live, occupied, rows, high);
    SortingKeepsApart(RestoredRows(RestoredIds(live, occupied, rows), rows));
    var table := Reinserted(RestoredIds(live, occupied, rows), rows, high).0;
    var i :| 0 <= i < |table| && table[i] == u;
    var j :| 0 <= j < |table| && table[j] == t;
  }

  lemma EveryRowIsThere(live: seq<Target>, occupied: set<int>, rows: seq<FileRow>, high: int, i: nat)
    requires i < |rows|
    ensures exists t :: t in Reinserted(RestoredIds(live, occupied, rows), rows, high).0 && t.name == Trim(rows[i].name)
  {
    var restored := RestoredRows(RestoredIds(live, occupied, rows), rows);
    NamesAreInserted(live, occupied, rows, high);
    WithIdIs(restored);
    assert restored[i] in WithId(restored) + WithoutId(restored);
    var inserted := Inserted(live, occupied, rows);
    var k :| 0 <= k < |inserted| && inserted[k] == restored[i];
    assert Reinserted(RestoredIds(live, occupied, rows), rows, high).0[k].name == Trim(rows[i].name);
  }

  lemma RestoredNamesAreTrimmed(live: seq<Target>, occupied: set<int>, rows: seq<FileRow>, high: int, t: Target)
    requires t in Reinserted(RestoredIds(live, occupied, rows), rows, high).0
    ensures Trim(t.name) == t.name
  {
    ReinsertedAre(live, occupied, rows, high);
    var i :| ComesFrom(RestoredIds(live, occupied, rows), rows, high, t, i);
    TrimTwice(rows[i].name);
  }

  /** `after` lists, in any order, the targets a restore of the file left. */
  ghost predicate RestoredFrom(live: seq<Target>, occupied: set<int>, rows: seq<FileRow>, high: int,
                               after: seq<Target>) {
    && DistinctIds(after)
    && Elements(after) == Elements(Reinserted(RestoredIds(live, occupied, rows), rows, high).0)
  }

  lemma MembersAreElements(table: seq<Target>, t: Target)
    ensures t in table <==> t in Elements(table)
  {
  }

  /** After a restore each of the file's names is worn once. */
  lemma RestoredNamesAreWornOnce(live: seq<Target>, occupied: set<int>, rows: seq<FileRow>, high: int,
                                 after: seq<Target>, i: nat)
    requires DistinctNames(rows) && i < |rows| && RestoredFrom(live, occupied, rows, high, after)
    ensures WornOnce(after, Trim(rows[i].name))
    ensures Target(IdOf(after, Trim(rows[i].name)).value, Trim(rows[i].name)) in after
  {
    var table := Reinserted(RestoredIds(live, occupied, rows), rows, high).0;
    var name := Trim(rows[i].name);
    EveryRowIsThere(live, occupied, rows, high, i);
    var t :| t in table && t.name == name;
    RestoredNamesAreTrimmed(live, occupied, rows, high, t);
    MembersAreElements(table, t);
    MembersAreElements(after, t);
    IdOfWears(after, name);
    forall u | u in after && Trim(u.name) == name ensures u == t {
      MembersAreElements(after, u);
      MembersAreElements(table, u);
      RestoredNamesAreTrimmed(live, occupied, rows, high, u);
      NamesakesAreOne(live, occupied, rows, high, u, t);
    }
  }

  /**
   The fixed point: on an instance holding what a restore of the file left - in
   any order, whatever history has been filed and whatever ids have been used
   up since - restoring the same file again leaves the very same targets.
   */
  lemma RestoreAgain(live: seq<Target>, occupied: set<int>, rows: seq<FileRow>, high: int, after: seq<Target>,
                     later: set<int>, laterHigh: int)
    requires DistinctNames(rows) && RestoredFrom(live, occupied, rows, high, after)
    ensures Elements(Reinserted(RestoredIds(after, later, rows), rows, laterHigh).0) == Elements(after)
  {
    var ids := RestoredIds(after, later, rows);
    var table := Reinserted(ids, rows, laterHigh).0;
    forall i | 0 <= i < |rows| ensures WornOnce(after, Trim(rows[i].name)) {
      RestoredNamesAreWornOnce(live, occupied, rows, high, after, i);
    }
    forall t | t in table ensures t in after {
      OnlyWearersComeBack(live, occupied, rows, high, after, later, laterHigh, t);
    }
    forall t | t in after ensures t in table {
      EveryWearerComesBack(live, occupied, rows, high, after, later, laterHigh, t);
    }
  }

  lemma OnlyWearersComeBack(live: seq<Target>, occupied: set<int>, rows: seq<FileRow>, high: int, after: seq<Target>,
                            later: set<int>, laterHigh: int, t: Target)
    requires DistinctNames(rows) && RestoredFrom(live, occupied, rows, high, after) && AllWornOnce(after, rows)
    requires t in Reinserted(RestoredIds(after, later, rows), rows, laterHigh).0
    ensures t in after
  {
    ReinsertedAre(after, later, rows, laterHigh);
    var i :| ComesFrom(RestoredIds(after, later, rows), rows, laterHigh, t, i);
    LandsOnWearer(after, later, rows, i);
    RestoredNamesAreWornOnce(live, occupied, rows, high, after, i);
  }

  lemma EveryWearerComesBack(live: seq<Target>, occupied: set<int>, rows: seq<FileRow>, high: int, after: seq<Target>,
                             later: set<int>, laterHigh: int, t: Target)
    requires DistinctNames(rows) && RestoredFrom(live, occupied, rows, high, after) && AllWornOnce(after, rows)
    requires t in after
    ensures t in Reinserted(RestoredIds(after, later, rows), rows, laterHigh).0
  {
    MembersAreElements(after, t);
    MembersAreElements(Reinserted(RestoredIds(live, occupied, rows), rows, high).0, t);
    RestoredNamesAreTrimmed(live, occupied, rows, high, t);
    ReinsertedAre(live, occupied, rows, high);
    var i :| ComesFrom(RestoredIds(live, occupied, rows), rows, high, t, i);
    LandsOnWearer(after, later, rows, i);
    ReinsertedAre(after, later, rows, laterHigh);
  }

  /** What happened to the instance between two restores of the file. */
  datatype Meanwhile = Meanwhile(history: set<int>, high: int, listed: seq<Target>)

  /**
   A chain of restores of one file: before restore k the targets are listed as
   `chain[k].listed`, the history stands under `chain[k].history`.
   */
  ghost predicate Chain(rows: seq<FileRow>, chain: seq<Meanwhile>) {
    && (forall k :: 0 <= k < |chain| ==> DistinctIds(chain[k].listed))
    && forall k :: 0 < k < |chain| ==>
         RestoredFrom(chain[k - 1].listed, Occupied(rows, chain[k - 1].history), rows, chain[k - 1].high,
                      chain[k].listed)
  }

  /** Every restore after the first finds, and leaves, each target under the id it already holds. */
  lemma {:induction false} EveryRestoreAfterTheFirst(rows: seq<FileRow>, chain: seq<Meanwhile>, k: nat)
    requires DistinctNames(rows) && Chain(rows, chain) && 1 <= k < |chain|
    ensures Elements(chain[k].listed) == Elements(chain[1].listed)
  {
    if k > 1 {
      EveryRestoreAfterTheFirst(rows, chain, k - 1);
      var first, now := chain[k - 2], chain[k - 1];
      assert RestoredFrom(first.listed, Occupied(rows, first.history), rows, first.high, now.listed);
      RestoreAgain(first.listed, Occupied(rows, first.history), rows, first.high, now.listed,
                   Occupied(rows, now.history), now.high);
      assert RestoredFrom(now.listed, Occupied(rows, now.history), rows, now.high, chain[k].listed);
    }
  }

  /** A file of two rows, settled. */
  lemma TwoRows(live: seq<Target>, occupied: set<int>, a: FileRow, b: FileRow)
    ensures var first := RestoredId(live, occupied, {}, a);
            && RestoredIds(live, occupied, [a, b]) == [first, RestoredId(live, occupied, Add({}, first), b)]
            && Stripped(live, occupied, [a, b])
               == (if Strips(live, occupied, {}, a) then {a.id.value} else {})
                  + if Strips(live, occupied, Add({}, first), b) then {b.id.value} else {}
    ensures FileIds([a, b]) == (if a.id.Some? then [a.id.value] else []) + if b.id.Some? then [b.id.value] else []
  {
    var first := RestoredId(live, occupied, {}, a);
    assert [a, b][..1] == [a] && [a][..0] == [] && [first][..0] == [];
    assert RestoredIds(live, occupied, [a]) == [first];
    assert Kept([first]) == Add({}, first);
    assert FileIds([a]) == if a.id.Some? then [a.id.value] else [];
    assert Stripped(live, occupied, [a]) == if Strips(live, occupied, {}, a) then {a.id.value} else {};
  }

  /** Names that repeat are restored, but not onto a fixed point: without ids, the second twin moves every time. */
  lemma TwinsMove()
    ensures var rows := [FileRow(None, "WAN"), FileRow(None, "WAN")];
            && RestoreTargets([], {}, rows, 0) == Some(([Target(1, "WAN"), Target(2, "WAN")], 2))
            && RestoreTargets([Target(1, "WAN"), Target(2, "WAN")], {}, rows, 2)
               == Some(([Target(1, "WAN"), Target(3, "WAN")], 3))
  {
    var row := FileRow(None, "WAN");
    var live := [Target(1, "WAN"), Target(2, "WAN")];
    assert Occupied([row, row], {}) == {};
    assert Trim("WAN") == "WAN" by { assert TrimStart("WAN") == "WAN"; }
    TwoRows([], {}, row, row);
    TwoRows(live, {}, row, row);
    Renumbered(None, "WAN", 0);
    Renumbered(Some(1), "WAN", 2);
  }

  lemma KeptFirst(a: Restored, b: Restored)
    requires b.id.None?
    ensures WithId([a, b]) + WithoutId([a, b]) == [a, b]
  {
    assert [a, b][..1] == [a] && [a][..0] == [];
    if a.id.Some? {
      assert WithId([a]) == [a] && WithoutId([a]) == [];
    } else {
      assert WithId([a]) == [] && WithoutId([a]) == [a];
    }
  }

  lemma InsertOne(a: Restored, high: int)
    ensures var id := if a.id.Some? then a.id.value else high + 1;
            InsertAll([a], high) == ([Target(id, a.name)], Max(high, id))
  {
    assert [a][..0] == [];
    var before := InsertAll([a][..0], high);
    assert before == ([], high);
    var id := if a.id.Some? then a.id.value else high + 1;
    assert InsertAll([a], high) == (before.0 + [Target(id, a.name)], Max(high, id));
    assert before.0 + [Target(id, a.name)] == [Target(id, a.name)];
  }

  lemma InsertTwo(a: Restored, b: Restored, high: int)
    requires b.id.None?
    ensures var id := if a.id.Some? then a.id.value else high + 1;
            InsertAll([a, b], high)
            == ([Target(id, a.name), Target(Max(high, id) + 1, b.name)], Max(high, id) + 1)
  {
    InsertOne(a, high);
    assert [a, b][..1] == [a] && [a, b][1] == b;
    var one := InsertAll([a], high);
    var t := Target(one.1 + 1, b.name);
    assert InsertAll([a, b], high) == (one.0 + [t], one.1 + 1);
    assert one.0 + [t] == [one.0[0], t];
  }

  /** Two rows of one name inserted, the second without an id. */
  lemma Renumbered(first: Option<int>, name: string, high: int)
    requires Trim(name) == name
    ensures var id := if first.Some? then first.value else high + 1;
            Reinserted([first, None], [FileRow(None, name), FileRow(None, name)], high)
            == ([Target(id, name), Target(Max(high, id) + 1, name)], Max(high, id) + 1)
  {
    var a, b := Restored(first, name), Restored(None, name);
    var rows := [FileRow(None, name), FileRow(None, name)];
    assert Trim(rows[0].name) == name && Trim(rows[1].name) == name;
    assert RestoredRows([first, None], rows) == [a, b];
    KeptFirst(a, b);
    InsertTwo(a, b, high);
  }

  // ---------------------------------------------------- ids given up to standing history

  ghost predicate Held(table: seq<Target>, id: int) {
    exists t :: t in table && t.id == id
  }

  ghost predicate SettledOn(live: seq<Target>, rows: seq<FileRow>, id: int) {
    exists j :: 0 <= j < |rows| && Settled(live, rows[j]) == Some(id)
  }

  lemma HeldMeansSettledOn(live: seq<Target>, history: set<int>, rows: seq<FileRow>, high: int, t: Target)
    requires (forall k :: k in history ==> k <= high) && t.id in Occupied(rows, history)
    requires t in Reinserted(RestoredIds(live, Occupied(rows, history), rows), rows, high).0
    ensures SettledOn(live, rows, t.id)
  {
    var occupied := Occupied(rows, history);
    var ids := RestoredIds(live, occupied, rows);
    ReinsertedAre(live, occupied, rows, high);
    var i :| ComesFrom(ids, rows, high, t, i);
    assert t.id in history;
    RestoredAt(live, occupied, rows, i);
  }

  lemma SettledOnMeansHeld(live: seq<Target>, occupied: set<int>, rows: seq<FileRow>, high: int, j: nat)
    requires j < |rows| && Settled(live, rows[j]).Some?
    ensures Held(Reinserted(RestoredIds(live, occupied, rows), rows, high).0, Settled(live, rows[j]).value)
  {
    var id := Settled(live, rows[j]).value;
    var ids := RestoredIds(live, occupied, rows);
    RestoredAt(live, occupied, rows, j);
    KeptIsHandedOut(ids[..j]);
    var k := j;
    if id in Kept(ids[..j]) {
      k :| 0 <= k < |ids[..j]| && ids[..j][k] == Some(id);
    }
    ReinsertedAre(live, occupied, rows, high);
    assert Target(id, Trim(rows[k].name)) in Reinserted(ids, rows, high).0;
  }

  /**
   Exactly when an id that local history stands under is held after a restore:
   when a row of the file settles on it by name. Otherwise its rows are orphans.
   */
  lemma HeldIffSettledOn(live: seq<Target>, history: set<int>, rows: seq<FileRow>, high: int, id: int)
    requires (forall k :: k in history ==> k <= high) && id in Occupied(rows, history)
    ensures Held(Reinserted(RestoredIds(live, Occupied(rows, history), rows), rows, high).0, id)
            <==> SettledOn(live, rows, id)
  {
    var table := Reinserted(RestoredIds(live, Occupied(rows, history), rows), rows, high).0;
    if Held(table, id) {
      var t :| t in table && t.id == id;
      HeldMeansSettledOn(live, history, rows, high, t);
    }
    if SettledOn(live, rows, id) {
      var j :| 0 <= j < |rows| && Settled(live, rows[j]) == Some(id);
      SettledOnMeansHeld(live, Occupied(rows, history), rows, high, j);
    }
  }

  lemma {:induction false} StrippedIsOccupied(live: seq<Target>, occupied: set<int>, rows: seq<FileRow>)
    ensures Stripped(live, occupied, rows) <= occupied
  {
    if rows == [] {
    } else {
      StrippedIsOccupied(live, occupied, rows[..|rows| - 1]);
    }
  }

  /** So of an id the restore strips: its rows are left without a target unless a namesake takes it after all. */
  lemma StrippedIsOrphanedUnlessSettledOn(live: seq<Target>, history: set<int>, rows: seq<FileRow>, high: int, id: int)
    requires (forall k :: k in history ==> k <= high) && id in Stripped(live, Occupied(rows, history), rows)
    ensures Held(Reinserted(RestoredIds(live, Occupied(rows, history), rows), rows, high).0, id)
            <==> SettledOn(live, rows, id)
  {
    StrippedIsOccupied(live, Occupied(rows, history), rows);
    HeldIffSettledOn(live, history, rows, high, id);
  }

  lemma OneLive(t: Target, id: int, name: string)
    ensures NameOf([t], id) == if id == t.id then Some(Trim(t.name)) else None
    ensures IdOf([t], name) == if name == Trim(t.name) then Some(t.id) else None
  {
    assert [t][1..] == [];
  }

  /** A row naming a stranger's id gives it up; the stranger's namesake after it takes the id back. */
  lemma StrippedThenTaken(t: Target, stranger: FileRow, namesake: FileRow)
    requires stranger.id == Some(t.id) && Trim(stranger.name) != Trim(t.name)
    requires namesake.id != stranger.id && Trim(namesake.name) == Trim(t.name)
    ensures Stripped([t], {t.id}, [stranger, namesake]) == {t.id}
    ensures RestoredIds([t], {t.id}, [stranger, namesake]) == [None, Some(t.id)]
  {
    TwoRows([t], {t.id}, stranger, namesake);
    OneLive(t, t.id, Trim(stranger.name));
    OneLive(t, namesake.id.GetOr(t.id), Trim(namesake.name));
  }

  /**
   The rows under a stripped id are not always left without a target: in the
   backup of an instance that had given the two names to each other's ids, the
   later namesake holds it.
   */
  lemma StrippedMayStillBeHeld()
    ensures var live, rows := [Target(1, "A")], [FileRow(Some(1), "B"), FileRow(Some(2), "A")];
            && Stripped(live, Occupied(rows, {1}), rows) == {1}
            && Target(1, "A") in Reinserted(RestoredIds(live, Occupied(rows, {1}), rows), rows, 1).0
  {
    var stranger, namesake := FileRow(Some(1), "B"), FileRow(Some(2), "A");
    TwoRows([], {}, stranger, namesake);
    assert Occupied([stranger, namesake], {1}) == {1};
    assert Trim("A") == "A" && Trim("B") == "B" by { assert TrimStart("A") == "A" && TrimStart("B") == "B"; }
    StrippedThenTaken(Target(1, "A"), stranger, namesake);
    ReinsertedAre([Target(1, "A")], {1}, [stranger, namesake], 1);
  }
}
