/** When a restore refuses its file, and which id each row of one it takes is given. */
module RestoreRows {
  import opened Wrappers
  import opened Text
  import opened Restore

  lemma {:induction false} FileIdAt(rows: seq<FileRow>, id: int)
    ensures id in FileIds(rows) <==> exists i :: 0 <= i < |rows| && rows[i].id == Some(id)
  {
    if rows == [] {
    } else {
      var init, last := rows[..|rows| - 1], rows[|rows| - 1];
      FileIdAt(init, id);
      if exists i :: 0 <= i < |init| && init[i].id == Some(id) {
        var i :| 0 <= i < |init| && init[i].id == Some(id);
        assert rows[i].id == Some(id);
      }
      if exists i :: 0 <= i < |rows| && rows[i].id == Some(id) {
        var i :| 0 <= i < |rows| && rows[i].id == Some(id);
        if i < |init| { assert init[i].id == Some(id); }
      }
      assert rows[|rows| - 1] == last;
    }
  }

  lemma LastIsNew(ids: seq<int>, id: int)
    ensures Distinct(ids + [id]) <==> Distinct(ids) && id !in ids
  {
    if Distinct(ids + [id]) {
      assert forall i, j :: 0 <= i < j < |ids| ==> (ids + [id])[i] == ids[i] && (ids + [id])[j] == ids[j];
      forall k | 0 <= k < |ids| ensures ids[k] != id {
        assert (ids + [id])[k] != (ids + [id])[|ids|];
      }
    }
  }

  /** Two rows of the file carry one id. */
  ghost predicate Collides(rows: seq<FileRow>) {
    exists i, j :: 0 <= i < j < |rows| && rows[i].id.Some? && rows[i].id == rows[j].id
  }

  ghost predicate Carries(rows: seq<FileRow>, id: int) {
    exists i :: 0 <= i < |rows| && rows[i].id == Some(id)
  }

  lemma NoNewCollision(init: seq<FileRow>, last: FileRow)
    requires !Collides(init) && (last.id.Some? ==> !Carries(init, last.id.value))
    ensures !Collides(init + [last])
  {
    var rows := init + [last];
    forall i, j | 0 <= i < j < |rows| && rows[i].id.Some? ensures rows[i].id != rows[j].id {
      if j < |init| { assert init[i].id != init[j].id; }
    }
  }

  lemma CollidesOnceMore(init: seq<FileRow>, last: FileRow)
    ensures Collides(init + [last]) <==> Collides(init) || (last.id.Some? && Carries(init, last.id.value))
  {
    var rows := init + [last];
    if Collides(init) {
      var i, j :| 0 <= i < j < |init| && init[i].id.Some? && init[i].id == init[j].id;
      assert rows[i].id.Some? && rows[i].id == rows[j].id;
    } else if last.id.Some? && Carries(init, last.id.value) {
      var i :| 0 <= i < |init| && init[i].id == Some(last.id.value);
      assert rows[i].id.Some? && rows[i].id == rows[|init|].id;
    } else {
      NoNewCollision(init, last);
    }
  }

  lemma {:induction false} DistinctUnlessColliding(rows: seq<FileRow>)
    ensures Distinct(FileIds(rows)) <==> !Collides(rows)
  {
    if rows == [] {
    } else {
      var init, last := rows[..|rows| - 1], rows[|rows| - 1];
      DistinctUnlessColliding(init);
      CollidesOnceMore(init, last);
      assert rows == init + [last];
      if last.id.Some? {
        FileIdAt(init, last.id.value);
        LastIsNew(FileIds(init), last.id.value);
      } else {
        assert FileIds(rows) == FileIds(init);
      }
    }
  }

  /** A file is refused exactly when two of its rows carry the same id. */
  lemma RefusedIff(live: seq<Target>, history: set<int>, rows: seq<FileRow>, high: int)
    ensures RestoreTargets(live, history, rows, high).None? <==> Collides(rows)
  {
    DistinctUnlessColliding(rows);
  }

  ghost predicate Wears(live: seq<Target>, id: int, name: string) {
    exists t :: t in live && t.id == id && Trim(t.name) == name
  }

  /** The first target in round order to wear the name. */
  ghost predicate FirstToWear(live: seq<Target>, name: string, k: int) {
    && 0 <= k < |live| && Trim(live[k].name) == name
    && forall j :: 0 <= j < k ==> Trim(live[j].name) != name
  }

  lemma {:induction false} IdOfIsFirst(live: seq<Target>, name: string, k: int)
    requires FirstToWear(live, name, k)
    ensures IdOf(live, name) == Some(live[k].id)
  {
    if k > 0 {
      assert live[1..][k - 1] == live[k];
      IdOfIsFirst(live[1..], name, k - 1);
    }
  }

  /** The id a row's name puts it on, unless a row before it took that; the file's own then, where no history stands. */
  ghost predicate Gets(id: Option<int>, lands: Option<int>, own: Option<int>, taken: seq<Option<int>>,
                       occupied: set<int>) {
    id == if lands.Some? && lands !in taken then lands
          else if own.Some? && own !in taken && own.value !in occupied then own
          else None
  }

  /** What row i gets: its own id where that is worn under its name, and the first namesake's where it is not. */
  lemma RowGets(live: seq<Target>, occupied: set<int>, rows: seq<FileRow>, i: nat)
    requires DistinctIds(live) && i < |rows|
    ensures var ids, row, name := RestoredIds(live, occupied, rows), rows[i], Trim(rows[i].name);
            if row.id.Some? && Wears(live, row.id.value, name)
            then Gets(ids[i], row.id, row.id, ids[..i], occupied)
            else
              && (forall k :: FirstToWear(live, name, k) ==>
                    Gets(ids[i], Some(live[k].id), row.id, ids[..i], occupied))
              && ((forall t :: t in live ==> Trim(t.name) != name) ==>
                    Gets(ids[i], None, row.id, ids[..i], occupied))
  {
    var ids, row, name := RestoredIds(live, occupied, rows), rows[i], Trim(rows[i].name);
    RestoredAt(live, occupied, rows, i);
    KeptIsHandedOut(ids[..i]);
    IdOfWears(live, name);
    forall k | FirstToWear(live, name, k) ensures IdOf(live, name) == Some(live[k].id) {
      IdOfIsFirst(live, name, k);
    }
    if row.id.Some? {
      NameOfIsWorn(live, row.id.value);
      assert Wears(live, row.id.value, name) <==> NameOf(live, row.id.value) == Some(name);
      assert row.id.value in Kept(ids[..i]) <==> row.id in ids[..i];
    }
    if IdOf(live, name).Some? {
      assert IdOf(live, name).value in Kept(ids[..i]) <==> IdOf(live, name) in ids[..i];
    }
  }
}
