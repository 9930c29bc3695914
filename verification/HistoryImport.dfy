/** The history restored from a file, chunk by chunk. */
module HistoryImport {
  import opened Wrappers
  import opened Sorting
  import opened Json
  import Targets
  import ImportRows

  /**
   What a database makes of a write: `accepts` judges rows one by one, `disturbed`
   fails a statement for a whole chunk, `lost` fails a transaction at its end.
   */
  datatype Backend = Backend(accepts: Entry -> bool, disturbed: seq<Entry> -> bool, lost: seq<Entry> -> bool)

  /** The rows the import's own checks let through, as it would write them. */
  function Judged<E, R>(data: seq<E>, judge: E -> Option<R>): seq<R> {
    if data == [] then []
    else Judged(data[..|data| - 1], judge)
         + match judge(data[|data| - 1]) case None => [] case Some(row) => [row]
  }

  function JudgeWith(env: ImportRows.Env, now: int, listed: seq<Targets.Target>): Value -> Option<Entry> {
    element => ImportRows.Judge(env, now, listed, element)
  }

  /** The chunks rows are written in, the last as short as it comes. */
  function ChunksOf<R>(rows: seq<R>, chunk: nat): seq<seq<R>>
    requires chunk >= 1
    decreases |rows|
  {
    if rows == [] then []
    else if |rows| <= chunk then [rows]
    else [rows[..chunk]] + ChunksOf(rows[chunk..], chunk)
  }

  /** One statement writes the chunk. */
  predicate AtOnce(backend: Backend, batch: seq<Entry>) {
    !backend.disturbed(batch) && forall i :: 0 <= i < |batch| ==> backend.accepts(batch[i])
  }

  /** Neither one statement writes the chunk, nor does the transaction that goes row by row come to its end. */
  predicate Lost(backend: Backend, batch: seq<Entry>) {
    !AtOnce(backend, batch) && backend.lost(batch)
  }

  /** The rows of the chunks ahead of the first that is lost, and whether one is. */
  function Written(backend: Backend, chunks: seq<seq<Entry>>): (seq<Entry>, bool) {
    if chunks == [] then ([], false)
    else if Lost(backend, chunks[0]) then ([], true)
    else
      var (rest, threw) := Written(backend, chunks[1..]);
      (Filter(chunks[0], backend.accepts) + rest, threw)
  }

  // ---------------------------------------------------------------------- what is written

  lemma {:induction false} ChainedChunks<R>(rows: seq<R>, chunk: nat)
    requires chunk >= 1
    ensures Chained(ChunksOf(rows, chunk)) == rows
    decreases |rows|
  {
    if rows == [] {
    } else if |rows| <= chunk {
      assert [rows][1..] == [];
    } else {
      ChainedChunks(rows[chunk..], chunk);
      assert ([rows[..chunk]] + ChunksOf(rows[chunk..], chunk))[1..] == ChunksOf(rows[chunk..], chunk);
    }
  }

  lemma OneChunkFirst<R>(first: seq<R>, rest: seq<R>, chunk: nat)
    requires chunk >= 1 && |first| == chunk && rest != []
    ensures ChunksOf(first + rest, chunk) == [first] + ChunksOf(rest, chunk)
  {
    var rows := first + rest;
    assert rows[..chunk] == first && rows[chunk..] == rest;
  }

  /** Full chunks are chunks of whatever they head. */
  lemma {:induction false} FullChunksFirst<R>(full: seq<seq<R>>, rest: seq<R>, chunk: nat)
    requires chunk >= 1 && rest != [] && forall i :: 0 <= i < |full| ==> |full[i]| == chunk
    ensures ChunksOf(Chained(full) + rest, chunk) == full + ChunksOf(rest, chunk)
  {
    if full == [] {
      assert Chained(full) + rest == rest;
    } else {
      var tail := Chained(full[1..]) + rest;
      FullChunksFirst(full[1..], rest, chunk);
      OneChunkFirst(full[0], tail, chunk);
      Regrouped(full[0], Chained(full[1..]), rest);
      assert Chained(full) + rest == full[0] + tail;
      Regrouped([full[0]], full[1..], ChunksOf(rest, chunk));
      assert [full[0]] + full[1..] == full;
    }
  }

  lemma {:induction false} ChainedAppends<R>(chunks: seq<seq<R>>, more: seq<R>)
    ensures Chained(chunks + [more]) == Chained(chunks) + more
  {
    if chunks == [] {
      assert [more][1..] == [];
    } else {
      assert (chunks + [more])[1..] == chunks[1..] + [more];
      ChainedAppends(chunks[1..], more);
    }
  }

  /** Nothing lost, and what there is of it is every row the database takes. */
  ghost predicate Safe(backend: Backend, chunks: seq<seq<Entry>>) {
    forall i :: 0 <= i < |chunks| ==> !Lost(backend, chunks[i])
  }

  lemma {:induction false} WrittenAre(backend: Backend, chunks: seq<seq<Entry>>)
    ensures Written(backend, chunks).1 <==> !Safe(backend, chunks)
    ensures Safe(backend, chunks) ==> Written(backend, chunks).0 == Filter(Chained(chunks), backend.accepts)
  {
    if chunks == [] {
    } else {
      WrittenAre(backend, chunks[1..]);
      FilterAppends(chunks[0], Chained(chunks[1..]), backend.accepts);
      assert chunks == [chunks[0]] + chunks[1..];
      if !Lost(backend, chunks[0]) {
        assert Safe(backend, chunks) <==> Safe(backend, chunks[1..]);
      }
    }
  }

  /** A lost chunk costs itself and everything behind it, and nothing ahead of it. */
  lemma {:induction false} WrittenUpToLost(backend: Backend, ahead: seq<seq<Entry>>, lost: seq<Entry>,
                                           behind: seq<seq<Entry>>)
    requires Safe(backend, ahead) && Lost(backend, lost)
    ensures Written(backend, ahead + [lost] + behind) == (Filter(Chained(ahead), backend.accepts), true)
  {
    var all := ahead + [lost] + behind;
    if ahead == [] {
      assert all[0] == lost;
    } else {
      assert all[1..] == ahead[1..] + [lost] + behind && all[0] == ahead[0];
      WrittenUpToLost(backend, ahead[1..], lost, behind);
      FilterAppends(ahead[0], Chained(ahead[1..]), backend.accepts);
    }
  }

  /** What a file comes to, and whether a chunk of it was lost. */
  function Imported(backend: Backend, rows: seq<Entry>, chunk: nat): (seq<Entry>, bool)
    requires chunk >= 1
  {
    Written(backend, ChunksOf(rows, chunk))
  }

  /** Unless a chunk is lost, every row the database takes is stored, in the file's order, whatever the chunk. */
  lemma ImportedAre(backend: Backend, rows: seq<Entry>, chunk: nat)
    requires chunk >= 1
    ensures var (stored, lost) := Imported(backend, rows, chunk);
            && (lost <==> exists i :: 0 <= i < |ChunksOf(rows, chunk)| && Lost(backend, ChunksOf(rows, chunk)[i]))
            && (!lost ==> stored == Filter(rows, backend.accepts))
  {
    WrittenAre(backend, ChunksOf(rows, chunk));
    ChainedChunks(rows, chunk);
  }

  lemma {:induction false} JudgedMore<E, R>(data: seq<E>, more: seq<E>, judge: E -> Option<R>)
    ensures Judged(data + more, judge) == Judged(data, judge) + Judged(more, judge)
  {
    if more == [] {
      assert data + more == data;
    } else {
      var init := more[..|more| - 1];
      JudgedMore(data, init, judge);
      assert (data + more)[..|data + more| - 1] == data + init;
    }
  }

  /** The chunks behind us, whole and stored. */
  ghost predicate Stored(backend: Backend, done: seq<seq<Entry>>, chunk: nat) {
    Safe(backend, done) && forall i :: 0 <= i < |done| ==> |done[i]| == chunk
  }

  lemma LostMidway(backend: Backend, done: seq<seq<Entry>>, batch: seq<Entry>, more: seq<Entry>, chunk: nat)
    requires chunk >= 1 && Stored(backend, done, chunk) && Lost(backend, batch)
    requires 0 < |batch| <= chunk && (more != [] ==> |batch| == chunk)
    ensures Imported(backend, Chained(done) + batch + more, chunk) == (Filter(Chained(done), backend.accepts), true)
  {
    assert Chained(done) + batch + more == Chained(done) + (batch + more);
    FullChunksFirst(done, batch + more, chunk);
    if more == [] {
      assert batch + more == batch;
      WrittenUpToLost(backend, done, batch, []);
      assert done + [batch] + [] == done + [batch];
    } else {
      OneChunkFirst(batch, more, chunk);
      WrittenUpToLost(backend, done, batch, ChunksOf(more, chunk));
      assert done + [batch] + ChunksOf(more, chunk) == done + ([batch] + ChunksOf(more, chunk));
    }
  }

  lemma OneMoreStored(backend: Backend, done: seq<seq<Entry>>, batch: seq<Entry>, chunk: nat)
    requires Stored(backend, done, chunk) && !Lost(backend, batch)
    ensures Chained(done + [batch]) == Chained(done) + batch
    ensures Filter(Chained(done + [batch]), backend.accepts)
         == Filter(Chained(done), backend.accepts) + Filter(batch, backend.accepts)
    ensures |batch| == chunk ==> Stored(backend, done + [batch], chunk)
  {
    ChainedAppends(done, batch);
    FilterAppends(Chained(done), batch, backend.accepts);
  }

  lemma AllStored(backend: Backend, done: seq<seq<Entry>>, batch: seq<Entry>, chunk: nat)
    requires chunk >= 1 && Stored(backend, done, chunk) && |batch| <= chunk
    requires batch != [] ==> !Lost(backend, batch)
    ensures Imported(backend, Chained(done) + batch, chunk) == (Filter(Chained(done) + batch, backend.accepts), false)
  {
    if batch == [] {
      ChunksOfWhole(done, chunk);
      assert Chained(done) + batch == Chained(done);
      WrittenAre(backend, done);
    } else {
      FullChunksFirst(done, batch, chunk);
      WrittenAre(backend, done + [batch]);
      ChainedAppends(done, batch);
    }
  }

  lemma ChunksOfWhole(done: seq<seq<Entry>>, chunk: nat)
    requires chunk >= 1 && forall i :: 0 <= i < |done| ==> |done[i]| == chunk
    ensures ChunksOf(Chained(done), chunk) == done
  {
    if done == [] {
    } else {
      var init, last := done[..|done| - 1], done[|done| - 1];
      ChainedAppends(init, last);
      assert done == init + [last];
      FullChunksFirst(init, last, chunk);
    }
  }

  lemma JudgedNext<E, R>(data: seq<E>, i: nat, judge: E -> Option<R>)
    requires i < |data|
    ensures Judged(data[..i + 1], judge)
         == Judged(data[..i], judge) + match judge(data[i]) case None => [] case Some(row) => [row]
  {
    assert data[..i + 1][..i] == data[..i];
  }

  /** Where the import stands: chunks behind it, whole and stored, and a batch being filled. */
  ghost predicate Halfway(backend: Backend, chunk: nat, judged: seq<Entry>, done: seq<seq<Entry>>, batch: seq<Entry>,
                          stored: seq<Entry>) {
    Stored(backend, done, chunk) && judged == Chained(done) + batch && stored == Filter(Chained(done), backend.accepts)
  }

  lemma HalfwayTakes(backend: Backend, chunk: nat, judged: seq<Entry>, done: seq<seq<Entry>>, batch: seq<Entry>,
                     stored: seq<Entry>, more: seq<Entry>)
    requires Halfway(backend, chunk, judged, done, batch, stored)
    ensures Halfway(backend, chunk, judged + more, done, batch + more, stored)
  {
    Regrouped(Chained(done), batch, more);
  }

  /** One more element: no row, a row in the batch, or a full batch in the table. */
  lemma HalfwayJudges<E>(backend: Backend, chunk: nat, data: seq<E>, judge: E -> Option<Entry>, i: nat,
                         done: seq<seq<Entry>>, batch: seq<Entry>, stored: seq<Entry>)
    requires i < |data| && Halfway(backend, chunk, Judged(data[..i], judge), done, batch, stored)
    ensures var judged, row := Judged(data[..i + 1], judge), judge(data[i]);
            && (row.None? ==> Halfway(backend, chunk, judged, done, batch, stored))
            && (row.Some? ==>
                  var full := batch + [row.value];
                  && Halfway(backend, chunk, judged, done, full, stored)
                  && (|full| == chunk && !Lost(backend, full) ==>
                        Halfway(backend, chunk, judged, done + [full], [], stored + Filter(full, backend.accepts))))
  {
    var row := judge(data[i]);
    JudgedNext(data, i, judge);
    if row.Some? {
      var judged, full := Judged(data[..i + 1], judge), batch + [row.value];
      HalfwayTakes(backend, chunk, Judged(data[..i], judge), done, batch, stored, [row.value]);
      if |full| == chunk && !Lost(backend, full) {
        HalfwayFlushes(backend, chunk, judged, done, full, stored);
      }
    }
  }

  lemma HalfwayFlushes(backend: Backend, chunk: nat, judged: seq<Entry>, done: seq<seq<Entry>>, batch: seq<Entry>,
                       stored: seq<Entry>)
    requires Halfway(backend, chunk, judged, done, batch, stored) && !Lost(backend, batch) && |batch| == chunk
    ensures Halfway(backend, chunk, judged, done + [batch], [], stored + Filter(batch, backend.accepts))
  {
    OneMoreStored(backend, done, batch, chunk);
    assert Chained(done + [batch]) + [] == Chained(done + [batch]);
  }

  /** A chunk lost where the import stands is lost of the whole file. */
  lemma HalfwayLost<E>(backend: Backend, chunk: nat, data: seq<E>, judge: E -> Option<Entry>, i: nat,
                       done: seq<seq<Entry>>, batch: seq<Entry>, stored: seq<Entry>)
    requires chunk >= 1 && Lost(backend, batch) && i <= |data|
    requires 0 < |batch| <= chunk && (i < |data| ==> |batch| == chunk)
    requires Halfway(backend, chunk, Judged(data[..i], judge), done, batch, stored)
    ensures Imported(backend, Judged(data, judge), chunk) == (stored, true)
  {
    JudgedMore(data[..i], data[i..], judge);
    assert data[..i] + data[i..] == data;
    LostMidway(backend, done, batch, Judged(data[i..], judge), chunk);
  }

  lemma HalfwayEnds(backend: Backend, chunk: nat, judged: seq<Entry>, done: seq<seq<Entry>>, batch: seq<Entry>,
                    stored: seq<Entry>)
    requires chunk >= 1 && |batch| <= chunk && (batch != [] ==> !Lost(backend, batch))
    requires Halfway(backend, chunk, judged, done, batch, stored)
    ensures Imported(backend, judged, chunk) == (stored + Filter(batch, backend.accepts), false)
  {
    FilterAppends(Chained(done), batch, backend.accepts);
    AllStored(backend, done, batch, chunk);
  }

  class Tests {
    var rows: seq<Entry>

    constructor ()
      ensures rows == []
    {
      rows := [];
    }

    /** writeImportBatch: one statement for the chunk, or row by row when it is refused. */
    method WriteImportBatch(backend: Backend, batch: seq<Entry>) returns (threw: bool, imported: nat, skipped: nat)
      modifies this
      ensures threw <==> Lost(backend, batch)
      ensures threw ==> rows == old(rows)
      ensures !threw ==> rows == old(rows) + Filter(batch, backend.accepts)
      ensures !threw ==> imported == |Filter(batch, backend.accepts)| && imported + skipped == |batch|
    {
      if !backend.disturbed(batch) && forall i :: 0 <= i < |batch| ==> backend.accepts(batch[i]) {
        rows := rows + batch;
        FilterOfAll(batch, backend.accepts);
        return false, |batch|, 0;
      }
      var before := rows;
      imported, skipped := 0, 0;
      for i := 0 to |batch|
        invariant rows == old(rows) + Filter(batch[..i], backend.accepts)
        invariant imported == |Filter(batch[..i], backend.accepts)| && imported + skipped == i
      {
        assert batch[..i + 1] == batch[..i] + [batch[i]];
        FilterAppends(batch[..i], [batch[i]], backend.accepts);
        if backend.accepts(batch[i]) {
          rows := rows + [batch[i]];
          imported := imported + 1;
        } else {
          skipped := skipped + 1;
        }
      }
      assert batch[..|batch|] == batch;
      threw := backend.lost(batch);
      if threw {
        rows := before;
      }
    }

    /** flush: nothing to do without rows. */
    method Flush(backend: Backend, batch: seq<Entry>) returns (threw: bool, imported: nat, skipped: nat)
      modifies this
      ensures threw <==> batch != [] && Lost(backend, batch)
      ensures threw ==> rows == old(rows)
      ensures !threw ==> rows == old(rows) + Filter(batch, backend.accepts)
      ensures !threw ==> imported == |Filter(batch, backend.accepts)| && imported + skipped == |batch|
    {
      if |batch| == 0 { return false, 0, 0; }
      threw, imported, skipped := WriteImportBatch(backend, batch);
    }

    /** A row joins the batch; a full batch is written. */
    method Push(backend: Backend, batch: seq<Entry>, row: Entry, chunk: nat)
      returns (threw: bool, left: seq<Entry>, imported: nat, skipped: nat)
      requires |batch| < chunk
      modifies this
      ensures |batch| + 1 < chunk ==>
                !threw && left == batch + [row] && rows == old(rows) && imported == 0 && skipped == 0
      ensures |batch| + 1 == chunk ==>
                var full := batch + [row];
                && threw == Lost(backend, full) && left == []
                && (threw ==> rows == old(rows))
                && (!threw ==> rows == old(rows) + Filter(full, backend.accepts))
                && (!threw ==> imported == |Filter(full, backend.accepts)| && imported + skipped == chunk)
    {
      left := batch + [row];
      if |left| < chunk { return false, left, 0, 0; }
      threw, imported, skipped := Flush(backend, left);
      left := [];
    }

    /** The loop of importTests, over the elements of a file. */
    method ImportElements(backend: Backend, entries: seq<Value>, judge: Value -> Option<Entry>, chunk: nat)
      returns (threw: bool, imported: nat, skipped: nat)
      requires chunk >= 1
      modifies this
      ensures var (stored, lost) := Imported(backend, Judged(entries, judge), chunk);
              && rows == old(rows) + stored && threw == lost
              && (!threw ==> imported == |stored| && imported + skipped == |entries|)
    {
      threw, imported, skipped := false, 0, 0;
      var batch: seq<Entry> := [];
      var written, refused;
      ghost var done: seq<seq<Entry>>, stored: seq<Entry> := [], [];
      for i := 0 to |entries|
        invariant |batch| < chunk && Halfway(backend, chunk, Judged(entries[..i], judge), done, batch, stored)
        invariant rows == old(rows) + stored && imported == |stored| && imported + skipped + |batch| == i
      {
        HalfwayJudges(backend, chunk, entries, judge, i, done, batch, stored);
        var row := judge(entries[i]);
        if row.None? {
          skipped := skipped + 1;
          continue;
        }
        ghost var full := batch + [row.value];
        threw, batch, written, refused := Push(backend, batch, row.value, chunk);
        if threw {
          HalfwayLost(backend, chunk, entries, judge, i + 1, done, full, stored);
          return;
        }
        imported, skipped := imported + written, skipped + refused;
        if |full| == chunk {
          Regrouped(old(rows), stored, Filter(full, backend.accepts));
          done, stored := done + [full], stored + Filter(full, backend.accepts);
        }
      }
      assert entries[..|entries|] == entries;
      threw, written, refused := Flush(backend, batch);
      if threw {
        HalfwayLost(backend, chunk, entries, judge, |entries|, done, batch, stored);
        return;
      }
      Regrouped(old(rows), stored, Filter(batch, backend.accepts));
      HalfwayEnds(backend, chunk, Judged(entries, judge), done, batch, stored);
      imported, skipped := imported + written, skipped + refused;
    }

    /**
     importTests: a file that is no list is refused; otherwise what passes the
     checks is written chunk by chunk, in the file's order, until a chunk is lost.
     Unless one is, the counts add up to the file, and success is claimed for an
     empty file or when a row came through.
     */
    method ImportTests(env: ImportRows.Env, backend: Backend, now: int, listed: seq<Targets.Target>, data: Value,
                       chunk: nat)
      returns (threw: bool, ok: bool, imported: nat, skipped: nat)
      requires chunk >= 1
      modifies this
      ensures !data.List? ==> !threw && !ok && imported == 0 && skipped == 0 && rows == old(rows)
      ensures data.List? ==>
                var (stored, lost) := Imported(backend, Judged(data.items, JudgeWith(env, now, listed)), chunk);
                && rows == old(rows) + stored && threw == lost
                && (!threw ==> imported == |stored| && imported + skipped == |data.items|
                               && (ok <==> |data.items| == 0 || imported > 0))
    {
      if !data.List? { return false, false, 0, 0; }
      threw, imported, skipped := ImportElements(backend, data.items, JudgeWith(env, now, listed), chunk);
      ok := !threw && (|data.items| == 0 || imported > 0);
    }
  }
}
