/**
 What each request of the targets does to the table, told of the rows before and
 after it and of nothing the routes are built from.
 */
module TargetEffects {
  import opened Wrappers
  import opened Text
  import opened Sorting
  import opened Targets
  import opened TargetStore
  import TargetOrder

  // ------------------------------------------------------------------ a row that may stand

  ghost predicate ReachableAt(env: Env, endpoint: string) {
    && env.parse(endpoint).Some?
    && (env.parse(endpoint).value.protocol == "http:" || env.parse(endpoint).value.protocol == "https:")
    && env.safeHost(env.parse(endpoint).value.host)
  }

  ghost predicate PlaceFits(env: Env, t: Target) {
    && (t.serverId.Some? ==>
          (t.provider == "ookla" || t.provider == "libre") && t.serverId.value != ""
          && forall i :: 0 <= i < |t.serverId.value| ==> '0' <= t.serverId.value[i] <= '9')
    && ((t.provider == "ookla" || t.provider == "cloudflare") ==> t.endpoint.None?)
    && (t.provider == "libre" && t.endpoint.Some? ==> ReachableAt(env, t.endpoint.value))
    && (t.provider == "iperf3" ==> t.endpoint.Some? && env.iperfHost(t.endpoint.value))
    && (t.provider == "openspeedtest" ==>
          t.endpoint.Some? && env.plainOstUrl(Trim(t.endpoint.value)) && ReachableAt(env, Trim(t.endpoint.value)))
    && (t.skipsCertificate ==>
          t.provider == "openspeedtest" && env.parse(Trim(t.endpoint.value)).value.protocol == "https:")
  }

  ghost predicate TuningFits(t: Target) {
    && (t.provider != "iperf3" ==>
          t.iperfDuration.None? && t.iperfStreams.None? && t.iperfBitrate.None? && !t.iperfUdp)
    && (t.iperfDuration.Some? ==> 5 <= t.iperfDuration.value <= 60)
    && (t.iperfStreams.Some? ==> 1 <= t.iperfStreams.value <= if t.iperfUdp then 1 else 32)
    && (t.iperfBitrate.Some? ==> 1 <= t.iperfBitrate.value <= 10000)
    && (t.iperfUdp <==> t.iperfBitrate.Some?)
  }

  /** A row a round can measure: a name of 64 characters at most, a provider there is, and figures in their ranges. */
  ghost predicate Fit(env: Env, t: Target) {
    && 1 <= |Trim(t.name)| <= 64
    && (t.provider == "ookla" || t.provider == "libre" || t.provider == "cloudflare" || t.provider == "iperf3"
        || t.provider == "openspeedtest")
    && PlaceFits(env, t) && TuningFits(t)
    && (t.optimalPing.Some? ==> t.optimalPing.value > 0.0)
    && (t.optimalDownload.Some? ==> t.optimalDownload.value > 0.0)
    && (t.optimalUpload.Some? ==> t.optimalUpload.value > 0.0)
    && (t.baselinePercent.Some? ==> 10.0 <= t.baselinePercent.value <= 95.0)
  }

  lemma TuningFitsIff(t: Target)
    ensures TuningProblem(t).None? <==> TuningFits(t)
  {
  }

  lemma PlaceFitsIff(env: Env, t: Target)
    requires Known(t.provider)
    ensures ServerIdProblem(t.provider, t.serverId).None? && EndpointProblem(env, t.provider, t.endpoint).None?
            && CertificateProblem(env, t).None?
            <==> PlaceFits(env, t)
  {
  }

  /** The validator takes exactly the rows that fit. */
  lemma AcceptedIff(env: Env, t: Target)
    ensures Accepted(env, t) <==> Fit(env, t)
  {
    TuningFitsIff(t);
    if Known(t.provider) { PlaceFitsIff(env, t); }
  }

  lemma FitAlike(env: Env, a: Target, b: Target)
    requires Trim(a.name) == Trim(b.name) && a.(id := b.id, name := b.name, sortOrder := b.sortOrder) == b
    ensures Fit(env, a) <==> Fit(env, b)
  {
  }

  // ------------------------------------------------------------------------------- deleting

  /** The row of that id is gone and every other one stands, in the order it stood in; without one, nothing moves. */
  ghost predicate Deletes(before: Store, id: int, after: Store, answer: Response) {
    && after.nextId == before.nextId
    && (forall k :: 0 <= k < |before.table| && before.table[k].id == id ==>
          after.table == before.table[..k] + before.table[k + 1..] && answer == Ok(id))
    && ((forall k :: 0 <= k < |before.table| ==> before.table[k].id != id) ==>
          after.table == before.table && answer == NoSuchTarget)
  }

  lemma DeletedIs(store: Store, id: int)
    requires DistinctIds(store.table)
    ensures Deletes(store, id, Deleted(store, id).0, Deleted(store, id).1)
  {
    FindIdFinds(store.table, id);
  }

  /** Nothing left has the id, nothing else is lost, and the table is one row shorter exactly when it was there. */
  lemma DeletesOnlyThat(before: Store, id: int, after: Store, answer: Response)
    requires DistinctIds(before.table) && Deletes(before, id, after, answer)
    ensures forall t :: t in after.table <==> t in before.table && t.id != id
    ensures answer == Ok(id) || answer == NoSuchTarget
    ensures answer == Ok(id) <==> |after.table| == |before.table| - 1
    ensures answer == NoSuchTarget <==> after == before
  {
    if exists k :: 0 <= k < |before.table| && before.table[k].id == id {
      var k :| 0 <= k < |before.table| && before.table[k].id == id;
      assert before.table == before.table[..k] + [before.table[k]] + before.table[k + 1..];
      assert forall t :: t in before.table[..k] || t in before.table[k + 1..] ==> t.id != id;
    }
  }

  // ------------------------------------------------------------------------------- creating

  /** A column holds what the request names for it, and what it falls back to when it names nothing. */
  predicate Holds<T(==)>(named: Option<T>, otherwise: T, stored: T) {
    if named.Some? then stored == named.value else stored == otherwise
  }

  predicate WornBy(table: Table, name: string, i: nat) {
    i < |table| && Trim(table[i].name) == Trim(name)
  }

  /** One place behind every stored row. */
  ghost predicate ComesLast(table: Table, sortOrder: int) {
    && (forall i :: 0 <= i < |table| ==> table[i].sortOrder < sortOrder)
    && (table == [] ==> sortOrder == 0)
    && (table != [] ==> exists i :: 0 <= i < |table| && sortOrder == table[i].sortOrder + 1)
  }

  /** The row a create is for: enabled and alerting unless it says otherwise, every other column it leaves out unset. */
  ghost predicate RowFor(before: Store, fields: Fields, row: Target) {
    && row.id == before.nextId && ComesLast(before.table, row.sortOrder)
    && fields.name.Some? && row.name == Trim(fields.name.value) && fields.provider == Some(row.provider)
    && Holds(fields.serverId, None, row.serverId) && Holds(fields.endpoint, None, row.endpoint)
    && Holds(fields.skipsCertificate, false, row.skipsCertificate)
    && Holds(fields.enabled, true, row.enabled) && Holds(fields.alerts, true, row.alerts)
    && Holds(fields.optimalPing, None, row.optimalPing) && Holds(fields.optimalDownload, None, row.optimalDownload)
    && Holds(fields.optimalUpload, None, row.optimalUpload)
    && Holds(fields.iperfDuration, None, row.iperfDuration) && Holds(fields.iperfStreams, None, row.iperfStreams)
    && Holds(fields.iperfUdp, false, row.iperfUdp) && Holds(fields.iperfBitrate, None, row.iperfBitrate)
    && Holds(fields.baselinePercent, None, row.baselinePercent)
  }

  /** A fitting row of a free name is added behind all the others; anything else is refused and changes nothing. */
  ghost predicate Creates(env: Env, before: Store, fields: Fields, after: Store, answer: Response) {
    && (answer.Ok? ==>
          && |after.table| == |before.table| + 1 && after.table == before.table + [after.table[|before.table|]]
          && RowFor(before, fields, after.table[|before.table|]) && Fit(env, after.table[|before.table|])
          && answer == Ok(before.nextId) && after.nextId == before.nextId + 1
          && forall i :: 0 <= i < |before.table| ==> !WornBy(before.table, fields.name.value, i))
    && (!answer.Ok? ==> after == before && (answer.Refused? || answer == NameTaken))
    && (answer.Refused? ==> forall row :: RowFor(before, fields, row) ==> !Fit(env, row))
    && (answer == NameTaken ==> fields.name.Some? && exists i: nat :: WornBy(before.table, fields.name.value, i))
  }

  lemma {:induction false} LastOrderIs(table: Table)
    ensures ComesLast(table, LastOrder(table) + 1)
  {
    if table == [] {
    } else {
      var init := table[..|table| - 1];
      LastOrderIs(init);
      assert table == init + [table[|table| - 1]];
      assert forall i :: 0 <= i < |init| ==> table[i] == init[i];
      assert table[|table| - 1].sortOrder == LastOrder(table)
             || exists i :: 0 <= i < |init| && LastOrder(table) == init[i].sortOrder;
    }
  }

  lemma NewRowIs(store: Store, fields: Fields)
    requires fields.name.Some? && fields.provider.Some?
    ensures RowFor(store, fields, NewRow(store, fields))
  {
    LastOrderIs(store.table);
  }

  /** There is one such row but for its place. */
  lemma RowForIsJudged(env: Env, store: Store, fields: Fields, row: Target)
    requires RowFor(store, fields, row)
    ensures Fit(env, row) <==> Accepted(env, Judged(store, fields))
  {
    TrimTwice(fields.name.value);
    AcceptedIff(env, Judged(store, fields));
    FitAlike(env, row, Judged(store, fields));
  }

  lemma CreatedIs(env: Env, store: Store, fields: Fields)
    ensures Creates(env, store, fields, Created(env, store, fields).0, Created(env, store, fields).1)
  {
    var (after, answer) := Created(env, store, fields);
    if answer.Refused? {
      forall row | RowFor(store, fields, row) ensures !Fit(env, row) {
        RowForIsJudged(env, store, fields, row);
      }
    } else {
      AcceptedIff(env, Judged(store, fields));
      assert fields.name.Some? && fields.provider.Some?;
      if answer.Ok? {
        NewRowIs(store, fields);
        RowForIsJudged(env, store, fields, NewRow(store, fields));
        forall i | 0 <= i < |store.table| ensures !WornBy(store.table, fields.name.value, i) {
          assert Some(store.table[i].id) != None;
        }
      } else {
        var i :| 0 <= i < |store.table| && Some(store.table[i].id) != None
                 && Trim(store.table[i].name) == Trim(fields.name.value);
        assert WornBy(store.table, fields.name.value, i);
      }
    }
  }

  /** What is created is listed behind everything that was. */
  lemma CreatedIsListedLast(env: Env, before: Store, fields: Fields, after: Store, answer: Response)
    requires Sound(env, before) && Creates(env, before, fields, after, answer) && answer.Ok?
    ensures ListAll(after.table) == ListAll(before.table) + [after.table[|before.table|]]
  {
    var row := after.table[|before.table|];
    assert after.table == before.table + [row];
    AheadOrders(before.table);
    AheadOrders(after.table);
    assert forall t :: t in before.table ==> Ahead(t, row);
    OneSortedList(ListAll(after.table), ListAll(before.table) + [row], Ahead);
  }

  // ------------------------------------------------------------------------------- patching

  predicate SameAddress(a: Option<string>, b: Option<string>) {
    a.Some? && b.Some? && Trim(a.value) == Trim(b.value)
  }

  /** Where it is measured: an address or a server id the new provider has no use for goes, unless it was named. */
  ghost predicate PlaceBecomes(current: Target, fields: Fields, row: Target) {
    && Holds(fields.endpoint,
             if row.provider == "libre" || row.provider == "iperf3" || row.provider == "openspeedtest"
             then current.endpoint else None, row.endpoint)
    && Holds(fields.serverId, if row.provider == "ookla" || row.provider == "libre" then current.serverId else None,
             row.serverId)
    && Holds(fields.skipsCertificate,
             && current.skipsCertificate && row.provider == current.provider
             && (fields.endpoint.Some? ==> SameAddress(fields.endpoint.value, current.endpoint)),
             row.skipsCertificate)
  }

  /** How it is measured: leaving iperf3 takes the tuning along, and switching UDP off its bitrate, unless named. */
  ghost predicate TuningBecomes(current: Target, fields: Fields, row: Target) {
    var leaves := current.provider == "iperf3" && row.provider != "iperf3";
    && Holds(fields.iperfDuration, if leaves then None else current.iperfDuration, row.iperfDuration)
    && Holds(fields.iperfStreams, if leaves then None else current.iperfStreams, row.iperfStreams)
    && Holds(fields.iperfUdp, !leaves && current.iperfUdp, row.iperfUdp)
    && Holds(fields.iperfBitrate,
             if leaves || (fields.iperfUdp == Some(false) && current.iperfUdp) then None else current.iperfBitrate,
             row.iperfBitrate)
  }

  /** The row a patch makes of the stored one: its id and place stay, and so does what it neither names nor retires. */
  ghost predicate Becomes(current: Target, fields: Fields, row: Target) {
    && row.id == current.id && row.sortOrder == current.sortOrder
    && row.name == (if fields.name.Some? then Trim(fields.name.value) else current.name)
    && Holds(fields.provider, current.provider, row.provider)
    && Holds(fields.enabled, current.enabled, row.enabled) && Holds(fields.alerts, current.alerts, row.alerts)
    && Holds(fields.optimalPing, current.optimalPing, row.optimalPing)
    && Holds(fields.optimalDownload, current.optimalDownload, row.optimalDownload)
    && Holds(fields.optimalUpload, current.optimalUpload, row.optimalUpload)
    && Holds(fields.baselinePercent, current.baselinePercent, row.baselinePercent)
    && PlaceBecomes(current, fields, row) && TuningBecomes(current, fields, row)
  }

  /** The patch asks for a name its row does not have, and another row does. */
  ghost predicate TakesAName(table: Table, k: nat, fields: Fields) {
    && k < |table| && fields.name.Some? && Trim(fields.name.value) != table[k].name
    && exists i: nat :: i != k && WornBy(table, fields.name.value, i)
  }

  /** Only the row named changes, and only when what it becomes fits and takes no other row's name. */
  ghost predicate Patches(env: Env, before: Store, id: int, fields: Fields, after: Store, answer: Response) {
    && after.nextId == before.nextId
    && (!answer.Ok? ==> after == before)
    && ((forall k :: 0 <= k < |before.table| ==> before.table[k].id != id) ==> answer == NoSuchTarget)
    && forall k :: 0 <= k < |before.table| && before.table[k].id == id ==>
         PatchesAt(env, before.table, k, fields, after.table, answer)
  }

  ghost predicate PatchesAt(env: Env, before: Table, k: nat, fields: Fields, after: Table, answer: Response)
    requires k < |before|
  {
    && (answer == Ok(before[k].id) || answer.Refused? || answer == NameTaken)
    && (answer.Ok? ==>
          && |after| == |before| && after == before[k := after[k]]
          && Becomes(before[k], fields, after[k]) && Fit(env, after[k]) && !TakesAName(before, k, fields))
    && (answer.Refused? ==> forall row :: Becomes(before[k], fields, row) ==> !Fit(env, row))
    && (answer == NameTaken ==> TakesAName(before, k, fields))
  }

  lemma WrittenIs(current: Target, fields: Fields)
    ensures Becomes(current, fields, Written(current, fields))
  {
  }

  lemma BecomesOneRow(current: Target, fields: Fields, a: Target, b: Target)
    requires Becomes(current, fields, a) && Becomes(current, fields, b)
    ensures a == b
  {
  }

  lemma BecomesIsJudged(env: Env, current: Target, fields: Fields, row: Target)
    requires Becomes(current, fields, row)
    ensures Fit(env, row) <==> Accepted(env, Patched(current, fields))
  {
    WrittenIs(current, fields);
    BecomesOneRow(current, fields, row, Written(current, fields));
    TrimTwice(Patched(current, fields).name);
    AcceptedIff(env, Patched(current, fields));
    FitAlike(env, row, Patched(current, fields));
  }

  lemma TakesANameIff(table: Table, k: nat, fields: Fields)
    requires DistinctIds(table) && k < |table|
    ensures TakesAName(table, k, fields)
            <==> Renames(table[k], fields) && IsNameTaken(table, fields.name.value, Some(table[k].id))
  {
    if TakesAName(table, k, fields) {
      var i: nat :| i != k && WornBy(table, fields.name.value, i);
      assert Some(table[i].id) != Some(table[k].id);
    }
    if Renames(table[k], fields) && IsNameTaken(table, fields.name.value, Some(table[k].id)) {
      var i :| 0 <= i < |table| && Some(table[i].id) != Some(table[k].id)
               && Trim(table[i].name) == Trim(fields.name.value);
      assert WornBy(table, fields.name.value, i);
    }
  }

  lemma PatchedIs(env: Env, store: Store, id: int, fields: Fields)
    requires DistinctIds(store.table)
    ensures Patches(env, store, id, fields, PatchedStore(env, store, id, fields).0,
                    PatchedStore(env, store, id, fields).1)
  {
    FindIdFinds(store.table, id);
    if FindId(store.table, id).Some? {
      var k := FindId(store.table, id).value;
      TakesANameIff(store.table, k, fields);
      PatchedAt(env, store, id, fields, k);
    }
  }

  lemma PatchedAt(env: Env, store: Store, id: int, fields: Fields, k: nat)
    requires FindId(store.table, id) == Some(k) && k < |store.table| && store.table[k].id == id
    requires TakesAName(store.table, k, fields)
             <==> Renames(store.table[k], fields) && IsNameTaken(store.table, fields.name.value, Some(id))
    ensures PatchesAt(env, store.table, k, fields, PatchedStore(env, store, id, fields).0.table,
                      PatchedStore(env, store, id, fields).1)
  {
    var current := store.table[k];
    WrittenIs(current, fields);
    BecomesIsJudged(env, current, fields, Written(current, fields));
    if !Accepted(env, Patched(current, fields)) {
      forall row | Becomes(current, fields, row) ensures !Fit(env, row) {
        BecomesIsJudged(env, current, fields, row);
      }
    }
  }

  // ------------------------------------------------------------------------------- ordering

  /** Every row keeps its columns and takes its id's place in the list; a list that is not the ids changes nothing. */
  ghost predicate Orders(before: Store, ids: seq<int>, after: Store, answer: Response) {
    && after.nextId == before.nextId && |after.table| == |before.table|
    && (multiset(ids) != multiset(Ids(before.table)) ==> after == before && answer == BadOrder)
    && (multiset(ids) == multiset(Ids(before.table)) ==>
          && answer == Ok(0)
          && forall i :: 0 <= i < |before.table| ==>
               && after.table[i] == before.table[i].(sortOrder := after.table[i].sortOrder)
               && 0 <= after.table[i].sortOrder < |ids| && ids[after.table[i].sortOrder] == before.table[i].id)
  }

  lemma OrderedIs(store: Store, ids: seq<int>)
    requires DistinctIds(store.table)
    ensures Orders(store, ids, OrderSet(store, ids).0, OrderSet(store, ids).1)
  {
    TargetOrder.CoversAllIffPermutation(store.table, ids);
    if CoversAll(store.table, ids) {
      forall i | 0 <= i < |store.table|
        ensures PositionIn(ids, store.table[i].id).Some?
        ensures PositionIn(ids, store.table[i].id).value < |ids|
        ensures ids[PositionIn(ids, store.table[i].id).value] == store.table[i].id
      {
        PositionIs(ids, store.table[i].id);
      }
    }
  }

  // ----------------------------------------------------------------------------- all of them

  ghost predicate Effect(env: Env, before: Store, request: Request, after: Store, answer: Response) {
    match request
    case Create(fields) => Creates(env, before, fields, after, answer)
    case Patch(id, fields) => Patches(env, before, id, fields, after, answer)
    case Delete(id) => Deletes(before, id, after, answer)
    case SetOrder(ids) => Orders(before, ids, after, answer)
  }

  lemma ServedWithEffect(env: Env, store: Store, request: Request)
    requires DistinctIds(store.table)
    ensures Effect(env, store, request, Serve(env, store, request).0, Serve(env, store, request).1)
  {
    match request
    case Create(fields) => CreatedIs(env, store, fields);
    case Patch(id, fields) => PatchedIs(env, store, id, fields);
    case Delete(id) => DeletedIs(store, id);
    case SetOrder(ids) => OrderedIs(store, ids);
  }
}
