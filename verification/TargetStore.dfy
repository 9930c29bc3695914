/** The targets table and its routes: what every request leaves acceptable, named apart and in order. */
module TargetStore {
  import opened Wrappers
  import opened Text
  import opened Sorting
  import opened Targets

  type Table = seq<Target>

  // ----------------------------------------------------------------------- listing

  /** Round order: sortOrder, then id. */
  predicate Ahead(a: Target, b: Target) {
    a.sortOrder < b.sortOrder || (a.sortOrder == b.sortOrder && a.id < b.id)
  }

  function ListAll(table: Table): seq<Target> {
    Sort(table, Ahead)
  }

  ghost predicate DistinctIds(table: Table) {
    forall i, j :: 0 <= i < j < |table| ==> table[i].id != table[j].id
  }

  lemma AheadOrders(table: Table)
    requires DistinctIds(table)
    ensures StrictOrder(Ahead) && Total(table, Ahead) && Sorted(ListAll(table), Ahead)
    ensures forall t :: t in ListAll(table) <==> t in table
  {
    SortSorts(table, Ahead);
    SortIs(table, Ahead);
  }

  // --------------------------------------------------------------------- the routes

  datatype Store = Store(table: Table, nextId: int)

  datatype Response = Ok(id: int) | Refused(problem: Problem) | NameTaken | NoSuchTarget | BadOrder

  predicate IsNameTaken(table: Table, name: string, except: Option<int>) {
    exists i :: 0 <= i < |table| && Some(table[i].id) != except && Trim(table[i].name) == Trim(name)
  }

  function LastOrder(table: Table): int {
    if table == [] then -1
    else
      var rest := LastOrder(table[..|table| - 1]);
      if |table| == 1 || rest < table[|table| - 1].sortOrder then table[|table| - 1].sortOrder else rest
  }

  /** The row create() writes: trimmed, defaulted, its id and place the server's to assign. */
  function NewRow(store: Store, fields: Fields): Target {
    Target(store.nextId, Trim(fields.name.GetOr("")), fields.provider.GetOr(""),
           fields.serverId.GetOr(None), fields.endpoint.GetOr(None), fields.skipsCertificate.GetOr(false),
           fields.enabled.GetOr(true), fields.alerts.GetOr(true),
           fields.optimalPing.GetOr(None), fields.optimalDownload.GetOr(None), fields.optimalUpload.GetOr(None),
           fields.iperfDuration.GetOr(None), fields.iperfStreams.GetOr(None), fields.iperfUdp.GetOr(false),
           fields.iperfBitrate.GetOr(None), fields.baselinePercent.GetOr(None), LastOrder(store.table) + 1)
  }

  /** The body as it is judged: a name or provider it lacks is an unusable one, anything else is unset. */
  function Judged(store: Store, fields: Fields): Target {
    NewRow(store, fields).(name := fields.name.GetOr(""))
  }

  function Created(env: Env, store: Store, fields: Fields): (Store, Response) {
    var problem := TargetProblem(env, Judged(store, fields));
    if problem.Some? then (store, Refused(problem.value))
    else if IsNameTaken(store.table, fields.name.GetOr(""), None) then (store, NameTaken)
    else (Store(store.table + [NewRow(store, fields)], store.nextId + 1), Ok(store.nextId))
  }

  function FindId(table: Table, id: int): Option<nat> {
    if table == [] then None
    else if table[|table| - 1].id == id then Some(|table| - 1)
    else FindId(table[..|table| - 1], id)
  }

  /** The stored row after an accepted patch: the one judged, its name trimmed. */
  function Written(current: Target, fields: Fields): Target {
    var after := Patched(current, fields);
    after.(name := if fields.name.Some? then Trim(after.name) else after.name)
  }

  predicate Renames(current: Target, fields: Fields) {
    fields.name.Some? && Trim(fields.name.value) != current.name
  }

  function PatchedStore(env: Env, store: Store, id: int, fields: Fields): (Store, Response) {
    var at := FindId(store.table, id);
    if at.None? || at.value >= |store.table| then (store, NoSuchTarget)
    else
      var current := store.table[at.value];
      var problem := TargetProblem(env, Patched(current, fields));
      if problem.Some? then (store, Refused(problem.value))
      else if Renames(current, fields) && IsNameTaken(store.table, fields.name.value, Some(id)) then (store, NameTaken)
      else (store.(table := store.table[at.value := Written(current, fields)]), Ok(id))
  }

  function Deleted(store: Store, id: int): (Store, Response) {
    var at := FindId(store.table, id);
    if at.None? || at.value >= |store.table| then (store, NoSuchTarget)
    else (store.(table := store.table[..at.value] + store.table[at.value + 1..]), Ok(id))
  }

  function Ids(table: Table): seq<int> {
    seq(|table|, i requires 0 <= i < |table| => table[i].id)
  }

  /** coversAll, as its three comparisons. */
  predicate CoversAll(table: Table, ids: seq<int>) {
    && |set id | id in ids| == |ids| && |ids| == |table|
    && forall i :: 0 <= i < |table| ==> table[i].id in ids
  }

  function PositionIn(ids: seq<int>, id: int): Option<nat> {
    if ids == [] then None
    else if ids[|ids| - 1] == id then Some(|ids| - 1)
    else PositionIn(ids[..|ids| - 1], id)
  }

  lemma {:induction false} PositionIs(ids: seq<int>, id: int)
    ensures match PositionIn(ids, id)
            case Some(k) => k < |ids| && ids[k] == id
            case None => id !in ids
  {
    if ids == [] {
    } else {
      PositionIs(ids[..|ids| - 1], id);
      assert ids == ids[..|ids| - 1] + [ids[|ids| - 1]];
    }
  }

  /** reorder: each named target takes its place in the list. */
  function Reordered(table: Table, ids: seq<int>): Table {
    seq(|table|, i requires 0 <= i < |table| => table[i].(sortOrder := PositionIn(ids, table[i].id).GetOr(0)))
  }

  function OrderSet(store: Store, ids: seq<int>): (Store, Response) {
    if !CoversAll(store.table, ids) then (store, BadOrder)
    else (store.(table := Reordered(store.table, ids)), Ok(0))
  }

  // ------------------------------------------------------------------------ the invariant

  ghost predicate NamesApart(table: Table) {
    forall i, j :: 0 <= i < j < |table| ==> Trim(table[i].name) != Trim(table[j].name)
  }

  /** Every row the validator accepts, under an id and a name of its own. */
  ghost predicate Sound(env: Env, store: Store) {
    && DistinctIds(store.table) && NamesApart(store.table)
    && (forall i :: 0 <= i < |store.table| ==> Accepted(env, store.table[i]) && store.table[i].id < store.nextId)
  }

  /** What is judged of a row does not depend on where it is stored, nor on space around its name. */
  lemma JudgedAlike(env: Env, a: Target, b: Target)
    requires Trim(a.name) == Trim(b.name) && a.(id := b.id, name := b.name, sortOrder := b.sortOrder) == b
    ensures TargetProblem(env, a) == TargetProblem(env, b)
  {
  }

  lemma CreateKeepsSound(env: Env, store: Store, fields: Fields)
    requires Sound(env, store)
    ensures Sound(env, Created(env, store, fields).0)
  {
    if Created(env, store, fields).1.Ok? {
      var row := NewRow(store, fields);
      TrimTwice(fields.name.GetOr(""));
      JudgedAlike(env, Judged(store, fields), row);
      forall i | 0 <= i < |store.table|
        ensures Trim(store.table[i].name) != Trim(row.name) && store.table[i].id != row.id {
        assert Some(store.table[i].id) != None;
      }
    }
  }

  lemma {:induction false} FindIdFinds(table: Table, id: int)
    ensures match FindId(table, id)
            case Some(i) => i < |table| && table[i].id == id
            case None => forall j :: 0 <= j < |table| ==> table[j].id != id
  {
    if table == [] {
    } else {
      FindIdFinds(table[..|table| - 1], id);
    }
  }

  lemma WrittenIsAccepted(env: Env, current: Target, fields: Fields)
    requires Accepted(env, Patched(current, fields))
    ensures Accepted(env, Written(current, fields)) && Written(current, fields).id == current.id
    ensures Trim(Written(current, fields).name) == Trim(Or(fields.name, current.name))
  {
    TrimTwice(Patched(current, fields).name);
    JudgedAlike(env, Patched(current, fields), Written(current, fields));
  }

  /** The name a patch writes is nobody else's: asked for when it changes, this row's own when it does not. */
  lemma WrittenNameIsFree(store: Store, at: nat, fields: Fields, j: nat)
    requires NamesApart(store.table) && DistinctIds(store.table) && at < |store.table| && j < |store.table| && j != at
    requires !(Renames(store.table[at], fields)
               && IsNameTaken(store.table, fields.name.value, Some(store.table[at].id)))
    ensures Trim(store.table[j].name) != Trim(Or(fields.name, store.table[at].name))
  {
    var current := store.table[at];
    assert store.table[j].id != current.id && Trim(store.table[j].name) != Trim(current.name);
    if fields.name.Some? && Trim(fields.name.value) == current.name {
      TrimTwice(fields.name.value);
    }
  }

  lemma PatchKeepsSound(env: Env, store: Store, id: int, fields: Fields)
    requires Sound(env, store)
    ensures Sound(env, PatchedStore(env, store, id, fields).0)
  {
    FindIdFinds(store.table, id);
    if PatchedStore(env, store, id, fields).1.Ok? {
      var at := FindId(store.table, id).value;
      WrittenIsAccepted(env, store.table[at], fields);
      forall j | 0 <= j < |store.table| && j != at
        ensures Trim(store.table[j].name) != Trim(Written(store.table[at], fields).name)
      {
        WrittenNameIsFree(store, at, fields, j);
      }
    }
  }

  lemma RemovingKeepsApart(table: Table, at: nat)
    requires DistinctIds(table) && NamesApart(table) && at < |table|
    ensures DistinctIds(table[..at] + table[at + 1..]) && NamesApart(table[..at] + table[at + 1..])
  {
    var after := table[..at] + table[at + 1..];
    forall i, j | 0 <= i < j < |after|
      ensures after[i].id != after[j].id && Trim(after[i].name) != Trim(after[j].name) {
      var x, y := if i < at then i else i + 1, if j < at then j else j + 1;
      assert after[i] == table[x] && after[j] == table[y];
    }
  }

  lemma DeleteKeepsSound(env: Env, store: Store, id: int)
    requires Sound(env, store)
    ensures Sound(env, Deleted(store, id).0)
  {
    if Deleted(store, id).1.Ok? {
      var at := FindId(store.table, id).value;
      var after := Deleted(store, id).0.table;
      RemovingKeepsApart(store.table, at);
      forall j | 0 <= j < |after| ensures Accepted(env, after[j]) && after[j].id < store.nextId {
        assert after[j] == store.table[if j < at then j else j + 1];
      }
    }
  }

  lemma ReorderKeepsSound(env: Env, store: Store, ids: seq<int>)
    requires Sound(env, store)
    ensures Sound(env, OrderSet(store, ids).0)
  {
    forall i | 0 <= i < |store.table| ensures Accepted(env, Reordered(store.table, ids)[i]) {
      JudgedAlike(env, store.table[i], Reordered(store.table, ids)[i]);
    }
  }

  datatype Request =
    | Create(fields: Fields)
    | Patch(id: int, fields: Fields)
    | Delete(id: int)
    | SetOrder(ids: seq<int>)

  function Serve(env: Env, store: Store, request: Request): (Store, Response) {
    match request
    case Create(fields) => Created(env, store, fields)
    case Patch(id, fields) => PatchedStore(env, store, id, fields)
    case Delete(id) => Deleted(store, id)
    case SetOrder(ids) => OrderSet(store, ids)
  }

  lemma ServingKeepsSound(env: Env, store: Store, request: Request)
    requires Sound(env, store)
    ensures Sound(env, Serve(env, store, request).0)
  {
    match request
    case Create(fields) => CreateKeepsSound(env, store, fields);
    case Patch(id, fields) => PatchKeepsSound(env, store, id, fields);
    case Delete(id) => DeleteKeepsSound(env, store, id);
    case SetOrder(ids) => ReorderKeepsSound(env, store, ids);
  }
}
