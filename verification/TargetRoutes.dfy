/** The routes of the targets, from the request as it arrives to the table it leaves. */
module TargetRoutes {
  import opened Wrappers
  import opened Text
  import opened Json
  import opened Targets
  import opened TargetStore
  import opened TargetBodies
  import opened TargetEffects

  const MAX_SAFE_INTEGER := 9007199254740991

  /** Digits, and a number the database can be asked about. */
  predicate IsId(text: string) {
    IsDigits(text) && DigitsValue(text) <= MAX_SAFE_INTEGER
  }

  /** The ids of an order body: a list, each of them an id once String() has had it. */
  predicate AreIds(reader: Reader, ids: Option<Value>) {
    && ids.Some? && ids.value.List?
    && forall i :: 0 <= i < |ids.value.items| ==> IsId(reader.toText(ids.value.items[i]))
  }

  function IdsOf(reader: Reader, ids: Option<Value>): seq<int>
    requires AreIds(reader, ids)
  {
    var items := ids.value.items;
    seq(|items|, i requires 0 <= i < |items| => DigitsValue(reader.toText(items[i])))
  }

  datatype Http =
    | HttpPut(body: Entry)
    | HttpPatch(id: string, body: Entry)
    | HttpDelete(id: string)
    | HttpOrder(ids: Option<Value>)

  function Served(reader: Reader, store: Store, http: Http): (Store, Answer) {
    match http
    case HttpPut(body) => PutBody(reader, store, body)
    case HttpPatch(id, body) => if !IsId(id) then (store, BadId) else PatchBody(reader, store, DigitsValue(id), body)
    case HttpDelete(id) =>
      if !IsId(id) then (store, BadId)
      else
        var (after, response) := Deleted(store, DigitsValue(id));
        (after, Plain(response))
    case HttpOrder(ids) =>
      if !AreIds(reader, ids) then (store, BadId)
      else
        var (after, response) := OrderSet(store, IdsOf(reader, ids));
        (after, Plain(response))
  }

  // ------------------------------------------------------------ what a request means

  /** The request in terms of targets, where it can be read as one. */
  function Meant(reader: Reader, http: Http): Option<Request> {
    match http
    case HttpPut(body) =>
      var b := Writable(body);
      if Readable(reader, b, true) then Some(Create(Read(reader, b, true))) else None
    case HttpPatch(id, body) =>
      var b := Writable(body);
      if IsId(id) && Readable(reader, b, false) then Some(Patch(DigitsValue(id), Read(reader, b, false))) else None
    case HttpDelete(id) => if IsId(id) then Some(Delete(DigitsValue(id))) else None
    case HttpOrder(ids) => if AreIds(reader, ids) then Some(SetOrder(IdsOf(reader, ids))) else None
  }

  /** Every request is served as what it means, and one that means nothing changes nothing and is not said to. */
  lemma ServedAsMeant(reader: Reader, store: Store, http: Http)
    ensures match Meant(reader, http)
            case Some(request) =>
              var (after, response) := Serve(reader.env, store, request);
              Served(reader, store, http) == (after, Lift(response))
            case None => Served(reader, store, http).0 == store && !IsOk(Served(reader, store, http).1)
  {
    match http
    case HttpPut(body) => PutMeansItsFields(reader, store, body);
    case HttpPatch(id, body) => if IsId(id) { PatchMeansItsFields(reader, store, DigitsValue(id), body); }
    case _ =>
  }

  /** A column a JSON body carries exactly when it is named, spelt by `spell`. */
  ghost predicate Spells<T>(body: Entry, key: string, named: Option<T>, spell: T -> Value) {
    if named.Some? then key in body && body[key] == spell(named.value) else key !in body
  }

  function TextOrNull(v: Option<string>): Value {
    if v.Some? then Text(v.value) else Null
  }

  function FigureOrNull(v: Option<real>): Value {
    if v.Some? then Number(v.value) else Null
  }

  function WholeOrNull(v: Option<int>): Value {
    if v.Some? then Number(v.value as real) else Null
  }

  ghost predicate SpellsPlace(body: Entry, f: Fields) {
    && Spells(body, "name", f.name, v => Text(v)) && Spells(body, "provider", f.provider, v => Text(v))
    && Spells(body, "serverId", f.serverId, TextOrNull) && Spells(body, "endpoint", f.endpoint, TextOrNull)
    && Spells(body, "ostSkipCertificateVerification", f.skipsCertificate, v => Flag(v))
  }

  ghost predicate SpellsFigures(body: Entry, f: Fields) {
    && Spells(body, "enabled", f.enabled, v => Flag(v)) && Spells(body, "alerts", f.alerts, v => Flag(v))
    && Spells(body, "optimalPing", f.optimalPing, FigureOrNull)
    && Spells(body, "optimalDownload", f.optimalDownload, FigureOrNull)
    && Spells(body, "optimalUpload", f.optimalUpload, FigureOrNull)
    && Spells(body, "baselinePercent", f.baselinePercent, FigureOrNull)
  }

  ghost predicate SpellsTuning(body: Entry, f: Fields) {
    && Spells(body, "iperfDuration", f.iperfDuration, WholeOrNull)
    && Spells(body, "iperfStreams", f.iperfStreams, WholeOrNull)
    && Spells(body, "iperfUdp", f.iperfUdp, v => Flag(v))
    && Spells(body, "iperfBitrate", f.iperfBitrate, WholeOrNull)
  }

  lemma SpelledPlaceIsRead(reader: Reader, body: Entry, f: Fields)
    requires SpellsPlace(body, f)
    ensures ReadablePlace(reader, Writable(body))
    ensures var b := Writable(body);
            && ReadName(b.name).value == f.name && ReadName(b.provider).value == f.provider
            && ReadPin(reader, b.serverId).value == f.serverId && ReadEndpoint(b.endpoint).value == f.endpoint
            && ReadCertificate(b.skipsCertificate).value == f.skipsCertificate
  {
  }

  lemma SpelledFiguresAreRead(body: Entry, f: Fields, nullIsDefault: bool)
    requires SpellsFigures(body, f)
    ensures ReadableFigures(Writable(body), nullIsDefault)
    ensures var b := Writable(body);
            && ReadFlag(b.enabled, nullIsDefault).value == f.enabled
            && ReadFlag(b.alerts, nullIsDefault).value == f.alerts
            && ReadFigure(b.optimalPing).value == f.optimalPing
            && ReadFigure(b.optimalDownload).value == f.optimalDownload
            && ReadFigure(b.optimalUpload).value == f.optimalUpload
            && ReadFigure(b.baselinePercent).value == f.baselinePercent
  {
  }

  lemma SpelledTuningIsRead(body: Entry, f: Fields, nullIsDefault: bool)
    requires SpellsTuning(body, f)
    ensures ReadableTuning(Writable(body), nullIsDefault)
    ensures var b := Writable(body);
            && ReadWhole(b.iperfDuration).value == f.iperfDuration && ReadWhole(b.iperfStreams).value == f.iperfStreams
            && ReadFlag(b.iperfUdp, nullIsDefault).value == f.iperfUdp
            && ReadWhole(b.iperfBitrate).value == f.iperfBitrate
  {
  }

  /** Fields written as JSON under their own keys are read as those fields, whatever else the body carries. */
  lemma SpelledIsRead(reader: Reader, body: Entry, f: Fields, nullIsDefault: bool)
    requires SpellsPlace(body, f) && SpellsFigures(body, f) && SpellsTuning(body, f)
    ensures Readable(reader, Writable(body), nullIsDefault) && Read(reader, Writable(body), nullIsDefault) == f
  {
    SpelledPlaceIsRead(reader, body, f);
    SpelledFiguresAreRead(body, f, nullIsDefault);
    SpelledTuningIsRead(body, f, nullIsDefault);
  }

  /** The decimal digits of a number. */
  function Decimal(n: nat): string {
    if n < 10 then [(n + '0' as int) as char] else Decimal(n / 10) + [(n % 10 + '0' as int) as char]
  }

  lemma {:induction false} DecimalIsRead(n: nat)
    ensures IsDigits(Decimal(n)) && DigitsValue(Decimal(n)) == n
  {
    if n < 10 {
    } else {
      DecimalIsRead(n / 10);
      var front := Decimal(n / 10);
      assert Decimal(n)[..|Decimal(n)| - 1] == front;
    }
  }

  /** Every request a client can spell is understood as the one it spells, of an id a double holds exactly. */
  lemma SpelledIsMeant(reader: Reader, body: Entry, f: Fields, id: nat)
    requires SpellsPlace(body, f) && SpellsFigures(body, f) && SpellsTuning(body, f)
    ensures Meant(reader, HttpPut(body)) == Some(Create(f))
    ensures Meant(reader, HttpPatch(Decimal(id), body)) == if id <= 9007199254740991 then Some(Patch(id, f)) else None
    ensures Meant(reader, HttpDelete(Decimal(id))) == if id <= 9007199254740991 then Some(Delete(id)) else None
  {
    SpelledIsRead(reader, body, f, true);
    SpelledIsRead(reader, body, f, false);
    DecimalIsRead(id);
  }

  /** And so is a list of ids, numbers or texts, each of which String() writes in digits. */
  lemma SpelledOrderIsMeant(reader: Reader, items: seq<Value>, ids: seq<nat>)
    requires |items| == |ids|
    requires forall i :: 0 <= i < |ids| ==> reader.toText(items[i]) == Decimal(ids[i]) && ids[i] <= 9007199254740991
    ensures Meant(reader, HttpOrder(Some(List(items)))) == Some(SetOrder(ids))
  {
    forall i | 0 <= i < |ids|
      ensures IsId(reader.toText(items[i])) && DigitsValue(reader.toText(items[i])) == ids[i]
    {
      DecimalIsRead(ids[i]);
    }
    assert IdsOf(reader, Some(List(items))) == ids;
  }

  /** What a request leaves: the effect of what it means, or nothing at all. */
  ghost predicate LeavesBehind(reader: Reader, before: Store, http: Http, after: Store, answer: Answer) {
    match Meant(reader, http)
    case Some(request) => exists response :: answer == Lift(response)
                                             && Effect(reader.env, before, request, after, response)
    case None => after == before && !IsOk(answer)
  }

  lemma ServedLeaves(reader: Reader, store: Store, http: Http)
    requires DistinctIds(store.table)
    ensures LeavesBehind(reader, store, http, Served(reader, store, http).0, Served(reader, store, http).1)
  {
    ServedAsMeant(reader, store, http);
    if Meant(reader, http).Some? {
      ServedWithEffect(reader.env, store, Meant(reader, http).value);
    }
  }

  function After(reader: Reader, store: Store, requests: seq<Http>): Store {
    if requests == [] then store
    else Served(reader, After(reader, store, requests[..|requests| - 1]), requests[|requests| - 1]).0
  }

  /** Whatever is asked of it, in whatever shape, a sound store stays sound. */
  lemma {:induction false} RequestsKeepSound(reader: Reader, store: Store, requests: seq<Http>)
    requires Sound(reader.env, store)
    ensures Sound(reader.env, After(reader, store, requests))
  {
    if requests == [] {
    } else {
      var before, last := After(reader, store, requests[..|requests| - 1]), requests[|requests| - 1];
      RequestsKeepSound(reader, store, requests[..|requests| - 1]);
      ServedAsMeant(reader, before, last);
      if Meant(reader, last).Some? {
        ServingKeepsSound(reader.env, before, Meant(reader, last).value);
      }
    }
  }

  // --------------------------------------------------------------- the handlers themselves

  lemma {:induction false} PositionGrows(ids: seq<int>, id: int, k: nat)
    requires k < |ids|
    ensures PositionIn(ids[..k + 1], id) == if ids[k] == id then Some(k) else PositionIn(ids[..k], id)
  {
    assert ids[..k + 1][..k] == ids[..k];
  }

  /** The rows while reorder is under way: those of `ids` renumbered, the rest as they were. */
  function Renumbered(table: Table, ids: seq<int>): Table {
    seq(|table|, i requires 0 <= i < |table| =>
      var at := PositionIn(ids, table[i].id);
      if at.Some? then table[i].(sortOrder := at.value) else table[i])
  }

  lemma OneMoreRenumbered(table: Table, ids: seq<int>, k: nat)
    requires k < |ids|
    ensures Renumbered(table, ids[..k + 1])
         == seq(|table|, i requires 0 <= i < |table| =>
              if table[i].id == ids[k] then Renumbered(table, ids[..k])[i].(sortOrder := k)
                else Renumbered(table, ids[..k])[i])
  {
    forall i | 0 <= i < |table|
      ensures Renumbered(table, ids[..k + 1])[i]
           == if table[i].id == ids[k] then Renumbered(table, ids[..k])[i].(sortOrder := k)
             else Renumbered(table, ids[..k])[i]
    {
      PositionGrows(ids, table[i].id, k);
    }
  }

  lemma RenumberedIsReordered(table: Table, ids: seq<int>)
    requires forall i :: 0 <= i < |table| ==> table[i].id in ids
    ensures Renumbered(table, ids) == Reordered(table, ids)
  {
    forall i | 0 <= i < |table| ensures Renumbered(table, ids)[i] == Reordered(table, ids)[i] {
      PositionIs(ids, table[i].id);
    }
  }

  /** The table behind the routes, each request serialised with every other. */
  class Routes {
    var table: Table
    var nextId: int

    constructor ()
      ensures View() == Store([], 1)
    {
      table, nextId := [], 1;
    }

    ghost function View(): Store
      reads this
    {
      Store(table, nextId)
    }

    method HasName(name: string, except: Option<int>) returns (taken: bool)
      ensures taken == IsNameTaken(table, name, except)
    {
      for i := 0 to |table|
        invariant !IsNameTaken(table[..i], name, except)
      {
        if Some(table[i].id) != except && Trim(table[i].name) == Trim(name) { return true; }
      }
      return false;
    }

    /** UPDATE targets SET sortOrder = ... WHERE id = ... */
    method SetSortOrder(id: int, order: int)
      modifies this`table
      ensures table == seq(|old(table)|, i requires 0 <= i < |old(table)| =>
                             if old(table)[i].id == id then old(table)[i].(sortOrder := order) else old(table)[i])
    {
      var rows := table;
      table := seq(|rows|, i requires 0 <= i < |rows| => if rows[i].id == id then rows[i].(sortOrder := order)
                   else rows[i]);
    }

    method Reorder(ids: seq<int>)
      modifies this`table
      ensures table == Renumbered(old(table), ids)
    {
      for k := 0 to |ids|
        invariant table == Renumbered(old(table), ids[..k])
      {
        OneMoreRenumbered(old(table), ids, k);
        SetSortOrder(ids[k], k);
      }
      assert ids[..|ids|] == ids;
    }

    method Put(reader: Reader, body: Entry) returns (answer: Answer)
      modifies this
      ensures (View(), answer) == PutBody(reader, old(View()), body)
    {
      var fields := Writable(body);
      if BadCertificateFlag(fields) { return Complained(CertificateFlag); }
      var problem := LooseProblem(reader, fields);
      if problem.Some? { return Complained(problem.value); }
      var taken := HasName(TextOf(fields.name), None);
      if taken { return Plain(NameTaken); }
      table := table + [CreatedRow(reader, Store(table, nextId), fields)];
      answer := Plain(Ok(nextId));
      nextId := nextId + 1;
    }

    method PatchOne(reader: Reader, id: string, body: Entry) returns (answer: Answer)
      modifies this
      ensures (View(), answer) == Served(reader, old(View()), HttpPatch(id, body))
    {
      if !IsId(id) { return BadId; }
      var at := FindId(table, DigitsValue(id));
      FindIdFinds(table, DigitsValue(id));
      if at.None? { return Plain(NoSuchTarget); }
      var current := table[at.value];
      var named := Writable(body);
      if BadCertificateFlag(named) { return Complained(CertificateFlag); }
      var fields := Over(named, LooseRetired(Raw(current), named));
      var problem := LooseProblem(reader, Over(Raw(current), fields));
      if problem.Some? { return Complained(problem.value); }
      if LooseRenames(current, fields) {
        var taken := HasName(TextOf(fields.name), Some(DigitsValue(id)));
        if taken { return Plain(NameTaken); }
      }
      if NullsAFlag(fields) { return DatabaseRefused; }
      table := table[at.value := UpdatedRow(reader, current, fields)];
      return Plain(Ok(DigitsValue(id)));
    }

    method DeleteOne(reader: Reader, id: string) returns (answer: Answer)
      modifies this
      ensures (View(), answer) == Served(reader, old(View()), HttpDelete(id))
      ensures nextId == old(nextId)
      ensures IsId(id) && DistinctIds(old(table)) ==>
                forall k :: 0 <= k < |old(table)| && old(table)[k].id == DigitsValue(id) ==>
                  table == old(table)[..k] + old(table)[k + 1..] && answer == Plain(Ok(DigitsValue(id)))
      ensures IsId(id) && (forall k :: 0 <= k < |old(table)| ==> old(table)[k].id != DigitsValue(id)) ==>
                table == old(table) && answer == Plain(NoSuchTarget)
      ensures !IsId(id) ==> table == old(table) && answer == BadId
    {
      if !IsId(id) { return BadId; }
      var at := FindId(table, DigitsValue(id));
      FindIdFinds(table, DigitsValue(id));
      if at.None? { return Plain(NoSuchTarget); }
      table := table[..at.value] + table[at.value + 1..];
      return Plain(Ok(DigitsValue(id)));
    }

    method Order(reader: Reader, ids: Option<Value>) returns (answer: Answer)
      modifies this
      ensures (View(), answer) == Served(reader, old(View()), HttpOrder(ids))
    {
      if !AreIds(reader, ids) { return BadId; }
      var numeric := IdsOf(reader, ids);
      if !CoversAll(table, numeric) { return Plain(BadOrder); }
      RenumberedIsReordered(table, numeric);
      Reorder(numeric);
      return Plain(Ok(0));
    }
  }
}
