/** One row of a history backup: what the export writes of it and what the import makes of that. */
module ImportRows {
  import opened Wrappers
  import opened Text
  import opened Json
  import opened Targets
  import opened TargetStore
  import opened TargetOrder
  import Streaks

  /** The date parser and printer, IP literals, and the JSON text of a hop table. */
  datatype Env = Env(parse: string -> Option<int>, iso: int -> string, isAddress: string -> bool,
                     writeHops: Value -> string, readHops: string -> Option<Value>)

  const IMPORT_FUTURE_SKEW_DAYS := 2
  const MS_PER_DAY := 86400000
  const MAX_HOPS := 20
  const MAX_RTT_PER_HOP := 10

  const REQUIRED := {"ping", "download", "upload"}

  const NON_NEGATIVE := {"jitter", "packetLoss", "downloadLatency", "uploadLatency",
                         "bytesDownloaded", "bytesUploaded", "time"}

  const NUMERIC := REQUIRED + NON_NEGATIVE + {"serverId"}

  /** The columns a row is stored in, its id apart. */
  const COLUMNS := NUMERIC + {"serverName", "serverHost", "serverLocation", "provider", "isp", "externalIp", "hops",
                              "error", "type", "resultId", "targetId", "created"}

  // ------------------------------------------------------------------------ the checks

  /** The shape of an ISO instant, digit for digit. */
  predicate LooksIso(s: string) {
    && |s| == 24 && s[4] == '-' && s[7] == '-' && s[10] == 'T' && s[13] == ':' && s[16] == ':' && s[19] == '.'
    && s[23] == 'Z'
    && IsDigits(s[0..4]) && IsDigits(s[5..7]) && IsDigits(s[8..10]) && IsDigits(s[11..13]) && IsDigits(s[14..16])
    && IsDigits(s[17..19]) && IsDigits(s[20..23])
  }

  /** An instant that exists, spelled as it is printed, and not from the future. */
  predicate CreatedOk(env: Env, now: int, created: Option<Value>) {
    && created.Some? && created.value.Text? && LooksIso(created.value.text)
    && var instant := env.parse(created.value.text);
       && instant.Some? && env.iso(instant.value) == created.value.text
       && instant.value - now <= IMPORT_FUTURE_SKEW_DAYS * MS_PER_DAY
  }

  predicate TypeOk(kind: Option<Value>) {
    kind in {Some(Text("custom")), Some(Text("auto"))}
  }

  predicate Importable(v: Option<Value>) {
    v.None? || v.value.Null? || v.value.Number?
  }

  predicate Measured(v: Option<Value>) {
    v.Some? && v.value.Number?
  }

  predicate Placeholder(v: Option<Value>) {
    v == Some(Number(Streaks.FAILED_TEST))
  }

  predicate Negative(v: Option<Value>) {
    v.Some? && v.value.Number? && v.value.value < 0.0
  }

  /** isFailedTest, on a row whose measurements are numbers. */
  predicate IsFailed(row: Entry) {
    Truthy(At(row, "error")) || forall c :: c in REQUIRED ==> Placeholder(At(row, c))
  }

  /** impossibleMeasurement: below zero, and no failed run. */
  predicate Impossible(row: Entry) {
    !IsFailed(row) && exists c :: c in REQUIRED && Negative(At(row, c))
  }

  predicate IsHop(hop: Value) {
    && hop.Object?
    && IsInteger(At(hop.fields, "hop")) && hop.fields["hop"].value > 0.0
    && (At(hop.fields, "address") == Some(Null) || (At(hop.fields, "address").Some? && hop.fields["address"].Text?))
    && At(hop.fields, "rtt").Some? && hop.fields["rtt"].List? && |hop.fields["rtt"].items| <= MAX_RTT_PER_HOP
    && (forall rtt :: rtt in hop.fields["rtt"].items ==> rtt.Number? && rtt.value >= 0.0)
    && IsInteger(At(hop.fields, "lost")) && hop.fields["lost"].value >= 0.0
  }

  /** isHopTable: hops a reader can draw, numbered once each. */
  predicate IsHopTable(v: Value) {
    && v.List? && |v.items| <= MAX_HOPS
    && (forall i :: 0 <= i < |v.items| ==> IsHop(v.items[i]))
    && forall i, j :: 0 <= i < j < |v.items| ==> At(v.items[i].fields, "hop") != At(v.items[j].fields, "hop")
  }

  /** Every check of importTests, in its order. */
  predicate Passes(env: Env, now: int, entry: Entry) {
    && TypeOk(At(entry, "type"))
    && CreatedOk(env, now, At(entry, "created"))
    && (forall c :: c in NUMERIC ==> Importable(At(entry, c)))
    && (forall c :: c in REQUIRED ==> Measured(At(entry, c)))
    && !Impossible(entry)
  }

  // --------------------------------------------------------------------- the rewriting

  /** storableIsp: non-blank text, trimmed. */
  function StorableIsp(v: Option<Value>): Value {
    if v.Some? && v.value.Text? && Trim(v.value.text) != "" then Text(Trim(v.value.text)) else Null
  }

  /** storableAddress: an IP literal, trimmed. */
  function StorableAddress(env: Env, v: Option<Value>): Value {
    if v.Some? && v.value.Text? && env.isAddress(Trim(v.value.text)) then Text(Trim(v.value.text)) else Null
  }

  /** Where a row goes: its target's name, resolved against the targets there are. */
  function Placed(listed: seq<Target>, name: Option<Value>): Value {
    match ImportedTargetId(listed, if name.Some? && name.value.Text? then Some(name.value.text) else None)
    case Some(id) => Number(id as real)
    case None => Null
  }

  function WithoutNull(entry: Entry, key: string): Entry {
    if At(entry, key) == Some(Null) then entry - {key} else entry
  }

  /** The hop table as text, or no hops at all. */
  function HopsAsText(env: Env, row: Entry): Entry {
    var hops := At(row, "hops");
    if hops.Some? && IsHopTable(hops.value) then row["hops" := Text(env.writeHops(hops.value))] else row - {"hops"}
  }

  /** A negative figure is an unmeasured one. */
  function Unmeasured(row: Entry): Entry {
    map c | c in row :: if c in NON_NEGATIVE && Negative(Some(row[c])) then Null else row[c]
  }

  /** The entry without what the import drops, its hops and figures as the table takes them. */
  function Figured(env: Env, entry: Entry): Entry {
    var cleared := WithoutNull(WithoutNull(entry, "error"), "resultId");
    Unmeasured(HopsAsText(env, cleared - {"id", "targetId", "targetName"}))
  }

  /** The row importTests writes for an entry that passes. */
  function Rewritten(env: Env, listed: seq<Target>, entry: Entry): Entry {
    var row := Figured(env, entry);
    row["isp" := StorableIsp(At(row, "isp"))]
       ["externalIp" := StorableAddress(env, At(row, "externalIp"))]
       ["targetId" := Placed(listed, At(entry, "targetName"))]
  }

  /** One element of the file: no object, no row. */
  function Judge(env: Env, now: int, listed: seq<Target>, element: Value): Option<Entry> {
    if element.Object? && Passes(env, now, element.fields)
    then Some(Rewritten(env, listed, element.fields)) else None
  }

  /** What a column holds when a write does not name it. */
  function Default(column: string): Value {
    if column in {"serverId", "time"} then Number(0.0) else if column == "type" then Text("auto") else Null
  }

  /** The row as the table keeps it. */
  function Stored(row: Entry): Entry {
    map c | c in COLUMNS :: At(row, c).GetOr(Default(c))
  }

  // ---------------------------------------------------------------------- the export

  /** The name listed last under an id, as targetIndex keeps it. */
  function ExportedName(listed: seq<Target>, targetId: Value): Value {
    if listed == [] then Null
    else
      var last := listed[|listed| - 1];
      if targetId == Number(last.id as real) then Text(last.name)
      else ExportedName(listed[..|listed| - 1], targetId)
  }

  /** presentHops: the table the column holds, or no key at all. */
  function PresentHops(env: Env, row: Entry): Entry {
    var hops := At(row, "hops");
    var table := if hops.Some? && hops.value.Text? then env.readHops(hops.value.text) else None;
    if table.Some? && IsHopTable(table.value) then row["hops" := table.value] else row - {"hops"}
  }

  /** A stored row as listPages hands it out. */
  function Exported(env: Env, listed: seq<Target>, id: int, stored: Entry): Entry {
    var row := WithoutNull(WithoutNull(stored["id" := Number(id as real)], "error"), "resultId");
    PresentHops(env, row)["targetName" := ExportedName(listed, At(stored, "targetId").GetOr(Null))]
  }

  // ------------------------------------------------------------------- what comes back

  /** The target listed at i, the first of its name, is the row's. */
  ghost predicate HomeAt(listed: seq<Target>, targetId: Value, i: int) {
    0 <= i < |listed| && targetId == Number(listed[i].id as real) && FirstAt(listed, listed[i].name, i)
  }

  /** No target, or a live one that answers to its own name. */
  ghost predicate Home(listed: seq<Target>, targetId: Value) {
    targetId.Null? || exists i :: HomeAt(listed, targetId, i)
  }

  /** No hops, or the text of a table that can be drawn. */
  predicate HopsOk(env: Env, hops: Value) {
    || hops.Null?
    || (hops.Text? && env.readHops(hops.text).Some? && IsHopTable(env.readHops(hops.text).value)
        && env.writeHops(env.readHops(hops.text).value) == hops.text)
  }

  predicate IspOk(isp: Value) {
    isp.Null? || (isp.Text? && isp.text != "" && Trim(isp.text) == isp.text)
  }

  predicate AddressOk(env: Env, ip: Value) {
    ip.Null? || (ip.Text? && env.isAddress(ip.text) && Trim(ip.text) == ip.text)
  }

  /** A stored row as a run could have written it, on a target of this instance or on none. */
  ghost predicate Sound(env: Env, now: int, listed: seq<Target>, stored: Entry) {
    && stored.Keys == COLUMNS
    && Passes(env, now, stored)
    && (forall c :: c in NON_NEGATIVE ==> !Negative(At(stored, c)))
    && HopsOk(env, stored["hops"]) && IspOk(stored["isp"]) && AddressOk(env, stored["externalIp"])
    && Home(listed, stored["targetId"])
  }

  // ----------------------------------------------------- what the rewriting does to a column

  lemma WithoutNullAt(entry: Entry, key: string, c: string)
    ensures At(WithoutNull(entry, key), c) == if c == key && At(entry, c) == Some(Null) then None else At(entry, c)
  {
  }

  lemma UnmeasuredAt(row: Entry, c: string)
    ensures At(Unmeasured(row), c) == if c in NON_NEGATIVE && Negative(At(row, c)) then Some(Null) else At(row, c)
  {
  }

  function TextHops(env: Env, hops: Option<Value>): Option<Value> {
    if hops.Some? && IsHopTable(hops.value) then Some(Text(env.writeHops(hops.value))) else None
  }

  lemma HopsAsTextAt(env: Env, row: Entry, c: string)
    ensures At(HopsAsText(env, row), c) == if c == "hops" then TextHops(env, At(row, c)) else At(row, c)
  {
  }

  predicate NeitherMarkNorPlace(c: string) {
    c !in {"id", "targetId", "targetName"}
  }

  function AsWritten(env: Env, c: string, v: Option<Value>): Option<Value> {
    if c == "hops" then TextHops(env, v)
    else if c in {"error", "resultId"} then if v == Some(Null) then None else v
    else if c in NON_NEGATIVE && Negative(v) then Some(Null)
    else v
  }

  lemma MarksAreNoFigures()
    ensures "hops" !in NON_NEGATIVE && "error" !in NON_NEGATIVE && "resultId" !in NON_NEGATIVE
  {
  }

  lemma FiguredAt(env: Env, entry: Entry, c: string)
    requires NeitherMarkNorPlace(c)
    ensures At(Figured(env, entry), c) == AsWritten(env, c, At(entry, c))
  {
    var errorless := WithoutNull(entry, "error");
    var cleared := WithoutNull(errorless, "resultId");
    var left := cleared - {"id", "targetId", "targetName"};
    WithoutNullAt(entry, "error", c);
    WithoutNullAt(errorless, "resultId", c);
    assert At(left, c) == At(cleared, c);
    HopsAsTextAt(env, left, c);
    UnmeasuredAt(HopsAsText(env, left), c);
    MarksAreNoFigures();
  }

  /** Column by column, what a passing entry is written as. */
  function Column(env: Env, listed: seq<Target>, entry: Entry, c: string): Option<Value> {
    if c == "isp" then Some(StorableIsp(At(entry, c)))
    else if c == "externalIp" then Some(StorableAddress(env, At(entry, c)))
    else if c == "targetId" then Some(Placed(listed, At(entry, "targetName")))
    else AsWritten(env, c, At(entry, c))
  }

  lemma PlainColumns(env: Env, v: Option<Value>)
    ensures AsWritten(env, "isp", v) == v && AsWritten(env, "externalIp", v) == v
  {
  }

  lemma RewrittenAt(env: Env, listed: seq<Target>, entry: Entry, c: string)
    requires c !in {"id", "targetName"}
    ensures At(Rewritten(env, listed, entry), c) == Column(env, listed, entry, c)
  {
    FiguredAt(env, entry, "isp");
    FiguredAt(env, entry, "externalIp");
    PlainColumns(env, At(entry, "isp"));
    PlainColumns(env, At(entry, "externalIp"));
    if c != "targetId" {
      FiguredAt(env, entry, c);
    }
  }

  // --------------------------------------------------------------- and to what the export wrote

  function Presented(env: Env, hops: Option<Value>): Option<Value> {
    var table := if hops.Some? && hops.value.Text? then env.readHops(hops.value.text) else None;
    if table.Some? && IsHopTable(table.value) then table else None
  }

  lemma PresentHopsAt(env: Env, row: Entry, c: string)
    ensures At(PresentHops(env, row), c) == if c == "hops" then Presented(env, At(row, c)) else At(row, c)
  {
  }

  function AsExported(env: Env, c: string, v: Option<Value>): Option<Value> {
    if c == "hops" then Presented(env, v)
    else if c in {"error", "resultId"} then if v == Some(Null) then None else v
    else v
  }

  lemma ExportedAt(env: Env, listed: seq<Target>, id: int, stored: Entry, c: string)
    requires c !in {"id", "targetName"}
    ensures At(Exported(env, listed, id, stored), c) == AsExported(env, c, At(stored, c))
  {
    var marked := stored["id" := Number(id as real)];
    var errorless := WithoutNull(marked, "error");
    WithoutNullAt(marked, "error", c);
    WithoutNullAt(errorless, "resultId", c);
    PresentHopsAt(env, WithoutNull(errorless, "resultId"), c);
  }

  lemma ExportedNameIs(env: Env, listed: seq<Target>, id: int, stored: Entry)
    ensures At(Exported(env, listed, id, stored), "targetName")
         == Some(ExportedName(listed, At(stored, "targetId").GetOr(Null)))
  {
  }

  /** What the checks look at: the same columns, and as much of a message. */
  ghost predicate LookAlike(a: Entry, b: Entry) {
    && (forall c :: c in NUMERIC ==> At(a, c) == At(b, c))
    && At(a, "type") == At(b, "type") && At(a, "created") == At(b, "created")
    && (Truthy(At(a, "error")) <==> Truthy(At(b, "error")))
  }

  lemma RequiredAreNumeric()
    ensures REQUIRED <= NUMERIC
  {
  }

  lemma LookAlikesPassAlike(env: Env, now: int, a: Entry, b: Entry)
    requires LookAlike(a, b)
    ensures Passes(env, now, a) <==> Passes(env, now, b)
  {
    RequiredAreNumeric();
    assert forall c :: c in REQUIRED ==> At(a, c) == At(b, c);
  }

  lemma ExportLooksAlike(env: Env, listed: seq<Target>, id: int, stored: Entry)
    ensures LookAlike(Exported(env, listed, id, stored), stored)
  {
    forall c | c in NUMERIC ensures At(Exported(env, listed, id, stored), c) == At(stored, c) {
      NumericIsExportedAsIs(env, c, At(stored, c));
      ExportedAt(env, listed, id, stored, c);
    }
    ExportedAt(env, listed, id, stored, "type");
    ExportedAt(env, listed, id, stored, "created");
    ExportedAt(env, listed, id, stored, "error");
  }

  lemma NumericIsExportedAsIs(env: Env, c: string, v: Option<Value>)
    requires c in NUMERIC
    ensures c !in {"id", "targetName"} && AsExported(env, c, v) == v
  {
  }

  // ------------------------------------------------------------------------ the target

  lemma {:induction false} ExportedNameOf(listed: seq<Target>, targetId: Value, k: nat)
    requires DistinctIds(listed) && k < |listed| && targetId == Number(listed[k].id as real)
    ensures ExportedName(listed, targetId) == Text(listed[k].name)
  {
    var last := |listed| - 1;
    if k < last {
      assert listed[k].id != listed[last].id;
      ExportedNameOf(listed[..last], targetId, k);
    }
  }

  lemma {:induction false} NobodysName(listed: seq<Target>, targetId: Value)
    requires forall k :: 0 <= k < |listed| ==> targetId != Number(listed[k].id as real)
    ensures ExportedName(listed, targetId) == Null
  {
    if listed == [] {
    } else {
      NobodysName(listed[..|listed| - 1], targetId);
    }
  }

  /** A row's target comes back exactly when it has none, or a live one that answers to its own name. */
  lemma TargetComesBackIff(listed: seq<Target>, targetId: Value)
    requires DistinctIds(listed)
    ensures Placed(listed, Some(ExportedName(listed, targetId))) == targetId <==> Home(listed, targetId)
  {
    if k :| 0 <= k < |listed| && targetId == Number(listed[k].id as real) {
      ExportedNameOf(listed, targetId, k);
      FirstNamedIs(listed, listed[k].name);
      var i :| FirstAt(listed, listed[k].name, i)
               && Some(listed[i].id) == FirstNamed(listed, listed[k].name);
      assert Placed(listed, Some(ExportedName(listed, targetId))) == Number(listed[i].id as real);
      if i == k {
        assert HomeAt(listed, targetId, k);
      } else {
        assert listed[i].id != listed[k].id;
        assert forall j :: HomeAt(listed, targetId, j) ==> listed[j].id == listed[k].id;
      }
    } else {
      NobodysName(listed, targetId);
    }
  }

  // -------------------------------------------------------------------- there and back

  /** A stored row's column after an export and an import that takes it. */
  function BackAt(env: Env, listed: seq<Target>, id: int, stored: Entry, c: string): Value {
    Column(env, listed, Exported(env, listed, id, stored), c).GetOr(Default(c))
  }

  /** What a column must be to come back as it is. */
  ghost predicate ColumnOk(env: Env, listed: seq<Target>, c: string, v: Value) {
    if c == "isp" then IspOk(v)
    else if c == "externalIp" then AddressOk(env, v)
    else if c == "targetId" then Home(listed, v)
    else if c == "hops" then HopsOk(env, v)
    else c in NON_NEGATIVE ==> !Negative(Some(v))
  }

  lemma IspComesBackIff(v: Value)
    ensures StorableIsp(Some(v)) == v <==> IspOk(v)
  {
    if v.Text? {
      TrimTwice(v.text);
    }
  }

  lemma AddressComesBackIff(env: Env, v: Value)
    ensures StorableAddress(env, Some(v)) == v <==> AddressOk(env, v)
  {
    if v.Text? {
      TrimTwice(v.text);
    }
  }

  lemma HopsComeBackIff(env: Env, v: Value)
    ensures TextHops(env, Presented(env, Some(v))).GetOr(Null) == v <==> HopsOk(env, v)
  {
  }

  lemma OtherColumnBack(env: Env, c: string, v: Value)
    requires c !in {"isp", "externalIp", "targetId", "hops"}
    ensures AsWritten(env, c, AsExported(env, c, Some(v))).GetOr(Default(c)) == v
            <==> (c in NON_NEGATIVE ==> !Negative(Some(v)))
  {
    MarksAreNoFigures();
  }

  lemma ColumnComesBackIff(env: Env, listed: seq<Target>, id: int, stored: Entry, c: string)
    requires DistinctIds(listed) && c in stored && c !in {"id", "targetName"}
    ensures BackAt(env, listed, id, stored, c) == stored[c] <==> ColumnOk(env, listed, c, stored[c])
  {
    ExportedAt(env, listed, id, stored, c);
    assert At(stored, c) == Some(stored[c]);
    if c == "isp" {
      IspComesBackIff(stored[c]);
    } else if c == "externalIp" {
      AddressComesBackIff(env, stored[c]);
    } else if c == "targetId" {
      ExportedNameIs(env, listed, id, stored);
      TargetComesBackIff(listed, stored[c]);
    } else if c == "hops" {
      HopsComeBackIff(env, stored[c]);
    } else {
      OtherColumnBack(env, c, stored[c]);
    }
  }

  lemma ColumnsAre()
    ensures "id" !in COLUMNS && "targetName" !in COLUMNS && NON_NEGATIVE <= COLUMNS && NUMERIC <= COLUMNS
    ensures {"isp", "externalIp", "targetId", "hops", "error", "type", "created"} <= COLUMNS
    ensures NON_NEGATIVE !! {"isp", "externalIp", "targetId", "hops"}
  {
  }

  lemma StoredAre(row: Entry)
    ensures Stored(row).Keys == COLUMNS
    ensures forall c :: c in Stored(row) ==> Stored(row)[c] == At(row, c).GetOr(Default(c))
  {
  }

  ghost predicate ColumnsOk(env: Env, listed: seq<Target>, stored: Entry) {
    forall c :: c in stored ==> ColumnOk(env, listed, c, stored[c])
  }

  /** The row is back as it was exactly when each of its columns is. */
  lemma RowComesBackIff(env: Env, listed: seq<Target>, id: int, stored: Entry, back: Entry)
    requires DistinctIds(listed) && "id" !in stored && "targetName" !in stored && back.Keys == stored.Keys
    requires var row := Rewritten(env, listed, Exported(env, listed, id, stored));
             forall c :: c in back ==> back[c] == At(row, c).GetOr(Default(c))
    ensures back == stored <==> ColumnsOk(env, listed, stored)
  {
    forall c | c in stored ensures back[c] == stored[c] <==> ColumnOk(env, listed, c, stored[c]) {
      RewrittenAt(env, listed, Exported(env, listed, id, stored), c);
      ColumnComesBackIff(env, listed, id, stored, c);
    }
  }

  lemma SoundIsEveryColumnOk(env: Env, now: int, listed: seq<Target>, stored: Entry)
    requires stored.Keys == COLUMNS
    ensures Sound(env, now, listed, stored) <==> Passes(env, now, stored) && ColumnsOk(env, listed, stored)
  {
    ColumnsAre();
    SoundColumns(env, listed, stored);
  }

  lemma SoundColumns(env: Env, listed: seq<Target>, stored: Entry)
    requires NON_NEGATIVE <= stored.Keys && {"isp", "externalIp", "targetId", "hops"} <= stored.Keys
    requires NON_NEGATIVE !! {"isp", "externalIp", "targetId", "hops"}
    ensures ColumnsOk(env, listed, stored)
            <==> && (forall c :: c in NON_NEGATIVE ==> !Negative(At(stored, c)))
                 && HopsOk(env, stored["hops"]) && IspOk(stored["isp"]) && AddressOk(env, stored["externalIp"])
                 && Home(listed, stored["targetId"])
  {
    if ColumnsOk(env, listed, stored) {
      assert ColumnOk(env, listed, "isp", stored["isp"]) && ColumnOk(env, listed, "externalIp", stored["externalIp"]);
      assert ColumnOk(env, listed, "targetId", stored["targetId"]) && ColumnOk(env, listed, "hops", stored["hops"]);
      forall c | c in NON_NEGATIVE ensures !Negative(At(stored, c)) {
        assert ColumnOk(env, listed, c, stored[c]);
      }
    }
  }

  lemma ThereAndBack(env: Env, now: int, listed: seq<Target>, id: int, stored: Entry, back: Entry)
    requires DistinctIds(listed) && "id" !in stored && "targetName" !in stored && back.Keys == stored.Keys
    requires var row := Rewritten(env, listed, Exported(env, listed, id, stored));
             forall c :: c in back ==> back[c] == At(row, c).GetOr(Default(c))
    ensures Passes(env, now, Exported(env, listed, id, stored)) && back == stored
            <==> Passes(env, now, stored) && ColumnsOk(env, listed, stored)
  {
    ExportLooksAlike(env, listed, id, stored);
    LookAlikesPassAlike(env, now, Exported(env, listed, id, stored), stored);
    RowComesBackIff(env, listed, id, stored, back);
  }

  lemma JudgeIs(env: Env, now: int, listed: seq<Target>, entry: Entry)
    ensures Judge(env, now, listed, Object(entry))
         == if Passes(env, now, entry) then Some(Rewritten(env, listed, entry)) else None
  {
  }

  /**
   A row of the history, exported and imported again, is the row it was, its id
   apart - exactly when it is one a run could have written, on no target or on
   a live one that answers to its own name.
   */
  lemma ExportImportIff(env: Env, now: int, listed: seq<Target>, id: int, stored: Entry)
    requires DistinctIds(listed) && stored.Keys == COLUMNS
    ensures var back := Judge(env, now, listed, Object(Exported(env, listed, id, stored)));
            (back.Some? && Stored(back.value) == stored) <==> Sound(env, now, listed, stored)
  {
    var row := Rewritten(env, listed, Exported(env, listed, id, stored));
    ColumnsAre();
    StoredAre(row);
    ThereAndBack(env, now, listed, id, stored, Stored(row));
    SoundIsEveryColumnOk(env, now, listed, stored);
    JudgeIs(env, now, listed, Exported(env, listed, id, stored));
  }

  // --------------------------------------------------------------- what an import stores

  /** The entry's own hop table, if it has one, is read back from the text it is written as. */
  ghost predicate HopsReadBack(env: Env, entry: Entry) {
    var hops := At(entry, "hops");
    hops.Some? && IsHopTable(hops.value) ==> env.readHops(env.writeHops(hops.value)) == Some(hops.value)
  }

  lemma ImportedColumnOk(env: Env, listed: seq<Target>, entry: Entry, c: string)
    requires HopsReadBack(env, entry) && DistinctIds(listed)
    ensures ColumnOk(env, listed, c, Column(env, listed, entry, c).GetOr(Default(c)))
  {
    var v := At(entry, c);
    if c == "isp" || c == "externalIp" {
      if v.Some? && v.value.Text? {
        TrimTwice(v.value.text);
      }
    } else if c == "targetId" {
      PlacedIsHome(listed, At(entry, "targetName"));
    }
  }

  lemma PlacedIsHome(listed: seq<Target>, name: Option<Value>)
    requires DistinctIds(listed)
    ensures Home(listed, Placed(listed, name))
  {
    if name.Some? && name.value.Text? {
      FirstNamedIs(listed, name.value.text);
      if FirstNamed(listed, name.value.text).Some? {
        var i :| FirstAt(listed, name.value.text, i) && Some(listed[i].id) == FirstNamed(listed, name.value.text);
        assert HomeAt(listed, Number(listed[i].id as real), i);
      }
    }
  }

  /** What of an entry decides whether its row passes again. */
  lemma PassesAgain(env: Env, now: int, entry: Entry, stored: Entry)
    requires Passes(env, now, entry)
    requires At(stored, "type") == At(entry, "type") && At(stored, "created") == At(entry, "created")
    requires Truthy(At(stored, "error")) <==> Truthy(At(entry, "error"))
    requires forall c :: c in REQUIRED ==> At(stored, c) == At(entry, c)
    requires forall c :: c in NUMERIC ==> Importable(At(stored, c))
    ensures Passes(env, now, stored)
  {
  }

  lemma NumericStays(env: Env, c: string, v: Option<Value>)
    requires c in NUMERIC && Importable(v)
    ensures Importable(Some(AsWritten(env, c, v).GetOr(Default(c))))
    ensures c in REQUIRED && v.Some? ==> AsWritten(env, c, v) == v
    ensures c !in {"isp", "externalIp", "targetId", "id", "targetName"}
  {
  }

  lemma MarksStay(env: Env, kind: Option<Value>, created: Option<Value>, error: Option<Value>)
    ensures AsWritten(env, "type", kind) == kind && AsWritten(env, "created", created) == created
    ensures Truthy(Some(AsWritten(env, "error", error).GetOr(Default("error")))) <==> Truthy(error)
  {
  }

  lemma StoredAt(env: Env, listed: seq<Target>, entry: Entry, c: string)
    requires c in COLUMNS && c !in {"isp", "externalIp", "targetId", "id", "targetName"}
    ensures At(Stored(Rewritten(env, listed, entry)), c) == Some(AsWritten(env, c, At(entry, c)).GetOr(Default(c)))
  {
    RewrittenAt(env, listed, entry, c);
    StoredAre(Rewritten(env, listed, entry));
  }

  lemma RewrittenPasses(env: Env, now: int, listed: seq<Target>, entry: Entry)
    requires Passes(env, now, entry)
    ensures Passes(env, now, Stored(Rewritten(env, listed, entry)))
  {
    var stored := Stored(Rewritten(env, listed, entry));
    ColumnsAre();
    forall c | c in NUMERIC
      ensures Importable(At(stored, c)) && (c in REQUIRED ==> At(stored, c) == At(entry, c))
    {
      NumericStays(env, c, At(entry, c));
      StoredAt(env, listed, entry, c);
    }
    StoredAt(env, listed, entry, "type");
    StoredAt(env, listed, entry, "created");
    StoredAt(env, listed, entry, "error");
    MarksStay(env, At(entry, "type"), At(entry, "created"), At(entry, "error"));
    PassesAgain(env, now, entry, stored);
  }

  lemma ImportedColumnsOk(env: Env, listed: seq<Target>, entry: Entry, stored: Entry)
    requires HopsReadBack(env, entry) && DistinctIds(listed) && "id" !in stored && "targetName" !in stored
    requires forall c :: c in stored ==> stored[c] == At(Rewritten(env, listed, entry), c).GetOr(Default(c))
    ensures ColumnsOk(env, listed, stored)
  {
    forall c | c in stored ensures ColumnOk(env, listed, c, stored[c]) {
      RewrittenAt(env, listed, entry, c);
      ImportedColumnOk(env, listed, entry, c);
    }
  }

  /**
   Every row an import stores is one a run could have written, on a live target that
   answers to its name or on none.
   */
  lemma ImportedIsSound(env: Env, now: int, listed: seq<Target>, element: Value)
    requires DistinctIds(listed) && Judge(env, now, listed, element).Some? && HopsReadBack(env, element.fields)
    ensures Sound(env, now, listed, Stored(Judge(env, now, listed, element).value))
  {
    var row := Rewritten(env, listed, element.fields);
    RewrittenPasses(env, now, listed, element.fields);
    ColumnsAre();
    StoredAre(row);
    ImportedColumnsOk(env, listed, element.fields, Stored(row));
    SoundIsEveryColumnOk(env, now, listed, Stored(row));
  }

  /** So what came of a file once comes of its own export again. */
  lemma ImportingSettles(env: Env, now: int, listed: seq<Target>, element: Value, id: int)
    requires DistinctIds(listed) && Judge(env, now, listed, element).Some? && HopsReadBack(env, element.fields)
    ensures var stored := Stored(Judge(env, now, listed, element).value);
            var again := Judge(env, now, listed, Object(Exported(env, listed, id, stored)));
            again.Some? && Stored(again.value) == stored
  {
    ImportedIsSound(env, now, listed, element);
    ExportImportIff(env, now, listed, id, Stored(Judge(env, now, listed, element).value));
  }
}
