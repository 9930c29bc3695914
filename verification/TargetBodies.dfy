/** Request bodies as they arrive, of whatever JSON type: what the routes make of each field. */
module TargetBodies {
  import opened Wrappers
  import opened Text
  import opened Json
  import opened Targets
  import opened TargetStore

  /** The world a body is judged in, and what String() makes of a value. */
  datatype Reader = Reader(env: Env, toText: Value -> string)

  /** The writable fields, each as it is named or not at all; and a stored row, read raw. */
  datatype Loose = Loose(
    name: Option<Value>, provider: Option<Value>, serverId: Option<Value>, endpoint: Option<Value>,
    skipsCertificate: Option<Value>, enabled: Option<Value>, alerts: Option<Value>,
    optimalPing: Option<Value>, optimalDownload: Option<Value>, optimalUpload: Option<Value>,
    iperfDuration: Option<Value>, iperfStreams: Option<Value>, iperfUdp: Option<Value>, iperfBitrate: Option<Value>,
    baselinePercent: Option<Value>)

  const NAMELESS := Loose(None, None, None, None, None, None, None, None, None, None, None, None, None, None, None)

  /** writableFields: what a body names of the fields a write may set, and nothing else. */
  function Writable(body: Entry): Loose {
    Loose(At(body, "name"), At(body, "provider"), At(body, "serverId"), At(body, "endpoint"),
          At(body, "ostSkipCertificateVerification"), At(body, "enabled"), At(body, "alerts"),
          At(body, "optimalPing"), At(body, "optimalDownload"), At(body, "optimalUpload"),
          At(body, "iperfDuration"), At(body, "iperfStreams"), At(body, "iperfUdp"), At(body, "iperfBitrate"),
          At(body, "baselinePercent"))
  }

  // ------------------------------------------------------------------- the judgements

  datatype Complaint = About(problem: Problem) | CertificateFlag | EndpointNotText | EnabledFlag | AlertsFlag | UdpFlag

  predicate Nullish(v: Option<Value>) {
    v.None? || v.value.Null?
  }

  predicate FlagValue(v: Value) {
    v.Flag? || v == Number(0.0) || v == Number(1.0)
  }

  predicate BadFlag(v: Option<Value>) {
    !Nullish(v) && !FlagValue(v.value)
  }

  function TextOf(v: Option<Value>): string {
    if v.Some? && v.value.Text? then v.value.text else ""
  }

  function ServerIdComplaint(reader: Reader, provider: string, serverId: Option<Value>): Option<Complaint> {
    if Nullish(serverId) then None
    else if !TakesServerId(provider) then Some(About(NoServersToPin))
    else if !(serverId.value.Text? || serverId.value.Number?) || !IsDigits(PinText(reader, serverId.value))
    then Some(About(ServerIdNotDigits))
    else None
  }

  /** The text a pinned server is stored as, a number's included. */
  function PinText(reader: Reader, v: Value): string {
    if v.Text? then v.text else reader.toText(v)
  }

  function EndpointComplaint(env: Env, provider: string, endpoint: Option<Value>): Option<Complaint> {
    if Nullish(endpoint) then if RequiresEndpoint(provider) then Some(About(NeedsEndpoint)) else None
    else if !TakesEndpoint(provider) then Some(About(TakesNoEndpoint))
    else if !endpoint.value.Text? then Some(EndpointNotText)
    else if !EndpointOk(env, provider, endpoint.value.text) then Some(About(BadEndpoint))
    else None
  }

  predicate HttpsEndpoint(env: Env, endpoint: Option<Value>) {
    && endpoint.Some? && endpoint.value.Text? && env.parse(Trim(endpoint.value.text)).Some?
    && env.parse(Trim(endpoint.value.text)).value.protocol == "https:"
  }

  function CertificateComplaint(env: Env, row: Loose): Option<Complaint> {
    if row.skipsCertificate.None? then None
    else if !FlagValue(row.skipsCertificate.value) then Some(CertificateFlag)
    else if !Truthy(row.skipsCertificate) then None
    else if TextOf(row.provider) != "openspeedtest" || !HttpsEndpoint(env, row.endpoint)
    then Some(About(CertificateNotSkippable))
    else None
  }

  predicate BadOptimal(v: Option<Value>) {
    !Nullish(v) && !(v.value.Number? && v.value.value > 0.0)
  }

  predicate WholeWithin(v: Option<Value>, low: int, high: int) {
    Nullish(v) || (IsInteger(v) && low as real <= v.value.value <= high as real)
  }

  function TuningComplaint(row: Loose): Option<Complaint> {
    var udp := Truthy(row.iperfUdp);
    if BadFlag(row.iperfUdp) then Some(UdpFlag)
    else if Nullish(row.iperfDuration) && Nullish(row.iperfStreams) && Nullish(row.iperfBitrate) && !udp then None
    else if TextOf(row.provider) != "iperf3" then Some(About(TakesNoTuning))
    else if !WholeWithin(row.iperfDuration, IPERF_MIN_DURATION_SECONDS, IPERF_MAX_DURATION_SECONDS)
         || !WholeWithin(row.iperfStreams, IPERF_MIN_STREAMS, IPERF_MAX_STREAMS)
         || !WholeWithin(row.iperfBitrate, IPERF_MIN_BITRATE_MBPS, IPERF_MAX_BITRATE_MBPS)
    then Some(About(TuningOutOfRange))
    else if udp && Nullish(row.iperfBitrate) then Some(About(UdpNeedsBitrate))
    else if !udp && !Nullish(row.iperfBitrate) then Some(About(BitrateNeedsUdp))
    else if udp && IsInteger(row.iperfStreams) && row.iperfStreams.value.value != IPERF_UDP_STREAMS as real
    then Some(About(UdpStreams))
    else None
  }

  predicate BadBaseline(v: Option<Value>) {
    !Nullish(v) && !(v.value.Number? && BASELINE_PERCENT_MIN <= v.value.value <= BASELINE_PERCENT_MAX)
  }

  function Behind(first: Option<Complaint>, next: Option<Complaint>): Option<Complaint> {
    if first.Some? then first else next
  }

  function FlagsAndFigures(env: Env, row: Loose): Option<Complaint> {
    Behind(CertificateComplaint(env, row),
           if BadFlag(row.enabled) then Some(EnabledFlag)
           else if BadFlag(row.alerts) then Some(AlertsFlag)
           else if BadOptimal(row.optimalPing) || BadOptimal(row.optimalDownload) || BadOptimal(row.optimalUpload)
           then Some(About(OptimalNotPositive))
           else Behind(TuningComplaint(row),
                       if BadBaseline(row.baselinePercent) then Some(About(BaselineOutOfRange)) else None))
  }

  /** targetProblem, over a row of any values. */
  function LooseProblem(reader: Reader, row: Loose): Option<Complaint> {
    var name, provider := Trim(TextOf(row.name)), TextOf(row.provider);
    if name == "" then Some(About(NeedsName))
    else if |name| > TARGET_NAME_LIMIT then Some(About(NameTooLong))
    else if !Known(provider) then Some(About(UnknownProvider))
    else Behind(ServerIdComplaint(reader, provider, row.serverId),
                Behind(EndpointComplaint(reader.env, provider, row.endpoint), FlagsAndFigures(reader.env, row)))
  }

  /** certificateFlagProblem: named, it must be a boolean. */
  predicate BadCertificateFlag(fields: Loose) {
    fields.skipsCertificate.Some? && !fields.skipsCertificate.value.Flag?
  }

  // ------------------------------------------------------------ a body that can be read

  /** A field read as a T: Some(None) when it is not named, None when it is something else. */
  type Reading<T> = Option<Option<T>>

  function ReadName(v: Option<Value>): Reading<string> {
    match v case None => Some(None) case Some(Text(text)) => Some(Some(text)) case Some(_) => None
  }

  function ReadPin(reader: Reader, v: Option<Value>): Reading<Option<string>> {
    match v
    case None => Some(None)
    case Some(Null) => Some(Some(None))
    case Some(Text(text)) => Some(Some(Some(text)))
    case Some(Number(value)) => Some(Some(Some(reader.toText(Number(value)))))
    case Some(_) => None
  }

  function ReadEndpoint(v: Option<Value>): Reading<Option<string>> {
    match v
    case None => Some(None)
    case Some(Null) => Some(Some(None))
    case Some(Text(text)) => Some(Some(Some(text)))
    case Some(_) => None
  }

  function ReadCertificate(v: Option<Value>): Reading<bool> {
    match v case None => Some(None) case Some(Flag(on)) => Some(Some(on)) case Some(_) => None
  }

  /** A flag; null names the default where there is one to fall back to. */
  function ReadFlag(v: Option<Value>, nullIsDefault: bool): Reading<bool> {
    if v.None? then Some(None)
    else if v.value.Null? then if nullIsDefault then Some(None) else None
    else if FlagValue(v.value) then Some(Some(Truthy(v)))
    else None
  }

  function ReadFigure(v: Option<Value>): Reading<Option<real>> {
    match v
    case None => Some(None)
    case Some(Null) => Some(Some(None))
    case Some(Number(value)) => Some(Some(Some(value)))
    case Some(_) => None
  }

  function ReadWhole(v: Option<Value>): Reading<Option<int>> {
    if v.None? then Some(None)
    else if v.value.Null? then Some(Some(None))
    else if IsInteger(v) then Some(Some(Some(v.value.value.Floor)))
    else None
  }

  predicate ReadablePlace(reader: Reader, b: Loose) {
    && ReadName(b.name).Some? && ReadName(b.provider).Some?
    && ReadPin(reader, b.serverId).Some? && ReadEndpoint(b.endpoint).Some? && ReadCertificate(b.skipsCertificate).Some?
  }

  predicate ReadableFigures(b: Loose, nullIsDefault: bool) {
    && ReadFlag(b.enabled, nullIsDefault).Some? && ReadFlag(b.alerts, nullIsDefault).Some?
    && ReadFigure(b.optimalPing).Some? && ReadFigure(b.optimalDownload).Some? && ReadFigure(b.optimalUpload).Some?
    && ReadFigure(b.baselinePercent).Some?
  }

  predicate ReadableTuning(b: Loose, nullIsDefault: bool) {
    && ReadFlag(b.iperfUdp, nullIsDefault).Some?
    && ReadWhole(b.iperfDuration).Some? && ReadWhole(b.iperfStreams).Some? && ReadWhole(b.iperfBitrate).Some?
  }

  /** Every field a body names is one of its kind. */
  predicate Readable(reader: Reader, b: Loose, nullIsDefault: bool) {
    ReadablePlace(reader, b) && ReadableFigures(b, nullIsDefault) && ReadableTuning(b, nullIsDefault)
  }

  function Read(reader: Reader, b: Loose, nullIsDefault: bool): Fields
    requires Readable(reader, b, nullIsDefault)
  {
    Fields(ReadName(b.name).value, ReadName(b.provider).value, ReadPin(reader, b.serverId).value,
           ReadEndpoint(b.endpoint).value, ReadCertificate(b.skipsCertificate).value,
           ReadFlag(b.enabled, nullIsDefault).value, ReadFlag(b.alerts, nullIsDefault).value,
           ReadFigure(b.optimalPing).value, ReadFigure(b.optimalDownload).value, ReadFigure(b.optimalUpload).value,
           ReadWhole(b.iperfDuration).value, ReadWhole(b.iperfStreams).value, ReadFlag(b.iperfUdp, nullIsDefault).value,
           ReadWhole(b.iperfBitrate).value, ReadFigure(b.baselinePercent).value)
  }

  // --------------------------------------------------------------- what is stored of it

  datatype Answer = Plain(response: Response) | Complained(complaint: Complaint) | BadId | DatabaseRefused

  function PinOf(reader: Reader, v: Option<Value>): Option<string> {
    if Nullish(v) then None else Some(PinText(reader, v.value))
  }

  function OptionalText(v: Option<Value>): Option<string> {
    if v.Some? && v.value.Text? then Some(v.value.text) else None
  }

  function Figure(v: Option<Value>): Option<real> {
    if v.Some? && v.value.Number? then Some(v.value.value) else None
  }

  function Whole(v: Option<Value>): Option<int> {
    if v.Some? && v.value.Number? then Some(v.value.value.Floor) else None
  }

  function FlagOr(v: Option<Value>, default: bool): bool {
    if Nullish(v) then default else Truthy(v)
  }

  /** The row create() writes. */
  function CreatedRow(reader: Reader, store: Store, b: Loose): Target {
    Target(store.nextId, Trim(TextOf(b.name)), TextOf(b.provider), PinOf(reader, b.serverId), OptionalText(b.endpoint),
           b.skipsCertificate == Some(Flag(true)) || b.skipsCertificate == Some(Number(1.0)),
           FlagOr(b.enabled, true), FlagOr(b.alerts, true),
           Figure(b.optimalPing), Figure(b.optimalDownload), Figure(b.optimalUpload),
           Whole(b.iperfDuration), Whole(b.iperfStreams), FlagOr(b.iperfUdp, false), Whole(b.iperfBitrate),
           Figure(b.baselinePercent), LastOrder(store.table) + 1)
  }

  /** PUT /targets. */
  function PutBody(reader: Reader, store: Store, body: Entry): (Store, Answer) {
    var fields := Writable(body);
    var problem := if BadCertificateFlag(fields) then Some(CertificateFlag) else LooseProblem(reader, fields);
    if problem.Some? then (store, Complained(problem.value))
    else if IsNameTaken(store.table, TextOf(fields.name), None) then (store, Plain(NameTaken))
    else (Store(store.table + [CreatedRow(reader, store, fields)], store.nextId + 1), Plain(Ok(store.nextId)))
  }

  function RawFlag(on: bool): Option<Value> {
    Some(Number(if on then 1.0 else 0.0))
  }

  function RawText(v: Option<string>): Option<Value> {
    Some(if v.Some? then Text(v.value) else Null)
  }

  function RawFigure(v: Option<real>): Option<Value> {
    Some(if v.Some? then Number(v.value) else Null)
  }

  function RawWhole(v: Option<int>): Option<Value> {
    Some(if v.Some? then Number(v.value as real) else Null)
  }

  /** A stored row as the database hands it out: flags as 0 and 1. */
  function Raw(t: Target): Loose {
    Loose(Some(Text(t.name)), Some(Text(t.provider)), RawText(t.serverId), RawText(t.endpoint),
          RawFlag(t.skipsCertificate), RawFlag(t.enabled), RawFlag(t.alerts),
          RawFigure(t.optimalPing), RawFigure(t.optimalDownload), RawFigure(t.optimalUpload),
          RawWhole(t.iperfDuration), RawWhole(t.iperfStreams), RawFlag(t.iperfUdp), RawWhole(t.iperfBitrate),
          RawFigure(t.baselinePercent))
  }

  /** set(key, value): only a column that is not named, and only when its raw value is another. */
  function SetIf(when: bool, named: Option<Value>, raw: Option<Value>, value: Value): Option<Value> {
    if when && named.None? && raw != Some(value) then Some(value) else None
  }

  predicate LooseEndpointChanges(current: Loose, fields: Loose) {
    fields.endpoint.Some?
    && (!fields.endpoint.value.Text? || current.endpoint.None? || !current.endpoint.value.Text?
        || Trim(fields.endpoint.value.text) != Trim(current.endpoint.value.text))
  }

  /** retiredByPatch, over a body of any values. */
  function LooseRetired(current: Loose, fields: Loose): Loose {
    var provider := Or(fields.provider, current.provider.GetOr(Null));
    var leavesIperf := current.provider == Some(Text("iperf3")) && provider != Text("iperf3");
    var moves := Some(provider) != current.provider || LooseEndpointChanges(current, fields);
    var stopsUdp := fields.iperfUdp.Some? && !Truthy(fields.iperfUdp) && Truthy(current.iperfUdp);
    NAMELESS.(skipsCertificate := SetIf(moves && Truthy(current.skipsCertificate), fields.skipsCertificate,
                                        current.skipsCertificate, Flag(false)),
              iperfDuration := SetIf(leavesIperf, fields.iperfDuration, current.iperfDuration, Null),
              iperfStreams := SetIf(leavesIperf, fields.iperfStreams, current.iperfStreams, Null),
              iperfUdp := SetIf(leavesIperf, fields.iperfUdp, current.iperfUdp, Flag(false)),
              iperfBitrate := SetIf(leavesIperf || stopsUdp, fields.iperfBitrate, current.iperfBitrate, Null),
              endpoint := SetIf(!TakesEndpoint(TextOf(Some(provider))), fields.endpoint, current.endpoint, Null),
              serverId := SetIf(!TakesServerId(TextOf(Some(provider))) && !Nullish(current.serverId), fields.serverId,
                                current.serverId, Null))
  }

  /** {...a, ...b}. */
  function Over(a: Loose, b: Loose): Loose {
    Loose(OrElse(a.name, b.name), OrElse(a.provider, b.provider), OrElse(a.serverId, b.serverId),
          OrElse(a.endpoint, b.endpoint), OrElse(a.skipsCertificate, b.skipsCertificate),
          OrElse(a.enabled, b.enabled), OrElse(a.alerts, b.alerts), OrElse(a.optimalPing, b.optimalPing),
          OrElse(a.optimalDownload, b.optimalDownload), OrElse(a.optimalUpload, b.optimalUpload),
          OrElse(a.iperfDuration, b.iperfDuration), OrElse(a.iperfStreams, b.iperfStreams),
          OrElse(a.iperfUdp, b.iperfUdp), OrElse(a.iperfBitrate, b.iperfBitrate),
          OrElse(a.baselinePercent, b.baselinePercent))
  }

  /** The columns that take no null, the name, the provider and the certificate flag apart: those are judged before. */
  predicate NullsAFlag(fields: Loose) {
    fields.enabled == Some(Null) || fields.alerts == Some(Null) || fields.iperfUdp == Some(Null)
  }

  /** update(): the named and the retired columns, the name trimmed. */
  function UpdatedRow(reader: Reader, t: Target, f: Loose): Target {
    t.(name := if f.name.Some? then Trim(TextOf(f.name)) else t.name,
       provider := if f.provider.Some? then TextOf(f.provider) else t.provider,
       serverId := if f.serverId.Some? then PinOf(reader, f.serverId) else t.serverId,
       endpoint := if f.endpoint.Some? then OptionalText(f.endpoint) else t.endpoint,
       skipsCertificate := FlagOr(f.skipsCertificate, t.skipsCertificate),
       enabled := FlagOr(f.enabled, t.enabled), alerts := FlagOr(f.alerts, t.alerts),
       optimalPing := if f.optimalPing.Some? then Figure(f.optimalPing) else t.optimalPing,
       optimalDownload := if f.optimalDownload.Some? then Figure(f.optimalDownload) else t.optimalDownload,
       optimalUpload := if f.optimalUpload.Some? then Figure(f.optimalUpload) else t.optimalUpload,
       iperfDuration := if f.iperfDuration.Some? then Whole(f.iperfDuration) else t.iperfDuration,
       iperfStreams := if f.iperfStreams.Some? then Whole(f.iperfStreams) else t.iperfStreams,
       iperfUdp := FlagOr(f.iperfUdp, t.iperfUdp),
       iperfBitrate := if f.iperfBitrate.Some? then Whole(f.iperfBitrate) else t.iperfBitrate,
       baselinePercent := if f.baselinePercent.Some? then Figure(f.baselinePercent) else t.baselinePercent)
  }

  predicate LooseRenames(current: Target, fields: Loose) {
    fields.name.Some? && Trim(TextOf(fields.name)) != current.name
  }

  /** PATCH /targets/:id, the id already read. */
  function PatchBody(reader: Reader, store: Store, id: int, body: Entry): (Store, Answer) {
    var at := FindId(store.table, id);
    if at.None? || at.value >= |store.table| then (store, Plain(NoSuchTarget))
    else
      var current, named := store.table[at.value], Writable(body);
      var fields := Over(named, LooseRetired(Raw(current), named));
      var problem := if BadCertificateFlag(named) then Some(CertificateFlag)
                     else LooseProblem(reader, Over(Raw(current), fields));
      Decided(store, at.value, id, problem, LooseRenames(current, fields), TextOf(fields.name), NullsAFlag(fields),
              UpdatedRow(reader, current, fields))
  }

  /** The doors of the handler in their order, and the write behind them. */
  function Decided(store: Store, at: nat, id: int, problem: Option<Complaint>, renames: bool, name: string,
                   nullsAFlag: bool, row: Target): (Store, Answer)
    requires at < |store.table|
  {
    if problem.Some? then (store, Complained(problem.value))
    else if renames && IsNameTaken(store.table, name, Some(id)) then (store, Plain(NameTaken))
    else if nullsAFlag then (store, DatabaseRefused)
    else (store.(table := store.table[at := row]), Plain(Ok(id)))
  }

  predicate IsOk(answer: Answer) {
    answer.Plain? && answer.response.Ok?
  }

  function Lift(response: Response): Answer {
    if response.Refused? then Complained(About(response.problem)) else Plain(response)
  }

  // --------------------------------------------------- a readable body means its fields

  predicate SaysPlace(reader: Reader, row: Loose, t: Target) {
    && TextOf(row.name) == t.name && TextOf(row.provider) == t.provider
    && ReadPin(reader, row.serverId).Some? && PinOf(reader, row.serverId) == t.serverId
    && ReadEndpoint(row.endpoint).Some? && OptionalText(row.endpoint) == t.endpoint
    && (row.skipsCertificate.Some? ==> FlagValue(row.skipsCertificate.value))
    && Truthy(row.skipsCertificate) == t.skipsCertificate
  }

  predicate SaysFigures(row: Loose, t: Target) {
    && !BadFlag(row.enabled) && !BadFlag(row.alerts)
    && ReadFigure(row.optimalPing).Some? && Figure(row.optimalPing) == t.optimalPing
    && ReadFigure(row.optimalDownload).Some? && Figure(row.optimalDownload) == t.optimalDownload
    && ReadFigure(row.optimalUpload).Some? && Figure(row.optimalUpload) == t.optimalUpload
    && ReadFigure(row.baselinePercent).Some? && Figure(row.baselinePercent) == t.baselinePercent
  }

  predicate SaysTuning(row: Loose, t: Target) {
    && !BadFlag(row.iperfUdp) && Truthy(row.iperfUdp) == t.iperfUdp
    && ReadWhole(row.iperfDuration).Some? && Whole(row.iperfDuration) == t.iperfDuration
    && ReadWhole(row.iperfStreams).Some? && Whole(row.iperfStreams) == t.iperfStreams
    && ReadWhole(row.iperfBitrate).Some? && Whole(row.iperfBitrate) == t.iperfBitrate
  }

  /** The row of values says what the target does. */
  predicate Says(reader: Reader, row: Loose, t: Target) {
    SaysPlace(reader, row, t) && SaysFigures(row, t) && SaysTuning(row, t)
  }

  function AsComplaint(problem: Option<Problem>): Option<Complaint> {
    if problem.Some? then Some(About(problem.value)) else None
  }

  lemma TuningSaysAlike(reader: Reader, row: Loose, t: Target)
    requires Says(reader, row, t)
    ensures TuningComplaint(row) == AsComplaint(TuningProblem(t))
  {
  }

  lemma FlagsSayAlike(reader: Reader, row: Loose, t: Target)
    requires Says(reader, row, t)
    ensures CertificateComplaint(reader.env, row) == AsComplaint(CertificateProblem(reader.env, t))
  {
  }

  lemma PlacesSayAlike(reader: Reader, row: Loose, t: Target)
    requires Says(reader, row, t)
    ensures ServerIdComplaint(reader, t.provider, row.serverId) == AsComplaint(ServerIdProblem(t.provider, t.serverId))
    ensures EndpointComplaint(reader.env, t.provider, row.endpoint)
         == AsComplaint(EndpointProblem(reader.env, t.provider, t.endpoint))
  {
  }

  lemma JudgedAsSaid(reader: Reader, row: Loose, t: Target)
    requires Says(reader, row, t)
    ensures LooseProblem(reader, row) == AsComplaint(TargetProblem(reader.env, t))
  {
    TuningSaysAlike(reader, row, t);
    FlagsSayAlike(reader, row, t);
    PlacesSayAlike(reader, row, t);
  }

  lemma PutSays(reader: Reader, store: Store, b: Loose)
    requires Readable(reader, b, true)
    ensures Says(reader, b, Judged(store, Read(reader, b, true)))
  {
  }

  // What is stored of a field is what is read of it, or the default where it is not named.

  lemma NameRead(v: Option<Value>)
    requires ReadName(v).Some?
    ensures TextOf(v) == ReadName(v).value.GetOr("")
  {
  }

  lemma PinRead(reader: Reader, v: Option<Value>)
    requires ReadPin(reader, v).Some?
    ensures PinOf(reader, v) == ReadPin(reader, v).value.GetOr(None)
  {
  }

  lemma EndpointRead(v: Option<Value>)
    requires ReadEndpoint(v).Some?
    ensures OptionalText(v) == ReadEndpoint(v).value.GetOr(None)
  {
  }

  lemma CertificateRead(v: Option<Value>)
    requires ReadCertificate(v).Some?
    ensures (v == Some(Flag(true)) || v == Some(Number(1.0))) == ReadCertificate(v).value.GetOr(false)
  {
  }

  lemma FlagRead(v: Option<Value>, default: bool)
    requires ReadFlag(v, true).Some?
    ensures FlagOr(v, default) == ReadFlag(v, true).value.GetOr(default)
  {
  }

  lemma FigureRead(v: Option<Value>)
    requires ReadFigure(v).Some?
    ensures Figure(v) == ReadFigure(v).value.GetOr(None)
  {
  }

  lemma WholeRead(v: Option<Value>)
    requires ReadWhole(v).Some?
    ensures Whole(v) == ReadWhole(v).value.GetOr(None)
  {
  }

  lemma PutWrites(reader: Reader, store: Store, b: Loose)
    requires Readable(reader, b, true)
    ensures CreatedRow(reader, store, b) == NewRow(store, Read(reader, b, true))
  {
    NameRead(b.name);
    NameRead(b.provider);
    PinRead(reader, b.serverId);
    EndpointRead(b.endpoint);
    CertificateRead(b.skipsCertificate);
    FlagRead(b.enabled, true);
    FlagRead(b.alerts, true);
    FigureRead(b.optimalPing);
    FigureRead(b.optimalDownload);
    FigureRead(b.optimalUpload);
    WholeRead(b.iperfDuration);
    WholeRead(b.iperfStreams);
    FlagRead(b.iperfUdp, false);
    WholeRead(b.iperfBitrate);
    FigureRead(b.baselinePercent);
  }

  /** A field of the wrong kind never goes unnoticed. */
  lemma UnreadableIsNoticed(reader: Reader, b: Loose)
    requires !Readable(reader, b, true)
    ensures BadCertificateFlag(b) || LooseProblem(reader, b).Some?
  {
  }

  /**
   A PUT means the fields its body names, where each is of its kind; where one is
   not, it is refused and nothing is written.
   */
  lemma PutMeansItsFields(reader: Reader, store: Store, body: Entry)
    ensures var b := Writable(body);
            if Readable(reader, b, true) then
              var (after, response) := Created(reader.env, store, Read(reader, b, true));
              PutBody(reader, store, body) == (after, Lift(response))
            else
              PutBody(reader, store, body).0 == store && PutBody(reader, store, body).1.Complained?
  {
    var b := Writable(body);
    if Readable(reader, b, true) {
      PutSays(reader, store, b);
      PutWrites(reader, store, b);
      JudgedAsSaid(reader, b, Judged(store, Read(reader, b, true)));
    } else {
      UnreadableIsNoticed(reader, b);
    }
  }

  // ------------------------------------------------------------------------- patches

  /** The named and the retired columns, as PatchBody writes them. */
  function Effective(current: Target, named: Loose): Loose {
    Over(named, LooseRetired(Raw(current), named))
  }

  lemma RetiresAlike(reader: Reader, current: Target, named: Loose)
    requires Readable(reader, named, false)
    ensures var retired := LooseRetired(Raw(current), named);
            var typed := RetiredByPatch(current, Read(reader, named, false));
            && ReadCertificate(retired.skipsCertificate) == Some(typed.skipsCertificate)
            && ReadWhole(retired.iperfDuration) == Some(typed.iperfDuration)
            && ReadWhole(retired.iperfStreams) == Some(typed.iperfStreams)
            && ReadWhole(retired.iperfBitrate) == Some(typed.iperfBitrate)
            && ReadEndpoint(retired.endpoint) == Some(typed.endpoint)
            && ReadPin(reader, retired.serverId) == Some(typed.serverId)
            && ReadFlag(retired.iperfUdp, false).Some?
            && FlagOr(retired.iperfUdp, current.iperfUdp) == Or(typed.iperfUdp, current.iperfUdp)
            && (named.iperfUdp.Some? ==> retired.iperfUdp.None?)
  {
  }

  lemma PatchSaysPlace(reader: Reader, current: Target, named: Loose)
    requires Readable(reader, named, false)
    ensures SaysPlace(reader, Over(Raw(current), Effective(current, named)),
                      Patched(current, Read(reader, named, false)))
  {
    RetiresAlike(reader, current, named);
  }

  // A column of the merged row: what is named, or else retired, or else stored.

  lemma FigureMerged(named: Option<Value>, stored: Option<real>)
    requires ReadFigure(named).Some?
    ensures var row := OrElse(RawFigure(stored), OrElse(named, None));
            ReadFigure(row).Some? && Figure(row) == Or(ReadFigure(named).value, stored)
  {
  }

  lemma WholeMerged(named: Option<Value>, retired: Option<Value>, stored: Option<int>)
    requires ReadWhole(named).Some? && ReadWhole(retired).Some?
    ensures var row := OrElse(RawWhole(stored), OrElse(named, retired));
            && ReadWhole(row).Some?
            && Whole(row) == Or(OrElse(ReadWhole(named).value, ReadWhole(retired).value), stored)
  {
  }

  lemma FlagMerged(named: Option<Value>, stored: bool)
    requires ReadFlag(named, false).Some?
    ensures !BadFlag(OrElse(RawFlag(stored), OrElse(named, None)))
  {
  }

  lemma PatchSaysFigures(reader: Reader, current: Target, named: Loose)
    requires Readable(reader, named, false)
    ensures SaysFigures(Over(Raw(current), Effective(current, named)), Patched(current, Read(reader, named, false)))
  {
    FlagMerged(named.enabled, current.enabled);
    FlagMerged(named.alerts, current.alerts);
    FigureMerged(named.optimalPing, current.optimalPing);
    FigureMerged(named.optimalDownload, current.optimalDownload);
    FigureMerged(named.optimalUpload, current.optimalUpload);
    FigureMerged(named.baselinePercent, current.baselinePercent);
  }

  lemma PatchSaysTuning(reader: Reader, current: Target, named: Loose)
    requires Readable(reader, named, false)
    ensures SaysTuning(Over(Raw(current), Effective(current, named)), Patched(current, Read(reader, named, false)))
  {
    var retired := LooseRetired(Raw(current), named);
    RetiresAlike(reader, current, named);
    WholeMerged(named.iperfDuration, retired.iperfDuration, current.iperfDuration);
    WholeMerged(named.iperfStreams, retired.iperfStreams, current.iperfStreams);
    WholeMerged(named.iperfBitrate, retired.iperfBitrate, current.iperfBitrate);
  }

  lemma PatchSays(reader: Reader, current: Target, named: Loose)
    requires Readable(reader, named, false)
    ensures Says(reader, Over(Raw(current), Effective(current, named)), Patched(current, Read(reader, named, false)))
  {
    PatchSaysPlace(reader, current, named);
    PatchSaysFigures(reader, current, named);
    PatchSaysTuning(reader, current, named);
  }

  lemma PatchWritesPlace(reader: Reader, current: Target, named: Loose)
    requires Readable(reader, named, false)
    ensures var u := UpdatedRow(reader, current, Effective(current, named));
            var w := Written(current, Read(reader, named, false));
            && u.id == w.id && u.name == w.name && u.provider == w.provider && u.sortOrder == w.sortOrder
            && u.serverId == w.serverId && u.endpoint == w.endpoint && u.skipsCertificate == w.skipsCertificate
  {
    RetiresAlike(reader, current, named);
  }

  /** No patch retires a figure the grading reads. */
  lemma FiguresAreNotRetired(current: Target, fields: Fields)
    ensures var w := Written(current, fields);
            && w.optimalPing == Or(fields.optimalPing, current.optimalPing)
            && w.optimalDownload == Or(fields.optimalDownload, current.optimalDownload)
            && w.optimalUpload == Or(fields.optimalUpload, current.optimalUpload)
            && w.baselinePercent == Or(fields.baselinePercent, current.baselinePercent)
  {
  }

  lemma FiguresAreWritten(reader: Reader, current: Target, named: Loose)
    requires Readable(reader, named, false)
    ensures var u, fields := UpdatedRow(reader, current, Effective(current, named)), Read(reader, named, false);
            && u.optimalPing == Or(fields.optimalPing, current.optimalPing)
            && u.optimalDownload == Or(fields.optimalDownload, current.optimalDownload)
            && u.optimalUpload == Or(fields.optimalUpload, current.optimalUpload)
            && u.baselinePercent == Or(fields.baselinePercent, current.baselinePercent)
  {
  }

  lemma PatchWritesFigures(reader: Reader, current: Target, named: Loose)
    requires Readable(reader, named, false)
    ensures var u := UpdatedRow(reader, current, Effective(current, named));
            var w := Written(current, Read(reader, named, false));
            && u.optimalPing == w.optimalPing && u.optimalDownload == w.optimalDownload
            && u.optimalUpload == w.optimalUpload && u.baselinePercent == w.baselinePercent
  {
    FiguresAreNotRetired(current, Read(reader, named, false));
    FiguresAreWritten(reader, current, named);
  }

  lemma PatchWritesFlags(reader: Reader, current: Target, named: Loose)
    requires Readable(reader, named, false)
    ensures var u := UpdatedRow(reader, current, Effective(current, named));
            var w := Written(current, Read(reader, named, false));
            u.enabled == w.enabled && u.alerts == w.alerts
  {
  }

  lemma PatchWritesTuning(reader: Reader, current: Target, named: Loose)
    requires Readable(reader, named, false)
    ensures var u := UpdatedRow(reader, current, Effective(current, named));
            var w := Written(current, Read(reader, named, false));
            && u.iperfDuration == w.iperfDuration && u.iperfStreams == w.iperfStreams && u.iperfUdp == w.iperfUdp
            && u.iperfBitrate == w.iperfBitrate
  {
    RetiresAlike(reader, current, named);
  }

  lemma PatchWrites(reader: Reader, current: Target, named: Loose)
    requires Readable(reader, named, false)
    ensures UpdatedRow(reader, current, Effective(current, named)) == Written(current, Read(reader, named, false))
  {
    PatchWritesPlace(reader, current, named);
    PatchWritesFigures(reader, current, named);
    PatchWritesFlags(reader, current, named);
    PatchWritesTuning(reader, current, named);
  }

  lemma PatchNames(reader: Reader, current: Target, named: Loose)
    requires Readable(reader, named, false)
    ensures LooseRenames(current, Effective(current, named)) <==> Renames(current, Read(reader, named, false))
    ensures !NullsAFlag(Effective(current, named)) && Effective(current, named).name == named.name
  {
  }

  /** The row says what the body names of it. */
  predicate Carries(row: Loose, named: Loose) {
    && (named.name.Some? ==> row.name == named.name) && (named.provider.Some? ==> row.provider == named.provider)
    && (named.serverId.Some? ==> row.serverId == named.serverId)
    && (named.endpoint.Some? ==> row.endpoint == named.endpoint)
    && (named.enabled.Some? ==> row.enabled == named.enabled) && (named.alerts.Some? ==> row.alerts == named.alerts)
    && (named.optimalPing.Some? ==> row.optimalPing == named.optimalPing)
    && (named.optimalDownload.Some? ==> row.optimalDownload == named.optimalDownload)
    && (named.optimalUpload.Some? ==> row.optimalUpload == named.optimalUpload)
    && (named.iperfDuration.Some? ==> row.iperfDuration == named.iperfDuration)
    && (named.iperfStreams.Some? ==> row.iperfStreams == named.iperfStreams)
    && (named.iperfUdp.Some? ==> row.iperfUdp == named.iperfUdp)
    && (named.iperfBitrate.Some? ==> row.iperfBitrate == named.iperfBitrate)
    && (named.baselinePercent.Some? ==> row.baselinePercent == named.baselinePercent)
  }

  lemma MergedCarriesNamed(current: Target, named: Loose)
    ensures Carries(Over(Raw(current), Effective(current, named)), named)
    ensures NullsAFlag(named) ==> NullsAFlag(Effective(current, named))
  {
  }

  lemma UnreadablePlaceIsNoticed(reader: Reader, row: Loose, named: Loose)
    requires Carries(row, named) && !ReadablePlace(reader, named) && !BadCertificateFlag(named)
    ensures LooseProblem(reader, row).Some?
  {
  }

  lemma UnreadableFiguresAreNoticed(reader: Reader, row: Loose, named: Loose)
    requires Carries(row, named) && !ReadableFigures(named, false)
    ensures LooseProblem(reader, row).Some? || NullsAFlag(named)
  {
  }

  lemma UnreadableTuningIsNoticed(reader: Reader, row: Loose, named: Loose)
    requires Carries(row, named) && !ReadableTuning(named, false)
    ensures LooseProblem(reader, row).Some? || NullsAFlag(named)
  {
  }

  lemma UnreadablePatchIsNoticed(reader: Reader, current: Target, named: Loose)
    requires !Readable(reader, named, false) && !BadCertificateFlag(named)
    ensures LooseProblem(reader, Over(Raw(current), Effective(current, named))).Some?
            || NullsAFlag(Effective(current, named))
  {
    MergedCarriesNamed(current, named);
    var row := Over(Raw(current), Effective(current, named));
    if !ReadablePlace(reader, named) {
      UnreadablePlaceIsNoticed(reader, row, named);
    } else if !ReadableFigures(named, false) {
      UnreadableFiguresAreNoticed(reader, row, named);
    } else {
      UnreadableTuningIsNoticed(reader, row, named);
    }
  }

  lemma TypedPatchIsDecided(env: Env, store: Store, at: nat, id: int, fields: Fields)
    requires FindId(store.table, id) == Some(at) && at < |store.table|
    ensures var current := store.table[at];
            var (after, response) := PatchedStore(env, store, id, fields);
            (after, Lift(response))
            == Decided(store, at, id, AsComplaint(TargetProblem(env, Patched(current, fields))),
                       Renames(current, fields), fields.name.GetOr(""), false, Written(current, fields))
  {
  }

  lemma PatchedAsRead(reader: Reader, store: Store, at: nat, id: int, body: Entry)
    requires FindId(store.table, id) == Some(at) && at < |store.table| && Readable(reader, Writable(body), false)
    ensures var (after, response) := PatchedStore(reader.env, store, id, Read(reader, Writable(body), false));
            PatchBody(reader, store, id, body) == (after, Lift(response))
  {
    var current, named := store.table[at], Writable(body);
    var fields := Read(reader, named, false);
    PatchSays(reader, current, named);
    JudgedAsSaid(reader, Over(Raw(current), Effective(current, named)), Patched(current, fields));
    PatchWrites(reader, current, named);
    PatchNames(reader, current, named);
    TypedPatchIsDecided(reader.env, store, at, id, fields);
  }

  lemma UnreadableWritesNothing(reader: Reader, store: Store, at: nat, id: int, body: Entry)
    requires FindId(store.table, id) == Some(at) && at < |store.table| && !Readable(reader, Writable(body), false)
    ensures PatchBody(reader, store, id, body).0 == store && !IsOk(PatchBody(reader, store, id, body).1)
  {
    var current, named := store.table[at], Writable(body);
    if !BadCertificateFlag(named) {
      UnreadablePatchIsNoticed(reader, current, named);
    }
  }

  /**
   A PATCH means the fields its body names, where each is of its kind; where one
   is not - a flag named null included, which no column takes - nothing is written.
   */
  lemma PatchMeansItsFields(reader: Reader, store: Store, id: int, body: Entry)
    ensures var named := Writable(body);
            if Readable(reader, named, false) then
              var (after, response) := PatchedStore(reader.env, store, id, Read(reader, named, false));
              PatchBody(reader, store, id, body) == (after, Lift(response))
            else
              PatchBody(reader, store, id, body).0 == store && !IsOk(PatchBody(reader, store, id, body).1)
  {
    var at := FindId(store.table, id);
    if at.Some? && at.value < |store.table| {
      if Readable(reader, Writable(body), false) {
        PatchedAsRead(reader, store, at.value, id, body);
      } else {
        UnreadableWritesNothing(reader, store, at.value, id, body);
      }
    }
  }
}
