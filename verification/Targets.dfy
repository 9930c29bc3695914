/** A target row, what makes one acceptable, and what a patch retires without naming it. */
module Targets {
  import opened Wrappers
  import opened Text

  datatype Target = Target(
    id: int, name: string, provider: string, serverId: Option<string>, endpoint: Option<string>, skipsCertificate: bool,
    enabled: bool, alerts: bool, optimalPing: Option<real>, optimalDownload: Option<real>, optimalUpload: Option<real>,
    iperfDuration: Option<int>, iperfStreams: Option<int>, iperfUdp: bool, iperfBitrate: Option<int>,
    baselinePercent: Option<real>, sortOrder: int)

  /** A PATCH body: a field is Some when the request names it, and a nullable column can be named null. */
  datatype Fields = Fields(
    name: Option<string>, provider: Option<string>, serverId: Option<Option<string>>, endpoint: Option<Option<string>>,
    skipsCertificate: Option<bool>, enabled: Option<bool>, alerts: Option<bool>,
    optimalPing: Option<Option<real>>, optimalDownload: Option<Option<real>>, optimalUpload: Option<Option<real>>,
    iperfDuration: Option<Option<int>>, iperfStreams: Option<Option<int>>, iperfUdp: Option<bool>,
    iperfBitrate: Option<Option<int>>, baselinePercent: Option<Option<real>>)

  const NOTHING := Fields(None, None, None, None, None, None, None, None, None, None, None, None, None, None, None)

  datatype Url = Url(protocol: string, host: string)

  /** The WHATWG URL parser, the literal-host policy, and the two providers' own endpoint grammars. */
  datatype Env = Env(parse: string -> Option<Url>, safeHost: string -> bool,
                     iperfHost: string -> bool, plainOstUrl: string -> bool)

  const TARGET_NAME_LIMIT := 64
  const IPERF_MIN_DURATION_SECONDS := 5
  const IPERF_MAX_DURATION_SECONDS := 60
  const IPERF_MIN_STREAMS := 1
  const IPERF_MAX_STREAMS := 32
  const IPERF_MIN_BITRATE_MBPS := 1
  const IPERF_MAX_BITRATE_MBPS := 10000
  const IPERF_UDP_STREAMS := 1
  const BASELINE_PERCENT_MIN := 10.0
  const BASELINE_PERCENT_MAX := 95.0

  // ------------------------------------------------------------------ the registry

  predicate Known(provider: string) {
    provider in {"ookla", "libre", "cloudflare", "iperf3", "openspeedtest"}
  }

  predicate TakesServerId(provider: string) {
    provider in {"ookla", "libre"}
  }

  predicate TakesEndpoint(provider: string) {
    provider in {"libre", "iperf3", "openspeedtest"}
  }

  predicate RequiresEndpoint(provider: string) {
    provider in {"iperf3", "openspeedtest"}
  }

  // ---------------------------------------------------------------- the judgements

  datatype Problem =
    | NeedsName | NameTooLong | UnknownProvider
    | NoServersToPin | ServerIdNotDigits
    | TakesNoEndpoint | BadEndpoint | NeedsEndpoint
    | CertificateNotSkippable | OptimalNotPositive
    | TakesNoTuning | TuningOutOfRange | UdpNeedsBitrate | BitrateNeedsUdp | UdpStreams
    | BaselineOutOfRange

  predicate Allowed(protocol: string) {
    protocol in {"http:", "https:"}
  }

  /** An address a backend could be fetched from at all. */
  predicate Fetchable(env: Env, endpoint: string) {
    env.parse(endpoint).Some? && Allowed(env.parse(endpoint).value.protocol)
  }

  predicate EndpointOk(env: Env, provider: string, endpoint: string) {
    match provider
    case "iperf3" => env.iperfHost(endpoint)
    case "openspeedtest" =>
      var url := Trim(endpoint);
      env.plainOstUrl(url) && Fetchable(env, url) && env.safeHost(env.parse(url).value.host)
    case _ => Fetchable(env, endpoint) && env.safeHost(env.parse(endpoint).value.host)
  }

  function EndpointProblem(env: Env, provider: string, endpoint: Option<string>): Option<Problem> {
    match endpoint
    case Some(value) =>
      if !TakesEndpoint(provider) then Some(TakesNoEndpoint)
      else if !EndpointOk(env, provider, value) then Some(BadEndpoint)
      else None
    case None => if RequiresEndpoint(provider) then Some(NeedsEndpoint) else None
  }

  function ServerIdProblem(provider: string, serverId: Option<string>): Option<Problem> {
    if serverId.None? then None
    else if !TakesServerId(provider) then Some(NoServersToPin)
    else if !IsDigits(serverId.value) then Some(ServerIdNotDigits)
    else None
  }

  function CertificateProblem(env: Env, t: Target): Option<Problem> {
    if !t.skipsCertificate then None
    else if t.provider != "openspeedtest" || t.endpoint.None? || env.parse(Trim(t.endpoint.value)).None?
            || env.parse(Trim(t.endpoint.value)).value.protocol != "https:" then Some(CertificateNotSkippable)
    else None
  }

  predicate Within(value: Option<int>, low: int, high: int) {
    value.Some? ==> low <= value.value <= high
  }

  /** iperfTuningProblem: false and null are every target's, not a setting. */
  function TuningProblem(t: Target): Option<Problem> {
    if t.iperfDuration.None? && t.iperfStreams.None? && t.iperfBitrate.None? && !t.iperfUdp then None
    else if t.provider != "iperf3" then Some(TakesNoTuning)
    else if !Within(t.iperfDuration, IPERF_MIN_DURATION_SECONDS, IPERF_MAX_DURATION_SECONDS)
         || !Within(t.iperfStreams, IPERF_MIN_STREAMS, IPERF_MAX_STREAMS)
         || !Within(t.iperfBitrate, IPERF_MIN_BITRATE_MBPS, IPERF_MAX_BITRATE_MBPS) then Some(TuningOutOfRange)
    else if t.iperfUdp && t.iperfBitrate.None? then Some(UdpNeedsBitrate)
    else if !t.iperfUdp && t.iperfBitrate.Some? then Some(BitrateNeedsUdp)
    else if t.iperfUdp && t.iperfStreams.Some? && t.iperfStreams.value != IPERF_UDP_STREAMS then Some(UdpStreams)
    else None
  }

  predicate Positive(optimal: Option<real>) {
    optimal.Some? ==> optimal.value > 0.0
  }

  /** targetProblem: the first thing wrong with a row, in the order it is asked. */
  function TargetProblem(env: Env, t: Target): Option<Problem> {
    if Trim(t.name) == "" then Some(NeedsName)
    else if |Trim(t.name)| > TARGET_NAME_LIMIT then Some(NameTooLong)
    else if !Known(t.provider) then Some(UnknownProvider)
    else if ServerIdProblem(t.provider, t.serverId).Some? then ServerIdProblem(t.provider, t.serverId)
    else if EndpointProblem(env, t.provider, t.endpoint).Some? then EndpointProblem(env, t.provider, t.endpoint)
    else if CertificateProblem(env, t).Some? then CertificateProblem(env, t)
    else if !Positive(t.optimalPing) || !Positive(t.optimalDownload) || !Positive(t.optimalUpload)
    then Some(OptimalNotPositive)
    else if TuningProblem(t).Some? then TuningProblem(t)
    else if t.baselinePercent.Some? && !(BASELINE_PERCENT_MIN <= t.baselinePercent.value <= BASELINE_PERCENT_MAX)
    then Some(BaselineOutOfRange)
    else None
  }

  predicate Accepted(env: Env, t: Target) {
    TargetProblem(env, t).None?
  }

  // ----------------------------------------------------------------------- a patch

  function Or<T>(named: Option<T>, stored: T): T {
    if named.Some? then named.value else stored
  }

  /** {...current, ...fields}. */
  function Merged(current: Target, fields: Fields): Target {
    current.(name := Or(fields.name, current.name), provider := Or(fields.provider, current.provider),
             serverId := Or(fields.serverId, current.serverId), endpoint := Or(fields.endpoint, current.endpoint),
             skipsCertificate := Or(fields.skipsCertificate, current.skipsCertificate),
             enabled := Or(fields.enabled, current.enabled), alerts := Or(fields.alerts, current.alerts),
             optimalPing := Or(fields.optimalPing, current.optimalPing),
             optimalDownload := Or(fields.optimalDownload, current.optimalDownload),
             optimalUpload := Or(fields.optimalUpload, current.optimalUpload),
             iperfDuration := Or(fields.iperfDuration, current.iperfDuration),
             iperfStreams := Or(fields.iperfStreams, current.iperfStreams),
             iperfUdp := Or(fields.iperfUdp, current.iperfUdp),
               iperfBitrate := Or(fields.iperfBitrate, current.iperfBitrate),
             baselinePercent := Or(fields.baselinePercent, current.baselinePercent))
  }

  /** A column the patch retires: only one it did not name, and only when that changes it. */
  function Retire<T(==)>(when: bool, named: Option<T>, stored: T, value: T): Option<T> {
    if when && named.None? && stored != value then Some(value) else None
  }

  predicate EndpointChanges(current: Target, fields: Fields) {
    fields.endpoint.Some?
    && (fields.endpoint.value.None? || current.endpoint.None?
        || Trim(fields.endpoint.value.value) != Trim(current.endpoint.value))
  }

  /** retiredByPatch. */
  function RetiredByPatch(current: Target, fields: Fields): Fields {
    var provider := Or(fields.provider, current.provider);
    var leavesIperf := current.provider == "iperf3" && provider != "iperf3";
    var stopsUdp := fields.iperfUdp == Some(false) && current.iperfUdp;
    NOTHING.(skipsCertificate := Retire((provider != current.provider || EndpointChanges(current, fields))
                                        && current.skipsCertificate,
                                        fields.skipsCertificate, current.skipsCertificate, false),
             iperfDuration := Retire(leavesIperf, fields.iperfDuration, current.iperfDuration, None),
             iperfStreams := Retire(leavesIperf, fields.iperfStreams, current.iperfStreams, None),
             iperfUdp := Retire(leavesIperf, fields.iperfUdp, current.iperfUdp, false),
             iperfBitrate := Retire(leavesIperf || stopsUdp, fields.iperfBitrate, current.iperfBitrate, None),
             endpoint := Retire(!TakesEndpoint(provider), fields.endpoint, current.endpoint, None),
             serverId := Retire(!TakesServerId(provider), fields.serverId, current.serverId, None))
  }

  function OrElse<T>(named: Option<T>, retired: Option<T>): Option<T> {
    if retired.Some? then retired else named
  }

  /** {...named, ...retired}. */
  function WithRetired(current: Target, named: Fields): Fields {
    var r := RetiredByPatch(current, named);
    named.(skipsCertificate := OrElse(named.skipsCertificate, r.skipsCertificate),
           iperfDuration := OrElse(named.iperfDuration, r.iperfDuration),
             iperfStreams := OrElse(named.iperfStreams, r.iperfStreams),
           iperfUdp := OrElse(named.iperfUdp, r.iperfUdp), iperfBitrate := OrElse(named.iperfBitrate, r.iperfBitrate),
           endpoint := OrElse(named.endpoint, r.endpoint), serverId := OrElse(named.serverId, r.serverId))
  }

  /** The row a patch leaves behind, as it is judged. */
  function Patched(current: Target, named: Fields): Target {
    Merged(current, WithRetired(current, named))
  }

  // ------------------------------------------------------------- what a patch never trips on

  /** A retired column is one the request did not name: what it says stands. */
  lemma NamedFieldsStand(current: Target, named: Fields)
    ensures var after := Patched(current, named);
            && (named.provider.Some? ==> after.provider == named.provider.value)
            && (named.serverId.Some? ==> after.serverId == named.serverId.value)
            && (named.endpoint.Some? ==> after.endpoint == named.endpoint.value)
            && (named.skipsCertificate.Some? ==> after.skipsCertificate == named.skipsCertificate.value)
            && (named.iperfDuration.Some? ==> after.iperfDuration == named.iperfDuration.value)
            && (named.iperfStreams.Some? ==> after.iperfStreams == named.iperfStreams.value)
            && (named.iperfUdp.Some? ==> after.iperfUdp == named.iperfUdp.value)
            && (named.iperfBitrate.Some? ==> after.iperfBitrate == named.iperfBitrate.value)
  {
  }

  /** Asked again of the row it produced, the same patch retires nothing and changes nothing, whatever the row was. */
  lemma RetiringSettles(current: Target, named: Fields)
    ensures RetiredByPatch(Patched(current, named), named) == NOTHING
    ensures Patched(Patched(current, named), named) == Patched(current, named)
  {
  }

  predicate EndpointFits(env: Env, provider: string, endpoint: Option<string>) {
    !TakesEndpoint(provider) || EndpointProblem(env, provider, endpoint).None?
  }

  function OnlyProvider(provider: string): Fields {
    NOTHING.(provider := Some(provider))
  }

  /**
   Exactly when a patch naming only a provider is accepted: the provider exists
   and takes no endpoint, or takes the one the target has. Nothing else the row
   carries can refuse it.
   */
  lemma ProviderPatchAcceptedIff(env: Env, current: Target, provider: string)
    requires Accepted(env, current)
    ensures Accepted(env, Patched(current, OnlyProvider(provider)))
            <==> Known(provider) && EndpointFits(env, provider, current.endpoint)
  {
    var after := Patched(current, OnlyProvider(provider));
    assert after.name == current.name && after.provider == provider;
    if provider == current.provider {
      assert after == current;
    } else {
      assert !after.skipsCertificate;
      assert TuningProblem(after).None?;
    }
  }

  /** Switching UDP off is never refused, and neither is saying so of a target that sends none. */
  lemma StoppingUdpIsNeverRefused(env: Env, current: Target)
    requires Accepted(env, current)
    ensures Accepted(env, Patched(current, NOTHING.(iperfUdp := Some(false))))
  {
  }
}
