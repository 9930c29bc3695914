/**
 The three ways in that take a password - signing in, the password headers and
 the metrics scrape - interleaved with password and access-level writes.

 Every await of the original is a yield: the database answers in a step of its
 own, and the handler goes on in a later one. A write commits in one step and
 publishes in another, and the queue of admin mutations lets one writer at a time
 stand between the two.
 */
module Authentication {
  import opened Wrappers
  import Throttle
  import opened ThrottleRuns

  /** The stored sentinel of an instance with no password, and the level that shows it to visitors. */
  const NO_PASSWORD := "none"
  const READ_LEVEL := "read"

  /** What bcrypt and the setup token answer. */
  datatype Env = Env(config: Throttle.Config, compares: (string, string) -> bool, isSetupToken: string -> bool)

  predicate Opens(env: Env, credential: string, hash: string) {
    if hash == NO_PASSWORD then env.isSetupToken(credential) else env.compares(credential, hash)
  }

  /** The first candidate that opens the hash, as candidates.some finds it. */
  function FirstMatch(env: Env, candidates: seq<string>, hash: string): (r: Option<string>)
    ensures r.Some? ==> r.value in candidates && Opens(env, r.value, hash)
    ensures r.None? ==> forall c :: c in candidates ==> !Opens(env, c, hash)
  {
    if candidates == [] then None
    else if Opens(env, candidates[0], hash) then Some(candidates[0])
    else FirstMatch(env, candidates[1..], hash)
  }

  datatype Kind = SignIn | Header | Scrape

  datatype Verdict = SignedIn(session: nat) | Granted | GrantedAsViewer | Refused | LockedOut | Busy | Errored

  /** Where a handler stands; a version counts the values a config row had held when it was read. */
  datatype Pc =
    | SigningIn(generation: nat, ticket: nat)
    | SignInComparing(generation: nat, version: nat, ticket: nat)
    | Reading(generation: nat, revision: nat)
    | ReadingLevel(generation: nat, revision: nat, version: nat)
    | Deciding(generation: nat, revision: nat, version: nat, level: nat)
    | Comparing(generation: nat, revision: nat, version: nat, level: nat, ticket: nat)
    | Confirming(generation: nat, version: nat, credential: string)
    | Confirmed(generation: nat, version: nat, again: nat, credential: string)
    | Done(verdict: Verdict)

  datatype Request = Request(kind: Kind, key: string, candidates: seq<string>, local: bool, viewable: bool, pc: Pc)

  /** Committed, and owing the bumps that publish it. */
  datatype Writer = Resting | Owing(password: bool, level: bool)

  datatype Session = Session(version: nat, credential: string)

  /** A request let in by password, and what was published and committed at that moment. */
  datatype Admission = Admission(credential: Option<string>, version: nat, again: nat, generation: nat, committed: nat)

  datatype Viewing = Viewing(level: nat, revision: nat)

  datatype State = State(
    hashes: seq<string>, levels: seq<string>, generation: nat, revision: nat, writer: Writer,
    sessions: map<nat, Session>, nextSession: nat,
    requests: seq<Request>, holders: seq<nat>, world: World,
    admissions: seq<Admission>, viewings: seq<Viewing>)

  datatype Action =
    | Commit(password: Option<string>, level: Option<string>)
    | Publish
    | DropSession(session: nat)
    | Arrive(request: Request, cookie: Option<nat>, at: int)
    | Answer(i: nat)
    | Resume(i: nat, threw: bool, at: int)

  function Initial(hash: string, level: string, start: int): State {
    State([hash], [level], 0, 0, Resting, map[], 0, [], [], ThrottleRuns.Initial(start), [], [])
  }

  // ---------------------------------------------------------- the throttle's surface

  /** reserveAttempt: a ticket, or none. */
  function Take(env: Env, w: World, key: string, attempts: nat, at: int): (r: (World, Option<nat>))
    requires w.tables.Valid()
    ensures r.0.tables.Valid()
  {
    var after := Apply(env.config, w, Reserving(key, attempts, at));
    (after, if |after.tickets| > |w.tickets| then Some(|w.tickets|) else None)
  }

  /** Out of failure budget, or at the cap. */
  function Refusal(env: Env, w: World, key: string, at: int): Verdict {
    if Throttle.IsLockedOut(env.config, w.tables.failed.Get(key), at) then LockedOut else Busy
  }

  function Settle(env: Env, w: World, ticket: nat, failed: nat, at: int): (r: World)
    requires w.tables.Valid()
    ensures r.tables.Valid()
  {
    Apply(env.config, w, Settling(ticket, failed, at))
  }

  function Forget(env: Env, w: World, key: string, at: int): (r: World)
    requires w.tables.Valid()
    ensures r.tables.Valid()
  {
    Apply(env.config, w, Clearing(key, at))
  }

  // ---------------------------------------------------------------- handlers

  function Hash(s: State, version: nat): string {
    if version < |s.hashes| then s.hashes[version] else NO_PASSWORD
  }

  function Level(s: State, level: nat): string {
    if level < |s.levels| then s.levels[level] else ""
  }

  /** What a query issued now would answer: the newest value of the row. */
  function Newest(rows: seq<string>): nat {
    if rows == [] then 0 else |rows| - 1
  }

  function At(s: State, i: nat, pc: Pc): State
    requires i < |s.requests|
  {
    s.(requests := s.requests[i := s.requests[i].(pc := pc)])
  }

  function Grant(s: State, i: nat, credential: Option<string>, version: nat, again: nat): State
    requires i < |s.requests|
  {
    At(s, i, Done(Granted)).(
      admissions := s.admissions + [Admission(credential, version, again, s.generation, Newest(s.hashes))])
  }

  predicate Changed(s: State, kind: Kind, generation: nat, revision: nat) {
    generation != s.generation || (kind == Header && revision != s.revision)
  }

  /** The tail of the middleware: read-only access where the level offers it, the refusal otherwise. */
  function Fallback(s: State, i: nat, level: nat, refusal: Verdict): State
    requires i < |s.requests|
  {
    var r := s.requests[i];
    if r.kind == Header && Level(s, level) == READ_LEVEL && r.viewable
    then At(s, i, Done(GrantedAsViewer)).(viewings := s.viewings + [Viewing(level, s.revision)])
    else At(s, i, Done(refusal))
  }

  /** What the setup token's check comes to, the throttle settled and, if need be, the client's failures forgotten. */
  function TokenTried(s: State, i: nat, matched: Option<string>, threw: bool, settled: World, forgotten: World): State
    requires i < |s.requests| && s.requests[i].pc.Deciding?
  {
    var Deciding(generation, _, version, _) := s.requests[i].pc;
    if threw then At(s, i, Done(Errored)).(world := settled)
    else if matched.None? then At(s, i, Done(Refused)).(world := settled)
    else if s.requests[i].kind == Scrape
    then At(s, i, Confirming(generation, version, matched.value)).(world := settled)
    else Grant(s.(world := forgotten), i, matched, version, version)
  }

  /** The setup token against the candidates, reserved and settled in one breath. */
  function TryToken(env: Env, s: State, i: nat, ticket: nat, threw: bool, at: int): (r: State)
    requires i < |s.requests| && s.requests[i].pc.Deciding? && s.world.tables.Valid()
    ensures r.world.tables.Valid()
  {
    var r := s.requests[i];
    var matched := FirstMatch(env, r.candidates, Hash(s, r.pc.version));
    var settled := Settle(env, s.world, ticket, if !threw && matched.None? then |r.candidates| else 0, at);
    TokenTried(s, i, matched, threw, settled, Forget(env, settled, r.key, at))
  }

  /** An instance with no password: local callers, or the setup token - with nothing awaited in between. */
  function DecideUnconfigured(env: Env, s: State, i: nat, threw: bool, at: int): (r: State)
    requires i < |s.requests| && s.requests[i].pc.Deciding? && s.world.tables.Valid()
    ensures r.world.tables.Valid()
  {
    var r := s.requests[i];
    if r.local then Grant(s, i, None, r.pc.version, r.pc.version)
    else if r.candidates == [] then At(s, i, Done(Refused))
    else
      var (reserved, ticket) := Take(env, s.world, r.key, |r.candidates|, at);
      if ticket.None? then At(s, i, Done(Refusal(env, s.world, r.key, at))).(world := reserved)
      else TryToken(env, s.(world := reserved, holders := s.holders + [i]), i, ticket.value, threw, at)
  }

  /** Both reads are in: the first guard, then the way this instance lets people in. */
  function Decide(env: Env, s: State, i: nat, threw: bool, at: int): (r: State)
    requires i < |s.requests| && s.requests[i].pc.Deciding? && s.world.tables.Valid()
    ensures r.world.tables.Valid()
  {
    var r := s.requests[i];
    var Deciding(generation, revision, version, level) := r.pc;
    if Changed(s, r.kind, generation, revision) then At(s, i, Done(Refused))
    else if Hash(s, version) == NO_PASSWORD then DecideUnconfigured(env, s, i, threw, at)
    else if r.candidates == [] then Fallback(s, i, level, Refused)
    else
      var (reserved, ticket) := Take(env, s.world, r.key, |r.candidates|, at);
      if ticket.None? then Fallback(s.(world := reserved), i, level, Refusal(env, s.world, r.key, at))
      else At(s.(world := reserved, holders := s.holders + [i]), i,
              Comparing(generation, revision, version, level, ticket.value))
  }

  /** What the comparisons come to, the reservations settled. */
  function AfterComparing(s: State, i: nat, matched: Option<string>, threw: bool, settled: World): State
    requires i < |s.requests| && s.requests[i].pc.Comparing?
  {
    var Comparing(generation, revision, version, level, _) := s.requests[i].pc;
    var s1 := s.(world := settled);
    if threw then At(s1, i, Done(Errored))
    else if matched.Some? then At(s1, i, Confirming(generation, version, matched.value))
    else if Changed(s, s.requests[i].kind, generation, revision) then At(s1, i, Done(Refused))
    else Fallback(s1, i, level, Refused)
  }

  /** The comparisons are over: settle, whatever came of them. */
  function Compared(env: Env, s: State, i: nat, threw: bool, at: int): (r: State)
    requires i < |s.requests| && s.requests[i].pc.Comparing? && s.world.tables.Valid()
    ensures r.world.tables.Valid()
  {
    var r := s.requests[i];
    var matched := FirstMatch(env, r.candidates, Hash(s, r.pc.version));
    var failed := if !threw && matched.None? then |r.candidates| else 0;
    AfterComparing(s, i, matched, threw, Settle(env, s.world, r.pc.ticket, failed, at))
  }

  /** The password was read again: the last guard, with nothing awaited after it. */
  function Confirm(env: Env, s: State, i: nat, at: int): (r: State)
    requires i < |s.requests| && s.requests[i].pc.Confirmed? && s.world.tables.Valid()
    ensures r.world.tables.Valid()
  {
    var r := s.requests[i];
    var Confirmed(generation, version, again, credential) := r.pc;
    if Hash(s, again) != Hash(s, version) || generation != s.generation then At(s, i, Done(Refused))
    else Grant(s.(world := Forget(env, s.world, r.key, at)), i, Some(credential), version, again)
  }

  /** What a sign-in's comparison comes to, its reservation settled. */
  function SignInCompared(s: State, i: nat, matched: Option<string>, threw: bool, settled: World,
                          forgotten: World): State
    requires i < |s.requests| && s.requests[i].pc.SignInComparing?
  {
    var SignInComparing(generation, version, _) := s.requests[i].pc;
    if threw then At(s, i, Done(Errored)).(world := settled)
    else if matched.None? || generation != s.generation then At(s, i, Done(Refused)).(world := settled)
    else At(s, i, Done(SignedIn(s.nextSession))).(
           world := forgotten,
           sessions := s.sessions[s.nextSession := Session(version, matched.value)],
           nextSession := s.nextSession + 1)
  }

  /** The sign-in's comparison is over: settle, check the generation, issue the cookie. */
  function FinishSignIn(env: Env, s: State, i: nat, threw: bool, at: int): (r: State)
    requires i < |s.requests| && s.requests[i].pc.SignInComparing? && s.world.tables.Valid()
    ensures r.world.tables.Valid()
  {
    var r := s.requests[i];
    var matched := FirstMatch(env, r.candidates, Hash(s, r.pc.version));
    var failed := if !threw && matched.None? then |r.candidates| else 0;
    var settled := Settle(env, s.world, r.pc.ticket, failed, at);
    SignInCompared(s, i, matched, threw, settled, Forget(env, settled, r.key, at))
  }

  function Arrived(env: Env, s: State, request: Request, cookie: Option<nat>, at: int): (r: State)
    requires s.world.tables.Valid()
    ensures r.world.tables.Valid()
  {
    var i := |s.requests|;
    var s1 := s.(requests := s.requests + [request.(pc := Reading(s.generation, s.revision))]);
    match request.kind
    case Header =>
      if cookie.Some? && cookie.value in s.sessions then
        var session := s.sessions[cookie.value];
        Grant(s1, i, Some(session.credential), session.version, session.version)
      else s1
    case Scrape => s1
    case SignIn =>
      var (reserved, ticket) := Take(env, s.world, request.key, |request.candidates|, at);
      if ticket.None? then At(s1, i, Done(Refusal(env, s.world, request.key, at))).(world := reserved)
      else At(s1, i, SigningIn(s.generation, ticket.value)).(world := reserved, holders := s.holders + [i])
  }

  function Answered(s: State, i: nat): State
    requires i < |s.requests|
  {
    match s.requests[i].pc
    case SigningIn(generation, ticket) => At(s, i, SignInComparing(generation, Newest(s.hashes), ticket))
    case Reading(generation, revision) =>
      if s.requests[i].kind == Header
      then At(s, i, ReadingLevel(generation, revision, Newest(s.hashes)))
      else At(s, i, Deciding(generation, revision, Newest(s.hashes), 0))
    case ReadingLevel(generation, revision, version) =>
      At(s, i, Deciding(generation, revision, version, Newest(s.levels)))
    case Confirming(generation, version, credential) =>
      At(s, i, Confirmed(generation, version, Newest(s.hashes), credential))
    case _ => s
  }

  function Resumed(env: Env, s: State, i: nat, threw: bool, at: int): (r: State)
    requires i < |s.requests| && s.world.tables.Valid()
    ensures r.world.tables.Valid()
  {
    match s.requests[i].pc
    case Deciding(_, _, _, _) => Decide(env, s, i, threw, at)
    case Comparing(_, _, _, _, _) => Compared(env, s, i, threw, at)
    case Confirmed(_, _, _, _) => Confirm(env, s, i, at)
    case SignInComparing(_, _, _) => FinishSignIn(env, s, i, threw, at)
    case SigningIn(_, ticket) =>
      if threw then At(s.(world := Settle(env, s.world, ticket, 0, at)), i, Done(Errored)) else s
    case Done(_) => s
    case _ => if threw then At(s, i, Done(Errored)) else s
  }

  /** One step of the whole server; an action out of turn changes nothing. */
  function Next(env: Env, s: State, action: Action): (r: State)
    requires s.world.tables.Valid()
    ensures r.world.tables.Valid()
  {
    match action
    case Commit(password, level) =>
      if s.writer == Resting then
        s.(hashes := if password.Some? then s.hashes + [password.value] else s.hashes,
           levels := if level.Some? then s.levels + [level.value] else s.levels,
           writer := Owing(password.Some?, level.Some?))
      else s
    case Publish =>
      if s.writer.Owing? then
        s.(generation := s.generation + if s.writer.password then 1 else 0,
           sessions := if s.writer.password then map[] else s.sessions,
           revision := s.revision + if s.writer.level then 1 else 0,
           writer := Resting)
      else s
    case DropSession(session) => s.(sessions := s.sessions - {session})
    case Arrive(request, cookie, at) =>
      if s.world.now <= at && (request.kind == SignIn ==> |request.candidates| == 1)
      then Arrived(env, s, request, cookie, at)
      else s
    case Answer(i) => if i < |s.requests| then Answered(s, i) else s
    case Resume(i, threw, at) => if i < |s.requests| && s.world.now <= at then Resumed(env, s, i, threw, at) else s
  }

  function Run(env: Env, s: State, actions: seq<Action>): (r: State)
    requires s.world.tables.Valid()
    ensures r.world.tables.Valid()
  {
    if actions == [] then s else Next(env, Run(env, s, actions[..|actions| - 1]), actions[|actions| - 1])
  }
}
