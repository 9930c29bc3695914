/**
 Who gets in: what each check of a request comes to, and that a right password,
 with nothing written while it is looked at, is let in whichever way it came.
 */
module AuthenticationProgress {
  import opened Wrappers
  import Throttle
  import opened ThrottleRuns
  import opened Authentication
  import opened AuthenticationSafety
  import opened AuthenticationLedger

  // ------------------------------------------------------------- what each check comes to

  /** Visitors may read: the level in force when it was read says so, and the route shows itself to them. */
  predicate MayView(s: State, r: Request, level: nat) {
    r.kind == Header && r.viewable && level < |s.levels| && s.levels[level] == "read"
  }

  function Turned(env: Env, s: State, r: Request, at: int): Verdict {
    if Throttle.IsLockedOut(env.config, s.world.tables.failed.Get(r.key), at) then LockedOut else Busy
  }

  function PcOf(s: State, i: nat): Pc {
    if i < |s.requests| then s.requests[i].pc else Done(Errored)
  }

  /** Where a request stands once it has gone on. */
  function PcAfter(env: Env, s: State, i: nat, threw: bool, at: int): Pc
    requires s.world.tables.Valid()
  {
    PcOf(Next(env, s, Resume(i, threw, at)), i)
  }

  /** Where an instance with a password sends a request that nothing has overtaken. */
  ghost predicate ComparedOrTurned(env: Env, s: State, r: Request, at: int, pc: Pc)
    requires s.world.tables.Valid() && r.pc.Deciding?
  {
    if r.candidates != [] && HasRoom(env, s, r.key, |r.candidates|, at)
    then pc.Comparing? && pc == Comparing(r.pc.generation, r.pc.revision, r.pc.version, r.pc.level, pc.ticket)
    else pc == Done(if MayView(s, r, r.pc.level) then GrantedAsViewer
                    else if r.candidates == [] then Refused else Turned(env, s, r, at))
  }

  lemma ConfiguredAs(env: Env, s: State, i: nat, threw: bool, at: int)
    requires s.world.tables.Valid() && i < |s.requests| && s.requests[i].pc.Deciding? && s.world.now <= at
    requires Hash(s, s.requests[i].pc.version) != "none"
    requires Unchanged(s, s.requests[i].kind, s.requests[i].pc.generation, s.requests[i].pc.revision)
    ensures ComparedOrTurned(env, s, s.requests[i], at, PcOf(Decide(env, s, i, threw, at), i))
  {
    if s.requests[i].candidates != [] {
      TakesIff(env, s.world, s.requests[i].key, |s.requests[i].candidates|, at);
    }
  }

  /** With a password stored: its guesses are compared where the throttle has room, and visitors may still read. */
  lemma ConfiguredDecidesAs(env: Env, s: State, i: nat, threw: bool, at: int)
    requires s.world.tables.Valid() && i < |s.requests| && s.requests[i].pc.Deciding? && s.world.now <= at
    requires Hash(s, s.requests[i].pc.version) != "none"
    ensures var r, pc := s.requests[i], PcAfter(env, s, i, threw, at);
            if Unchanged(s, r.kind, r.pc.generation, r.pc.revision) then ComparedOrTurned(env, s, r, at, pc)
            else pc == Done(Refused)
  {
    var r := s.requests[i];
    if Unchanged(s, r.kind, r.pc.generation, r.pc.revision) { ConfiguredAs(env, s, i, threw, at); }
  }

  lemma TokenTriedAs(s: State, i: nat, matched: Option<string>, threw: bool, settled: World, forgotten: World)
    requires i < |s.requests| && s.requests[i].pc.Deciding?
    ensures var r, s' := s.requests[i], TokenTried(s, i, matched, threw, settled, forgotten);
            && i < |s'.requests|
            && s'.requests[i].pc
               == if threw then Done(Errored) else if matched.None? then Done(Refused)
                  else if r.kind == Scrape then Confirming(r.pc.generation, r.pc.version, matched.value)
                  else Done(Granted)
  {
  }

  /** The setup token, once the throttle has let its guesses in. */
  lemma TokenDecidesAs(env: Env, s: State, i: nat, ticket: nat, threw: bool, at: int)
    requires s.world.tables.Valid() && i < |s.requests| && s.requests[i].pc.Deciding?
    ensures var r, s' := s.requests[i], TryToken(env, s, i, ticket, threw, at);
            && i < |s'.requests|
            && var pc := s'.requests[i].pc;
               if threw then pc == Done(Errored)
               else if !SomeOpens(env, r.candidates, Hash(s, r.pc.version)) then pc == Done(Refused)
               else if r.kind == Scrape
               then pc.Confirming? && pc == Confirming(r.pc.generation, r.pc.version, pc.credential)
               else pc == Done(Granted)
  {
    var r := s.requests[i];
    var matched := FirstMatch(env, r.candidates, Hash(s, r.pc.version));
    MatchIsSome(env, r.candidates, Hash(s, r.pc.version));
    var settled := Settle(env, s.world, ticket, if !threw && matched.None? then |r.candidates| else 0, at);
    TokenTriedAs(s, i, matched, threw, settled, Forget(env, settled, r.key, at));
  }

  /** Where an unconfigured instance sends a request that nothing has overtaken. */
  ghost predicate SentTo(env: Env, s: State, r: Request, threw: bool, at: int, pc: Pc)
    requires s.world.tables.Valid() && r.pc.Deciding?
  {
    if r.local then pc == Done(Granted)
    else if r.candidates == [] then pc == Done(Refused)
    else if !HasRoom(env, s, r.key, |r.candidates|, at) then pc == Done(Turned(env, s, r, at))
    else if threw then pc == Done(Errored)
    else if !SomeOpens(env, r.candidates, "none") then pc == Done(Refused)
    else if r.kind == Scrape then pc.Confirming? && pc == Confirming(r.pc.generation, r.pc.version, pc.credential)
    else pc == Done(Granted)
  }

  lemma UnconfiguredAs(env: Env, s: State, i: nat, threw: bool, at: int)
    requires s.world.tables.Valid() && i < |s.requests| && s.requests[i].pc.Deciding? && s.world.now <= at
    requires Hash(s, s.requests[i].pc.version) == "none"
    ensures SentTo(env, s, s.requests[i], threw, at, PcOf(DecideUnconfigured(env, s, i, threw, at), i))
  {
    var r := s.requests[i];
    if r.candidates != [] {
      TakesIff(env, s.world, r.key, |r.candidates|, at);
      var (reserved, ticket) := Take(env, s.world, r.key, |r.candidates|, at);
      if ticket.Some? {
        TokenDecidesAs(env, s.(world := reserved, holders := s.holders + [i]), i, ticket.value, threw, at);
      }
    }
  }

  lemma UnconfiguredDecide(env: Env, s: State, i: nat, threw: bool, at: int)
    requires s.world.tables.Valid() && i < |s.requests| && s.requests[i].pc.Deciding? && s.world.now <= at
    requires Hash(s, s.requests[i].pc.version) == "none"
    ensures var r, pc := s.requests[i], PcOf(Decide(env, s, i, threw, at), i);
            if Unchanged(s, r.kind, r.pc.generation, r.pc.revision) then SentTo(env, s, r, threw, at, pc)
            else pc == Done(Refused)
  {
    UnconfiguredAs(env, s, i, threw, at);
  }

  /** Without one: local callers are let in, others by the setup token, a scrape once the password is read again. */
  lemma UnconfiguredDecidesAs(env: Env, s: State, i: nat, threw: bool, at: int)
    requires s.world.tables.Valid() && i < |s.requests| && s.requests[i].pc.Deciding? && s.world.now <= at
    requires Hash(s, s.requests[i].pc.version) == "none"
    ensures var r, pc := s.requests[i], PcAfter(env, s, i, threw, at);
            if Unchanged(s, r.kind, r.pc.generation, r.pc.revision) then SentTo(env, s, r, threw, at, pc)
            else pc == Done(Refused)
  {
    UnconfiguredDecide(env, s, i, threw, at);
  }

  /** A comparison that throws is the server's error, a right guess goes on to be confirmed, wrong ones are refused. */
  lemma ComparedAs(env: Env, s: State, i: nat, threw: bool, at: int)
    requires s.world.tables.Valid() && i < |s.requests| && s.requests[i].pc.Comparing? && s.world.now <= at
    ensures var r, pc := s.requests[i], PcAfter(env, s, i, threw, at);
            if threw then pc == Done(Errored)
            else if SomeOpens(env, r.candidates, Hash(s, r.pc.version))
            then pc.Confirming? && pc == Confirming(r.pc.generation, r.pc.version, pc.credential)
            else pc == Done(if Unchanged(s, r.kind, r.pc.generation, r.pc.revision) && MayView(s, r, r.pc.level)
                            then GrantedAsViewer else Refused)
  {
    MatchIsSome(env, s.requests[i].candidates, Hash(s, s.requests[i].pc.version));
  }

  /** The last guard: in exactly when the password read again is the one compared and nothing was published since. */
  lemma ConfirmedAs(env: Env, s: State, i: nat, threw: bool, at: int)
    requires s.world.tables.Valid() && i < |s.requests| && s.requests[i].pc.Confirmed? && s.world.now <= at
    ensures var pc := s.requests[i].pc;
            PcAfter(env, s, i, threw, at)
            == Done(if Hash(s, pc.again) == Hash(s, pc.version) && pc.generation == s.generation then Granted
                    else Refused)
  {
  }

  /** A sign-in is given its session exactly when its guess opens the password read and nothing was published since. */
  lemma SignedInAs(env: Env, s: State, i: nat, threw: bool, at: int)
    requires s.world.tables.Valid() && i < |s.requests| && s.requests[i].pc.SignInComparing? && s.world.now <= at
    ensures var r, s' := s.requests[i], Next(env, s, Resume(i, threw, at));
            var right := SomeOpens(env, r.candidates, Hash(s, r.pc.version)) && r.pc.generation == s.generation;
            && PcAfter(env, s, i, threw, at)
               == Done(if threw then Errored else if right then SignedIn(s.nextSession) else Refused)
            && (if !threw && right then
                  && s.nextSession in s'.sessions && s'.nextSession == s.nextSession + 1
                  && s'.sessions[s.nextSession].version == r.pc.version
                  && s'.sessions - {s.nextSession} == s.sessions - {s.nextSession}
                else s'.sessions == s.sessions)
  {
    MatchIsSome(env, s.requests[i].candidates, Hash(s, s.requests[i].pc.version));
  }

  // -------------------------------------------------------------------- while others go on

  /** Anybody else's step: requests come, are answered and go on, sessions are dropped; nothing is written. */
  predicate Elsewhere(action: Action, i: nat) {
    match action
    case Commit(_, _) => false
    case Publish => false
    case DropSession(_) => true
    case Arrive(_, _, _) => true
    case Answer(j) => j != i
    case Resume(j, _, _) => j != i
  }

  /** The request is where it was, under the credentials there were. */
  ghost predicate Stands(s: State, s': State, i: nat) {
    && i < |s.requests| <= |s'.requests| && s'.requests[i] == s.requests[i]
    && SameCredentials(s, s')
  }

  /** A request's own step moves it alone and writes nothing stored. */
  ghost predicate MovesAlone(s: State, s': State, j: nat) {
    SameCredentials(s, s') && Moved(s, s', j)
  }

  lemma MovingStands(s: State, s': State, j: nat, i: nat)
    requires MovesAlone(s, s', j) && i < |s.requests| && i != j
    ensures Stands(s, s', i)
  {
  }

  lemma TokenMoves(s: State, j: nat, matched: Option<string>, threw: bool, settled: World, forgotten: World)
    requires j < |s.requests| && s.requests[j].pc.Deciding?
    ensures MovesAlone(s, TokenTried(s, j, matched, threw, settled, forgotten), j)
    ensures TokenTried(s, j, matched, threw, settled, forgotten).sessions == s.sessions
  {
  }

  lemma ComparedMoves(s: State, j: nat, matched: Option<string>, threw: bool, settled: World)
    requires j < |s.requests| && s.requests[j].pc.Comparing?
    ensures MovesAlone(s, AfterComparing(s, j, matched, threw, settled), j)
  {
  }

  lemma SignInMoves(s: State, j: nat, matched: Option<string>, threw: bool, settled: World, forgotten: World)
    requires j < |s.requests| && s.requests[j].pc.SignInComparing?
    ensures MovesAlone(s, SignInCompared(s, j, matched, threw, settled, forgotten), j)
  {
  }

  lemma TryingMoves(env: Env, s: State, j: nat, ticket: nat, threw: bool, at: int)
    requires s.world.tables.Valid() && j < |s.requests| && s.requests[j].pc.Deciding?
    ensures MovesAlone(s, TryToken(env, s, j, ticket, threw, at), j)
    ensures TryToken(env, s, j, ticket, threw, at).sessions == s.sessions
  {
    var r := s.requests[j];
    var matched := FirstMatch(env, r.candidates, Hash(s, r.pc.version));
    var settled := Settle(env, s.world, ticket, if !threw && matched.None? then |r.candidates| else 0, at);
    TokenMoves(s, j, matched, threw, settled, Forget(env, settled, r.key, at));
  }

  lemma UnconfiguredMoves(env: Env, s: State, j: nat, threw: bool, at: int)
    requires s.world.tables.Valid() && j < |s.requests| && s.requests[j].pc.Deciding?
    ensures MovesAlone(s, DecideUnconfigured(env, s, j, threw, at), j)
    ensures DecideUnconfigured(env, s, j, threw, at).sessions == s.sessions
  {
    var r := s.requests[j];
    var (reserved, ticket) := Take(env, s.world, r.key, |r.candidates|, at);
    if ticket.Some? {
      TryingMoves(env, s.(world := reserved, holders := s.holders + [j]), j, ticket.value, threw, at);
    }
  }

  lemma ConfiguredMoves(env: Env, s: State, j: nat, threw: bool, at: int)
    requires s.world.tables.Valid() && j < |s.requests| && s.requests[j].pc.Deciding?
    requires Hash(s, s.requests[j].pc.version) != NO_PASSWORD
    ensures MovesAlone(s, Decide(env, s, j, threw, at), j)
    ensures Decide(env, s, j, threw, at).sessions == s.sessions
  {
  }

  lemma DecidingMoves(env: Env, s: State, j: nat, threw: bool, at: int)
    requires s.world.tables.Valid() && j < |s.requests| && s.requests[j].pc.Deciding?
    ensures MovesAlone(s, Decide(env, s, j, threw, at), j)
    ensures Decide(env, s, j, threw, at).sessions == s.sessions
  {
    if Hash(s, s.requests[j].pc.version) == NO_PASSWORD {
      UnconfiguredMoves(env, s, j, threw, at);
    } else {
      ConfiguredMoves(env, s, j, threw, at);
    }
  }

  lemma ComparingMoves(env: Env, s: State, j: nat, threw: bool, at: int)
    requires s.world.tables.Valid() && j < |s.requests| && s.requests[j].pc.Comparing?
    ensures MovesAlone(s, Compared(env, s, j, threw, at), j)
  {
    var r := s.requests[j];
    var matched := FirstMatch(env, r.candidates, Hash(s, r.pc.version));
    ComparedMoves(s, j, matched, threw, Settle(env, s.world, r.pc.ticket,
                                               if !threw && matched.None? then |r.candidates| else 0, at));
  }

  lemma SigningInMoves(env: Env, s: State, j: nat, threw: bool, at: int)
    requires s.world.tables.Valid() && j < |s.requests| && s.requests[j].pc.SignInComparing?
    ensures MovesAlone(s, FinishSignIn(env, s, j, threw, at), j)
  {
    var r := s.requests[j];
    var matched := FirstMatch(env, r.candidates, Hash(s, r.pc.version));
    var settled := Settle(env, s.world, r.pc.ticket, if !threw && matched.None? then |r.candidates| else 0, at);
    SignInMoves(s, j, matched, threw, settled, Forget(env, settled, r.key, at));
  }

  lemma StayingMoves(s: State, j: nat)
    requires j < |s.requests|
    ensures MovesAlone(s, s, j)
  {
  }

  lemma ResumingMoves(env: Env, s: State, j: nat, threw: bool, at: int)
    requires s.world.tables.Valid() && j < |s.requests|
    ensures MovesAlone(s, Resumed(env, s, j, threw, at), j)
  {
    StayingMoves(s, j);
    match s.requests[j].pc
    case Deciding(_, _, _, _) => DecidingMoves(env, s, j, threw, at);
    case Comparing(_, _, _, _, _) => ComparingMoves(env, s, j, threw, at);
    case SignInComparing(_, _, _) => SigningInMoves(env, s, j, threw, at);
    case _ =>
  }

  lemma ArrivingStands(env: Env, s: State, request: Request, cookie: Option<nat>, at: int, i: nat)
    requires s.world.tables.Valid() && i < |s.requests|
    ensures Stands(s, Arrived(env, s, request, cookie, at), i)
  {
  }

  lemma AnswerStands(env: Env, s: State, i: nat)
    requires s.world.tables.Valid() && i < |s.requests|
    ensures var s' := Next(env, s, Answer(i));
            && MovesAlone(s, s', i) && s'.requests[i].pc == AnsweredPc(s, s.requests[i]) && s'.world == s.world
  {
    AnswerIsAMove(s, i);
  }

  lemma ElsewhereStands(env: Env, s: State, action: Action, i: nat)
    requires s.world.tables.Valid() && i < |s.requests| && Elsewhere(action, i)
    ensures Stands(s, Next(env, s, action), i)
  {
    if action.Arrive? {
      ArrivingStands(env, s, action.request, action.cookie, action.at, i);
    } else if action.Resume? && action.i < |s.requests| && s.world.now <= action.at {
      ResumingMoves(env, s, action.i, action.threw, action.at);
      MovingStands(s, Next(env, s, action), action.i, i);
    } else if action.Answer? && action.i < |s.requests| {
      AnswerStands(env, s, action.i);
      MovingStands(s, Next(env, s, action), action.i, i);
    }
  }

  /** An action of the request itself, and then those of others, one after the other. */
  function Onward(env: Env, s: State, own: Action, others: seq<Action>): (r: State)
    requires s.world.tables.Valid()
    ensures r.world.tables.Valid()
  {
    if others == [] then Next(env, s, own)
    else Next(env, Onward(env, s, own, others[..|others| - 1]), others[|others| - 1])
  }

  lemma {:induction false} OthersLeaveItStanding(env: Env, s: State, own: Action, others: seq<Action>, i: nat,
                                                 next: State)
    requires s.world.tables.Valid() && next == Next(env, s, own) && i < |next.requests|
    requires forall a :: a in others ==> Elsewhere(a, i)
    ensures Stands(next, Onward(env, s, own, others), i)
  {
    if others == [] {
    } else {
      var before := Onward(env, s, own, others[..|others| - 1]);
      OthersLeaveItStanding(env, s, own, others[..|others| - 1], i, next);
      ElsewhereStands(env, before, others[|others| - 1], i);
    }
  }

  /** Where the server is some time after an action of the request itself, others having gone on since. */
  ghost predicate GoesOn(env: Env, s: State, own: Action, i: nat, later: State)
    requires s.world.tables.Valid()
  {
    && later.world.tables.Valid()
    && exists others :: (forall a :: a in others ==> Elsewhere(a, i)) && later == Onward(env, s, own, others)
  }

  ghost predicate Reached(s: State, i: nat, r: Request) {
    i < |s.requests| && s.requests[i] == r
  }

  /** What the action left the request at is where it still is. */
  lemma GoneOn(env: Env, s: State, own: Action, i: nat, later: State, next: State)
    requires s.world.tables.Valid() && GoesOn(env, s, own, i, later)
    requires next == Next(env, s, own) && i < |next.requests|
    ensures Reached(later, i, next.requests[i]) && SameCredentials(next, later)
  {
    var others :| (forall a :: a in others ==> Elsewhere(a, i)) && later == Onward(env, s, own, others);
    OthersLeaveItStanding(env, s, own, others, i, next);
  }

  lemma ArrivalGoesOn(env: Env, s: State, r: Request, at: int, later: State)
    requires s.world.tables.Valid() && s.world.now <= at && r.kind != SignIn
    requires GoesOn(env, s, Arrive(r, None, at), |s.requests|, later)
    ensures Reached(later, |s.requests|, r.(pc := Reading(s.generation, s.revision))) && SameCredentials(s, later)
  {
    GoneOn(env, s, Arrive(r, None, at), |s.requests|, later, Next(env, s, Arrive(r, None, at)));
  }

  lemma AnswerGoesOn(env: Env, s: State, i: nat, later: State)
    requires s.world.tables.Valid() && i < |s.requests| && GoesOn(env, s, Answer(i), i, later)
    ensures Reached(later, i, s.requests[i].(pc := AnsweredPc(s, s.requests[i]))) && SameCredentials(s, later)
  {
    AnswerStands(env, s, i);
    GoneOn(env, s, Answer(i), i, later, Next(env, s, Answer(i)));
  }

  lemma ResumeGoesOn(env: Env, s: State, i: nat, threw: bool, at: int, later: State, next: State)
    requires s.world.tables.Valid() && i < |s.requests| && s.world.now <= at
    requires GoesOn(env, s, Resume(i, threw, at), i, later) && next == Next(env, s, Resume(i, threw, at))
    ensures i < |next.requests| && Reached(later, i, s.requests[i].(pc := next.requests[i].pc))
    ensures SameCredentials(s, later)
  {
    ResumingMoves(env, s, i, threw, at);
    GoneOn(env, s, Resume(i, threw, at), i, later, next);
  }

  // --------------------------------------------------------------- a right password is let in

  /** The reads of a header request: the password and the level as they stand. */
  lemma HeaderDecides(env: Env, s: State, r: Request, at: int, w1: State, w2: State, w3: State)
    requires s.world.tables.Valid() && s.world.now <= at && r.kind == Header
    requires var i := |s.requests|;
             && GoesOn(env, s, Arrive(r, None, at), i, w1)
             && GoesOn(env, w1, Answer(i), i, w2) && GoesOn(env, w2, Answer(i), i, w3)
    ensures Reached(w3, |s.requests|,
                    r.(pc := Deciding(s.generation, s.revision, Newest(s.hashes), Newest(s.levels))))
    ensures SameCredentials(s, w3)
  {
    ArrivalGoesOn(env, s, r, at, w1);
    AnswerGoesOn(env, w1, |s.requests|, w2);
    AnswerGoesOn(env, w2, |s.requests|, w3);
  }

  /** The one read of a scrape. */
  lemma ScrapeDecides(env: Env, s: State, r: Request, at: int, w1: State, w2: State)
    requires s.world.tables.Valid() && s.world.now <= at && r.kind == Scrape
    requires GoesOn(env, s, Arrive(r, None, at), |s.requests|, w1)
    requires GoesOn(env, w1, Answer(|s.requests|), |s.requests|, w2)
    ensures Reached(w2, |s.requests|, r.(pc := Deciding(s.generation, s.revision, Newest(s.hashes), 0)))
    ensures SameCredentials(s, w2)
  {
    ArrivalGoesOn(env, s, r, at, w1);
    AnswerGoesOn(env, w1, |s.requests|, w2);
  }

  lemma DecidingCompares(env: Env, s: State, i: nat, at: int, w: State)
    requires s.world.tables.Valid() && i < |s.requests| && s.world.now <= at && s.requests[i].pc.Deciding?
    requires var r := s.requests[i];
             && Unchanged(s, r.kind, r.pc.generation, r.pc.revision) && Hash(s, r.pc.version) != "none"
             && r.candidates != [] && HasRoom(env, s, r.key, |r.candidates|, at)
    requires GoesOn(env, s, Resume(i, false, at), i, w)
    ensures i < |w.requests| && w.requests[i].pc.Comparing? && SameCredentials(s, w)
    ensures w.requests[i].pc.version == s.requests[i].pc.version && w.requests[i].candidates == s.requests[i].candidates
    ensures w.requests[i].pc.generation == s.requests[i].pc.generation
  {
    ConfiguredDecidesAs(env, s, i, false, at);
    ResumeGoesOn(env, s, i, false, at, w, Next(env, s, Resume(i, false, at)));
  }

  lemma ComparingConfirms(env: Env, s: State, i: nat, at: int, w: State)
    requires s.world.tables.Valid() && i < |s.requests| && s.world.now <= at && s.requests[i].pc.Comparing?
    requires SomeOpens(env, s.requests[i].candidates, Hash(s, s.requests[i].pc.version))
    requires GoesOn(env, s, Resume(i, false, at), i, w)
    ensures i < |w.requests| && w.requests[i].pc.Confirming? && SameCredentials(s, w)
    ensures w.requests[i].pc.version == s.requests[i].pc.version
    ensures w.requests[i].pc.generation == s.requests[i].pc.generation
  {
    ComparedAs(env, s, i, false, at);
    ResumeGoesOn(env, s, i, false, at, w, Next(env, s, Resume(i, false, at)));
  }

  /** The password is as it was read: reading it again lets the request in. */
  lemma ConfirmingIsLetIn(env: Env, s: State, i: nat, w: State, threw: bool, at: int, after: State)
    requires s.world.tables.Valid() && i < |s.requests| && s.requests[i].pc.Confirming?
    requires s.requests[i].pc.generation == s.generation && s.requests[i].pc.version == Newest(s.hashes)
    requires GoesOn(env, s, Answer(i), i, w) && w.world.now <= at && GoesOn(env, w, Resume(i, threw, at), i, after)
    ensures Reached(after, i, s.requests[i].(pc := Done(Granted)))
  {
    AnswerGoesOn(env, s, i, w);
    ConfirmedAs(env, w, i, threw, at);
    ResumeGoesOn(env, w, i, threw, at, after, Next(env, w, Resume(i, threw, at)));
  }

  /**
   A header request or a scrape that carries the stored password is let in, past
   whatever others do in between, when nothing is written meanwhile and the
   throttle has room for its guesses as it decides.
   */
  lemma RightPasswordIsLetIn(env: Env, s: State, i: nat, at: int, w1: State, comparedAt: int, w2: State, w3: State,
                             threw: bool, confirmedAt: int, after: State)
    requires s.world.tables.Valid() && i < |s.requests| && s.world.now <= at && s.requests[i].pc.Deciding?
    requires var r := s.requests[i];
             && Unchanged(s, r.kind, r.pc.generation, r.pc.revision) && r.pc.version == Newest(s.hashes)
             && Hash(s, Newest(s.hashes)) != "none" && SomeOpens(env, r.candidates, Hash(s, Newest(s.hashes)))
             && HasRoom(env, s, r.key, |r.candidates|, at)
    requires GoesOn(env, s, Resume(i, false, at), i, w1)
    requires w1.world.now <= comparedAt && GoesOn(env, w1, Resume(i, false, comparedAt), i, w2)
    requires GoesOn(env, w2, Answer(i), i, w3)
    requires w3.world.now <= confirmedAt && GoesOn(env, w3, Resume(i, threw, confirmedAt), i, after)
    ensures i < |after.requests| && after.requests[i].pc == Done(Granted)
  {
    DecidingCompares(env, s, i, at, w1);
    ComparingConfirms(env, w1, i, comparedAt, w2);
    ConfirmingIsLetIn(env, w2, i, w3, threw, confirmedAt, after);
  }

  /** On an instance without a password, a remote caller with the setup token is let in as it is decided. */
  lemma SetupTokenIsLetIn(env: Env, s: State, i: nat, at: int, after: State)
    requires s.world.tables.Valid() && i < |s.requests| && s.world.now <= at && s.requests[i].pc.Deciding?
    requires s.requests[i].kind == Header && ShowsToken(env, s, i, at)
    requires exists c :: c in s.requests[i].candidates && env.isSetupToken(c)
    requires GoesOn(env, s, Resume(i, false, at), i, after)
    ensures Reached(after, i, s.requests[i].(pc := Done(Granted)))
  {
    var c :| c in s.requests[i].candidates && env.isSetupToken(c);
    assert Opens(env, c, "none");
    UnconfiguredDecidesAs(env, s, i, false, at);
    ResumeGoesOn(env, s, i, false, at, after, Next(env, s, Resume(i, false, at)));
  }

  /** The state a sign-in's arrival leaves. */
  ghost predicate SigningInFrom(s: State, r: Request, next: State) {
    && |next.requests| == |s.requests| + 1 && SameCredentials(s, next)
    && var q := next.requests[|s.requests|];
       q.candidates == r.candidates && q.pc.SigningIn? && q.pc.generation == s.generation
  }

  lemma SignInArrivesAt(env: Env, s: State, r: Request, at: int)
    requires s.world.tables.Valid() && s.world.now <= at && r.kind == SignIn && |r.candidates| == 1
    requires HasRoom(env, s, r.key, 1, at)
    ensures SigningInFrom(s, r, Arrived(env, s, r, None, at))
  {
    TakesIff(env, s.world, r.key, 1, at);
  }

  lemma ArriveArrives(env: Env, s: State, r: Request, at: int)
    requires s.world.tables.Valid() && s.world.now <= at && |r.candidates| == 1
    ensures Next(env, s, Arrive(r, None, at)) == Arrived(env, s, r, None, at)
  {
  }

  lemma SigningInGoesOn(env: Env, s: State, r: Request, at: int, w: State, next: State)
    requires s.world.tables.Valid() && GoesOn(env, s, Arrive(r, None, at), |s.requests|, w)
    requires next == Next(env, s, Arrive(r, None, at)) && SigningInFrom(s, r, next)
    ensures |s.requests| < |w.requests| && SameCredentials(s, w)
    ensures var q := w.requests[|s.requests|];
            q.candidates == r.candidates && q.pc.SigningIn? && q.pc.generation == s.generation
  {
    GoneOn(env, s, Arrive(r, None, at), |s.requests|, w, next);
  }

  lemma SignInArrivalGoesOn(env: Env, s: State, r: Request, at: int, w: State)
    requires s.world.tables.Valid() && s.world.now <= at && r.kind == SignIn && |r.candidates| == 1
    requires HasRoom(env, s, r.key, 1, at) && GoesOn(env, s, Arrive(r, None, at), |s.requests|, w)
    ensures |s.requests| < |w.requests| && SameCredentials(s, w)
    ensures var q := w.requests[|s.requests|];
            q.candidates == r.candidates && q.pc.SigningIn? && q.pc.generation == s.generation
  {
    SignInArrivesAt(env, s, r, at);
    ArriveArrives(env, s, r, at);
    SigningInGoesOn(env, s, r, at, w, Arrived(env, s, r, None, at));
  }

  /** A sign-in with the stored password is given a session of its own, under the same proviso. */
  lemma RightSignInIsLetIn(env: Env, s: State, r: Request, at: int, w1: State, w2: State, comparedAt: int, after: State)
    requires s.world.tables.Valid() && s.world.now <= at && r.kind == SignIn && |r.candidates| == 1
    requires Opens(env, r.candidates[0], Hash(s, Newest(s.hashes))) && HasRoom(env, s, r.key, 1, at)
    requires var i := |s.requests|;
             && GoesOn(env, s, Arrive(r, None, at), i, w1) && GoesOn(env, w1, Answer(i), i, w2)
             && w2.world.now <= comparedAt && GoesOn(env, w2, Resume(i, false, comparedAt), i, after)
    ensures |s.requests| < |after.requests| && after.requests[|s.requests|].pc == Done(SignedIn(w2.nextSession))
  {
    var i := |s.requests|;
    SignInArrivalGoesOn(env, s, r, at, w1);
    AnswerGoesOn(env, w1, i, w2);
    assert w2.requests[i].candidates[0] in w2.requests[i].candidates;
    SignedInAs(env, w2, i, false, comparedAt);
    ResumeGoesOn(env, w2, i, false, comparedAt, after, Next(env, w2, Resume(i, false, comparedAt)));
  }

  // --------------------------------------------------------------------------- sessions

  /** A live session lets its requests in as they arrive. */
  lemma SessionIsLetIn(env: Env, s: State, r: Request, id: nat, at: int)
    requires s.world.tables.Valid() && s.world.now <= at && r.kind == Header && id in s.sessions
    ensures Reached(Next(env, s, Arrive(r, Some(id), at)), |s.requests|, r.(pc := Done(Granted)))
  {
  }

  lemma ResumingKeepsSessions(env: Env, s: State, i: nat, threw: bool, at: int)
    requires s.world.tables.Valid() && i < |s.requests|
    ensures s.sessions.Keys <= Resumed(env, s, i, threw, at).sessions.Keys
  {
    if s.requests[i].pc.Deciding? { DecidingMoves(env, s, i, threw, at); }
  }

  /** And it lives until it is dropped or a password is published: no other step ends it. */
  lemma SessionEndsOnlyBy(env: Env, s: State, action: Action, id: nat)
    requires s.world.tables.Valid() && id in s.sessions && id !in Next(env, s, action).sessions
    ensures action == DropSession(id) || (action == Publish && s.writer.Owing? && s.writer.password)
  {
    if action.Resume? && action.i < |s.requests| && s.world.now <= action.at {
      ResumingKeepsSessions(env, s, action.i, action.threw, action.at);
    }
  }
}
