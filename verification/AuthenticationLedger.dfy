/**
 The comparisons of every way in, logged as they end: whose guesses they were, how
 many, and whether any of them opens the password that was read. The throttle's
 charges are this log, and nothing a handler decides for itself.
 */
module AuthenticationLedger {
  import opened Wrappers
  import Throttle
  import opened ThrottleRuns
  import opened Authentication
  import opened AuthenticationSafety

  // ------------------------------------------------------------------------------ the log

  /** A comparison that has just ended. */
  datatype Comparison = Comparison(key: string, at: int, guesses: nat, right: bool, threw: bool)

  ghost predicate SomeOpens(env: Env, candidates: seq<string>, hash: string) {
    exists c :: c in candidates && Opens(env, c, hash)
  }

  /** Nothing the handler depends on was published since it read what it read. */
  ghost predicate Unchanged(s: State, kind: Kind, generation: nat, revision: nat) {
    generation == s.generation && (kind == Header ==> revision == s.revision)
  }

  /** The throttle has room for the guesses of a client that is not locked out. */
  ghost predicate HasRoom(env: Env, s: State, key: string, guesses: nat, at: int)
    requires s.world.tables.Valid()
  {
    Throttle.Reserve(env.config, s.world.tables, key, guesses, at).1.Admitted?
  }

  /** A remote caller of an instance without a password presents its guesses at the setup token. */
  ghost predicate ShowsToken(env: Env, s: State, i: nat, at: int)
    requires i < |s.requests| && s.requests[i].pc.Deciding? && s.world.tables.Valid()
  {
    var r := s.requests[i];
    && Unchanged(s, r.kind, r.pc.generation, r.pc.revision) && Hash(s, r.pc.version) == "none"
    && !r.local && r.candidates != [] && HasRoom(env, s, r.key, |r.candidates|, at)
  }

  /** The request ends a comparison when it goes on: of a header or a scrape, of a sign-in, or of the setup token. */
  ghost predicate Ends(env: Env, s: State, i: nat, at: int)
    requires i < |s.requests| && s.world.tables.Valid()
  {
    var pc := s.requests[i].pc;
    pc.Comparing? || pc.SignInComparing? || (pc.Deciding? && ShowsToken(env, s, i, at))
  }

  /** The comparison an action ends, if it ends one. */
  ghost function Compares(env: Env, s: State, action: Action): Option<Comparison>
    requires s.world.tables.Valid()
  {
    if !action.Resume? || action.i >= |s.requests| || action.at < s.world.now || !Ends(env, s, action.i, action.at)
    then None
    else
      var r := s.requests[action.i];
      Some(Comparison(r.key, action.at, |r.candidates|, SomeOpens(env, r.candidates, Hash(s, r.pc.version)),
                      action.threw))
  }

  predicate IsIn(pc: Pc) {
    pc.Done? && (pc.verdict.Granted? || pc.verdict.SignedIn?)
  }

  /** The client an action lets in by a password it presented: its failures are forgiven. */
  ghost function LetIn(s: State, action: Action, after: State): Option<string> {
    if !action.Resume? || action.i >= |s.requests| || action.i >= |after.requests| then None
    else
      var r := s.requests[action.i];
      if !IsIn(r.pc) && IsIn(after.requests[action.i].pc) && !(r.pc.Deciding? && r.local) then Some(r.key) else None
  }

  /** One more action: a comparison without a match and without a throw is as many wrong guesses as it had. */
  ghost function Logged(env: Env, s: State, action: Action, after: State, log: seq<Charge>): seq<Charge>
    requires s.world.tables.Valid()
  {
    var c := Compares(env, s, action);
    if c.Some? && !c.value.threw && !c.value.right && c.value.guesses > 0
    then log + [Charge(c.value.key, c.value.at, c.value.guesses)]
    else if LetIn(s, action, after).Some? then Uncharged(log, LetIn(s, action, after).value)
    else log
  }

  /** The wrong guesses of a run, since each client was last let in. */
  ghost function WrongGuesses(env: Env, s: State, actions: seq<Action>): seq<Charge>
    requires s.world.tables.Valid()
  {
    if actions == [] then []
    else
      var before, last := actions[..|actions| - 1], actions[|actions| - 1];
      Logged(env, Run(env, s, before), last, Run(env, s, actions), WrongGuesses(env, s, before))
  }

  // ----------------------------------------------------------------- the charges are the log

  lemma TakeCharges(env: Env, w: World, key: string, attempts: nat, at: int)
    requires w.tables.Valid()
    ensures Take(env, w, key, attempts, at).0.charges == w.charges
  {
  }

  lemma TakesIff(env: Env, w: World, key: string, attempts: nat, at: int)
    requires w.tables.Valid() && w.now <= at && attempts >= 1
    ensures Take(env, w, key, attempts, at).1.Some?
            <==> Throttle.Reserve(env.config, w.tables, key, attempts, at).1.Admitted?
  {
  }

  lemma SettleCharges(env: Env, w: World, ticket: nat, failed: nat, at: int)
    requires w.tables.Valid() && w.now <= at && ticket < |w.tickets| && ticket !in w.settled
    requires failed <= w.tickets[ticket].attempts
    ensures Settle(env, w, ticket, failed, at).charges
         == if failed > 0 then w.charges + [Charge(w.tickets[ticket].key, at, failed)] else w.charges
  {
  }

  lemma ForgetCharges(env: Env, w: World, key: string, at: int)
    requires w.tables.Valid() && w.now <= at
    ensures Forget(env, w, key, at).charges == Uncharged(w.charges, key)
  {
  }

  lemma MatchIsSome(env: Env, candidates: seq<string>, hash: string)
    ensures FirstMatch(env, candidates, hash).Some? <==> SomeOpens(env, candidates, hash)
  {
  }

  /** A handler that holds a ticket is the only one that can settle it, and has not yet. */
  lemma HeldIsUnsettled(env: Env, s: State, i: nat, t: nat)
    requires Inv(env, s) && i < |s.requests| && Holding(s.requests[i].pc) == Some(t)
    ensures HoldsOwn(s, i, t) && t !in s.world.settled
  {
    assert HoldsOwn(s, i, t);
  }

  /** What a check that ended leaves of the charges, whichever way in it was. */
  ghost predicate ChargedAs(before: seq<Charge>, after: seq<Charge>, r: Request, right: bool, threw: bool, letIn: bool,
                            at: int) {
    if !threw && !right && r.candidates != [] then after == before + [Charge(r.key, at, |r.candidates|)] && !letIn
    else if letIn then after == Uncharged(before, r.key)
    else after == before
  }

  lemma ComparedCharges(env: Env, s: State, i: nat, threw: bool, at: int)
    requires Inv(env, s) && i < |s.requests| && s.requests[i].pc.Comparing? && s.world.now <= at
    ensures var r, s' := s.requests[i], Compared(env, s, i, threw, at);
            ChargedAs(s.world.charges, s'.world.charges, r, SomeOpens(env, r.candidates, Hash(s, r.pc.version)), threw,
                      IsIn(s'.requests[i].pc), at)
  {
    var r := s.requests[i];
    HeldIsUnsettled(env, s, i, r.pc.ticket);
    MatchIsSome(env, r.candidates, Hash(s, r.pc.version));
    SettleCharges(env, s.world, r.pc.ticket, 0, at);
    SettleCharges(env, s.world, r.pc.ticket, |r.candidates|, at);
  }

  lemma SignInIsInOnlyOn(s: State, i: nat, matched: Option<string>, threw: bool, settled: World, forgotten: World)
    requires i < |s.requests| && s.requests[i].pc.SignInComparing?
    ensures var s' := SignInCompared(s, i, matched, threw, settled, forgotten);
            if IsIn(s'.requests[i].pc) then !threw && matched.Some? && s'.world == forgotten else s'.world == settled
  {
  }

  lemma TokenIsInOnlyOn(s: State, i: nat, matched: Option<string>, threw: bool, settled: World, forgotten: World)
    requires i < |s.requests| && s.requests[i].pc.Deciding?
    ensures var s' := TokenTried(s, i, matched, threw, settled, forgotten);
            if IsIn(s'.requests[i].pc) then !threw && matched.Some? && s'.world == forgotten else s'.world == settled
  {
  }

  /** A check that settles its ticket, and forgives the client it lets in. */
  lemma SettledIsCharged(env: Env, w: World, ticket: nat, r: Request, right: bool, threw: bool, letIn: bool, at: int,
                         after: World)
    requires Numbered(w) && w.now <= at && ticket < |w.tickets| && ticket !in w.settled
    requires w.tickets[ticket].key == r.key && w.tickets[ticket].attempts == |r.candidates|
    requires letIn ==> !threw && right
    requires var settled := Settle(env, w, ticket, if !threw && !right then |r.candidates| else 0, at);
             after == if letIn then Forget(env, settled, r.key, at) else settled
    ensures ChargedAs(w.charges, after.charges, r, right, threw, letIn, at)
  {
    var failed := if !threw && !right then |r.candidates| else 0;
    SettleCharges(env, w, ticket, failed, at);
    SettleFacts(env, w, ticket, failed, at);
    ForgetCharges(env, Settle(env, w, ticket, failed, at), r.key, at);
  }

  lemma SignInCharges(env: Env, s: State, i: nat, threw: bool, at: int)
    requires Inv(env, s) && i < |s.requests| && s.requests[i].pc.SignInComparing? && s.world.now <= at
    ensures var r, s' := s.requests[i], FinishSignIn(env, s, i, threw, at);
            ChargedAs(s.world.charges, s'.world.charges, r, SomeOpens(env, r.candidates, Hash(s, r.pc.version)), threw,
                      IsIn(s'.requests[i].pc), at)
  {
    var r := s.requests[i];
    HeldIsUnsettled(env, s, i, r.pc.ticket);
    MatchIsSome(env, r.candidates, Hash(s, r.pc.version));
    var matched := FirstMatch(env, r.candidates, Hash(s, r.pc.version));
    var settled := Settle(env, s.world, r.pc.ticket, if !threw && matched.None? then |r.candidates| else 0, at);
    SignInIsInOnlyOn(s, i, matched, threw, settled, Forget(env, settled, r.key, at));
    var s' := FinishSignIn(env, s, i, threw, at);
    SettledIsCharged(env, s.world, r.pc.ticket, r, matched.Some?, threw, IsIn(s'.requests[i].pc), at, s'.world);
  }

  lemma TokenCharges(env: Env, s: State, i: nat, ticket: nat, threw: bool, at: int)
    requires Numbered(s.world) && i < |s.requests| && s.requests[i].pc.Deciding? && s.world.now <= at
    requires ticket < |s.world.tickets| && ticket !in s.world.settled
    requires s.world.tickets[ticket].key == s.requests[i].key
    requires s.world.tickets[ticket].attempts == |s.requests[i].candidates|
    ensures var r, s' := s.requests[i], TryToken(env, s, i, ticket, threw, at);
            ChargedAs(s.world.charges, s'.world.charges, r, SomeOpens(env, r.candidates, Hash(s, r.pc.version)), threw,
                      IsIn(s'.requests[i].pc), at)
  {
    var r := s.requests[i];
    MatchIsSome(env, r.candidates, Hash(s, r.pc.version));
    var matched := FirstMatch(env, r.candidates, Hash(s, r.pc.version));
    var settled := Settle(env, s.world, ticket, if !threw && matched.None? then |r.candidates| else 0, at);
    TokenIsInOnlyOn(s, i, matched, threw, settled, Forget(env, settled, r.key, at));
    var s' := TryToken(env, s, i, ticket, threw, at);
    SettledIsCharged(env, s.world, ticket, r, matched.Some?, threw, IsIn(s'.requests[i].pc), at, s'.world);
  }

  lemma UnconfiguredCharges(env: Env, s: State, i: nat, threw: bool, at: int)
    requires Inv(env, s) && i < |s.requests| && s.requests[i].pc.Deciding? && s.world.now <= at
    ensures var r, s' := s.requests[i], DecideUnconfigured(env, s, i, threw, at);
            if !r.local && r.candidates != [] && HasRoom(env, s, r.key, |r.candidates|, at)
            then ChargedAs(s.world.charges, s'.world.charges, r, SomeOpens(env, r.candidates, Hash(s, r.pc.version)),
                           threw, IsIn(s'.requests[i].pc), at)
            else s'.world.charges == s.world.charges && (IsIn(s'.requests[i].pc) ==> r.local)
  {
    var r := s.requests[i];
    if !r.local && r.candidates != [] {
      TakesIff(env, s.world, r.key, |r.candidates|, at);
      TakeCharges(env, s.world, r.key, |r.candidates|, at);
      TakeFacts(env, s.world, r.key, |r.candidates|, at);
      var (reserved, ticket) := Take(env, s.world, r.key, |r.candidates|, at);
      if ticket.Some? {
        TokenCharges(env, s.(world := reserved, holders := s.holders + [i]), i, ticket.value, threw, at);
      }
    }
  }

  lemma ConfirmCharges(env: Env, s: State, i: nat, at: int)
    requires Inv(env, s) && i < |s.requests| && s.requests[i].pc.Confirmed? && s.world.now <= at
    ensures var r, s' := s.requests[i], Confirm(env, s, i, at);
            s'.world.charges
            == if IsIn(s'.requests[i].pc) then Uncharged(s.world.charges, r.key) else s.world.charges
  {
    ForgetCharges(env, s.world, s.requests[i].key, at);
  }

  /** What a resumed request has done to the charges, and whether it is in. */
  ghost predicate Accounts(env: Env, s: State, i: nat, threw: bool, at: int, log: seq<Charge>, after: State)
    requires s.world.tables.Valid() && i < |s.requests|
  {
    && |after.requests| == |s.requests|
    && var r, letIn := s.requests[i], IsIn(after.requests[i].pc);
       if Ends(env, s, i, at)
       then ChargedAs(log, after.world.charges, r, SomeOpens(env, r.candidates, Hash(s, r.pc.version)), threw, letIn,
                      at)
       else if r.pc.Deciding? then after.world.charges == log && (letIn ==> r.local)
       else after.world.charges == if letIn then Uncharged(log, r.key) else log
  }

  ghost predicate DecidedAs(env: Env, s: State, i: nat, threw: bool, at: int, after: State)
    requires s.world.tables.Valid() && i < |s.requests| && s.requests[i].pc.Deciding?
  {
    && |after.requests| == |s.requests|
    && var r, letIn := s.requests[i], IsIn(after.requests[i].pc);
       if ShowsToken(env, s, i, at)
       then ChargedAs(s.world.charges, after.world.charges, r, SomeOpens(env, r.candidates, Hash(s, r.pc.version)),
                      threw, letIn, at)
       else after.world.charges == s.world.charges && (letIn ==> r.local)
  }

  lemma DecidedAccounts(env: Env, s: State, i: nat, threw: bool, at: int, after: State)
    requires s.world.tables.Valid() && i < |s.requests| && s.requests[i].pc.Deciding?
    requires DecidedAs(env, s, i, threw, at, after)
    ensures Accounts(env, s, i, threw, at, s.world.charges, after)
  {
  }

  lemma UnconfiguredDecides(env: Env, s: State, i: nat, threw: bool, at: int)
    requires Inv(env, s) && i < |s.requests| && s.requests[i].pc.Deciding? && s.world.now <= at
    requires !Changed(s, s.requests[i].kind, s.requests[i].pc.generation, s.requests[i].pc.revision)
    requires Hash(s, s.requests[i].pc.version) == NO_PASSWORD
    ensures DecidedAs(env, s, i, threw, at, DecideUnconfigured(env, s, i, threw, at))
  {
    UnconfiguredCharges(env, s, i, threw, at);
  }

  lemma DecideCharges(env: Env, s: State, i: nat, threw: bool, at: int)
    requires Inv(env, s) && i < |s.requests| && s.requests[i].pc.Deciding? && s.world.now <= at
    ensures DecidedAs(env, s, i, threw, at, Decide(env, s, i, threw, at))
  {
    var r := s.requests[i];
    if !Changed(s, r.kind, r.pc.generation, r.pc.revision) {
      if Hash(s, r.pc.version) == NO_PASSWORD {
        UnconfiguredDecides(env, s, i, threw, at);
      } else {
        TakeCharges(env, s.world, r.key, |r.candidates|, at);
      }
    }
  }

  /** The log of a resumed request, told of where it stands now and what it stands at afterwards. */
  lemma ResumeIsLogged(env: Env, s: State, i: nat, threw: bool, at: int, log: seq<Charge>, after: State)
    requires s.world.tables.Valid() && i < |s.requests| && s.world.now <= at && !s.requests[i].pc.Done?
    requires Accounts(env, s, i, threw, at, log, after)
    ensures after.world.charges == Logged(env, s, Resume(i, threw, at), after, log)
  {
  }

  /** Anything else ends no comparison and lets nobody in. */
  lemma NothingIsLogged(env: Env, s: State, action: Action, log: seq<Charge>, after: State)
    requires s.world.tables.Valid()
    requires !action.Resume? || action.i >= |s.requests| || action.at < s.world.now || s.requests[action.i].pc.Done?
    requires after.world.charges == log
    requires action.Resume? && action.i < |s.requests| ==> after.requests == s.requests
    ensures Logged(env, s, action, after, log) == log
  {
  }

  lemma DecideIsLogged(env: Env, s: State, i: nat, threw: bool, at: int)
    requires Inv(env, s) && i < |s.requests| && s.requests[i].pc.Deciding? && s.world.now <= at
    ensures var after := Decide(env, s, i, threw, at);
            after.world.charges == Logged(env, s, Resume(i, threw, at), after, s.world.charges)
  {
    DecideCharges(env, s, i, threw, at);
    DecidedAccounts(env, s, i, threw, at, Decide(env, s, i, threw, at));
    ResumeIsLogged(env, s, i, threw, at, s.world.charges, Decide(env, s, i, threw, at));
  }

  lemma ComparedIsLogged(env: Env, s: State, i: nat, threw: bool, at: int)
    requires Inv(env, s) && i < |s.requests| && s.requests[i].pc.Comparing? && s.world.now <= at
    ensures var after := Compared(env, s, i, threw, at);
            after.world.charges == Logged(env, s, Resume(i, threw, at), after, s.world.charges)
  {
    ComparedCharges(env, s, i, threw, at);
    ResumeIsLogged(env, s, i, threw, at, s.world.charges, Compared(env, s, i, threw, at));
  }

  lemma ConfirmIsLogged(env: Env, s: State, i: nat, threw: bool, at: int)
    requires Inv(env, s) && i < |s.requests| && s.requests[i].pc.Confirmed? && s.world.now <= at
    ensures var after := Confirm(env, s, i, at);
            after.world.charges == Logged(env, s, Resume(i, threw, at), after, s.world.charges)
  {
    ConfirmCharges(env, s, i, at);
    ResumeIsLogged(env, s, i, threw, at, s.world.charges, Confirm(env, s, i, at));
  }

  lemma SignInIsLogged(env: Env, s: State, i: nat, threw: bool, at: int)
    requires Inv(env, s) && i < |s.requests| && s.requests[i].pc.SignInComparing? && s.world.now <= at
    ensures var after := FinishSignIn(env, s, i, threw, at);
            after.world.charges == Logged(env, s, Resume(i, threw, at), after, s.world.charges)
  {
    SignInCharges(env, s, i, threw, at);
    ResumeIsLogged(env, s, i, threw, at, s.world.charges, FinishSignIn(env, s, i, threw, at));
  }

  /** A query that fails charges nobody, whatever it was for. */
  lemma ThrowIsLogged(env: Env, s: State, i: nat, threw: bool, at: int)
    requires Inv(env, s) && i < |s.requests| && s.world.now <= at
    requires var pc := s.requests[i].pc; pc.SigningIn? || pc.Reading? || pc.ReadingLevel? || pc.Confirming?
    ensures var after := Resumed(env, s, i, threw, at);
            after.world.charges == Logged(env, s, Resume(i, threw, at), after, s.world.charges)
  {
    if s.requests[i].pc.SigningIn? {
      HeldIsUnsettled(env, s, i, s.requests[i].pc.ticket);
      SettleCharges(env, s.world, s.requests[i].pc.ticket, 0, at);
    }
    ResumeIsLogged(env, s, i, threw, at, s.world.charges, Resumed(env, s, i, threw, at));
  }

  lemma ResumeCharges(env: Env, s: State, i: nat, threw: bool, at: int)
    requires Inv(env, s) && i < |s.requests| && s.world.now <= at
    ensures var after := Resumed(env, s, i, threw, at);
            after.world.charges == Logged(env, s, Resume(i, threw, at), after, s.world.charges)
  {
    match s.requests[i].pc
    case Deciding(_, _, _, _) => DecideIsLogged(env, s, i, threw, at);
    case Comparing(_, _, _, _, _) => ComparedIsLogged(env, s, i, threw, at);
    case Confirmed(_, _, _, _) => ConfirmIsLogged(env, s, i, threw, at);
    case SignInComparing(_, _, _) => SignInIsLogged(env, s, i, threw, at);
    case Done(_) => NothingIsLogged(env, s, Resume(i, threw, at), s.world.charges, s);
    case _ => ThrowIsLogged(env, s, i, threw, at);
  }

  lemma ArriveCharges(env: Env, s: State, request: Request, cookie: Option<nat>, at: int)
    requires s.world.tables.Valid()
    ensures Arrived(env, s, request, cookie, at).world.charges == s.world.charges
  {
    TakeCharges(env, s.world, request.key, |request.candidates|, at);
  }

  /** Whatever the step, what it charges and what it forgives is what the log says. */
  lemma StepCharges(env: Env, s: State, action: Action)
    requires Inv(env, s)
    ensures var after := Next(env, s, action);
            after.world.charges == Logged(env, s, action, after, s.world.charges)
  {
    if action.Resume? && action.i < |s.requests| && s.world.now <= action.at {
      ResumeCharges(env, s, action.i, action.threw, action.at);
    } else {
      if action.Arrive? { ArriveCharges(env, s, action.request, action.cookie, action.at); }
      NothingIsLogged(env, s, action, s.world.charges, Next(env, s, action));
    }
  }

  /**
   Over every run, whatever the ways in and however they interleave, the throttle
   has charged exactly the guesses that were compared, did not throw and did not
   open the password read, and forgiven exactly the clients since let in.
   */
  lemma {:induction false} ChargesAreWrongGuesses(env: Env, hash: string, level: string, start: int,
                                                  actions: seq<Action>)
    ensures var s := Authentication.Initial(hash, level, start);
            Run(env, s, actions).world.charges == WrongGuesses(env, s, actions)
  {
    var s := Authentication.Initial(hash, level, start);
    if actions == [] {
    } else {
      var before := actions[..|actions| - 1];
      ChargesAreWrongGuesses(env, hash, level, start, before);
      RunKeepsInv(env, s, before);
      StepCharges(env, Run(env, s, before), actions[|actions| - 1]);
    }
  }

  // ---------------------------------------------------------------- guesses not yet decided

  /** The guesses of a client being compared right now, ticket by ticket up to the n-th, and short of their deadline. */
  ghost function InHand(s: State, client: string, n: nat): nat {
    if n == 0 then 0
    else
      InHand(s, client, n - 1)
      + if ComparedFor(s, client, n - 1) then |s.requests[s.holders[n - 1]].candidates| else 0
  }

  ghost predicate ComparedFor(s: State, client: string, t: nat) {
    && t < |s.holders| && t < |s.world.tickets| && s.holders[t] < |s.requests|
    && Holding(s.requests[s.holders[t]].pc) == Some(t) && s.requests[s.holders[t]].key == client
    && s.world.now < s.world.tickets[t].staleAt
  }

  lemma {:induction false} OutstandingIsInHand(s: State, client: string, n: nat)
    requires TicketsHeld(s) && n <= |s.holders|
    ensures Outstanding(s.world.tickets[..n], s.world.settled, client, s.world.now) == InHand(s, client, n)
  {
    if n == 0 {
    } else {
      OutstandingIsInHand(s, client, n - 1);
      assert s.world.tickets[..n][..n - 1] == s.world.tickets[..n - 1];
      var i := s.holders[n - 1];
      if Holding(s.requests[i].pc) == Some(n - 1) {
        assert HoldsOwn(s, i, n - 1);
      }
    }
  }
}
