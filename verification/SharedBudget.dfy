/**
 The three ways in spend one budget: whatever mix of sign-ins, header requests
 and scrapes a client sends, and whatever is written meanwhile.
 */
module SharedBudget {
  import Throttle
  import opened ThrottleRuns
  import opened Authentication
  import opened AuthenticationSafety
  import opened AuthenticationLedger

  ghost predicate Budgeted(env: Env, w: World, client: string) {
    Numbered(w) && Good(env.config, ViewOf(w, client), client)
  }

  lemma EventKeepsBudgeted(env: Env, w: World, e: Event, client: string)
    requires env.config.maxFailed >= 1 && env.config.windowMs >= 1
    requires Budgeted(env, w, client)
    ensures Budgeted(env, Apply(env.config, w, e), client)
  {
    EventKeepsNumbering(env.config, w, e);
    EventKeepsClient(env.config, w, e, client);
  }

  /** A fact about the throttle that none of its events disturbs. */
  ghost predicate Stable(env: Env, fact: World -> bool) {
    forall w: World, e {:trigger Apply(env.config, w, e)} ::
      w.tables.Valid() && fact(w) ==> fact(Apply(env.config, w, e))
  }

  lemma SignInKeepsStableFact(env: Env, s: State, i: nat, threw: bool, at: int, fact: World -> bool)
    requires s.world.tables.Valid() && Stable(env, fact) && fact(s.world)
    requires i < |s.requests| && s.requests[i].pc.SignInComparing?
    ensures fact(FinishSignIn(env, s, i, threw, at).world)
  {
  }

  lemma ResumeKeepsStableFact(env: Env, s: State, i: nat, threw: bool, at: int, fact: World -> bool)
    requires s.world.tables.Valid() && Stable(env, fact) && fact(s.world) && i < |s.requests|
    ensures fact(Resumed(env, s, i, threw, at).world)
  {
    if s.requests[i].pc.Deciding? {
      DecideKeepsStableFact(env, s, i, threw, at, fact);
    } else if s.requests[i].pc.SignInComparing? {
      SignInKeepsStableFact(env, s, i, threw, at, fact);
    }
  }

  /** Handlers reach the throttle through its events alone: what those keep, every step keeps. */
  lemma StepKeepsStableFact(env: Env, s: State, action: Action, fact: World -> bool)
    requires s.world.tables.Valid() && Stable(env, fact) && fact(s.world)
    ensures fact(Next(env, s, action).world)
  {
    if action.Resume? {
      if action.i < |s.requests| { ResumeKeepsStableFact(env, s, action.i, action.threw, action.at, fact); }
    }
  }

  lemma DecideKeepsStableFact(env: Env, s: State, i: nat, threw: bool, at: int, fact: World -> bool)
    requires s.world.tables.Valid() && Stable(env, fact) && fact(s.world)
    requires i < |s.requests| && s.requests[i].pc.Deciding?
    ensures fact(Decide(env, s, i, threw, at).world)
  {
    var r := s.requests[i];
    var reserved := Take(env, s.world, r.key, |r.candidates|, at).0;
    assert fact(reserved);
    TokenKeepsStableFact(env, s.(world := reserved, holders := s.holders + [i]), i, |s.world.tickets|, threw, at, fact);
  }

  lemma TokenKeepsStableFact(env: Env, s: State, i: nat, ticket: nat, threw: bool, at: int, fact: World -> bool)
    requires s.world.tables.Valid() && Stable(env, fact) && fact(s.world)
    requires i < |s.requests| && s.requests[i].pc.Deciding?
    ensures fact(TryToken(env, s, i, ticket, threw, at).world)
  {
  }

  lemma {:induction false} RunKeepsStableFact(env: Env, s: State, actions: seq<Action>, fact: World -> bool)
    requires s.world.tables.Valid() && Stable(env, fact) && fact(s.world)
    ensures fact(Run(env, s, actions).world)
  {
    if actions == [] {
    } else {
      RunKeepsStableFact(env, s, actions[..|actions| - 1], fact);
      StepKeepsStableFact(env, Run(env, s, actions[..|actions| - 1]), actions[|actions| - 1], fact);
    }
  }

  lemma RunKeepsBudgeted(env: Env, s: State, actions: seq<Action>, client: string)
    requires env.config.maxFailed >= 1 && env.config.windowMs >= 1
    requires Budgeted(env, s.world, client)
    ensures Budgeted(env, Run(env, s, actions).world, client)
  {
    var fact := w => Budgeted(env, w, client);
    forall w: World, e | w.tables.Valid() && fact(w) ensures fact(Apply(env.config, w, e)) {
      EventKeepsBudgeted(env, w, e, client);
    }
    RunKeepsStableFact(env, s, actions, fact);
  }

  /** The counter of a client never evicted is what it guessed wrong in the running window. */
  lemma LockedOutIff(config: Throttle.Config, v: View, client: string)
    requires Good(config, v, client) && !v.evicted && config.maxFailed >= 1
    ensures Throttle.IsLockedOut(config, v.failures, v.now)
            <==> ChargedFrom(v.charges, client, WindowStart(config, v)) >= config.maxFailed
  {
    if WindowStart(config, v) == v.now + 1 {
      NothingCharged(v.charges, client, v.now + 1);
    }
  }

  /**
   Switching between the ways in wins nobody a fresh budget: in every interleaving,
   a client never evicted and never late has at most 2 * maxFailed - 1 guesses
   found wrong in the running window or still being compared - and it is locked
   out exactly while those found wrong are maxFailed or more.
   */
  lemma OneBudgetForAllWaysIn(env: Env, hash: string, level: string, start: int, actions: seq<Action>, client: string)
    requires env.config.maxFailed >= 1 && env.config.windowMs >= 1
    requires var w := Run(env, Authentication.Initial(hash, level, start), actions).world;
             client !in w.evicted && client !in w.late
    ensures var s := Run(env, Authentication.Initial(hash, level, start), actions);
            var guesses := WrongGuesses(env, Authentication.Initial(hash, level, start), actions);
            var wrong := ChargedFrom(guesses, client, WindowStart(env.config, ViewOf(s.world, client)));
            && wrong + InHand(s, client, |s.holders|) <= 2 * env.config.maxFailed - 1
            && (Throttle.IsLockedOut(env.config, s.world.tables.failed.Get(client), s.world.now)
                <==> wrong >= env.config.maxFailed)
  {
    var s := Run(env, Authentication.Initial(hash, level, start), actions);
    var v := ViewOf(s.world, client);
    RunKeepsBudgeted(env, Authentication.Initial(hash, level, start), actions, client);
    LedgerFitsBudget(env.config, v, client);
    LockedOutIff(env.config, v, client);
    ChargesAreWrongGuesses(env, hash, level, start, actions);
    RunKeepsInv(env, Authentication.Initial(hash, level, start), actions);
    OutstandingIsInHand(s, client, |s.holders|);
    assert s.world.tickets[..|s.holders|] == s.world.tickets;
  }
}
