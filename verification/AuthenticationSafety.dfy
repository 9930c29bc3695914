/**
 What every interleaving of sign-ins, header requests, scrapes and credential
 writes keeps: nobody is let in on a password older than the last published one.
 */
module AuthenticationSafety {
  import opened Wrappers
  import Throttle
  import opened ThrottleRuns
  import opened Authentication

  /** One writer at a time: at most one committed value is not yet published. */
  ghost predicate Published(s: State) {
    && |s.hashes| == 1 + s.generation + (if s.writer.Owing? && s.writer.password then 1 else 0)
    && |s.levels| == 1 + s.revision + (if s.writer.Owing? && s.writer.level then 1 else 0)
  }

  ghost predicate SessionsCurrent(env: Env, s: State) {
    forall id :: id in s.sessions ==>
      && s.generation <= s.sessions[id].version < |s.hashes|
      && Opens(env, s.sessions[id].credential, s.hashes[s.sessions[id].version])
  }

  /** The ticket a handler has to settle before it is done. */
  function Holding(pc: Pc): Option<nat> {
    match pc
    case SigningIn(_, ticket) => Some(ticket)
    case SignInComparing(_, _, ticket) => Some(ticket)
    case Comparing(_, _, _, _, ticket) => Some(ticket)
    case _ => None
  }

  /** What a handler knows was published when it read what it read. */
  ghost predicate KnowsItsPlace(env: Env, s: State, r: Request) {
    match r.pc
    case SigningIn(generation, _) => generation <= s.generation
    case SignInComparing(generation, version, _) => generation <= s.generation && generation <= version < |s.hashes|
    case Reading(generation, revision) => generation <= s.generation && revision <= s.revision
    case ReadingLevel(generation, revision, version) =>
      generation <= s.generation && generation <= version < |s.hashes| && revision <= s.revision
    case Deciding(generation, revision, version, level) =>
      && generation <= s.generation && generation <= version < |s.hashes|
      && revision <= s.revision && (r.kind == Header ==> revision <= level < |s.levels|)
    case Comparing(generation, revision, version, level, _) =>
      && generation <= s.generation && generation <= version < |s.hashes|
      && revision <= s.revision && (r.kind == Header ==> revision <= level < |s.levels|)
    case Confirming(generation, version, credential) =>
      && generation <= s.generation && generation <= version < |s.hashes|
      && Opens(env, credential, s.hashes[version])
    case Confirmed(generation, version, again, credential) =>
      && generation <= s.generation && generation <= version <= again < |s.hashes|
      && Opens(env, credential, s.hashes[version])
    case Done(_) => true
  }

  /** Nobody is let in on less than what was published, nor on more than one unpublished write. */
  ghost predicate AdmissionCurrent(env: Env, hashes: seq<string>, a: Admission) {
    && a.generation <= a.version <= a.again <= a.committed <= a.generation + 1
    && a.committed < |hashes|
    && hashes[a.again] == hashes[a.version]
    && match a.credential
       case Some(credential) => Opens(env, credential, hashes[a.version])
       case None => hashes[a.version] == NO_PASSWORD
  }

  ghost predicate ViewingCurrent(levels: seq<string>, v: Viewing) {
    v.revision <= v.level < |levels| && levels[v.level] == READ_LEVEL
  }

  ghost predicate LogsCurrent(env: Env, s: State) {
    && (forall a :: a in s.admissions ==> AdmissionCurrent(env, s.hashes, a))
    && (forall v :: v in s.viewings ==> ViewingCurrent(s.levels, v))
  }

  /** A ticket is unsettled exactly while the one request that took it still holds it. */
  ghost predicate TicketsHeld(s: State) {
    && |s.holders| == |s.world.tickets|
    && (forall t :: 0 <= t < |s.holders| ==>
          && s.holders[t] < |s.requests|
          && (t in s.world.settled <==> Holding(s.requests[s.holders[t]].pc) != Some(t)))
    && (forall i :: 0 <= i < |s.requests| ==>
          match Holding(s.requests[i].pc)
          case Some(t) => HoldsOwn(s, i, t)
          case None => true)
  }

  ghost predicate HoldsOwn(s: State, i: nat, t: nat)
    requires i < |s.requests|
  {
    && t < |s.holders| && t < |s.world.tickets| && s.holders[t] == i
    && s.world.tickets[t].key == s.requests[i].key
    && s.world.tickets[t].attempts == |s.requests[i].candidates|
  }

  ghost predicate Inv(env: Env, s: State) {
    && Numbered(s.world)
    && Published(s)
    && SessionsCurrent(env, s)
    && (forall i :: 0 <= i < |s.requests| ==> KnowsItsPlace(env, s, s.requests[i]))
    && LogsCurrent(env, s)
    && TicketsHeld(s)
  }

  // ------------------------------------------------------------ writers publish

  /** Growing tables and counters cost a handler nothing it knew. */
  lemma PlaceIsStable(env: Env, s: State, s': State, r: Request)
    requires KnowsItsPlace(env, s, r)
    requires s.hashes <= s'.hashes && s.levels <= s'.levels
    requires s.generation <= s'.generation && s.revision <= s'.revision
    ensures KnowsItsPlace(env, s', r)
  {
  }

  lemma CommitKeepsInv(env: Env, s: State, password: Option<string>, level: Option<string>)
    requires Inv(env, s)
    ensures Inv(env, Next(env, s, Commit(password, level)))
  {
    var s' := Next(env, s, Commit(password, level));
    forall i | 0 <= i < |s.requests| ensures KnowsItsPlace(env, s', s.requests[i]) {
      PlaceIsStable(env, s, s', s.requests[i]);
    }
  }

  lemma PublishKeepsInv(env: Env, s: State)
    requires Inv(env, s)
    ensures Inv(env, Next(env, s, Publish))
  {
    var s' := Next(env, s, Publish);
    forall i | 0 <= i < |s.requests| ensures KnowsItsPlace(env, s', s.requests[i]) {
      PlaceIsStable(env, s, s', s.requests[i]);
    }
  }

  lemma DropKeepsInv(env: Env, s: State, session: nat)
    requires Inv(env, s)
    ensures Inv(env, Next(env, s, DropSession(session)))
  {
    var s' := Next(env, s, DropSession(session));
    forall i | 0 <= i < |s.requests| ensures KnowsItsPlace(env, s', s.requests[i]) {
      PlaceIsStable(env, s, s', s.requests[i]);
    }
  }

  // ----------------------------------------------------- the throttle's tickets

  lemma TakeFacts(env: Env, w: World, key: string, attempts: nat, at: int)
    requires Numbered(w) && w.now <= at && attempts >= 1
    ensures var (after, ticket) := Take(env, w, key, attempts, at);
            && Numbered(after) && after.settled == w.settled && after.now == at
            && (ticket.None? ==> after.tickets == w.tickets)
            && (ticket.Some? ==> ticket.value == |w.tickets|)
            && (ticket.Some? ==> after.tickets == w.tickets + [Ticket(key, attempts, at + env.config.windowMs)])
  {
    Throttle.ReserveAt(env.config, w.tables, key, attempts, at, key);
    EventKeepsNumbering(env.config, w, Reserving(key, attempts, at));
  }

  lemma SettleFacts(env: Env, w: World, ticket: nat, failed: nat, at: int)
    requires Numbered(w) && w.now <= at && ticket < |w.tickets| && failed <= w.tickets[ticket].attempts
    ensures var after := Settle(env, w, ticket, failed, at);
            Numbered(after) && after.tickets == w.tickets && after.settled == w.settled + {ticket} && after.now == at
  {
    EventKeepsNumbering(env.config, w, Settling(ticket, failed, at));
  }

  lemma ForgetFacts(env: Env, w: World, key: string, at: int)
    requires Numbered(w) && w.now <= at
    ensures var after := Forget(env, w, key, at);
            Numbered(after) && after.tickets == w.tickets && after.settled == w.settled && after.now == at
  {
    EventKeepsNumbering(env.config, w, Clearing(key, at));
  }

  /** Only request i moved, and what it moved to. */
  ghost predicate Moved(s: State, s': State, i: nat) {
    && i < |s.requests| && |s'.requests| == |s.requests|
    && s'.requests == s.requests[i := s.requests[i].(pc := s'.requests[i].pc)]
  }

  lemma TakingHolds(s: State, s': State, i: nat)
    requires TicketsHeld(s) && Numbered(s.world) && Moved(s, s', i)
    requires Holding(s.requests[i].pc).None? && Holding(s'.requests[i].pc) == Some(|s.world.tickets|)
    requires s'.holders == s.holders + [i] && s'.world.settled == s.world.settled
    requires |s'.world.tickets| == |s.world.tickets| + 1 && s.world.tickets <= s'.world.tickets
    requires s'.world.tickets[|s.world.tickets|].key == s.requests[i].key
    requires s'.world.tickets[|s.world.tickets|].attempts == |s.requests[i].candidates|
    ensures TicketsHeld(s')
  {
    forall j, t | 0 <= j < |s'.requests| && Holding(s'.requests[j].pc) == Some(t) ensures HoldsOwn(s', j, t) {
      if j != i {
        assert HoldsOwn(s, j, t);
      }
    }
  }

  lemma SettlingHolds(s: State, s': State, i: nat, t: nat)
    requires TicketsHeld(s) && Moved(s, s', i)
    requires Holding(s.requests[i].pc) == Some(t) && Holding(s'.requests[i].pc).None?
    requires s'.holders == s.holders && s'.world.tickets == s.world.tickets
    requires s'.world.settled == s.world.settled + {t}
    ensures TicketsHeld(s')
  {
    assert HoldsOwn(s, i, t);
    forall j, u | 0 <= j < |s'.requests| && Holding(s'.requests[j].pc) == Some(u) ensures HoldsOwn(s', j, u) {
      assert HoldsOwn(s, j, u);
    }
  }

  lemma MovingHolds(s: State, s': State, i: nat)
    requires TicketsHeld(s) && Moved(s, s', i)
    requires Holding(s.requests[i].pc) == Holding(s'.requests[i].pc)
    requires s'.holders == s.holders && s'.world.tickets == s.world.tickets && s'.world.settled == s.world.settled
    ensures TicketsHeld(s')
  {
    forall j, u | 0 <= j < |s'.requests| && Holding(s'.requests[j].pc) == Some(u) ensures HoldsOwn(s', j, u) {
      assert HoldsOwn(s, j, u);
    }
  }

  // -------------------------------------------------------------- the handlers

  /** No credential was written. */
  ghost predicate SameCredentials(s: State, s': State) {
    && s'.hashes == s.hashes && s'.levels == s.levels
    && s'.generation == s.generation && s'.revision == s.revision && s'.writer == s.writer
  }

  /** What a handler needs of the state to keep its own part of the invariant. */
  ghost predicate Local(env: Env, s: State, i: nat) {
    && Numbered(s.world) && Published(s) && SessionsCurrent(env, s) && LogsCurrent(env, s)
    && i < |s.requests| && KnowsItsPlace(env, s, s.requests[i])
  }

  /** What a handler must leave behind, tickets aside. */
  ghost predicate Leaves(env: Env, s: State, s': State, i: nat) {
    && SameCredentials(s, s') && Moved(s, s', i)
    && Numbered(s'.world) && SessionsCurrent(env, s') && LogsCurrent(env, s')
    && KnowsItsPlace(env, s', s'.requests[i])
  }

  ghost predicate KeepsTickets(s: State, s': State, i: nat) {
    && i < |s.requests| && i < |s'.requests| && Holding(s.requests[i].pc) == Holding(s'.requests[i].pc)
    && s'.holders == s.holders && s'.world.tickets == s.world.tickets && s'.world.settled == s.world.settled
  }

  ghost predicate SettlesTicket(s: State, s': State, i: nat, t: nat) {
    && i < |s.requests| && i < |s'.requests|
    && Holding(s.requests[i].pc) == Some(t) && Holding(s'.requests[i].pc).None?
    && s'.holders == s.holders && s'.world.tickets == s.world.tickets
    && s'.world.settled == s.world.settled + {t}
  }

  ghost predicate TakesTicket(s: State, s': State, i: nat) {
    var t := |s.world.tickets|;
    && i < |s.requests| && i < |s'.requests|
    && Holding(s.requests[i].pc).None? && Holding(s'.requests[i].pc) == Some(t)
    && s'.holders == s.holders + [i] && s'.world.settled == s.world.settled
    && |s'.world.tickets| == t + 1 && s.world.tickets <= s'.world.tickets
    && s'.world.tickets[t].key == s.requests[i].key && s'.world.tickets[t].attempts == |s.requests[i].candidates|
  }

  lemma Assemble(env: Env, s: State, s': State, i: nat)
    requires Inv(env, s) && Leaves(env, s, s', i) && TicketsHeld(s')
    ensures Inv(env, s')
  {
    forall j | 0 <= j < |s'.requests| ensures KnowsItsPlace(env, s', s'.requests[j]) {
      if j != i {
        PlaceIsStable(env, s, s', s.requests[j]);
      }
    }
  }

  lemma QuietStep(env: Env, s: State, s': State, i: nat)
    requires Inv(env, s) && Leaves(env, s, s', i) && KeepsTickets(s, s', i)
    ensures Inv(env, s')
  {
    MovingHolds(s, s', i);
    Assemble(env, s, s', i);
  }

  lemma SettlingStep(env: Env, s: State, s': State, i: nat, t: nat)
    requires Inv(env, s) && Leaves(env, s, s', i) && SettlesTicket(s, s', i, t)
    ensures Inv(env, s')
  {
    SettlingHolds(s, s', i, t);
    Assemble(env, s, s', i);
  }

  lemma TakingStep(env: Env, s: State, s': State, i: nat)
    requires Inv(env, s) && Leaves(env, s, s', i) && TakesTicket(s, s', i)
    ensures Inv(env, s')
  {
    TakingHolds(s, s', i);
    Assemble(env, s, s', i);
  }

  /** Taking and settling in one breath, seen as two steps. */
  lemma TakingAndSettlingStep(env: Env, s: State, mid: State, s': State, i: nat, t: nat)
    requires Inv(env, s) && Leaves(env, s, s', i)
    requires Moved(s, mid, i) && TakesTicket(s, mid, i) && Moved(mid, s', i) && SettlesTicket(mid, s', i, t)
    ensures Inv(env, s')
  {
    TakingHolds(s, mid, i);
    SettlingHolds(mid, s', i, t);
    Assemble(env, s, s', i);
  }

  lemma FallbackLeaves(env: Env, s: State, i: nat, level: nat, refusal: Verdict)
    requires Local(env, s, i) && (s.requests[i].kind == Header ==> s.revision <= level < |s.levels|)
    ensures var s' := Fallback(s, i, level, refusal);
            Leaves(env, s, s', i) && s'.requests[i].pc.Done? && s'.world == s.world && s'.holders == s.holders
  {
  }

  lemma GrantLeaves(env: Env, s: State, i: nat, credential: Option<string>, version: nat, again: nat)
    requires Local(env, s, i)
    requires AdmissionCurrent(env, s.hashes, Admission(credential, version, again, s.generation, Newest(s.hashes)))
    ensures var s' := Grant(s, i, credential, version, again);
            Leaves(env, s, s', i) && s'.requests[i].pc.Done? && s'.world == s.world && s'.holders == s.holders
  {
  }

  /** Moving to a place the handler can vouch for, with the throttle wherever it got to. */
  lemma MoveLeaves(env: Env, s: State, i: nat, pc: Pc, world: World, holders: seq<nat>)
    requires Local(env, s, i) && Numbered(world)
    requires KnowsItsPlace(env, s, s.requests[i].(pc := pc))
    ensures Leaves(env, s, At(s, i, pc).(world := world, holders := holders), i)
  {
    var s' := At(s, i, pc).(world := world, holders := holders);
    PlaceIsStable(env, s, s', s.requests[i].(pc := pc));
  }

  function AnsweredPc(s: State, r: Request): Pc {
    match r.pc
    case SigningIn(generation, ticket) => SignInComparing(generation, Newest(s.hashes), ticket)
    case Reading(generation, revision) =>
      if r.kind == Header then ReadingLevel(generation, revision, Newest(s.hashes))
      else Deciding(generation, revision, Newest(s.hashes), 0)
    case ReadingLevel(generation, revision, version) => Deciding(generation, revision, version, Newest(s.levels))
    case Confirming(generation, version, credential) => Confirmed(generation, version, Newest(s.hashes), credential)
    case _ => r.pc
  }

  lemma AnswerIsAMove(s: State, i: nat)
    requires i < |s.requests|
    ensures Answered(s, i) == At(s, i, AnsweredPc(s, s.requests[i]))
    ensures Holding(AnsweredPc(s, s.requests[i])) == Holding(s.requests[i].pc)
  {
    if AnsweredPc(s, s.requests[i]) == s.requests[i].pc {
      assert At(s, i, s.requests[i].pc).requests == s.requests;
    }
  }

  /** The database answers with the newest value, which is no older than what was published on arrival. */
  lemma AnswerKnowsItsPlace(env: Env, s: State, r: Request)
    requires Published(s) && KnowsItsPlace(env, s, r)
    ensures KnowsItsPlace(env, s, r.(pc := AnsweredPc(s, r)))
  {
  }

  lemma AnswerLeaves(env: Env, s: State, i: nat)
    requires Local(env, s, i)
    ensures Leaves(env, s, Answered(s, i), i) && KeepsTickets(s, Answered(s, i), i)
  {
    AnswerIsAMove(s, i);
    AnswerKnowsItsPlace(env, s, s.requests[i]);
    MoveLeaves(env, s, i, AnsweredPc(s, s.requests[i]), s.world, s.holders);
  }

  lemma AnswerKeepsInv(env: Env, s: State, i: nat)
    requires Inv(env, s)
    ensures Inv(env, Next(env, s, Answer(i)))
  {
    if i < |s.requests| {
      AnswerLeaves(env, s, i);
      QuietStep(env, s, Answered(s, i), i);
    }
  }

  lemma AfterComparingLeaves(env: Env, s: State, i: nat, matched: Option<string>, threw: bool, settled: World)
    requires Local(env, s, i) && s.requests[i].pc.Comparing? && Numbered(settled)
    requires matched.Some? ==> Opens(env, matched.value, Hash(s, s.requests[i].pc.version))
    ensures var s' := AfterComparing(s, i, matched, threw, settled);
            && Leaves(env, s, s', i) && Holding(s'.requests[i].pc).None?
            && s'.world == settled && s'.holders == s.holders
  {
    var r := s.requests[i];
    if !threw && matched.None? && !Changed(s, r.kind, r.pc.generation, r.pc.revision) {
      FallbackLeaves(env, s.(world := settled), i, r.pc.level, Refused);
    } else {
      MoveLeaves(env, s, i, AfterComparing(s, i, matched, threw, settled).requests[i].pc, settled, s.holders);
    }
  }

  lemma CompareLeaves(env: Env, s: State, i: nat, threw: bool, at: int)
    requires Local(env, s, i) && s.requests[i].pc.Comparing? && s.world.now <= at
    requires HoldsOwn(s, i, s.requests[i].pc.ticket)
    ensures Leaves(env, s, Compared(env, s, i, threw, at), i)
    ensures SettlesTicket(s, Compared(env, s, i, threw, at), i, s.requests[i].pc.ticket)
  {
    var r := s.requests[i];
    var matched := FirstMatch(env, r.candidates, Hash(s, r.pc.version));
    var failed := if !threw && matched.None? then |r.candidates| else 0;
    SettleFacts(env, s.world, r.pc.ticket, failed, at);
    AfterComparingLeaves(env, s, i, matched, threw, Settle(env, s.world, r.pc.ticket, failed, at));
  }

  lemma ConfirmLeaves(env: Env, s: State, i: nat, at: int)
    requires Local(env, s, i) && s.requests[i].pc.Confirmed? && s.world.now <= at
    ensures Leaves(env, s, Confirm(env, s, i, at), i) && KeepsTickets(s, Confirm(env, s, i, at), i)
  {
    var r := s.requests[i];
    var Confirmed(generation, version, again, credential) := r.pc;
    if !(Hash(s, again) != Hash(s, version) || generation != s.generation) {
      ForgetFacts(env, s.world, r.key, at);
      GrantLeaves(env, s.(world := Forget(env, s.world, r.key, at)), i, Some(credential), version, again);
    }
  }

  lemma SignInComparedLeaves(env: Env, s: State, i: nat, matched: Option<string>, threw: bool,
                             settled: World, forgotten: World)
    requires Local(env, s, i) && s.requests[i].pc.SignInComparing? && Numbered(settled) && Numbered(forgotten)
    requires matched.Some? ==> Opens(env, matched.value, Hash(s, s.requests[i].pc.version))
    ensures var s' := SignInCompared(s, i, matched, threw, settled, forgotten);
            && Leaves(env, s, s', i) && Holding(s'.requests[i].pc).None?
            && (s'.world == settled || s'.world == forgotten) && s'.holders == s.holders
  {
  }

  lemma SignInLeaves(env: Env, s: State, i: nat, threw: bool, at: int)
    requires Local(env, s, i) && s.requests[i].pc.SignInComparing? && s.world.now <= at
    requires HoldsOwn(s, i, s.requests[i].pc.ticket)
    ensures Leaves(env, s, FinishSignIn(env, s, i, threw, at), i)
    ensures SettlesTicket(s, FinishSignIn(env, s, i, threw, at), i, s.requests[i].pc.ticket)
  {
    var r := s.requests[i];
    var matched := FirstMatch(env, r.candidates, Hash(s, r.pc.version));
    var failed := if !threw && matched.None? then |r.candidates| else 0;
    SettleFacts(env, s.world, r.pc.ticket, failed, at);
    var settled := Settle(env, s.world, r.pc.ticket, failed, at);
    ForgetFacts(env, settled, r.key, at);
    SignInComparedLeaves(env, s, i, matched, threw, settled, Forget(env, settled, r.key, at));
  }

  lemma TokenTriedLeaves(env: Env, s: State, i: nat, matched: Option<string>, threw: bool,
                         settled: World, forgotten: World)
    requires Local(env, s, i) && s.requests[i].pc.Deciding? && Numbered(settled) && Numbered(forgotten)
    requires s.requests[i].pc.generation == s.generation
    requires matched.Some? ==> Opens(env, matched.value, Hash(s, s.requests[i].pc.version))
    ensures var s' := TokenTried(s, i, matched, threw, settled, forgotten);
            && Leaves(env, s, s', i) && Holding(s'.requests[i].pc).None?
            && (s'.world == settled || s'.world == forgotten) && s'.holders == s.holders
  {
    var r := s.requests[i];
    if !threw && matched.Some? && r.kind != Scrape {
      GrantLeaves(env, s.(world := forgotten), i, matched, r.pc.version, r.pc.version);
    } else {
      MoveLeaves(env, s, i, TokenTried(s, i, matched, threw, settled, forgotten).requests[i].pc, settled, s.holders);
    }
  }

  lemma TokenLeaves(env: Env, s: State, i: nat, ticket: nat, threw: bool, at: int)
    requires Local(env, s, i) && s.requests[i].pc.Deciding? && s.world.now <= at
    requires s.requests[i].pc.generation == s.generation
    requires ticket < |s.world.tickets| && s.world.tickets[ticket].attempts == |s.requests[i].candidates|
    ensures var s' := TryToken(env, s, i, ticket, threw, at);
            && Leaves(env, s, s', i) && Holding(s'.requests[i].pc).None? && s'.holders == s.holders
            && s'.world.tickets == s.world.tickets && s'.world.settled == s.world.settled + {ticket}
  {
    var r := s.requests[i];
    var matched := FirstMatch(env, r.candidates, Hash(s, r.pc.version));
    var failed := if !threw && matched.None? then |r.candidates| else 0;
    SettleFacts(env, s.world, ticket, failed, at);
    var settled := Settle(env, s.world, ticket, failed, at);
    ForgetFacts(env, settled, r.key, at);
    TokenTriedLeaves(env, s, i, matched, threw, settled, Forget(env, settled, r.key, at));
  }

  /** The unconfigured path between taking its ticket and settling it. */
  function Unsettled(s: State, i: nat, reserved: World): State
    requires i < |s.requests|
  {
    At(s.(world := reserved, holders := s.holders + [i]), i, Comparing(0, 0, 0, 0, |s.world.tickets|))
  }

  /** What is known of the throttle once it let request i in. */
  ghost predicate LetIn(s: State, i: nat, reserved: World)
    requires i < |s.requests|
  {
    && reserved.settled == s.world.settled
    && |reserved.tickets| == |s.world.tickets| + 1 && s.world.tickets <= reserved.tickets
    && reserved.tickets[|s.world.tickets|].key == s.requests[i].key
    && reserved.tickets[|s.world.tickets|].attempts == |s.requests[i].candidates|
  }

  lemma UnsettledTakes(s: State, i: nat, reserved: World)
    requires i < |s.requests| && s.requests[i].pc.Deciding? && LetIn(s, i, reserved)
    ensures Moved(s, Unsettled(s, i, reserved), i) && TakesTicket(s, Unsettled(s, i, reserved), i)
  {
  }

  lemma TokenSettles(env: Env, s: State, i: nat, reserved: World, s': State)
    requires i < |s.requests| && LetIn(s, i, reserved)
    requires Leaves(env, s.(world := reserved, holders := s.holders + [i]), s', i)
    requires Holding(s'.requests[i].pc).None? && s'.holders == s.holders + [i]
    requires s'.world.tickets == reserved.tickets && s'.world.settled == reserved.settled + {|s.world.tickets|}
    ensures var mid := Unsettled(s, i, reserved);
            Leaves(env, s, s', i) && Moved(mid, s', i) && SettlesTicket(mid, s', i, |s.world.tickets|)
  {
  }

  /** Let in past the throttle, the token's check leaves what one step taking a ticket and one settling it leave. */
  lemma TokenTakes(env: Env, s: State, i: nat, reserved: World, threw: bool, at: int)
    requires Local(env, s, i) && s.requests[i].pc.Deciding? && s.requests[i].pc.generation == s.generation
    requires Numbered(reserved) && reserved.now <= at && LetIn(s, i, reserved)
    ensures var mid, t := Unsettled(s, i, reserved), |s.world.tickets|;
            var s' := TryToken(env, s.(world := reserved, holders := s.holders + [i]), i, t, threw, at);
            && Moved(s, mid, i) && TakesTicket(s, mid, i) && Leaves(env, s, s', i)
            && Moved(mid, s', i) && SettlesTicket(mid, s', i, t)
  {
    var s1 := s.(world := reserved, holders := s.holders + [i]);
    UnsettledTakes(s, i, reserved);
    TokenLeaves(env, s1, i, |s.world.tickets|, threw, at);
    TokenSettles(env, s, i, reserved, TryToken(env, s1, i, |s.world.tickets|, threw, at));
  }

  lemma UnconfiguredTakes(env: Env, s: State, i: nat, threw: bool, at: int)
    requires Local(env, s, i) && s.requests[i].pc.Deciding? && s.world.now <= at
    requires s.requests[i].pc.generation == s.generation
    requires s.requests[i].candidates != [] && !s.requests[i].local
    requires Take(env, s.world, s.requests[i].key, |s.requests[i].candidates|, at).1.Some?
    ensures var mid := Unsettled(s, i, Take(env, s.world, s.requests[i].key, |s.requests[i].candidates|, at).0);
            var s' := DecideUnconfigured(env, s, i, threw, at);
            && Moved(s, mid, i) && TakesTicket(s, mid, i) && Leaves(env, s, s', i)
            && Moved(mid, s', i) && SettlesTicket(mid, s', i, |s.world.tickets|)
  {
    var r := s.requests[i];
    TakeFacts(env, s.world, r.key, |r.candidates|, at);
    TokenTakes(env, s, i, Take(env, s.world, r.key, |r.candidates|, at).0, threw, at);
  }

  lemma UnconfiguredKeepsInv(env: Env, s: State, i: nat, threw: bool, at: int)
    requires Inv(env, s) && i < |s.requests| && s.requests[i].pc.Deciding? && s.world.now <= at
    requires s.requests[i].pc.generation == s.generation && Hash(s, s.requests[i].pc.version) == NO_PASSWORD
    ensures Inv(env, DecideUnconfigured(env, s, i, threw, at))
  {
    var r, s' := s.requests[i], DecideUnconfigured(env, s, i, threw, at);
    if r.local {
      GrantLeaves(env, s, i, None, r.pc.version, r.pc.version);
      QuietStep(env, s, s', i);
    } else if r.candidates == [] {
      QuietStep(env, s, s', i);
    } else if Take(env, s.world, r.key, |r.candidates|, at).1.Some? {
      UnconfiguredTakes(env, s, i, threw, at);
      TakingAndSettlingStep(env, s, Unsettled(s, i, Take(env, s.world, r.key, |r.candidates|, at).0), s', i,
                            |s.world.tickets|);
    } else {
      TakeFacts(env, s.world, r.key, |r.candidates|, at);
      QuietStep(env, s, s', i);
    }
  }

  lemma DecideLeaves(env: Env, s: State, i: nat, threw: bool, at: int)
    requires Local(env, s, i) && s.requests[i].pc.Deciding? && s.world.now <= at
    requires !Changed(s, s.requests[i].kind, s.requests[i].pc.generation, s.requests[i].pc.revision)
    requires Hash(s, s.requests[i].pc.version) != NO_PASSWORD
    ensures var s' := Decide(env, s, i, threw, at);
            Leaves(env, s, s', i) && (KeepsTickets(s, s', i) || TakesTicket(s, s', i))
  {
    var r := s.requests[i];
    var Deciding(generation, revision, version, level) := r.pc;
    if r.candidates == [] {
      FallbackLeaves(env, s, i, level, Refused);
    } else {
      TakeFacts(env, s.world, r.key, |r.candidates|, at);
      var (reserved, ticket) := Take(env, s.world, r.key, |r.candidates|, at);
      if ticket.None? {
        FallbackLeaves(env, s.(world := reserved), i, level, Refusal(env, s.world, r.key, at));
      } else {
        MoveLeaves(env, s, i, Comparing(generation, revision, version, level, ticket.value), reserved, s.holders + [i]);
      }
    }
  }

  lemma DecideKeepsInv(env: Env, s: State, i: nat, threw: bool, at: int)
    requires Inv(env, s) && i < |s.requests| && s.requests[i].pc.Deciding? && s.world.now <= at
    ensures Inv(env, Decide(env, s, i, threw, at))
  {
    var r, s' := s.requests[i], Decide(env, s, i, threw, at);
    if Changed(s, r.kind, r.pc.generation, r.pc.revision) {
      QuietStep(env, s, s', i);
    } else if Hash(s, r.pc.version) == NO_PASSWORD {
      UnconfiguredKeepsInv(env, s, i, threw, at);
    } else {
      DecideLeaves(env, s, i, threw, at);
      if KeepsTickets(s, s', i) { QuietStep(env, s, s', i); } else { TakingStep(env, s, s', i); }
    }
  }

  /** A query that fails: where a ticket is held by then, it is settled for nothing. */
  lemma ThrowKeepsInv(env: Env, s: State, i: nat, threw: bool, at: int)
    requires Inv(env, s) && i < |s.requests| && s.world.now <= at
    requires var pc := s.requests[i].pc; pc.SigningIn? || pc.Reading? || pc.ReadingLevel? || pc.Confirming?
    ensures Inv(env, Resumed(env, s, i, threw, at))
  {
    var s' := Resumed(env, s, i, threw, at);
    if threw && s.requests[i].pc.SigningIn? {
      var ticket := s.requests[i].pc.ticket;
      assert HoldsOwn(s, i, ticket);
      SettleFacts(env, s.world, ticket, 0, at);
      SettlingStep(env, s, s', i, ticket);
    } else if threw {
      QuietStep(env, s, s', i);
    }
  }

  lemma ResumeKeepsInv(env: Env, s: State, i: nat, threw: bool, at: int)
    requires Inv(env, s)
    ensures Inv(env, Next(env, s, Resume(i, threw, at)))
  {
    if i < |s.requests| && s.world.now <= at {
      var s' := Next(env, s, Resume(i, threw, at));
      match s.requests[i].pc
      case Deciding(_, _, _, _) =>
        DecideKeepsInv(env, s, i, threw, at);
      case Comparing(_, _, _, _, ticket) =>
        CompareLeaves(env, s, i, threw, at);
        SettlingStep(env, s, s', i, ticket);
      case Confirmed(_, _, _, _) =>
        ConfirmLeaves(env, s, i, at);
        QuietStep(env, s, s', i);
      case SignInComparing(_, _, ticket) =>
        SignInLeaves(env, s, i, threw, at);
        SettlingStep(env, s, s', i, ticket);
      case Done(_) =>
      case _ =>
        ThrowKeepsInv(env, s, i, threw, at);
    }
  }

  lemma EnteringKeepsInv(env: Env, s: State, r: Request)
    requires Inv(env, s)
    ensures Inv(env, s.(requests := s.requests + [r.(pc := Reading(s.generation, s.revision))]))
  {
    var s1 := s.(requests := s.requests + [r.(pc := Reading(s.generation, s.revision))]);
    forall j | 0 <= j < |s1.requests| ensures KnowsItsPlace(env, s1, s1.requests[j]) {
      if j < |s.requests| {
        PlaceIsStable(env, s, s1, s.requests[j]);
      }
    }
    forall j, u | 0 <= j < |s1.requests| && Holding(s1.requests[j].pc) == Some(u) ensures HoldsOwn(s1, j, u) {
      assert HoldsOwn(s, j, u);
    }
  }

  lemma SignInArrives(env: Env, s: State, r: Request, at: int)
    requires Inv(env, s) && r.kind == SignIn && |r.candidates| == 1 && s.world.now <= at
    ensures Inv(env, Arrived(env, s, r, None, at))
  {
    var i := |s.requests|;
    var s1 := s.(requests := s.requests + [r.(pc := Reading(s.generation, s.revision))]);
    var s' := Arrived(env, s, r, None, at);
    EnteringKeepsInv(env, s, r);
    TakeFacts(env, s.world, r.key, 1, at);
    if Take(env, s.world, r.key, 1, at).1.None? {
      QuietStep(env, s1, s', i);
    } else {
      TakingStep(env, s1, s', i);
    }
  }

  lemma ArriveKeepsInv(env: Env, s: State, r: Request, cookie: Option<nat>, at: int)
    requires Inv(env, s)
    ensures Inv(env, Next(env, s, Arrive(r, cookie, at)))
  {
    if s.world.now <= at && (r.kind == SignIn ==> |r.candidates| == 1) {
      var i := |s.requests|;
      var s1 := s.(requests := s.requests + [r.(pc := Reading(s.generation, s.revision))]);
      EnteringKeepsInv(env, s, r);
      if r.kind == Header && cookie.Some? && cookie.value in s.sessions {
        var session := s.sessions[cookie.value];
        GrantLeaves(env, s1, i, Some(session.credential), session.version, session.version);
        QuietStep(env, s1, Next(env, s, Arrive(r, cookie, at)), i);
      } else if r.kind == SignIn {
        SignInArrives(env, s, r, at);
      }
    }
  }

  lemma StepKeepsInv(env: Env, s: State, action: Action)
    requires Inv(env, s)
    ensures Inv(env, Next(env, s, action))
  {
    match action
    case Commit(password, level) => CommitKeepsInv(env, s, password, level);
    case Publish => PublishKeepsInv(env, s);
    case DropSession(session) => DropKeepsInv(env, s, session);
    case Arrive(request, cookie, at) => ArriveKeepsInv(env, s, request, cookie, at);
    case Answer(i) => AnswerKeepsInv(env, s, i);
    case Resume(i, threw, at) => ResumeKeepsInv(env, s, i, threw, at);
  }

  lemma {:induction false} RunKeepsInv(env: Env, s: State, actions: seq<Action>)
    requires Inv(env, s)
    ensures Inv(env, Run(env, s, actions))
  {
    if actions == [] {
    } else {
      RunKeepsInv(env, s, actions[..|actions| - 1]);
      StepKeepsInv(env, Run(env, s, actions[..|actions| - 1]), actions[|actions| - 1]);
    }
  }

  // ---------------------------------------------------------------- what it means

  /**
   In every interleaving, every live session was opened with a credential that
   matches a password no older than the last one published.
   */
  lemma SessionsOutliveNoPassword(env: Env, hash: string, level: string, start: int, actions: seq<Action>, id: nat)
    requires id in Run(env, Authentication.Initial(hash, level, start), actions).sessions
    ensures var s := Run(env, Authentication.Initial(hash, level, start), actions);
            && s.generation <= s.sessions[id].version < |s.hashes|
            && Opens(env, s.sessions[id].credential, s.hashes[s.sessions[id].version])
  {
    RunKeepsInv(env, Authentication.Initial(hash, level, start), actions);
  }

  /**
   In every interleaving, every request let in by password was, at that moment,
   checked against a version no older than the number of published changes - and
   where the password was read again, against the value it still held then.
   */
  lemma AdmissionsAreCurrent(env: Env, hash: string, level: string, start: int, actions: seq<Action>, n: nat)
    requires n < |Run(env, Authentication.Initial(hash, level, start), actions).admissions|
    ensures var s := Run(env, Authentication.Initial(hash, level, start), actions);
            AdmissionCurrent(env, s.hashes, s.admissions[n])
  {
    var s := Run(env, Authentication.Initial(hash, level, start), actions);
    RunKeepsInv(env, Authentication.Initial(hash, level, start), actions);
    assert s.admissions[n] in s.admissions;
  }

  /** Read-only access is only ever granted under a level no older than the published policy. */
  lemma ViewingsAreCurrent(env: Env, hash: string, level: string, start: int, actions: seq<Action>, n: nat)
    requires n < |Run(env, Authentication.Initial(hash, level, start), actions).viewings|
    ensures var s := Run(env, Authentication.Initial(hash, level, start), actions);
            ViewingCurrent(s.levels, s.viewings[n])
  {
    var s := Run(env, Authentication.Initial(hash, level, start), actions);
    RunKeepsInv(env, Authentication.Initial(hash, level, start), actions);
    assert s.viewings[n] in s.viewings;
  }

  /**
   No path leaks a reservation: a ticket is unsettled exactly while the request
   that took it is still comparing, and a finished request holds none.
   */
  lemma EveryReservationIsReleased(env: Env, hash: string, level: string, start: int, actions: seq<Action>, t: nat)
    requires t < |Run(env, Authentication.Initial(hash, level, start), actions).world.tickets|
    ensures var s := Run(env, Authentication.Initial(hash, level, start), actions);
            && t < |s.holders| && s.holders[t] < |s.requests|
            && (t !in s.world.settled <==> Holding(s.requests[s.holders[t]].pc) == Some(t))
            && (s.requests[s.holders[t]].pc.Done? ==> t in s.world.settled)
  {
    RunKeepsInv(env, Authentication.Initial(hash, level, start), actions);
  }
}
