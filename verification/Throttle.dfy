/**
 The failed-password throttle: confirmed wrong guesses per client, comparisons
 in flight per client, and the settle closure each admission hands back.
 */
module Throttle {
  import opened Wrappers
  import opened JsMap

  /** MAX_ATTEMPTS_IN_FLIGHT is maxFailed and IN_FLIGHT_MAX_AGE_MS is windowMs, as in the original. */
  datatype Config = Config(windowMs: nat, maxFailed: nat, maxClients: nat)

  datatype Failures = Failures(count: nat, resetAt: int)

  /** One comparison in flight, owned by the request that holds `ticket`. */
  datatype Reservation = Reservation(ticket: nat, staleAt: int)

  datatype Outcome = LockedOut | Busy | Admitted(ticket: nat)

  /** The two tables, and how many tickets were ever issued. */
  datatype State = State(failed: JsMap<string, Failures>, inFlight: JsMap<string, seq<Reservation>>, issued: nat) {
    ghost predicate Valid() {
      failed.Valid() && inFlight.Valid()
    }
  }

  const INITIAL := State(Empty(), Empty(), 0)

  predicate IsLockedOut(config: Config, failures: Option<Failures>, now: int) {
    failures.Some? && now < failures.value.resetAt && failures.value.count >= config.maxFailed
  }

  function RecordFailure(config: Config, failed: JsMap<string, Failures>, key: string, attempts: nat, now: int)
    : (r: JsMap<string, Failures>)
    requires failed.Valid()
    ensures r.Valid()
  {
    var entry := failed.Get(key);
    if entry.None? || now >= entry.value.resetAt then
      Opened(failed, key, Failures(attempts, now + config.windowMs), config.maxClients)
    else
      failed.Set(key, Failures(entry.value.count + attempts, entry.value.resetAt))
  }

  /** The reservations still short of their deadline, in order. */
  function Live(held: seq<Reservation>, now: int): seq<Reservation> {
    if held == [] then []
    else (if now < held[0].staleAt then [held[0]] else []) + Live(held[1..], now)
  }

  function Without(held: seq<Reservation>, ticket: nat): seq<Reservation> {
    if held == [] then []
    else (if held[0].ticket != ticket then [held[0]] else []) + Without(held[1..], ticket)
  }

  /** An empty list is a missing key. */
  function Store(m: JsMap<string, seq<Reservation>>, key: string, held: seq<Reservation>)
    : (r: JsMap<string, seq<Reservation>>)
    requires m.Valid()
    ensures r.Valid()
  {
    if held == [] then m.Delete(key) else m.Set(key, held)
  }

  function Sweep(m: JsMap<string, seq<Reservation>>, key: string, now: int): (r: JsMap<string, seq<Reservation>>)
    requires m.Valid()
    ensures r.Valid()
  {
    if m.Has(key) then Store(m, key, Live(m.vals[key], now)) else m
  }

  function Held(m: JsMap<string, seq<Reservation>>, key: string): seq<Reservation> {
    m.Get(key).GetOr([])
  }

  /** The client's list in the table, after making room for a newcomer. */
  function Place(config: Config, m: JsMap<string, seq<Reservation>>, key: string, held: seq<Reservation>)
    : (r: JsMap<string, seq<Reservation>>)
    requires m.Valid()
    ensures r.Valid()
  {
    (if m.Has(key) then m else m.MakeRoom(config.maxClients)).Set(key, held)
  }

  /** One token per request, shared by the reservations it takes. */
  function Taken(config: Config, ticket: nat, attempts: nat, now: int): seq<Reservation> {
    seq(attempts, _ => Reservation(ticket, now + config.windowMs))
  }

  function Reserve(config: Config, s: State, key: string, attempts: nat, now: int): (r: (State, Outcome))
    requires s.Valid()
    ensures r.0.Valid()
  {
    if IsLockedOut(config, s.failed.Get(key), now) then (s, LockedOut)
    else
      var swept := Sweep(s.inFlight, key, now);
      var live := Held(swept, key);
      if |live| + attempts > config.maxFailed then (s.(inFlight := swept), Busy)
      else
        (State(s.failed, Place(config, swept, key, live + Taken(config, s.issued, attempts, now)), s.issued + 1),
         Admitted(s.issued))
  }

  /** The first call of a settle closure. */
  function SettleOnce(config: Config, s: State, key: string, ticket: nat, failed: nat, now: int): (r: State)
    requires s.Valid()
    ensures r.Valid()
  {
    var swept := Sweep(s.inFlight, key, now);
    var released := if swept.Has(key) then Store(swept, key, Without(swept.vals[key], ticket)) else swept;
    var charged := if failed > 0 then RecordFailure(config, s.failed, key, failed, now) else s.failed;
    s.(inFlight := released, failed := charged)
  }

  function Clear(s: State, key: string): (r: State)
    requires s.Valid()
    ensures r.Valid()
  {
    s.(failed := s.failed.Delete(key))
  }

  /** The closure releaseWith returns: it remembers whose reservations it releases, and whether it has. */
  class Settlement {
    const key: string
    const ticket: nat
    var settled: bool

    constructor (key: string, ticket: nat)
      ensures this.key == key && this.ticket == ticket && !settled
    {
      this.key, this.ticket, settled := key, ticket, false;
    }
  }

  /** The module's two maps. */
  class Throttle {
    const config: Config
    var failedAttempts: JsMap<string, Failures>
    var attemptsInFlight: JsMap<string, seq<Reservation>>
    var issued: nat

    ghost predicate Valid()
      reads this
    {
      failedAttempts.Valid() && attemptsInFlight.Valid()
    }

    ghost function Abs(): State
      reads this
    {
      State(failedAttempts, attemptsInFlight, issued)
    }

    constructor (config: Config)
      ensures Valid() && this.config == config && Abs() == INITIAL
    {
      this.config := config;
      failedAttempts, attemptsInFlight, issued := Empty(), Empty(), 0;
    }

    method RecordFailureOf(key: string, attempts: nat, now: int)
      requires Valid()
      modifies this`failedAttempts
      ensures Valid()
      ensures failedAttempts == RecordFailure(config, old(failedAttempts), key, attempts, now)
    {
      var entry := failedAttempts.Get(key);
      if entry.None? || now >= entry.value.resetAt {
        failedAttempts := failedAttempts.Delete(key);
        if failedAttempts.Size() >= config.maxClients {
          failedAttempts := failedAttempts.DeleteHead();
        }
        failedAttempts := failedAttempts.Set(key, Failures(attempts, now + config.windowMs));
        return;
      }
      failedAttempts := failedAttempts.Set(key, Failures(entry.value.count + attempts, entry.value.resetAt));
    }

    /** liveReservations: null where nothing is held. */
    method LiveReservations(key: string, now: int) returns (live: Option<seq<Reservation>>)
      requires Valid()
      modifies this`attemptsInFlight
      ensures Valid() && attemptsInFlight == Sweep(old(attemptsInFlight), key, now)
      ensures live == attemptsInFlight.Get(key)
    {
      var held := attemptsInFlight.Get(key);
      if held.None? {
        return None;
      }
      var kept := Live(held.value, now);
      if kept == [] {
        attemptsInFlight := attemptsInFlight.Delete(key);
        return None;
      }
      attemptsInFlight := attemptsInFlight.Set(key, kept);
      return Some(kept);
    }

    method ReserveAttempt(key: string, attempts: nat, now: int)
      returns (outcome: Outcome, settlement: Settlement?)
      requires Valid()
      modifies this
      ensures Valid() && (Abs(), outcome) == Reserve(config, old(Abs()), key, attempts, now)
      ensures outcome.Admitted? <==> settlement != null
      ensures settlement != null ==>
                fresh(settlement) && !settlement.settled && settlement.key == key && settlement.ticket == outcome.ticket
    {
      if IsLockedOut(config, failedAttempts.Get(key), now) {
        return LockedOut, null;
      }
      var found := LiveReservations(key, now);
      var live := found.GetOr([]);
      if |live| + attempts > config.maxFailed {
        return Busy, null;
      }
      if !attemptsInFlight.Has(key) && attemptsInFlight.Size() >= config.maxClients {
        attemptsInFlight := attemptsInFlight.DeleteHead();
      }
      var ticket := issued;
      issued := issued + 1;
      attemptsInFlight := attemptsInFlight.Set(key, live + Taken(config, ticket, attempts, now));
      settlement := new Settlement(key, ticket);
      return Admitted(ticket), settlement;
    }

    /** Settles once, whatever the caller does: a second call changes neither table. */
    method Settle(s: Settlement, failed: nat, now: int)
      requires Valid()
      modifies this, s`settled
      ensures Valid() && s.settled
      ensures Abs() == if old(s.settled)
                       then old(Abs())
                       else SettleOnce(config, old(Abs()), s.key, s.ticket, failed, now)
    {
      if s.settled {
        return;
      }
      s.settled := true;
      var live := LiveReservations(s.key, now);
      if live.Some? {
        var remaining := Without(live.value, s.ticket);
        if remaining != [] {
          attemptsInFlight := attemptsInFlight.Set(s.key, remaining);
        } else {
          attemptsInFlight := attemptsInFlight.Delete(s.key);
        }
      }
      if failed > 0 {
        RecordFailureOf(s.key, failed, now);
      }
    }

    method ClearFailedAttempts(key: string)
      requires Valid()
      modifies this`failedAttempts
      ensures Valid() && Abs() == Clear(old(Abs()), key)
    {
      failedAttempts := failedAttempts.Delete(key);
    }
  }

  // ------------------------------------------- one client's share of the tables

  /** What a client's failures become when `attempts` more are recorded. */
  function Charged(config: Config, failures: Option<Failures>, attempts: nat, now: int): Failures {
    if failures.Some? && now < failures.value.resetAt
    then Failures(failures.value.count + attempts, failures.value.resetAt)
    else Failures(attempts, now + config.windowMs)
  }

  lemma RecordFailureAt(config: Config, failed: JsMap<string, Failures>, key: string, attempts: nat, now: int,
                        client: string)
    requires failed.Valid()
    ensures var after := RecordFailure(config, failed, key, attempts, now);
            if client == key then after.Get(client) == Some(Charged(config, failed.Get(client), attempts, now))
            else after.Has(client) ==> after.Get(client) == failed.Get(client)
  {
  }

  lemma SweepAt(m: JsMap<string, seq<Reservation>>, key: string, now: int, client: string)
    requires m.Valid()
    ensures var after := Sweep(m, key, now);
            if client == key then Held(after, client) == Live(Held(m, client), now)
            else after.Get(client) == m.Get(client)
  {
  }

  /** What an admission leaves each client holding. */
  lemma ReserveAt(config: Config, s: State, key: string, attempts: nat, now: int, client: string)
    requires s.Valid()
    ensures var (after, outcome) := Reserve(config, s, key, attempts, now);
            var mine := Live(Held(s.inFlight, key), now);
            && after.failed == s.failed
            && (outcome == LockedOut <==> IsLockedOut(config, s.failed.Get(key), now))
            && (outcome == LockedOut ==> after == s)
            && (outcome != LockedOut ==> (outcome == Busy <==> |mine| + attempts > config.maxFailed))
            && (outcome.Admitted? ==> outcome.ticket == s.issued && after.issued == s.issued + 1)
            && (!outcome.Admitted? ==> after.issued == s.issued)
            && if client == key then
                 Held(after.inFlight, client) ==
                   match outcome
                   case LockedOut => Held(s.inFlight, client)
                   case Busy => mine
                   case Admitted(t) => mine + Taken(config, s.issued, attempts, now)
               else
                 after.inFlight.Has(client) ==> after.inFlight.Get(client) == s.inFlight.Get(client)
  {
    SweepAt(s.inFlight, key, now, key);
    SweepAt(s.inFlight, key, now, client);
  }

  /** A release touches its own client alone, and of that client's reservations only its own and the stale. */
  lemma SettleAt(config: Config, s: State, key: string, ticket: nat, failed: nat, now: int, client: string)
    requires s.Valid()
    ensures var after := SettleOnce(config, s, key, ticket, failed, now);
            && after.issued == s.issued
            && (if client == key then
                  && Held(after.inFlight, client) == Without(Live(Held(s.inFlight, client), now), ticket)
                  && after.failed.Get(client) == (if failed > 0
                                                  then Some(Charged(config, s.failed.Get(client), failed, now))
                                                  else s.failed.Get(client))
                else
                  && after.inFlight.Get(client) == s.inFlight.Get(client)
                  && (after.failed.Has(client) ==> after.failed.Get(client) == s.failed.Get(client)))
  {
    SweepAt(s.inFlight, key, now, key);
    SweepAt(s.inFlight, key, now, client);
    RecordFailureAt(config, s.failed, key, failed, now, client);
  }
}
