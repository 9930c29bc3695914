/**
 Whole runs of the password throttle, kept beside a ledger of what really
 happened: which tickets were issued and settled, and which guesses were wrong.
 */
module ThrottleRuns {
  import opened Wrappers
  import opened JsMap
  import opened Throttle

  datatype Ticket = Ticket(key: string, attempts: nat, staleAt: int)

  /** `n` guesses of one client found wrong at one moment. */
  datatype Charge = Charge(key: string, at: int, n: nat)

  /**
   The tables and their ledger. `charges` holds the wrong guesses since each
   client's last success; `evicted` the clients either table ever pushed out;
   `late` those with a wrong guess reported past its reservation's deadline.
   */
  datatype World = World(tables: State, tickets: seq<Ticket>, settled: set<nat>, charges: seq<Charge>,
                         evicted: set<string>, late: set<string>, now: int)

  datatype Event =
    | Reserving(key: string, attempts: nat, at: int)
    | Settling(ticket: nat, failed: nat, at: int)
    | Clearing(key: string, at: int)

  function Initial(start: int): World {
    World(INITIAL, [], {}, [], {}, {}, start)
  }

  /** A clock that never goes back, a guess per reservation, a settle for a ticket somebody holds. */
  predicate Allowed(w: World, e: Event) {
    && w.now <= e.at
    && match e
       case Reserving(_, attempts, _) => attempts >= 1
       case Settling(ticket, failed, _) => ticket < |w.tickets| && failed <= w.tickets[ticket].attempts
       case Clearing(_, _) => true
  }

  /** The keys an operation on `key` pushed out. */
  function Lost<V>(before: JsMap<string, V>, after: JsMap<string, V>, key: string): set<string> {
    set c | c in before.vals && c !in after.vals && c != key
  }

  function Uncharged(charges: seq<Charge>, key: string): seq<Charge> {
    if charges == [] then []
    else Uncharged(charges[..|charges| - 1], key)
         + (if charges[|charges| - 1].key == key then [] else [charges[|charges| - 1]])
  }

  /** One event; a caller's event outside the rules is no event at all. */
  function Apply(config: Config, w: World, e: Event): (r: World)
    requires w.tables.Valid()
    ensures r.tables.Valid()
  {
    if !Allowed(w, e) then w else
    match e
    case Reserving(key, attempts, at) =>
      var (tables, outcome) := Reserve(config, w.tables, key, attempts, at);
      w.(tables := tables, now := at,
         tickets := if outcome.Admitted? then w.tickets + [Ticket(key, attempts, at + config.windowMs)] else w.tickets,
         evicted := w.evicted + Lost(w.tables.inFlight, tables.inFlight, key))
    case Settling(ticket, failed, at) =>
      if ticket in w.settled then w.(now := at)
      else
        var Ticket(key, _, staleAt) := w.tickets[ticket];
        var tables := SettleOnce(config, w.tables, key, ticket, failed, at);
        w.(tables := tables, now := at,
           settled := w.settled + {ticket},
           charges := if failed > 0 then w.charges + [Charge(key, at, failed)] else w.charges,
           evicted := w.evicted + Lost(w.tables.failed, tables.failed, key),
           late := if failed > 0 && staleAt <= at then w.late + {key} else w.late)
    case Clearing(key, at) =>
      w.(tables := Clear(w.tables, key), now := at, charges := Uncharged(w.charges, key))
  }

  // ------------------------------------------------------- lists of reservations

  /** How many of the reservations one ticket owns. */
  function Owned(held: seq<Reservation>, ticket: nat): nat {
    if held == [] then 0 else (if held[0].ticket == ticket then 1 else 0) + Owned(held[1..], ticket)
  }

  lemma {:induction false} OwnedConcat(a: seq<Reservation>, b: seq<Reservation>, ticket: nat)
    ensures Owned(a + b, ticket) == Owned(a, ticket) + Owned(b, ticket)
  {
    if a == [] {
      assert a + b == b;
    } else {
      assert (a + b)[1..] == a[1..] + b;
      OwnedConcat(a[1..], b, ticket);
    }
  }

  lemma {:induction false} OwnedMeansHeld(held: seq<Reservation>, ticket: nat)
    ensures Owned(held, ticket) > 0 ==> exists r :: r in held && r.ticket == ticket
    ensures (exists r :: r in held && r.ticket == ticket) ==> Owned(held, ticket) > 0
    ensures Owned(held, ticket) <= |held|
  {
    if held == [] {
    } else {
      OwnedMeansHeld(held[1..], ticket);
      assert held == [held[0]] + held[1..];
    }
  }

  lemma {:induction false} OwnedFresh(n: nat, r: Reservation, ticket: nat)
    ensures Owned(seq(n, _ => r), ticket) == if r.ticket == ticket then n else 0
  {
    if n == 0 {
    } else {
      assert seq(n, _ => r)[1..] == seq(n - 1, _ => r);
      OwnedFresh(n - 1, r, ticket);
    }
  }

  /** Releasing one ticket takes out exactly what it owns. */
  lemma {:induction false} OwnedWithout(held: seq<Reservation>, released: nat, ticket: nat)
    ensures Owned(Without(held, released), ticket) == if ticket == released then 0 else Owned(held, ticket)
    ensures |Without(held, released)| == |held| - Owned(held, released)
    ensures forall r :: r in Without(held, released) ==> r in held && r.ticket != released
  {
    if held == [] {
    } else {
      OwnedWithout(held[1..], released, ticket);
      OwnedConcat(if held[0].ticket != released then [held[0]] else [], Without(held[1..], released), ticket);
    }
  }

  /** A sweep takes a ticket's reservations together: they share one deadline. */
  lemma {:induction false} OwnedLive(held: seq<Reservation>, ticket: nat, staleAt: int, now: int)
    requires forall r :: r in held && r.ticket == ticket ==> r.staleAt == staleAt
    ensures Owned(Live(held, now), ticket) == if now < staleAt then Owned(held, ticket) else 0
  {
    if held == [] {
    } else {
      OwnedLive(held[1..], ticket, staleAt, now);
      OwnedConcat(if now < held[0].staleAt then [held[0]] else [], Live(held[1..], now), ticket);
    }
  }

  lemma {:induction false} LiveIsHeld(held: seq<Reservation>, now: int)
    ensures |Live(held, now)| <= |held|
    ensures forall r :: r in Live(held, now) ==> r in held && now < r.staleAt
  {
    if held == [] {
    } else {
      LiveIsHeld(held[1..], now);
    }
  }

  lemma {:induction false} LiveTwice(held: seq<Reservation>, earlier: int, later: int)
    requires earlier <= later
    ensures Live(Live(held, earlier), later) == Live(held, later)
    ensures |Live(held, later)| <= |Live(held, earlier)|
  {
    if held == [] {
    } else {
      LiveTwice(held[1..], earlier, later);
      if earlier < held[0].staleAt {
        assert Live(held, earlier)[1..] == Live(held[1..], earlier);
      } else {
        assert Live(held, earlier) == Live(held[1..], earlier);
      }
    }
  }

  // ---------------------------------------------------------------- the ledger

  /** The wrong guesses a client made from a moment on. */
  function ChargedFrom(charges: seq<Charge>, key: string, from: int): nat {
    if charges == [] then 0
    else
      var last := charges[|charges| - 1];
      ChargedFrom(charges[..|charges| - 1], key, from) + if last.key == key && from <= last.at then last.n else 0
  }

  lemma ChargedFromAppended(charges: seq<Charge>, c: Charge, key: string, from: int)
    ensures ChargedFrom(charges + [c], key, from)
         == ChargedFrom(charges, key, from) + if c.key == key && from <= c.at then c.n else 0
  {
    assert (charges + [c])[..|charges|] == charges;
  }

  lemma {:induction false} NothingCharged(charges: seq<Charge>, key: string, from: int)
    requires forall c :: c in charges && c.key == key ==> c.at < from
    ensures ChargedFrom(charges, key, from) == 0
  {
    if charges == [] {
    } else {
      NothingCharged(charges[..|charges| - 1], key, from);
    }
  }

  lemma {:induction false} UnchargedKeeps(charges: seq<Charge>, cleared: string, key: string, from: int)
    ensures forall c :: c in Uncharged(charges, cleared) <==> c in charges && c.key != cleared
    ensures key != cleared ==> ChargedFrom(Uncharged(charges, cleared), key, from) == ChargedFrom(charges, key, from)
  {
    if charges == [] {
    } else {
      var before, last := charges[..|charges| - 1], charges[|charges| - 1];
      UnchargedKeeps(before, cleared, key, from);
      assert charges == before + [last];
      if last.key != cleared {
        ChargedFromAppended(Uncharged(before, cleared), last, key, from);
      } else {
        assert Uncharged(charges, cleared) == Uncharged(before, cleared);
      }
    }
  }

  // ------------------------------------------------------ one client's invariants

  /** Everything listed is an unsettled ticket of this client, taken whole. */
  ghost predicate ListSound(config: Config, held: seq<Reservation>, tickets: seq<Ticket>, settled: set<nat>,
                            client: string) {
    && |held| <= config.maxFailed
    && forall r :: r in held ==>
         && r.ticket < |tickets| && r.ticket !in settled
         && tickets[r.ticket].key == client && tickets[r.ticket].staleAt == r.staleAt
         && Owned(held, r.ticket) == tickets[r.ticket].attempts
  }

  /** Every unsettled ticket short of its deadline is listed whole. */
  ghost predicate ListComplete(held: seq<Reservation>, tickets: seq<Ticket>, settled: set<nat>, client: string,
                               now: int) {
    forall t :: 0 <= t < |tickets| && t !in settled && tickets[t].key == client && now < tickets[t].staleAt ==>
      Owned(held, t) == tickets[t].attempts
  }

  lemma SweepKeepsList(config: Config, held: seq<Reservation>, tickets: seq<Ticket>, settled: set<nat>,
                       client: string, now: int)
    requires ListSound(config, held, tickets, settled, client)
    ensures ListSound(config, Live(held, now), tickets, settled, client)
    ensures ListComplete(held, tickets, settled, client, now) ==>
              ListComplete(Live(held, now), tickets, settled, client, now)
  {
    LiveIsHeld(held, now);
    forall r | r in Live(held, now) ensures Owned(Live(held, now), r.ticket) == tickets[r.ticket].attempts {
      OwnedLive(held, r.ticket, r.staleAt, now);
    }
    if ListComplete(held, tickets, settled, client, now) {
      forall t | 0 <= t < |tickets| && t !in settled && tickets[t].key == client && now < tickets[t].staleAt
        ensures Owned(Live(held, now), t) == tickets[t].attempts
      {
        OwnedLive(held, t, tickets[t].staleAt, now);
      }
    }
  }

  lemma ReleaseKeepsList(config: Config, held: seq<Reservation>, tickets: seq<Ticket>, settled: set<nat>,
                         client: string,
                         now: int, ticket: nat)
    requires ListSound(config, held, tickets, settled, client)
    ensures ListSound(config, Without(held, ticket), tickets, settled + {ticket}, client)
    ensures ListComplete(held, tickets, settled, client, now) ==>
              ListComplete(Without(held, ticket), tickets, settled + {ticket}, client, now)
  {
    OwnedWithout(held, ticket, ticket);
    forall r | r in Without(held, ticket) ensures Owned(Without(held, ticket), r.ticket) == tickets[r.ticket].attempts {
      OwnedWithout(held, ticket, r.ticket);
    }
    forall t | 0 <= t < |tickets| && t != ticket ensures Owned(Without(held, ticket), t) == Owned(held, t) {
      OwnedWithout(held, ticket, t);
    }
  }

  lemma TakingKeepsList(config: Config, held: seq<Reservation>, tickets: seq<Ticket>, settled: set<nat>, client: string,
                        now: int, attempts: nat, staleAt: int)
    requires ListSound(config, held, tickets, settled, client)
    requires |held| + attempts <= config.maxFailed
    requires forall t :: t in settled ==> t < |tickets|
    ensures var after := held + seq(attempts, _ => Reservation(|tickets|, staleAt));
            var tickets' := tickets + [Ticket(client, attempts, staleAt)];
            && ListSound(config, after, tickets', settled, client)
            && (ListComplete(held, tickets, settled, client, now) ==>
                ListComplete(after, tickets', settled, client, now))
  {
    var fresh_ := Reservation(|tickets|, staleAt);
    var taken := seq(attempts, _ => fresh_);
    var tickets' := tickets + [Ticket(client, attempts, staleAt)];
    forall t: nat ensures Owned(held + taken, t) == Owned(held, t) + if t == |tickets| then attempts else 0 {
      OwnedConcat(held, taken, t);
      OwnedFresh(attempts, fresh_, t);
    }
    OwnedMeansHeld(held, |tickets|);
    assert Owned(held, |tickets|) == 0;
    forall r | r in held + taken
      ensures Owned(held + taken, r.ticket) == tickets'[r.ticket].attempts && tickets'[r.ticket].staleAt == r.staleAt
    {
      if r !in held {
        assert r == fresh_;
      }
    }
  }

  lemma OthersKeepList(config: Config, held: seq<Reservation>, tickets: seq<Ticket>, more: seq<Ticket>,
                       settled: set<nat>,
                       client: string, now: int)
    requires ListSound(config, held, tickets, settled, client)
    requires forall t :: t in more ==> t.key != client
    ensures ListSound(config, held, tickets + more, settled, client)
    ensures ListComplete(held, tickets, settled, client, now) ==>
            ListComplete(held, tickets + more, settled, client, now)
  {
    forall t | |tickets| <= t < |tickets + more| ensures (tickets + more)[t].key != client {
      assert (tickets + more)[t] in more;
    }
  }

  /** The counter is the ledger's: exactly, unless the client was evicted since. */
  ghost predicate LedgerSound(config: Config, failures: Option<Failures>, charges: seq<Charge>, client: string,
                              now: int, evicted: bool) {
    && (forall c :: c in charges && c.key == client ==> c.at <= now)
    && match failures
       case None => evicted || forall c :: c in charges ==> c.key != client
       case Some(f) =>
         var recorded := ChargedFrom(charges, client, f.resetAt - config.windowMs);
         && 1 <= f.count <= recorded
         && (!evicted ==> f.count == recorded)
         && f.resetAt <= now + config.windowMs
         && forall c :: c in charges && c.key == client ==> c.at < f.resetAt
  }

  lemma ChargingKeepsLedger(config: Config, failures: Option<Failures>, charges: seq<Charge>, client: string,
                            before: int, evicted: bool, failed: nat, now: int)
    requires config.windowMs >= 1 && failed >= 1 && before <= now
    requires LedgerSound(config, failures, charges, client, before, evicted)
    ensures LedgerSound(config, Some(Charged(config, failures, failed, now)), charges + [Charge(client, now, failed)],
                        client, now, evicted)
  {
    var after := Charged(config, failures, failed, now);
    ChargedFromAppended(charges, Charge(client, now, failed), client, after.resetAt - config.windowMs);
    if !(failures.Some? && now < failures.value.resetAt) && !evicted {
      NothingCharged(charges, client, now);
    }
  }

  /** Failures of the window running now, and comparisons outstanding now. */
  function Spent(failures: Option<Failures>, held: seq<Reservation>, now: int): nat {
    (if failures.Some? && now < failures.value.resetAt then failures.value.count else 0) + |Live(held, now)|
  }

  lemma WaitingSpendsNothing(failures: Option<Failures>, held: seq<Reservation>, earlier: int, later: int)
    requires earlier <= later
    ensures Spent(failures, held, later) <= Spent(failures, held, earlier)
  {
    LiveTwice(held, earlier, later);
  }

  lemma TakingKeepsBudget(config: Config, failures: Option<Failures>, held: seq<Reservation>, now: int,
                          attempts: nat, r: Reservation)
    requires config.maxFailed >= 1
    requires !IsLockedOut(config, failures, now) && |Live(held, now)| + attempts <= config.maxFailed
    ensures Spent(failures, Live(held, now) + seq(attempts, _ => r), now) <= 2 * config.maxFailed - 1
  {
    LiveIsHeld(Live(held, now) + seq(attempts, _ => r), now);
  }

  /** Settling in time turns reservations into at most as many failures. */
  lemma SettlingKeepsBudget(config: Config, failures: Option<Failures>, held: seq<Reservation>, now: int,
                            ticket: nat, failed: nat)
    requires config.maxFailed >= 1 && |held| <= config.maxFailed
    requires failed == 0 || failed <= Owned(Live(held, now), ticket)
    requires Spent(failures, held, now) <= 2 * config.maxFailed - 1
    ensures Spent(if failed > 0 then Some(Charged(config, failures, failed, now)) else failures,
                  Without(Live(held, now), ticket), now) <= 2 * config.maxFailed - 1
  {
    var live := Live(held, now);
    LiveIsHeld(held, now);
    OwnedWithout(live, ticket, ticket);
    LiveIsHeld(Without(live, ticket), now);
  }

  ghost predicate Numbered(w: World) {
    && w.tables.Valid()
    && w.tables.issued == |w.tickets|
    && forall t :: t in w.settled ==> t < |w.tickets|
  }

  /** One client's share of the world, apart from the tables that hold it. */
  datatype View = View(failures: Option<Failures>, held: seq<Reservation>, tickets: seq<Ticket>, settled: set<nat>,
                       charges: seq<Charge>, evicted: bool, late: bool, now: int)

  function ViewOf(w: World, client: string): View {
    View(w.tables.failed.Get(client), Held(w.tables.inFlight, client), w.tickets, w.settled,
         w.charges, client in w.evicted, client in w.late, w.now)
  }

  /** What holds of each client, whatever the others do. */
  ghost predicate Good(config: Config, v: View, client: string) {
    && ListSound(config, v.held, v.tickets, v.settled, client)
    && (!v.evicted ==> ListComplete(v.held, v.tickets, v.settled, client, v.now))
    && LedgerSound(config, v.failures, v.charges, client, v.now, v.evicted)
    && (!v.evicted && !v.late ==> Spent(v.failures, v.held, v.now) <= 2 * config.maxFailed - 1)
  }

  lemma WaitingKeepsGood(config: Config, v: View, client: string, at: int)
    requires Good(config, v, client) && v.now <= at
    ensures Good(config, v.(now := at), client)
  {
    WaitingSpendsNothing(v.failures, v.held, v.now, at);
  }

  lemma SweepingKeepsGood(config: Config, v: View, client: string)
    requires Good(config, v, client)
    ensures Good(config, v.(held := Live(v.held, v.now)), client)
  {
    SweepKeepsList(config, v.held, v.tickets, v.settled, client, v.now);
    LiveTwice(v.held, v.now, v.now);
  }

  lemma TakingKeepsGood(config: Config, v: View, client: string, attempts: nat)
    requires config.maxFailed >= 1 && Good(config, v, client)
    requires forall t :: t in v.settled ==> t < |v.tickets|
    requires !IsLockedOut(config, v.failures, v.now) && |Live(v.held, v.now)| + attempts <= config.maxFailed
    ensures var staleAt := v.now + config.windowMs;
            Good(config, v.(held := Live(v.held, v.now) + Taken(config, |v.tickets|, attempts, v.now),
                            tickets := v.tickets + [Ticket(client, attempts, staleAt)]), client)
  {
    var staleAt := v.now + config.windowMs;
    SweepKeepsList(config, v.held, v.tickets, v.settled, client, v.now);
    TakingKeepsList(config, Live(v.held, v.now), v.tickets, v.settled, client, v.now, attempts, staleAt);
    TakingKeepsBudget(config, v.failures, v.held, v.now, attempts, Reservation(|v.tickets|, staleAt));
  }

  lemma ReleasingKeepsGood(config: Config, v: View, client: string, ticket: nat, failed: nat)
    requires config.maxFailed >= 1 && config.windowMs >= 1 && Good(config, v, client)
    requires ticket < |v.tickets| && ticket !in v.settled && v.tickets[ticket].key == client
    requires failed <= v.tickets[ticket].attempts
    requires failed > 0 && v.tickets[ticket].staleAt <= v.now ==> v.late
    ensures Good(config, v.(held := Without(Live(v.held, v.now), ticket),
                            settled := v.settled + {ticket},
                            failures := if failed > 0 then Some(Charged(config, v.failures, failed, v.now))
                              else v.failures,
                            charges := if failed > 0 then v.charges + [Charge(client, v.now, failed)] else v.charges),
                              client)
  {
    SweepKeepsList(config, v.held, v.tickets, v.settled, client, v.now);
    ReleaseKeepsList(config, Live(v.held, v.now), v.tickets, v.settled, client, v.now, ticket);
    if failed > 0 {
      ChargingKeepsLedger(config, v.failures, v.charges, client, v.now, v.evicted, failed, v.now);
    }
    if !v.evicted && !v.late {
      SettlingKeepsBudget(config, v.failures, v.held, v.now, ticket, failed);
    }
  }

  lemma ForgettingKeepsGood(config: Config, v: View, client: string)
    requires Good(config, v, client)
    ensures Good(config, v.(failures := None, charges := Uncharged(v.charges, client)), client)
  {
    UnchargedKeeps(v.charges, client, client, 0);
  }

  /** What other clients' tickets, settles and charges add leaves a client's own invariant alone. */
  lemma OthersKeepGood(config: Config, v: View, client: string, more: seq<Ticket>, settled: set<nat>,
                       charges: seq<Charge>)
    requires Good(config, v, client)
    requires forall t :: t in more ==> t.key != client
    requires forall t :: t in settled ==> t < |v.tickets| && v.tickets[t].key != client
    requires (forall c :: c in charges && c.key == client ==> c in v.charges)
    requires forall from :: ChargedFrom(charges, client, from) == ChargedFrom(v.charges, client, from)
    ensures Good(config, v.(tickets := v.tickets + more, settled := v.settled + settled, charges := charges), client)
  {
    OthersKeepList(config, v.held, v.tickets, more, v.settled, client, v.now);
  }

  /** Losing a table entry costs the client its guarantees, not its soundness. */
  lemma EvictingKeepsGood(config: Config, v: View, client: string, failures: Option<Failures>, held: seq<Reservation>)
    requires Good(config, v, client)
    requires failures in {v.failures, None} && held in {v.held, []}
    ensures Good(config, v.(failures := failures, held := held, evicted := true), client)
  {
  }

  lemma EventKeepsNumbering(config: Config, w: World, e: Event)
    requires Numbered(w)
    ensures Numbered(Apply(config, w, e))
  {
    if Allowed(w, e) {
      match e
      case Reserving(key, attempts, at) => ReserveAt(config, w.tables, key, attempts, at, key);
      case Settling(ticket, failed, at) => SettleAt(config, w.tables, w.tickets[ticket].key, ticket, failed, at, "");
      case Clearing(_, _) =>
    }
  }

  /** What an admission makes of its own client's share. */
  function Reserved(config: Config, v: View, key: string, attempts: nat, outcome: Outcome): View {
    match outcome
    case LockedOut => v
    case Busy => v.(held := Live(v.held, v.now))
    case Admitted(ticket) => v.(held := Live(v.held, v.now) + Taken(config, ticket, attempts, v.now),
                                tickets := v.tickets + [Ticket(key, attempts, v.now + config.windowMs)])
  }

  /** The view of its own client after an admission, from what the tables now hold for it. */
  lemma ReservedView(config: Config, w: World, key: string, attempts: nat, at: int, tables: State, outcome: Outcome)
    requires tables.failed == w.tables.failed
    requires Held(tables.inFlight, key) == Reserved(config, ViewOf(w, key).(now := at), key, attempts, outcome).held
    ensures ViewOf(w.(tables := tables, now := at,
                      tickets := if outcome.Admitted? then w.tickets + [Ticket(key, attempts, at + config.windowMs)]
                                 else w.tickets,
                      evicted := w.evicted + Lost(w.tables.inFlight, tables.inFlight, key)), key)
         == Reserved(config, ViewOf(w, key).(now := at), key, attempts, outcome)
  {
    OwnKeyIsNotLost(w.evicted, w.tables.inFlight, tables.inFlight, key);
  }

  lemma ReservedHeld(config: Config, w: World, key: string, attempts: nat, at: int)
    requires Numbered(w)
    ensures var (tables, outcome) := Reserve(config, w.tables, key, attempts, at);
            && tables.failed == w.tables.failed
            && Held(tables.inFlight, key) == Reserved(config, ViewOf(w, key).(now := at), key, attempts, outcome).held
  {
    ReserveAt(config, w.tables, key, attempts, at, key);
  }

  lemma AppliedReserving(config: Config, w: World, key: string, attempts: nat, at: int)
    requires w.tables.Valid() && Allowed(w, Reserving(key, attempts, at))
    ensures var (tables, outcome) := Reserve(config, w.tables, key, attempts, at);
            Apply(config, w, Reserving(key, attempts, at))
            == w.(tables := tables, now := at,
                  tickets := if outcome.Admitted? then w.tickets + [Ticket(key, attempts, at + config.windowMs)]
                             else w.tickets,
                  evicted := w.evicted + Lost(w.tables.inFlight, tables.inFlight, key))
  {
  }

  lemma ReservingOwnView(config: Config, w: World, key: string, attempts: nat, at: int)
    requires Numbered(w) && Allowed(w, Reserving(key, attempts, at))
    ensures ViewOf(Apply(config, w, Reserving(key, attempts, at)), key)
         == Reserved(config, ViewOf(w, key).(now := at), key, attempts, Reserve(config, w.tables, key, attempts, at).1)
  {
    var (tables, outcome) := Reserve(config, w.tables, key, attempts, at);
    ReservedHeld(config, w, key, attempts, at);
    AppliedReserving(config, w, key, attempts, at);
    ReservedView(config, w, key, attempts, at, tables, outcome);
  }

  lemma OwnKeyIsNotLost<V>(evicted: set<string>, before: JsMap<string, V>, after: JsMap<string, V>, key: string)
    ensures key in evicted + Lost(before, after, key) <==> key in evicted
  {
  }

  lemma ReservedKeepsGood(config: Config, v: View, key: string, attempts: nat, outcome: Outcome)
    requires config.maxFailed >= 1 && Good(config, v, key)
    requires forall t :: t in v.settled ==> t < |v.tickets|
    requires outcome.Admitted? ==>
               && outcome.ticket == |v.tickets| && !IsLockedOut(config, v.failures, v.now)
               && |Live(v.held, v.now)| + attempts <= config.maxFailed
    ensures Good(config, Reserved(config, v, key, attempts, outcome), key)
  {
    match outcome
    case LockedOut =>
    case Busy => SweepingKeepsGood(config, v, key);
    case Admitted(_) => TakingKeepsGood(config, v, key, attempts);
  }

  lemma ReservingKeepsOwn(config: Config, w: World, key: string, attempts: nat, at: int)
    requires config.maxFailed >= 1
    requires Numbered(w) && Good(config, ViewOf(w, key), key) && Allowed(w, Reserving(key, attempts, at))
    ensures Good(config, ViewOf(Apply(config, w, Reserving(key, attempts, at)), key), key)
  {
    var v := ViewOf(w, key).(now := at);
    WaitingKeepsGood(config, ViewOf(w, key), key, at);
    ReserveAt(config, w.tables, key, attempts, at, key);
    ReservedKeepsGood(config, v, key, attempts, Reserve(config, w.tables, key, attempts, at).1);
    ReservingOwnView(config, w, key, attempts, at);
  }

  lemma ReservingKeepsOther(config: Config, w: World, key: string, attempts: nat, at: int, client: string)
    requires key != client
    requires Numbered(w) && Good(config, ViewOf(w, client), client) && Allowed(w, Reserving(key, attempts, at))
    ensures Good(config, ViewOf(Apply(config, w, Reserving(key, attempts, at)), client), client)
  {
    var after := Apply(config, w, Reserving(key, attempts, at));
    var v, v' := ViewOf(w, client).(now := at), ViewOf(after, client);
    var more := after.tickets[|w.tickets|..];
    WaitingKeepsGood(config, ViewOf(w, client), client, at);
    ReserveAt(config, w.tables, key, attempts, at, client);
    assert after.tickets == w.tickets + more && w.settled + {} == w.settled;
    OthersKeepGood(config, v, client, more, {}, w.charges);
    if v'.evicted {
      EvictingKeepsGood(config, v.(tickets := after.tickets), client, v.failures, v'.held);
    }
  }

  lemma SettlingKeepsClient(config: Config, w: World, ticket: nat, failed: nat, at: int, client: string)
    requires config.maxFailed >= 1 && config.windowMs >= 1
    requires Numbered(w) && Good(config, ViewOf(w, client), client) && Allowed(w, Settling(ticket, failed, at))
    ensures Good(config, ViewOf(Apply(config, w, Settling(ticket, failed, at)), client), client)
  {
    var after := Apply(config, w, Settling(ticket, failed, at));
    var v, v' := ViewOf(w, client).(now := at), ViewOf(after, client);
    WaitingKeepsGood(config, ViewOf(w, client), client, at);
    if ticket !in w.settled {
      var key := w.tickets[ticket].key;
      SettleAt(config, w.tables, key, ticket, failed, at, client);
      if key == client {
        LatenessKeepsGood(config, v, client, v'.late);
        ReleasingKeepsGood(config, v.(late := v'.late), client, ticket, failed);
      } else {
        forall from ensures ChargedFrom(after.charges, client, from) == ChargedFrom(w.charges, client, from) {
          ChargedFromAppended(w.charges, Charge(key, at, failed), client, from);
        }
        assert v.tickets + [] == v.tickets;
        OthersKeepGood(config, v, client, [], {ticket}, after.charges);
        if v'.evicted {
          EvictingKeepsGood(config, v.(settled := after.settled, charges := after.charges), client, v'.failures,
                            v.held);
        }
      }
    }
  }

  lemma LatenessKeepsGood(config: Config, v: View, client: string, late: bool)
    requires Good(config, v, client) && (v.late ==> late)
    ensures Good(config, v.(late := late), client)
  {
  }

  lemma ClearingKeepsClient(config: Config, w: World, key: string, at: int, client: string)
    requires Numbered(w) && Good(config, ViewOf(w, client), client) && Allowed(w, Clearing(key, at))
    ensures Good(config, ViewOf(Apply(config, w, Clearing(key, at)), client), client)
  {
    var v := ViewOf(w, client).(now := at);
    WaitingKeepsGood(config, ViewOf(w, client), client, at);
    if key == client {
      ForgettingKeepsGood(config, v, client);
    } else {
      forall from ensures ChargedFrom(Uncharged(w.charges, key), client, from) == ChargedFrom(w.charges, client, from) {
        UnchargedKeeps(w.charges, key, client, from);
      }
      UnchargedKeeps(w.charges, key, client, 0);
      assert v.tickets + [] == v.tickets && v.settled + {} == v.settled;
      OthersKeepGood(config, v, client, [], {}, Uncharged(w.charges, key));
    }
  }

  /** Every event keeps every client's invariant. */
  lemma EventKeepsClient(config: Config, w: World, e: Event, client: string)
    requires config.maxFailed >= 1 && config.windowMs >= 1
    requires Numbered(w) && Good(config, ViewOf(w, client), client)
    ensures Good(config, ViewOf(Apply(config, w, e), client), client)
  {
    if Allowed(w, e) {
      match e
      case Reserving(key, attempts, at) =>
        if key == client { ReservingKeepsOwn(config, w, key, attempts, at); }
        else { ReservingKeepsOther(config, w, key, attempts, at, client); }
      case Settling(ticket, failed, at) => SettlingKeepsClient(config, w, ticket, failed, at, client);
      case Clearing(key, at) => ClearingKeepsClient(config, w, key, at, client);
    }
  }

  // ---------------------------------------------------------------- whole runs

  function After(config: Config, start: int, run: seq<Event>): (w: World)
    ensures w.tables.Valid()
  {
    if run == [] then Initial(start) else Apply(config, After(config, start, run[..|run| - 1]), run[|run| - 1])
  }

  lemma {:induction false} RunKeepsClient(config: Config, start: int, run: seq<Event>, client: string)
    requires config.maxFailed >= 1 && config.windowMs >= 1
    ensures Numbered(After(config, start, run)) && Good(config, ViewOf(After(config, start, run), client), client)
  {
    if run == [] {
    } else {
      var before := run[..|run| - 1];
      RunKeepsClient(config, start, before, client);
      EventKeepsNumbering(config, After(config, start, before), run[|run| - 1]);
      EventKeepsClient(config, After(config, start, before), run[|run| - 1], client);
    }
  }

  /** The comparisons a client really has outstanding: unsettled, and short of their deadline. */
  function Outstanding(tickets: seq<Ticket>, settled: set<nat>, client: string, now: int): nat {
    if tickets == [] then 0
    else
      var t := |tickets| - 1;
      Outstanding(tickets[..t], settled, client, now)
      + if t !in settled && tickets[t].key == client && now < tickets[t].staleAt then tickets[t].attempts else 0
  }

  function OwnedBelow(held: seq<Reservation>, n: nat): nat {
    if n == 0 then 0 else OwnedBelow(held, n - 1) + Owned(held, n - 1)
  }

  lemma {:induction false} OwnedBelowFits(held: seq<Reservation>, n: nat)
    ensures OwnedBelow(held, n) <= |held|
    decreases |held|
  {
    if held == [] {
      OwnedBelowEmpty(n);
    } else {
      OwnedBelowFits(held[1..], n);
      OwnedBelowHead(held, n);
    }
  }

  lemma {:induction false} OwnedBelowEmpty(n: nat)
    ensures OwnedBelow([], n) == 0
  {
    if n == 0 {
    } else {
      OwnedBelowEmpty(n - 1);
    }
  }

  lemma {:induction false} OwnedBelowHead(held: seq<Reservation>, n: nat)
    requires held != []
    ensures OwnedBelow(held, n) == OwnedBelow(held[1..], n) + if held[0].ticket < n then 1 else 0
  {
    if n == 0 {
    } else {
      OwnedBelowHead(held, n - 1);
    }
  }

  lemma {:induction false} OutstandingIsListed(held: seq<Reservation>, tickets: seq<Ticket>, settled: set<nat>,
                                               client: string, now: int)
    requires ListComplete(held, tickets, settled, client, now)
    ensures Outstanding(tickets, settled, client, now) <= OwnedBelow(held, |tickets|)
  {
    if tickets == [] {
    } else {
      var t := |tickets| - 1;
      OutstandingIsListed(held, tickets[..t], settled, client, now);
    }
  }

  /** When the window a client's wrong guesses are now counted in began. */
  function WindowStart(config: Config, v: View): int {
    if v.failures.Some? && v.now < v.failures.value.resetAt
    then v.failures.value.resetAt - config.windowMs
    else v.now + 1
  }

  lemma LedgerFitsBudget(config: Config, v: View, client: string)
    requires Good(config, v, client) && !v.evicted && !v.late
    ensures ChargedFrom(v.charges, client, WindowStart(config, v))
            + Outstanding(v.tickets, v.settled, client, v.now) <= 2 * config.maxFailed - 1
  {
    SweepKeepsList(config, v.held, v.tickets, v.settled, client, v.now);
    OutstandingIsListed(Live(v.held, v.now), v.tickets, v.settled, client, v.now);
    OwnedBelowFits(Live(v.held, v.now), |v.tickets|);
    if WindowStart(config, v) == v.now + 1 {
      NothingCharged(v.charges, client, v.now + 1);
    }
  }

  lemma UnchargedIsNotCounted(config: Config, v: View, client: string)
    requires Good(config, v, client)
    requires forall c :: c in v.charges ==> c.key != client
    ensures v.failures.None?
  {
    if v.failures.Some? {
      NothingCharged(v.charges, client, v.failures.value.resetAt - config.windowMs);
    }
  }

  /**
   The honest guarantee: for a client whose entries were never evicted and whose
   wrong guesses were reported in time, the guesses found wrong in the running
   window and the comparisons still outstanding never exceed 2 * maxFailed - 1,
   however many candidates each request carries and however requests interleave.
   */
  lemma FailureBudget(config: Config, start: int, run: seq<Event>, client: string)
    requires config.maxFailed >= 1 && config.windowMs >= 1
    requires client !in After(config, start, run).evicted && client !in After(config, start, run).late
    ensures var v := ViewOf(After(config, start, run), client);
            ChargedFrom(v.charges, client, WindowStart(config, v))
            + Outstanding(v.tickets, v.settled, client, v.now) <= 2 * config.maxFailed - 1
  {
    RunKeepsClient(config, start, run, client);
    LedgerFitsBudget(config, ViewOf(After(config, start, run), client), client);
  }

  // ------------------------------------------------------- the budget is attained

  lemma {:induction false} OneTicketsListEmpties(held: seq<Reservation>, ticket: nat, now: int)
    requires forall r :: r in held ==> r.ticket == ticket
    ensures Without(Live(held, now), ticket) == []
  {
    if held == [] {
    } else {
      var rest := Live(held[1..], now);
      OneTicketsListEmpties(held[1..], ticket, now);
      assert ([held[0]] + rest)[1..] == rest && [] + rest == rest && held[0] in held;
    }
  }

  /** A client alone with its tables: what it holds, what it failed, and nothing that costs it its guarantees. */
  ghost predicate Spending(config: Config, v: View, client: string, wrong: nat, held: seq<Reservation>,
                           tickets: seq<Ticket>, settled: set<nat>) {
    && v == View(if wrong > 0 then Some(Failures(wrong, config.windowMs)) else None, held, tickets, settled,
                 if wrong > 0 then [Charge(client, 0, wrong)] else [], false, false, 0)
  }

  lemma SpendingTakes(config: Config, w: World, client: string, wrong: nat, tickets: seq<Ticket>, settled: set<nat>,
                      attempts: nat)
    requires Numbered(w) && Spending(config, ViewOf(w, client), client, wrong, [], tickets, settled)
    requires wrong < config.maxFailed && 1 <= attempts <= config.maxFailed
    ensures Spending(config, ViewOf(Apply(config, w, Reserving(client, attempts, 0)), client), client, wrong,
                     Taken(config, |tickets|, attempts, 0),
                     tickets + [Ticket(client, attempts, config.windowMs)], settled)
  {
    ReserveAt(config, w.tables, client, attempts, 0, client);
    ReservingOwnView(config, w, client, attempts, 0);
  }

  lemma SpendingSettles(config: Config, w: World, client: string, attempts: nat)
    requires config.windowMs >= 1 && attempts >= 1 && Numbered(w)
    requires Spending(config, ViewOf(w, client), client, 0, Taken(config, 0, attempts, 0),
                      [Ticket(client, attempts, config.windowMs)], {})
    ensures var after := ViewOf(Apply(config, w, Settling(0, attempts, 0)), client);
            Spending(config, after, client, attempts, [], [Ticket(client, attempts, config.windowMs)], {0})
  {
    SettleAt(config, w.tables, client, 0, attempts, 0, client);
    OneTicketsListEmpties(Taken(config, 0, attempts, 0), 0, 0);
  }

  /** All but one of the allowed wrong guesses, settled. */
  function Guesses(config: Config, client: string): seq<Event>
    requires config.maxFailed >= 1
  {
    var wrong := config.maxFailed - 1;
    if wrong == 0 then [] else [Reserving(client, wrong, 0), Settling(0, wrong, 0)]
  }

  /** And then a request that brings as many candidates as may be held. */
  function Spree(config: Config, client: string): seq<Event>
    requires config.maxFailed >= 1
  {
    Guesses(config, client) + [Reserving(client, config.maxFailed, 0)]
  }

  /** The ticket the guesses took, and what of it is settled. */
  function GuessTickets(config: Config, client: string): seq<Ticket>
    requires config.maxFailed >= 1
  {
    if config.maxFailed == 1 then [] else [Ticket(client, config.maxFailed - 1, config.windowMs)]
  }

  function GuessesSettled(config: Config): set<nat> {
    if config.maxFailed == 1 then {} else {0}
  }

  lemma RunTakes(config: Config, run: seq<Event>, client: string, wrong: nat, tickets: seq<Ticket>, settled: set<nat>,
                 attempts: nat)
    requires config.windowMs >= 1 && wrong < config.maxFailed && 1 <= attempts <= config.maxFailed
    requires Spending(config, ViewOf(After(config, 0, run), client), client, wrong, [], tickets, settled)
    ensures Spending(config, ViewOf(After(config, 0, run + [Reserving(client, attempts, 0)]), client), client, wrong,
                     Taken(config, |tickets|, attempts, 0),
                     tickets + [Ticket(client, attempts, config.windowMs)], settled)
  {
    RunKeepsClient(config, 0, run, client);
    SpendingTakes(config, After(config, 0, run), client, wrong, tickets, settled, attempts);
    assert (run + [Reserving(client, attempts, 0)])[..|run|] == run;
  }

  lemma RunSettles(config: Config, run: seq<Event>, client: string, attempts: nat)
    requires config.maxFailed >= 1 && config.windowMs >= 1 && attempts >= 1
    requires Spending(config, ViewOf(After(config, 0, run), client), client, 0, Taken(config, 0, attempts, 0),
                      [Ticket(client, attempts, config.windowMs)], {})
    ensures Spending(config, ViewOf(After(config, 0, run + [Settling(0, attempts, 0)]), client), client, attempts, [],
                     [Ticket(client, attempts, config.windowMs)], {0})
  {
    RunKeepsClient(config, 0, run, client);
    SpendingSettles(config, After(config, 0, run), client, attempts);
    assert (run + [Settling(0, attempts, 0)])[..|run|] == run;
  }

  lemma SpendingNothing(config: Config, client: string)
    ensures Spending(config, ViewOf(After(config, 0, []), client), client, 0, [], [], {})
  {
  }

  lemma AlmostLockedOut(config: Config, client: string)
    requires config.maxFailed >= 1 && config.windowMs >= 1
    ensures Spending(config, ViewOf(After(config, 0, Guesses(config, client)), client), client, config.maxFailed - 1,
                     [],
                     GuessTickets(config, client), GuessesSettled(config))
  {
    var wrong := config.maxFailed - 1;
    SpendingNothing(config, client);
    if wrong > 0 {
      RunTakes(config, [], client, 0, [], {}, wrong);
      assert [] + [Reserving(client, wrong, 0)] == [Reserving(client, wrong, 0)];
      assert [] + [Ticket(client, wrong, config.windowMs)] == [Ticket(client, wrong, config.windowMs)];
      RunSettles(config, [Reserving(client, wrong, 0)], client, wrong);
      assert [Reserving(client, wrong, 0)] + [Settling(0, wrong, 0)] == Guesses(config, client);
    }
  }

  lemma OutstandingAppended(tickets: seq<Ticket>, t: Ticket, settled: set<nat>, client: string, now: int)
    ensures Outstanding(tickets + [t], settled, client, now)
         == Outstanding(tickets, settled, client, now)
            + if |tickets| !in settled && t.key == client && now < t.staleAt then t.attempts else 0
  {
    assert (tickets + [t])[..|tickets|] == tickets;
  }

  lemma SpreeOutstanding(config: Config, client: string)
    requires config.maxFailed >= 1 && config.windowMs >= 1
    ensures Outstanding(GuessTickets(config, client) + [Ticket(client, config.maxFailed, config.windowMs)],
                        GuessesSettled(config), client, 0) == config.maxFailed
  {
    var guesses := Ticket(client, config.maxFailed - 1, config.windowMs);
    OutstandingAppended(GuessTickets(config, client), Ticket(client, config.maxFailed, config.windowMs),
                        GuessesSettled(config), client, 0);
    if config.maxFailed > 1 {
      OutstandingAppended([], guesses, {0}, client, 0);
      assert [] + [guesses] == [guesses];
    }
  }

  lemma OneCharge(client: string, n: nat)
    ensures ChargedFrom([Charge(client, 0, n)], client, 0) == n
  {
    ChargedFromAppended([], Charge(client, 0, n), client, 0);
    assert [] + [Charge(client, 0, n)] == [Charge(client, 0, n)];
  }

  lemma SpreeIsTheBudget(config: Config, v: View, client: string)
    requires config.maxFailed >= 1 && config.windowMs >= 1
    requires var before := GuessTickets(config, client);
             Spending(config, v, client, config.maxFailed - 1, Taken(config, |before|, config.maxFailed, 0),
                      before + [Ticket(client, config.maxFailed, config.windowMs)], GuessesSettled(config))
    ensures ChargedFrom(v.charges, client, WindowStart(config, v))
            + Outstanding(v.tickets, v.settled, client, v.now) == 2 * config.maxFailed - 1
  {
    SpreeOutstanding(config, client);
    OneCharge(client, config.maxFailed - 1);
  }

  /** Nothing smaller would do: a lone client, never evicted and never late, can reach the budget. */
  lemma BudgetIsAttained(config: Config, client: string)
    requires config.maxFailed >= 1 && config.windowMs >= 1
    ensures var w := After(config, 0, Spree(config, client));
            var v := ViewOf(w, client);
            && client !in w.evicted && client !in w.late
            && ChargedFrom(v.charges, client, WindowStart(config, v))
               + Outstanding(v.tickets, v.settled, client, v.now) == 2 * config.maxFailed - 1
  {
    AlmostLockedOut(config, client);
    RunTakes(config, Guesses(config, client), client, config.maxFailed - 1, GuessTickets(config, client),
             GuessesSettled(config), config.maxFailed);
    SpreeIsTheBudget(config, ViewOf(After(config, 0, Spree(config, client)), client), client);
  }

  // ----------------------------------------------------------- what the lists hold

  /**
   The list a client holds lies between what it really has outstanding and what it
   never settled, each ticket whole or not at all, and never exceeds the cap.
   */
  lemma ReservationsTrackReality(config: Config, start: int, run: seq<Event>, client: string, ticket: nat)
    requires config.maxFailed >= 1 && config.windowMs >= 1
    requires ticket < |After(config, start, run).tickets| && After(config, start, run).tickets[ticket].key == client
    ensures var w := After(config, start, run);
            var held := Held(w.tables.inFlight, client);
            && |held| <= config.maxFailed
            && (ticket in w.settled ==> Owned(held, ticket) == 0)
            && Owned(held, ticket) in {0, w.tickets[ticket].attempts}
            && (ticket !in w.settled && client !in w.evicted && w.now < w.tickets[ticket].staleAt ==>
                  Owned(held, ticket) == w.tickets[ticket].attempts)
  {
    RunKeepsClient(config, start, run, client);
    OwnedMeansHeld(Held(After(config, start, run).tables.inFlight, client), ticket);
  }

  /**
   A settle takes out exactly its own request's reservations - every other ticket
   keeps its own unless its deadline has passed - and a second call does nothing.
   */
  lemma SettleIsExactAndOnce(config: Config, start: int, run: seq<Event>, ticket: nat, failed: nat, at: int, other: nat)
    requires config.maxFailed >= 1 && config.windowMs >= 1
    requires var w := After(config, start, run);
             Allowed(w, Settling(ticket, failed, at)) && other < |w.tickets|
    ensures var w := After(config, start, run);
            var after := Apply(config, w, Settling(ticket, failed, at));
            var holder := w.tickets[other].key;
            && (other == ticket ==> Owned(Held(after.tables.inFlight, holder), other) == 0)
            && (other != ticket && at < w.tickets[other].staleAt ==>
                  Owned(Held(after.tables.inFlight, holder), other) == Owned(Held(w.tables.inFlight, holder), other))
            && (ticket in w.settled ==> after == w.(now := at))
  {
    var w := After(config, start, run);
    var holder := w.tickets[other].key;
    RunKeepsClient(config, start, run, holder);
    var held := Held(w.tables.inFlight, holder);
    if ticket in w.settled {
      OwnedMeansHeld(held, ticket);
    } else {
      SettleAt(config, w.tables, w.tickets[ticket].key, ticket, failed, at, holder);
      OwnedWithout(Live(held, at), ticket, other);
      OwnedLive(held, other, w.tickets[other].staleAt, at);
    }
  }

  /** A client with no wrong guess since its last success is never locked out, whoever else fails around it. */
  lemma SuccessNeverLocksOut(config: Config, start: int, run: seq<Event>, client: string, attempts: nat, at: int)
    requires config.maxFailed >= 1 && config.windowMs >= 1
    requires forall c :: c in After(config, start, run).charges ==> c.key != client
    ensures Reserve(config, After(config, start, run).tables, client, attempts, at).1 != LockedOut
  {
    RunKeepsClient(config, start, run, client);
    UnchargedIsNotCounted(config, ViewOf(After(config, start, run), client), client);
    ReserveAt(config, After(config, start, run).tables, client, attempts, at, client);
  }

  // --------------------------------------------------- eviction and its order

  const BY_RESET := (f: Failures) => f.resetAt

  ghost predicate TablesGood(config: Config, w: World)
    requires w.tables.Valid()
  {
    && w.tables.failed.Sorted(BY_RESET)
    && w.tables.failed.DueBy(BY_RESET, w.now + config.windowMs)
    && w.tables.failed.Size() <= Max(1, config.maxClients)
    && w.tables.inFlight.Size() <= Max(1, config.maxClients)
  }

  lemma RecordFailureKeepsOrder(config: Config, failed: JsMap<string, Failures>, key: string, attempts: nat, now: int)
    requires failed.Valid() && failed.Sorted(BY_RESET) && failed.DueBy(BY_RESET, now + config.windowMs)
    ensures RecordFailure(config, failed, key, attempts, now).Sorted(BY_RESET)
  {
    var entry := failed.Get(key);
    if entry.None? || now >= entry.value.resetAt {
      OpeningKeepsSorted(failed, key, Failures(attempts, now + config.windowMs), config.maxClients, BY_RESET);
    } else {
      UpdatingKeepsSorted(failed, key, Failures(entry.value.count + attempts, entry.value.resetAt), BY_RESET);
    }
  }

  lemma RecordFailureKeepsBounds(config: Config, failed: JsMap<string, Failures>, key: string, attempts: nat, now: int)
    requires failed.Valid() && failed.Size() <= Max(1, config.maxClients)
    requires failed.DueBy(BY_RESET, now + config.windowMs)
    ensures RecordFailure(config, failed, key, attempts, now).Size() <= Max(1, config.maxClients)
    ensures RecordFailure(config, failed, key, attempts, now).DueBy(BY_RESET, now + config.windowMs)
  {
    var entry := failed.Get(key);
    if entry.None? || now >= entry.value.resetAt {
      OpeningKeepsBounds(failed, key, Failures(attempts, now + config.windowMs), config.maxClients, BY_RESET);
    }
  }

  lemma ReserveKeepsBounds(config: Config, s: State, key: string, attempts: nat, now: int)
    requires s.Valid() && s.inFlight.Size() <= Max(1, config.maxClients)
    ensures Reserve(config, s, key, attempts, now).0.inFlight.Size() <= Max(1, config.maxClients)
    ensures Reserve(config, s, key, attempts, now).0.failed == s.failed
  {
    assert Sweep(s.inFlight, key, now).Size() <= s.inFlight.Size();
  }

  lemma SettleKeepsBounds(config: Config, s: State, key: string, ticket: nat, failed: nat, now: int)
    requires s.Valid() && s.inFlight.Size() <= Max(1, config.maxClients)
    ensures SettleOnce(config, s, key, ticket, failed, now).inFlight.Size() <= Max(1, config.maxClients)
    ensures SettleOnce(config, s, key, ticket, failed, now).failed
         == if failed > 0 then RecordFailure(config, s.failed, key, failed, now) else s.failed
  {
    assert Sweep(s.inFlight, key, now).Size() <= s.inFlight.Size();
  }

  lemma EventKeepsTables(config: Config, w: World, e: Event)
    requires w.tables.Valid() && TablesGood(config, w)
    ensures TablesGood(config, Apply(config, w, e))
  {
    if Allowed(w, e) {
      match e
      case Reserving(key, attempts, at) => ReserveKeepsBounds(config, w.tables, key, attempts, at);
      case Settling(ticket, failed, at) =>
        if ticket !in w.settled {
          var key := w.tickets[ticket].key;
          SettleKeepsBounds(config, w.tables, key, ticket, failed, at);
          if failed > 0 {
            RecordFailureKeepsOrder(config, w.tables.failed, key, failed, at);
            RecordFailureKeepsBounds(config, w.tables.failed, key, failed, at);
          }
        }
      case Clearing(key, _) => DeletingKeepsSorted(w.tables.failed, key, BY_RESET);
    }
  }

  /** Both tables stay bounded, and the failure table stays in order of expiry. */
  lemma {:induction false} TablesStayBoundedAndOrdered(config: Config, start: int, run: seq<Event>)
    ensures TablesGood(config, After(config, start, run))
  {
    if run == [] {
    } else {
      TablesStayBoundedAndOrdered(config, start, run[..|run| - 1]);
      EventKeepsTables(config, After(config, start, run[..|run| - 1]), run[|run| - 1]);
    }
  }

  /** A lockout still running is spent only when no expired counter is left to spend instead. */
  lemma EvictionSparesRunningLockouts(config: Config, start: int, run: seq<Event>, key: string, attempts: nat,
                                      now: int, victim: string)
    requires victim != key
    requires var failed := After(config, start, run).tables.failed;
             && failed.Has(victim) && !RecordFailure(config, failed, key, attempts, now).Has(victim)
             && now < failed.vals[victim].resetAt
    ensures var failed := After(config, start, run).tables.failed;
            forall k :: k in failed.vals && k != key ==> now < failed.vals[k].resetAt
  {
    var failed := After(config, start, run).tables.failed;
    TablesStayBoundedAndOrdered(config, start, run);
    EvictedIsDueFirst(failed, key, Failures(attempts, now + config.windowMs), config.maxClients, BY_RESET, victim);
  }
}
