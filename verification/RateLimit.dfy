/**
 The fixed-window per-client request limiter: one counter per client in a
 bounded table, the longest-unseen client evicted when the table is full.
 */
module RateLimit {
  import opened Wrappers
  import opened JsMap

  datatype Entry = Entry(count: nat, resetAt: int)

  type Table = JsMap<string, Entry>

  datatype Config = Config(limit: int, windowMs: nat, maxClients: nat)

  datatype Answer = Next | TooMany(retryAfterSeconds: int)

  datatype Request = Request(key: string, now: int)

  const MS_PER_SECOND := 1000

  function CeilSeconds(ms: nat): nat {
    (ms + MS_PER_SECOND - 1) / MS_PER_SECOND
  }

  function Min(a: int, b: int): int {
    if a < b then a else b
  }

  /** A fresh window for a client, at the tail of the table. */
  function OpenWindow(config: Config, hits: Table, request: Request): (r: Table)
    requires hits.Valid()
    ensures r.Valid()
  {
    Opened(hits, request.key, Entry(1, request.now + config.windowMs), config.maxClients)
  }

  /** One request against the table. */
  function Step(config: Config, hits: Table, request: Request): (r: (Table, Answer))
    requires hits.Valid()
    ensures r.0.Valid()
  {
    var entry := hits.Get(request.key);
    if entry.None? || request.now >= entry.value.resetAt then
      (OpenWindow(config, hits, request), Next)
    else
      var counted := Entry(entry.value.count + 1, entry.value.resetAt);
      (hits.Set(request.key, counted),
       if counted.count > config.limit
       then TooMany(CeilSeconds(counted.resetAt - request.now))
       else Next)
  }

  /** The middleware createRateLimit returns, holding its own table. */
  class Limiter {
    const config: Config
    var hits: Table

    constructor (config: Config)
      ensures this.config == config && hits == Empty() && hits.Valid()
    {
      this.config := config;
      hits := Empty();
    }

    method Handle(request: Request) returns (answer: Answer)
      requires hits.Valid()
      modifies this`hits
      ensures hits.Valid() && (hits, answer) == Step(config, old(hits), request)
    {
      var entry := hits.Get(request.key);
      if entry.None? || request.now >= entry.value.resetAt {
        hits := hits.Delete(request.key);
        if hits.Size() >= config.maxClients {
          hits := hits.DeleteHead();
        }
        assert hits == old(hits).Delete(request.key).MakeRoom(config.maxClients);
        hits := hits.Set(request.key, Entry(1, request.now + config.windowMs));
        return Next;
      }
      var count := entry.value.count + 1;
      hits := hits.Set(request.key, Entry(count, entry.value.resetAt));
      if count > config.limit {
        return TooMany(CeilSeconds(entry.value.resetAt - request.now));
      }
      return Next;
    }
  }

  // ---------------------------------------------------------------- runs

  /** A clock that never goes back. */
  ghost predicate Monotone(run: seq<Request>) {
    forall i, j :: 0 <= i < j < |run| ==> run[i].now <= run[j].now
  }

  /** The table after a run from an empty one. */
  function After(config: Config, run: seq<Request>): (hits: Table)
    ensures hits.Valid()
  {
    if run == [] then Empty() else Step(config, After(config, run[..|run| - 1]), run[|run| - 1]).0
  }

  function AnswerOf(config: Config, run: seq<Request>): Answer
    requires run != []
  {
    Step(config, After(config, run[..|run| - 1]), run[|run| - 1]).1
  }

  lemma Appending(config: Config, run: seq<Request>, request: Request)
    ensures After(config, run + [request]) == Step(config, After(config, run), request).0
    ensures AnswerOf(config, run + [request]) == Step(config, After(config, run), request).1
  {
    assert (run + [request])[..|run|] == run;
  }

  /** How many of `client`'s requests made in [from, to) were let through. */
  function Admitted(config: Config, run: seq<Request>, client: string, from: int, to: int): nat {
    if run == [] then 0
    else
      var last := run[|run| - 1];
      Admitted(config, run[..|run| - 1], client, from, to)
      + if last.key == client && from <= last.now < to && AnswerOf(config, run) == Next then 1 else 0
  }

  /** No request of the run pushed `client` out of the table. */
  ghost predicate NeverEvicted(config: Config, run: seq<Request>, client: string) {
    if run == [] then true
    else
      && NeverEvicted(config, run[..|run| - 1], client)
      && (After(config, run[..|run| - 1]).Has(client) ==> After(config, run).Has(client))
  }

  /** The limit a window enforces: its opening request is let through unasked. */
  function Effective(config: Config): nat {
    Max(1, config.limit)
  }

  /** What the table knows about the requests let through in [from, from + window). */
  ghost predicate Accounted(config: Config, counter: Option<Entry>, from: int, last: int, admitted: nat) {
    && (last < from ==> admitted == 0)
    && (counter.None? ==> admitted == 0)
    && (counter.Some? ==>
          var Entry(count, resetAt) := counter.value;
          var start := resetAt - config.windowMs;
          && count >= 1
          && start <= last
          && (start < from ==> admitted <= Min(count, Effective(config)) - 1)
          && (from <= start < from + config.windowMs ==>
                admitted <= Effective(config) - 1 + Min(count, Effective(config)))
          && admitted <= 2 * Effective(config) - 1)
  }

  lemma CountingKeepsAccount(config: Config, counter: Option<Entry>, from: int, last: int, now: int, admitted: nat)
    requires Accounted(config, counter, from, last, admitted) && last <= now
    ensures Accounted(config, Some(Counted(config, counter, now)), from, now,
                      admitted + if from <= now < from + config.windowMs && Passes(config, counter, now) then 1 else 0)
  {
  }

  predicate Running(counter: Option<Entry>, now: int) {
    counter.Some? && now < counter.value.resetAt
  }

  /** A client's own counter, as its own request leaves it. */
  function Counted(config: Config, counter: Option<Entry>, now: int): Entry {
    if Running(counter, now)
    then Entry(counter.value.count + 1, counter.value.resetAt)
    else Entry(1, now + config.windowMs)
  }

  predicate Passes(config: Config, counter: Option<Entry>, now: int) {
    Running(counter, now) ==> counter.value.count < config.limit
  }

  /** A request moves its own client's counter and no other; at most it evicts one. */
  lemma StepAt(config: Config, hits: Table, request: Request, client: string)
    requires hits.Valid()
    ensures var (after, answer) := Step(config, hits, request);
            if client == request.key then
              && after.Get(client) == Some(Counted(config, hits.Get(client), request.now))
              && (answer == Next <==> Passes(config, hits.Get(client), request.now))
            else
              after.Has(client) ==> after.Get(client) == hits.Get(client)
  {
  }

  /** The same, at the end of a run. */
  lemma AppendingAt(config: Config, run: seq<Request>, request: Request, client: string)
    ensures var before, after := After(config, run), After(config, run + [request]);
            if client == request.key then
              && after.Get(client) == Some(Counted(config, before.Get(client), request.now))
              && (AnswerOf(config, run + [request]) == Next <==> Passes(config, before.Get(client), request.now))
            else
              after.Has(client) ==> after.Get(client) == before.Get(client)
  {
    Appending(config, run, request);
    StepAt(config, After(config, run), request, client);
  }

  /** Someone else's request leaves the account as it was. */
  lemma WaitingKeepsAccount(config: Config, counter: Option<Entry>, from: int, last: int, now: int, admitted: nat)
    requires Accounted(config, counter, from, last, admitted) && last <= now
    ensures Accounted(config, counter, from, now, admitted)
  {
  }

  /** A client that is not evicted keeps its counter while others call. */
  lemma CounterStays(config: Config, run: seq<Request>, request: Request, client: string)
    requires NeverEvicted(config, run + [request], client) && client != request.key
    ensures After(config, run + [request]).Get(client) == After(config, run).Get(client)
  {
    AppendingAt(config, run, request, client);
    assert (run + [request])[..|run|] == run;
  }

  lemma AppendingAdmits(config: Config, run: seq<Request>, request: Request, client: string, from: int, to: int)
    ensures Admitted(config, run + [request], client, from, to)
         == Admitted(config, run, client, from, to)
            + if request.key == client && from <= request.now < to && AnswerOf(config, run + [request]) == Next
              then 1 else 0
  {
    assert (run + [request])[..|run|] == run;
  }

  lemma AppendingAccounts(config: Config, run: seq<Request>, request: Request, client: string, from: int, last: int)
    requires NeverEvicted(config, run + [request], client) && last <= request.now
    requires Accounted(config, After(config, run).Get(client), from, last,
                       Admitted(config, run, client, from, from + config.windowMs))
    ensures Accounted(config, After(config, run + [request]).Get(client), from, request.now,
                      Admitted(config, run + [request], client, from, from + config.windowMs))
  {
    var counter := After(config, run).Get(client);
    var admitted := Admitted(config, run, client, from, from + config.windowMs);
    AppendingAdmits(config, run, request, client, from, from + config.windowMs);
    if client == request.key {
      AppendingAt(config, run, request, client);
      CountingKeepsAccount(config, counter, from, last, request.now, admitted);
    } else {
      CounterStays(config, run, request, client);
      WaitingKeepsAccount(config, counter, from, last, request.now, admitted);
    }
  }

  lemma AllButLast(config: Config, run: seq<Request>, client: string)
    requires Monotone(run) && NeverEvicted(config, run, client) && run != []
    ensures var before := run[..|run| - 1];
            && run == before + [run[|run| - 1]] && Monotone(before) && NeverEvicted(config, before, client)
            && (before != [] ==> before[|before| - 1].now <= run[|run| - 1].now)
  {
  }

  lemma {:induction false} RunAccounts(config: Config, run: seq<Request>, client: string, from: int)
    requires Monotone(run) && NeverEvicted(config, run, client)
    requires run != []
    ensures Accounted(config, After(config, run).Get(client), from, run[|run| - 1].now,
                      Admitted(config, run, client, from, from + config.windowMs))
  {
    var before, request := run[..|run| - 1], run[|run| - 1];
    AllButLast(config, run, client);
    if before == [] {
      AppendingAccounts(config, before, request, client, from, request.now);
    } else {
      RunAccounts(config, before, client, from);
      AppendingAccounts(config, before, request, client, from, before[|before| - 1].now);
    }
  }

  /**
   The documented burst bound, sharpened: whatever the request sequence, a client
   that is never evicted is let through at most 2 * limit - 1 times in any
   half-open interval as long as the window.
   */
  lemma BurstBound(config: Config, run: seq<Request>, client: string, from: int)
    requires Monotone(run) && NeverEvicted(config, run, client)
    ensures Admitted(config, run, client, from, from + config.windowMs) <= 2 * Effective(config) - 1
  {
    if run != [] {
      RunAccounts(config, run, client, from);
    }
  }

  // ------------------------------------------------- the bound is attained

  /** One request at 0, the rest of a window's limit at its last moment, then a fresh window's. */
  function BurstTime(config: Config, i: nat): int {
    if i == 0 then 0 else if i < Effective(config) then config.windowMs - 1 else config.windowMs
  }

  function BurstRun(config: Config, client: string, n: nat): seq<Request> {
    seq(n, (i: nat) => Request(client, BurstTime(config, i)))
  }

  lemma BurstRunGrows(config: Config, client: string, n: nat)
    ensures BurstRun(config, client, n + 1) == BurstRun(config, client, n) + [Request(client, BurstTime(config, n))]
  {
  }

  /** The client's counter after n requests of the burst. */
  function BurstEntry(config: Config, n: nat): Entry
    requires n >= 1
  {
    if n <= Effective(config) then Entry(n, config.windowMs) else Entry(n - Effective(config), 2 * config.windowMs)
  }

  lemma BurstCounter(config: Config, n: nat)
    requires config.windowMs >= 2 && 1 <= n < 2 * Effective(config)
    ensures Counted(config, Some(BurstEntry(config, n)), BurstTime(config, n)) == BurstEntry(config, n + 1)
    ensures Passes(config, Some(BurstEntry(config, n)), BurstTime(config, n))
  {
  }

  lemma {:induction false} BurstTable(config: Config, client: string, n: nat)
    requires config.windowMs >= 2 && 1 <= n <= 2 * Effective(config)
    ensures After(config, BurstRun(config, client, n)).Get(client) == Some(BurstEntry(config, n))
    ensures AnswerOf(config, BurstRun(config, client, n)) == Next
  {
    var before := BurstRun(config, client, n - 1);
    BurstRunGrows(config, client, n - 1);
    AppendingAt(config, before, Request(client, BurstTime(config, n - 1)), client);
    if n > 1 {
      BurstTable(config, client, n - 1);
      BurstCounter(config, n - 1);
    } else {
      assert before == [];
    }
  }

  lemma {:induction false} BurstCount(config: Config, client: string, n: nat)
    requires config.windowMs >= 2 && 1 <= n <= 2 * Effective(config)
    ensures Admitted(config, BurstRun(config, client, n), client, 1, 1 + config.windowMs) == n - 1
  {
    var run := BurstRun(config, client, n);
    assert run[..n - 1] == BurstRun(config, client, n - 1);
    BurstTable(config, client, n);
    if n > 1 {
      BurstCount(config, client, n - 1);
    } else {
      assert BurstRun(config, client, 0) == [];
    }
  }

  /**
   Nothing smaller would do: for every limit, a client alone on the server is let
   through 2 * limit - 1 times within one window's length.
   */
  lemma BurstBoundIsAttained(config: Config, client: string)
    requires config.windowMs >= 2
    ensures exists run ::
              && Monotone(run) && NeverEvicted(config, run, client)
              && Admitted(config, run, client, 1, 1 + config.windowMs) == 2 * Effective(config) - 1
  {
    var n := 2 * Effective(config);
    var run := BurstRun(config, client, n);
    BurstCount(config, client, n);
    AloneIsNeverEvicted(config, run, client);
    assert Monotone(run);
  }

  lemma {:induction false} AloneIsNeverEvicted(config: Config, run: seq<Request>, client: string)
    requires forall r :: r in run ==> r.key == client
    ensures NeverEvicted(config, run, client)
  {
    if run == [] {
    } else {
      AloneIsNeverEvicted(config, run[..|run| - 1], client);
      StepAt(config, After(config, run[..|run| - 1]), run[|run| - 1], client);
    }
  }

  // --------------------------------------------------- eviction and its order

  const BY_RESET := (e: Entry) => e.resetAt

  lemma {:induction false} TableStaysBoundedAndOrdered(config: Config, run: seq<Request>)
    requires Monotone(run)
    ensures After(config, run).Size() <= Max(1, config.maxClients)
    ensures After(config, run).Sorted(BY_RESET)
    ensures run != [] ==>
              After(config, run).DueBy(BY_RESET, run[|run| - 1].now + config.windowMs)
  {
    if run == [] {
    } else {
      var before, last := run[..|run| - 1], run[|run| - 1];
      TableStaysBoundedAndOrdered(config, before);
      if before != [] {
        assert before[|before| - 1].now <= last.now;
      }
      StepKeepsOrder(config, After(config, before), last);
      StepKeepsBounds(config, After(config, before), last);
    }
  }

  lemma StepKeepsOrder(config: Config, hits: Table, request: Request)
    requires hits.Valid() && hits.Sorted(BY_RESET) && hits.DueBy(BY_RESET, request.now + config.windowMs)
    ensures Step(config, hits, request).0.Sorted(BY_RESET)
  {
    var entry := hits.Get(request.key);
    if entry.None? || request.now >= entry.value.resetAt {
      OpeningKeepsSorted(hits, request.key, Entry(1, request.now + config.windowMs), config.maxClients, BY_RESET);
    } else {
      UpdatingKeepsSorted(hits, request.key, Entry(entry.value.count + 1, entry.value.resetAt), BY_RESET);
    }
  }

  lemma StepKeepsBounds(config: Config, hits: Table, request: Request)
    requires hits.Valid() && hits.Size() <= Max(1, config.maxClients)
    requires hits.DueBy(BY_RESET, request.now + config.windowMs)
    ensures Step(config, hits, request).0.Size() <= Max(1, config.maxClients)
    ensures Step(config, hits, request).0.DueBy(BY_RESET, request.now + config.windowMs)
  {
    var entry := hits.Get(request.key);
    if entry.None? || request.now >= entry.value.resetAt {
      OpeningKeepsBounds(hits, request.key, Entry(1, request.now + config.windowMs), config.maxClients, BY_RESET);
    }
  }

  /**
   Evicting means "not seen for longest": a request that pushes out a client whose
   window still runs finds every other counter in the table still running too.
   */
  lemma EvictionSparesRunningWindows(config: Config, run: seq<Request>, request: Request, victim: string)
    requires Monotone(run + [request])
    requires victim != request.key
    requires After(config, run).Has(victim) && !Step(config, After(config, run), request).0.Has(victim)
    requires request.now < After(config, run).vals[victim].resetAt
    ensures forall k :: k in After(config, run).vals && k != request.key ==>
                          request.now < After(config, run).vals[k].resetAt
  {
    var hits := After(config, run);
    MonotonePrefix(run, request);
    TableStaysBoundedAndOrdered(config, run);
    EvictedIsDueFirst(hits, request.key, Entry(1, request.now + config.windowMs), config.maxClients, BY_RESET, victim);
  }

  lemma MonotonePrefix(run: seq<Request>, request: Request)
    requires Monotone(run + [request])
    ensures Monotone(run)
  {
    forall i, j | 0 <= i < j < |run| ensures run[i].now <= run[j].now {
      assert run[i] == (run + [request])[i] && run[j] == (run + [request])[j];
    }
  }

  function Clients(run: seq<Request>): set<string> {
    set i | 0 <= i < |run| :: run[i].key
  }

  lemma SubsetSize<T>(a: set<T>, b: set<T>)
    requires a <= b
    ensures |a| <= |b|
  {
    assert b == a + (b - a);
  }

  lemma PrefixClients(run: seq<Request>)
    requires run != []
    ensures Clients(run[..|run| - 1]) + {run[|run| - 1].key} == Clients(run)
  {
    var before := run[..|run| - 1];
    forall i | 0 <= i < |before| ensures run[i].key in Clients(before) {
      assert before[i].key in Clients(before);
    }
  }

  lemma {:induction false} TableHoldsOnlyCallers(config: Config, run: seq<Request>)
    ensures After(config, run).vals.Keys <= Clients(run)
  {
    if run == [] {
    } else {
      TableHoldsOnlyCallers(config, run[..|run| - 1]);
      PrefixClients(run);
      forall k | k in After(config, run).vals ensures k in Clients(run) {
        StepAt(config, After(config, run[..|run| - 1]), run[|run| - 1], k);
      }
    }
  }

  /** With room for the caller beside everyone else, nobody has to go. */
  lemma RoomSparesEveryone(config: Config, hits: Table, request: Request, client: string)
    requires hits.Valid() && hits.Has(client)
    requires |hits.vals.Keys + {request.key}| <= config.maxClients
    ensures Step(config, hits, request).0.Has(client)
  {
    var forgotten := hits.Delete(request.key);
    KeysAreTheDomain(forgotten);
    assert hits.vals.Keys + {request.key} == forgotten.vals.Keys + {request.key};
  }

  /** A server no busier than its table never evicts anyone, so the bound holds for every client. */
  lemma {:induction false} FewClientsAreNeverEvicted(config: Config, run: seq<Request>, client: string)
    requires |Clients(run)| <= config.maxClients
    ensures NeverEvicted(config, run, client)
  {
    if run == [] {
    } else {
      var before, last := run[..|run| - 1], run[|run| - 1];
      PrefixClients(run);
      SubsetSize(Clients(before), Clients(run));
      FewClientsAreNeverEvicted(config, before, client);
      TableHoldsOnlyCallers(config, before);
      SubsetSize(After(config, before).vals.Keys + {last.key}, Clients(run));
      if After(config, before).Has(client) {
        RoomSparesEveryone(config, After(config, before), last, client);
      }
    }
  }

  /** A refused caller who waits out Retry-After is let in, and could not have been told less. */
  lemma RetryAfterIsEnoughAndTight(config: Config, hits: Table, request: Request, later: int)
    requires hits.Valid() && Step(config, hits, request).1.TooMany?
    ensures var wait := Step(config, hits, request).1.retryAfterSeconds;
            var counted := Step(config, hits, request).0;
            && wait >= 1
            && (later >= request.now + wait * MS_PER_SECOND ==>
                  Step(config, counted, Request(request.key, later)).1 == Next)
            && request.now + (wait - 1) * MS_PER_SECOND < counted.vals[request.key].resetAt
  {
  }
}
