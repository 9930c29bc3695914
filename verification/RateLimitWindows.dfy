/** Which requests the limiter lets through, told of the requests a client has made and of nothing it keeps. */
module RateLimitWindows {
  import opened Wrappers
  import opened JsMap
  import opened RateLimit

  /** The request that opened the client's latest window: its first, and its first after each window's end. */
  function OpenedAt(windowMs: nat, run: seq<Request>, client: string): (r: Option<nat>)
    ensures r.Some? ==> r.value < |run|
  {
    if run == [] then None
    else
      var before, last := run[..|run| - 1], run[|run| - 1];
      var window := OpenedAt(windowMs, before, client);
      if last.key == client && (window.None? || last.now >= run[window.value].now + windowMs) then Some(|run| - 1)
      else window
  }

  /** The client's requests from the k-th of the run on. */
  function Made(run: seq<Request>, client: string, k: nat): nat {
    if |run| <= k then 0
    else Made(run[..|run| - 1], client, k) + if run[|run| - 1].key == client then 1 else 0
  }

  lemma OpenedOnceMore(windowMs: nat, run: seq<Request>, last: Request, client: string)
    ensures var window := OpenedAt(windowMs, run, client);
            OpenedAt(windowMs, run + [last], client)
            == if last.key == client && (window.None? || last.now >= run[window.value].now + windowMs) then Some(|run|)
               else window
  {
    assert (run + [last])[..|run|] == run;
  }

  lemma MadeOnceMore(run: seq<Request>, last: Request, client: string, k: nat)
    requires k <= |run|
    ensures Made(run + [last], client, k) == Made(run, client, k) + if last.key == client then 1 else 0
    ensures Made(run, client, |run|) == 0
  {
    assert (run + [last])[..|run|] == run;
  }

  /** What a window opened so long ago has counted. */
  function CounterOf(config: Config, run: seq<Request>, client: string): Option<Entry> {
    match OpenedAt(config.windowMs, run, client)
    case None => None
    case Some(k) => Some(Entry(Made(run, client, k), run[k].now + config.windowMs))
  }

  lemma CounterOnceMore(config: Config, run: seq<Request>, last: Request, client: string)
    ensures CounterOf(config, run + [last], client)
         == if last.key == client then Some(Counted(config, CounterOf(config, run, client), last.now))
            else CounterOf(config, run, client)
  {
    OpenedOnceMore(config.windowMs, run, last, client);
    MadeOnceMore(run, last, client, |run|);
    var window := OpenedAt(config.windowMs, run, client);
    if window.Some? { MadeOnceMore(run, last, client, window.value); }
  }

  /** A client never evicted has exactly its own window and its own requests counted. */
  lemma {:induction false} CounterIs(config: Config, run: seq<Request>, client: string)
    requires NeverEvicted(config, run, client)
    ensures After(config, run).Get(client) == CounterOf(config, run, client)
  {
    if run == [] {
    } else {
      var before, last := run[..|run| - 1], run[|run| - 1];
      assert run == before + [last];
      CounterIs(config, before, client);
      CounterOnceMore(config, before, last, client);
      if last.key == client {
        AppendingAt(config, before, last, client);
      } else {
        CounterStays(config, before, last, client);
      }
    }
  }

  /** What a counter has the client told. */
  function Told(config: Config, counter: Option<Entry>, now: int): Answer {
    if counter.Some? && now < counter.value.resetAt && counter.value.count + 1 > config.limit
    then TooMany((counter.value.resetAt - now + 999) / 1000)
    else Next
  }

  lemma AnsweredBy(config: Config, hits: Table, request: Request)
    requires hits.Valid()
    ensures Step(config, hits, request).1 == Told(config, hits.Get(request.key), request.now)
  {
  }

  lemma AnswerIsTold(config: Config, run: seq<Request>, request: Request)
    requires NeverEvicted(config, run, request.key)
    ensures AnswerOf(config, run + [request]) == Told(config, CounterOf(config, run, request.key), request.now)
  {
    CounterIs(config, run, request.key);
    Appending(config, run, request);
    AnsweredBy(config, After(config, run), request);
  }

  /**
   A request is refused exactly when its client's window is still running and the
   requests the client has made in it, this one included, are more than the limit -
   whoever else called meanwhile - and is told the whole seconds left of the window.
   */
  lemma RefusedIff(config: Config, run: seq<Request>, request: Request)
    requires NeverEvicted(config, run, request.key)
    ensures var window := OpenedAt(config.windowMs, run, request.key);
            AnswerOf(config, run + [request])
            == if window.Some? && request.now < run[window.value].now + config.windowMs
                  && Made(run, request.key, window.value) + 1 > config.limit
               then TooMany((run[window.value].now + config.windowMs - request.now + 999) / 1000)
               else Next
  {
    AnswerIsTold(config, run, request);
  }
}
