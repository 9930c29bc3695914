/**
 The upgrade that gives the history a target: seeded from the legacy keys, back-filled
 chunk by chunk, restartable after dying behind any of its statements.
 */
module Migration {
  import opened Wrappers
  import opened Text

  // --------------------------------------------------------------- the legacy fold

  datatype Seed = Seed(name: string, provider: string, serverId: Option<string>, endpoint: Option<string>)

  /** A config value that was really chosen: neither missing, empty nor 'none'. */
  function Chosen(values: map<string, string>, key: string): Option<string> {
    if key in values && values[key] != "" && values[key] != "none" then Some(values[key]) else None
  }

  function DisplayName(provider: string): Option<string> {
    match provider
    case "ookla" => Some("Ookla")
    case "libre" => Some("LibreSpeed")
    case "cloudflare" => Some("Cloudflare")
    case _ => None
  }

  /** The one target the four legacy keys describe. */
  function LegacyTarget(values: map<string, string>): Option<Seed> {
    if "provider" !in values || DisplayName(values["provider"]).None? then None
    else
      var provider := values["provider"];
      Some(Seed(DisplayName(provider).value, provider, Chosen(values, provider + "Id"),
                if provider == "libre" then Chosen(values, "libreUrl") else None))
  }

  /** The row the upgrade writes: what could not be run or edited afterwards is dropped, never the row. */
  function SeedTarget(values: map<string, string>, fetchable: string -> bool): Option<Seed> {
    match LegacyTarget(values)
    case None => None
    case Some(seed) =>
      Some(seed.(endpoint := if seed.endpoint.Some? && fetchable(seed.endpoint.value) then seed.endpoint else None,
                 serverId := if seed.serverId.Some? && IsDigits(seed.serverId.value) then seed.serverId else None))
  }

  // ------------------------------------------------------- and what it holds, key by key

  predicate ChoseAProvider(values: map<string, string>) {
    "provider" in values
    && (values["provider"] == "ookla" || values["provider"] == "libre" || values["provider"] == "cloudflare")
  }

  /** The server id stored under a key, where it is digits and nothing else. */
  ghost predicate PinnedUnder(values: map<string, string>, key: string, serverId: Option<string>) {
    if key in values && values[key] != "" && (forall i :: 0 <= i < |values[key]| ==> '0' <= values[key][i] <= '9')
    then serverId == Some(values[key]) else serverId == None
  }

  /** The address of a backend of one's own, where it was chosen and can be fetched from. */
  ghost predicate BackendUnder(values: map<string, string>, fetchable: string -> bool, endpoint: Option<string>) {
    if "libreUrl" in values && values["libreUrl"] != "" && values["libreUrl"] != "none" && fetchable(values["libreUrl"])
    then endpoint == Some(values["libreUrl"]) else endpoint == None
  }

  /** The target the four keys describe: the provider's name, the server pinned under its own key, and its address. */
  ghost predicate DescribedBy(values: map<string, string>, fetchable: string -> bool, seed: Seed) {
    && "provider" in values && seed.provider == values["provider"]
    && (|| (seed.provider == "ookla" && seed.name == "Ookla" && PinnedUnder(values, "ooklaId", seed.serverId)
            && seed.endpoint == None)
        || (seed.provider == "libre" && seed.name == "LibreSpeed" && PinnedUnder(values, "libreId", seed.serverId)
            && BackendUnder(values, fetchable, seed.endpoint))
        || (seed.provider == "cloudflare" && seed.name == "Cloudflare"
            && PinnedUnder(values, "cloudflareId", seed.serverId) && seed.endpoint == None))
  }

  lemma DigitsUnder(values: map<string, string>, key: string)
    ensures var chosen := Chosen(values, key);
            PinnedUnder(values, key, if chosen.Some? && IsDigits(chosen.value) then chosen else None)
  {
    assert "none"[0] == 'n';
  }

  /** A target is seeded exactly when one of the three providers was chosen, and it is the one the keys describe. */
  lemma SeedIs(values: map<string, string>, fetchable: string -> bool)
    ensures SeedTarget(values, fetchable).Some? <==> ChoseAProvider(values)
    ensures SeedTarget(values, fetchable).Some? ==> DescribedBy(values, fetchable, SeedTarget(values, fetchable).value)
  {
    assert "ookla" + "Id" == "ooklaId" && "libre" + "Id" == "libreId" && "cloudflare" + "Id" == "cloudflareId";
    DigitsUnder(values, "ooklaId");
    DigitsUnder(values, "libreId");
    DigitsUnder(values, "cloudflareId");
  }

  // ------------------------------------------------------------------ the database

  datatype Stored = Stored(id: int, seed: Seed)

  /** `history` lists each result's target, in id order; `filled` counts back-fill statements that changed a row. */
  datatype Db = Db(hasTargets: bool, targets: seq<Stored>, nextId: int, hasColumn: bool, indexed: bool,
                   history: seq<Option<int>>, config: map<string, string>, filled: nat)

  const LEGACY_KEYS := {"provider", "ooklaId", "libreId", "libreUrl"}

  function FirstId(targets: seq<Stored>): int
    requires targets != []
  {
    if |targets| == 1 then targets[0].id
    else
      var rest := FirstId(targets[1..]);
      if targets[0].id < rest then targets[0].id else rest
  }

  /** ORDER BY id LIMIT 1. */
  lemma {:induction false} FirstIdIs(targets: seq<Stored>)
    requires targets != []
    ensures exists i :: 0 <= i < |targets| && targets[i].id == FirstId(targets)
    ensures forall i :: 0 <= i < |targets| ==> FirstId(targets) <= targets[i].id
  {
    assert |targets| == 1 ==> targets[0].id == FirstId(targets);
    if |targets| > 1 {
      FirstIdIs(targets[1..]);
      var i :| 0 <= i < |targets[1..]| && targets[1..][i].id == FirstId(targets[1..]);
      assert targets[i + 1].id == FirstId(targets[1..]);
      assert FirstId(targets) == targets[0].id || FirstId(targets) == targets[i + 1].id;
      forall j | 0 <= j < |targets| ensures FirstId(targets) <= targets[j].id {
        if j > 0 { assert targets[1..][j - 1] == targets[j]; }
      }
    }
  }

  /** One back-fill statement: the first `limit` results without a target, by id, get this one. */
  function Fill(history: seq<Option<int>>, limit: nat, id: int): seq<Option<int>> {
    if history == [] then []
    else if history[0].None? && limit > 0 then [Some(id)] + Fill(history[1..], limit - 1, id)
    else [history[0]] + Fill(history[1..], limit, id)
  }

  function Unattributed(history: seq<Option<int>>): nat {
    if history == [] then 0 else Unattributed(history[1..]) + if history[0].None? then 1 else 0
  }

  // ------------------------------------------------------------------ the statements

  datatype Pc = CreateTable | AddColumn | AddIndex | InsertSeed | BackFill | DeleteKeys | Done

  /** What the migration is given: the chunk size and what counts as an address a backend can be fetched from. */
  datatype Env = Env(chunk: nat, fetchable: string -> bool)

  datatype State = State(pc: Pc, db: Db)

  function Seeded(env: Env, db: Db): Db {
    if |db.targets| != 0 then db
    else
      match SeedTarget(db.config, env.fetchable)
      case None => db
      case Some(seed) => db.(targets := [Stored(db.nextId, seed)], nextId := db.nextId + 1)
  }

  function BackFilled(env: Env, db: Db): Db
    requires db.targets != []
  {
    db.(history := Fill(db.history, env.chunk, FirstId(db.targets)),
        filled := db.filled + if Unattributed(db.history) > 0 && env.chunk > 0 then 1 else 0)
  }

  /** One statement, guard and all. */
  function Step(env: Env, s: State): State {
    match s.pc
    case CreateTable => State(AddColumn, s.db.(hasTargets := true))
    case AddColumn => State(AddIndex, s.db.(hasColumn := true))
    case AddIndex => State(InsertSeed, s.db.(indexed := true))
    case InsertSeed =>
      var db := Seeded(env, s.db);
      State(if db.targets == [] then DeleteKeys else BackFill, db)
    case BackFill =>
      if s.db.targets == [] then State(DeleteKeys, s.db)
      else
        var db := BackFilled(env, s.db);
        State(if Unattributed(db.history) == 0 then DeleteKeys else BackFill, db)
    case DeleteKeys => State(Done, s.db.(config := s.db.config - LEGACY_KEYS))
    case Done => s
  }

  function Steps(env: Env, s: State, n: nat): State
    decreases n
  {
    if n == 0 then s else Steps(env, Step(env, s), n - 1)
  }

  /** One boot: the migration from the top, dying behind its n-th statement unless done by then. */
  function Attempt(env: Env, db: Db, n: nat): State {
    Steps(env, State(CreateTable, db), n)
  }

  /**
   Boot after boot, attempt i surviving `survived[i]` statements; a completed migration is
   recorded and runs no more.
   */
  function Boots(env: Env, db: Db, survived: seq<nat>): State {
    if survived == [] then State(CreateTable, db)
    else
      var before := Boots(env, db, survived[..|survived| - 1]);
      if before.pc.Done? then before else Attempt(env, before.db, survived[|survived| - 1])
  }

  lemma {:induction false} DoneStays(env: Env, s: State, n: nat)
    requires s.pc.Done?
    ensures Steps(env, s, n) == s
  {
    if n == 0 {
    } else {
      DoneStays(env, s, n - 1);
    }
  }

  /** The database handle `up` works on. */
  class Database {
    var hasTargets: bool
    var targets: seq<Stored>
    var nextId: int
    var hasColumn: bool
    var indexed: bool
    var history: seq<Option<int>>
    var config: map<string, string>
    ghost var filled: nat

    constructor (db: Db)
      ensures View() == db
    {
      hasTargets, targets, nextId, hasColumn := db.hasTargets, db.targets, db.nextId, db.hasColumn;
      indexed, history, config, filled := db.indexed, db.history, db.config, db.filled;
    }

    ghost function View(): Db
      reads this
    {
      Db(hasTargets, targets, nextId, hasColumn, indexed, history, config, filled)
    }

    /** The table, the column and the index. */
    method PrepareTables(env: Env, survives: nat) returns (alive: bool, left: nat)
      modifies this
      ensures alive ==>
                Attempt(env, old(View()), survives) == Steps(env, State(InsertSeed, View()), left)
      ensures !alive ==>
                Attempt(env, old(View()), survives).db == View() && !Attempt(env, old(View()), survives).pc.Done?
    {
      ghost var start := State(CreateTable, View());
      left := survives;
      if left == 0 { return false, 0; }
      if !hasTargets { hasTargets := true; }
      left := left - 1;
      ghost var created := State(AddColumn, View());
      assert created == Step(env, start) && Steps(env, start, survives) == Steps(env, created, left);

      if left == 0 { return false, 0; }
      if !hasColumn { hasColumn := true; }
      left := left - 1;
      ghost var added := State(AddIndex, View());
      assert added == Step(env, created) && Steps(env, created, left + 1) == Steps(env, added, left);

      if left == 0 { return false, 0; }
      if !indexed { indexed := true; }
      left := left - 1;
      assert State(InsertSeed, View()) == Step(env, added);
      return true, left;
    }

    /** The statements ahead of the back-fill; `left` of the boot's statements remain. */
    method Prepare(env: Env, survives: nat) returns (alive: bool, left: nat)
      modifies this
      ensures alive ==> Attempt(env, old(View()), survives)
                        == Steps(env, State(if targets == [] then DeleteKeys else BackFill, View()), left)
      ensures !alive ==>
                Attempt(env, old(View()), survives).db == View() && !Attempt(env, old(View()), survives).pc.Done?
    {
      alive, left := PrepareTables(env, survives);
      if !alive { return; }
      ghost var prepared := State(InsertSeed, View());
      if left == 0 { return false, 0; }
      if |targets| == 0 {
        var seed := SeedTarget(config, env.fetchable);
        if seed.Some? {
          targets := [Stored(nextId, seed.value)];
          nextId := nextId + 1;
        }
      }
      left := left - 1;
      assert State(if targets == [] then DeleteKeys else BackFill, View()) == Step(env, prepared);
    }

    /** The back-fill: a chunk to a statement until the probe finds nothing left. */
    method FillHistory(env: Env, survives: nat) returns (alive: bool, left: nat)
      requires targets != []
      modifies this
      ensures alive ==>
                Steps(env, State(BackFill, old(View())), survives) == Steps(env, State(DeleteKeys, View()), left)
      ensures !alive ==> Steps(env, State(BackFill, old(View())), survives) == State(BackFill, View())
    {
      ghost var start := State(BackFill, View());
      left := survives;
      var seedId := FirstId(targets);
      var remaining := true;
      while remaining
        invariant targets != [] && seedId == FirstId(targets)
        invariant Steps(env, start, survives)
                  == Steps(env, State(if remaining then BackFill else DeleteKeys, View()), left)
        decreases left, remaining
      {
        if left == 0 { return false, 0; }
        ghost var before := View();
        filled := filled + if Unattributed(history) > 0 && env.chunk > 0 then 1 else 0;
        history := Fill(history, env.chunk, seedId);
        left := left - 1;
        remaining := Unattributed(history) > 0;
        assert State(if remaining then BackFill else DeleteKeys, View()) == Step(env, State(BackFill, before));
      }
      return true, left;
    }

    /** The migration; the process dies behind statement number `survives`, unless done by then. */
    method Up(env: Env, survives: nat) returns (completed: bool)
      modifies this
      ensures completed <==> Attempt(env, old(View()), survives).pc.Done?
      ensures Attempt(env, old(View()), survives).db == View()
    {
      var alive, left := Prepare(env, survives);
      if !alive { return false; }
      if targets != [] {
        alive, left := FillHistory(env, left);
        if !alive { return false; }
      }
      if left == 0 { return false; }
      config := config - LEGACY_KEYS;
      DoneStays(env, State(Done, View()), left - 1);
      return true;
    }
  }

  // ------------------------------------------------------------ what a statement keeps

  /** An attributed result keeps its target; an unattributed one gains this target or stays. */
  ghost predicate OnlyGains(before: seq<Option<int>>, after: seq<Option<int>>) {
    && |before| == |after|
    && forall i :: 0 <= i < |before| && before[i].Some? ==> after[i] == before[i]
  }

  ghost predicate OnlyOf(history: seq<Option<int>>, id: int) {
    forall i :: 0 <= i < |history| && history[i].Some? ==> history[i].value == id
  }

  lemma {:induction false} FillFills(history: seq<Option<int>>, limit: nat, id: int)
    ensures OnlyGains(history, Fill(history, limit, id))
    ensures OnlyOf(history, id) ==> OnlyOf(Fill(history, limit, id), id)
    ensures Unattributed(Fill(history, limit, id))
         == if Unattributed(history) <= limit then 0 else Unattributed(history) - limit
  {
    if history == [] {
    } else {
      FillFills(history[1..], if history[0].None? && limit > 0 then limit - 1 else limit, id);
      var rest := Fill(history[1..], if history[0].None? && limit > 0 then limit - 1 else limit, id);
      assert Fill(history, limit, id)[1..] == rest;
      forall i | 0 <= i < |history| && history[i].Some?
        ensures Fill(history, limit, id)[i] == history[i]
      {
        if i > 0 { assert history[1..][i - 1] == history[i]; }
      }
    }
  }

  lemma {:induction false} NoneLeft(history: seq<Option<int>>)
    ensures Unattributed(history) == 0 <==> forall i :: 0 <= i < |history| ==> history[i].Some?
  {
    if history == [] {
    } else {
      NoneLeft(history[1..]);
      if Unattributed(history) == 0 {
        forall i | 0 <= i < |history| ensures history[i].Some? {
          if i > 0 { assert history[1..][i - 1] == history[i]; }
        }
      } else if history[0].Some? {
        var i :| 0 <= i < |history[1..]| && history[1..][i].None?;
        assert history[i + 1].None?;
      }
    }
  }

  /** How many chunks cover n rows. */
  function Chunks(n: nat, chunk: nat): nat
    requires chunk >= 1
  {
    if n == 0 then 0 else 1 + Chunks(if n <= chunk then 0 else n - chunk, chunk)
  }

  lemma {:induction false} ChunksIsCeil(n: nat, chunk: nat)
    requires chunk >= 1
    ensures Chunks(n, chunk) == (n + chunk - 1) / chunk
  {
    if n == 0 {
      DivisionOf(chunk - 1, chunk, 0, chunk - 1);
    } else if n <= chunk {
      OneChunk(n, chunk);
    } else {
      ChunksIsCeil(n - chunk, chunk);
      OneMoreChunk(n, chunk);
    }
  }

  lemma OneMoreChunk(n: nat, chunk: nat)
    requires 1 <= chunk < n
    ensures (n + chunk - 1) / chunk == 1 + (n - 1) / chunk
  {
    var q, r := (n - 1) / chunk, (n - 1) % chunk;
    assert n - 1 == chunk * q + r;
    DivisionOf(n + chunk - 1, chunk, q + 1, r);
  }

  lemma OneChunk(n: nat, chunk: nat)
    requires 1 <= n <= chunk
    ensures (n + chunk - 1) / chunk == 1
  {
    DivisionOf(n + chunk - 1, chunk, 1, n - 1);
  }

  lemma DivisionOf(n: nat, d: nat, q: nat, r: nat)
    requires d >= 1 && r < d && n == d * q + r
    ensures n / d == q
  {
    var p := n / d;
    assert n == d * p + n % d;
    if p < q {
      Grows(d, p + 1, q);
    } else if p > q {
      Grows(d, q + 1, p);
    }
  }

  lemma Grows(d: nat, a: nat, b: nat)
    requires a <= b
    ensures d * a <= d * b
  {
  }

  // --------------------------------------------------------------------- the invariant

  /**
   Between statements, against the database the upgrade first found: at most one
   target, which is the seed of the keys as they were; the history attributed to it
   or not at all beyond what was; every chunk that was written accounted for.
   */
  ghost predicate Kept(env: Env, first: Db, db: Db)
    requires env.chunk >= 1
  {
    && db.config == first.config
    && (db.targets == [] ==> db.history == first.history && db.filled == first.filled)
    && (db.targets != [] ==>
          && |db.targets| == 1 && SeedTarget(first.config, env.fetchable) == Some(db.targets[0].seed)
          && OnlyOf(db.history, db.targets[0].id))
    && OnlyGains(first.history, db.history)
    && db.filled + Chunks(Unattributed(db.history), env.chunk)
       == first.filled + Chunks(Unattributed(first.history), env.chunk)
  }

  /** An instance that never ran the upgrade. */
  ghost predicate Untouched(db: Db) {
    db.targets == [] && forall i :: 0 <= i < |db.history| ==> db.history[i].None?
  }

  ghost predicate Reached(env: Env, first: Db, s: State)
    requires env.chunk >= 1
  {
    && (s.pc.Done? ==> s.db.config == first.config - LEGACY_KEYS)
    && Kept(env, first, s.db.(config := if s.pc.Done? then first.config else s.db.config))
    && ((s.pc.BackFill? || s.pc.DeleteKeys? || s.pc.Done?) ==>
          (s.db.targets == [] <==> SeedTarget(first.config, env.fetchable).None?))
    && ((s.pc.DeleteKeys? || s.pc.Done?) && s.db.targets != [] ==> Unattributed(s.db.history) == 0)
    && (s.pc.BackFill? ==> s.db.targets != [])
    && (!s.pc.CreateTable? ==> s.db.hasTargets)
    && (!s.pc.CreateTable? && !s.pc.AddColumn? ==> s.db.hasColumn)
    && (!s.pc.CreateTable? && !s.pc.AddColumn? && !s.pc.AddIndex? ==> s.db.indexed)
  }

  lemma BackFillKeepsReached(env: Env, first: Db, s: State)
    requires env.chunk >= 1 && Reached(env, first, s) && s.pc.BackFill?
    ensures Reached(env, first, Step(env, s))
  {
    var id := FirstId(s.db.targets);
    FillFills(s.db.history, env.chunk, id);
  }

  lemma SeedKeepsReached(env: Env, first: Db, s: State)
    requires env.chunk >= 1 && Untouched(first) && Reached(env, first, s) && s.pc.InsertSeed?
    ensures Reached(env, first, Step(env, s))
  {
  }

  lemma StepKeepsReached(env: Env, first: Db, s: State)
    requires env.chunk >= 1 && Untouched(first) && Reached(env, first, s)
    ensures Reached(env, first, Step(env, s))
  {
    match s.pc
    case InsertSeed => SeedKeepsReached(env, first, s);
    case BackFill => BackFillKeepsReached(env, first, s);
    case _ =>
  }

  lemma {:induction false} StepsKeepReached(env: Env, first: Db, s: State, n: nat)
    requires env.chunk >= 1 && Untouched(first) && Reached(env, first, s)
    ensures Reached(env, first, Steps(env, s, n))
    decreases n
  {
    if n == 0 {
    } else {
      StepKeepsReached(env, first, s);
      StepsKeepReached(env, first, Step(env, s), n - 1);
    }
  }

  lemma {:induction false} BootsReach(env: Env, first: Db, survived: seq<nat>)
    requires env.chunk >= 1 && Untouched(first)
    ensures Reached(env, first, Boots(env, first, survived))
  {
    if survived == [] {
      assert OnlyGains(first.history, first.history);
    } else {
      BootsReach(env, first, survived[..|survived| - 1]);
      var before := Boots(env, first, survived[..|survived| - 1]);
      if !before.pc.Done? {
        StepsKeepReached(env, first, State(CreateTable, before.db), survived[|survived| - 1]);
      }
    }
  }

  // ------------------------------------------------------------------- what comes out

  /** Whatever boots died wherever: never two targets, and the one there is is what the keys first found describe. */
  lemma NeverTwoTargets(env: Env, first: Db, survived: seq<nat>)
    requires env.chunk >= 1 && Untouched(first)
    ensures var db := Boots(env, first, survived).db;
            || db.targets == []
            || (|db.targets| == 1 && DescribedBy(first.config, env.fetchable, db.targets[0].seed)
                && OnlyOf(db.history, db.targets[0].id))
  {
    BootsReach(env, first, survived);
    SeedIs(first.config, env.fetchable);
  }

  /** A migration that completed left every result with the seed; without a provider it left them as they were. */
  lemma CompletedMeansAttributed(env: Env, first: Db, survived: seq<nat>)
    requires env.chunk >= 1 && Untouched(first) && Boots(env, first, survived).pc.Done?
    ensures var db := Boots(env, first, survived).db;
            && db.config == first.config - {"provider", "ooklaId", "libreId", "libreUrl"}
            && if ChoseAProvider(first.config) then
                 && |db.targets| == 1 && DescribedBy(first.config, env.fetchable, db.targets[0].seed)
                 && |db.history| == |first.history|
                 && forall i :: 0 <= i < |db.history| ==> db.history[i] == Some(db.targets[0].id)
               else
                 db.targets == [] && db.history == first.history
  {
    BootsReach(env, first, survived);
    SeedIs(first.config, env.fetchable);
    NoneLeft(Boots(env, first, survived).db.history);
  }

  /** No chunk is ever written twice: over all boots, one committed statement per chunk of the history at most. */
  lemma BackFillBudget(env: Env, first: Db, survived: seq<nat>)
    requires env.chunk >= 1 && Untouched(first)
    ensures var db, rows := Boots(env, first, survived).db, |first.history|;
            && db.filled - first.filled <= (rows + env.chunk - 1) / env.chunk
            && (Unattributed(db.history) == 0 ==> db.filled - first.filled == (rows + env.chunk - 1) / env.chunk)
  {
    BootsReach(env, first, survived);
    AllUnattributed(first.history);
    ChunksIsCeil(|first.history|, env.chunk);
  }

  lemma {:induction false} AllUnattributed(history: seq<Option<int>>)
    requires forall i :: 0 <= i < |history| ==> history[i].None?
    ensures Unattributed(history) == |history|
  {
    if history == [] {
    } else {
      AllUnattributed(history[1..]);
    }
  }

  /** An attribution, once written, stands through every later statement of every later boot. */
  lemma {:induction false} AttributionsStand(env: Env, db: Db, earlier: seq<nat>, later: seq<nat>)
    ensures OnlyGains(Boots(env, db, earlier).db.history, Boots(env, db, earlier + later).db.history)
    decreases |later|
  {
    if later == [] {
      assert earlier + later == earlier;
    } else {
      var init, last := later[..|later| - 1], later[|later| - 1];
      AttributionsStand(env, db, earlier, init);
      assert (earlier + later)[..|earlier + later| - 1] == earlier + init;
      var before := Boots(env, db, earlier + init);
      StepsOnlyGain(env, State(CreateTable, before.db), last);
    }
  }

  lemma {:induction false} StepsOnlyGain(env: Env, s: State, n: nat)
    ensures OnlyGains(s.db.history, Steps(env, s, n).db.history)
    decreases n
  {
    if n == 0 {
    } else {
      StepOnlyGains(env, s);
      StepsOnlyGain(env, Step(env, s), n - 1);
    }
  }

  lemma StepOnlyGains(env: Env, s: State)
    ensures OnlyGains(s.db.history, Step(env, s).db.history)
  {
    if s.pc.BackFill? && s.db.targets != [] {
      FillFills(s.db.history, env.chunk, FirstId(s.db.targets));
    }
  }

  // ----------------------------------------------------------------- restarting ends

  function AtLeastOne(n: nat): nat {
    if n == 0 then 1 else n
  }

  /** How far k statements of the back-fill get. */
  lemma {:induction false} FillSteps(env: Env, s: State, k: nat)
    requires env.chunk >= 1 && s.pc.BackFill? && s.db.targets != []
    ensures var chunks, after := Chunks(Unattributed(s.db.history), env.chunk), Steps(env, s, k);
            && (after.pc.Done? <==> k > AtLeastOne(chunks))
            && Chunks(Unattributed(after.db.history), env.chunk) == if k <= chunks then chunks - k else 0
    decreases k
  {
    if k == 0 {
    } else {
      FillFills(s.db.history, env.chunk, FirstId(s.db.targets));
      var next := Step(env, s);
      if next.pc.BackFill? {
        FillSteps(env, next, k - 1);
      } else if k > 1 {
        DoneStays(env, Step(env, next), k - 2);
      }
    }
  }

  function Prepared(env: Env, db: Db): Db {
    Seeded(env, db.(hasTargets := true, hasColumn := true, indexed := true))
  }

  lemma FourStatementsPrepare(env: Env, db: Db, n: nat)
    requires n >= 4
    ensures Attempt(env, db, n)
         == Steps(env, State(if Prepared(env, db).targets == [] then DeleteKeys else BackFill, Prepared(env, db)),
                  n - 4)
  {
    var one := State(AddColumn, db.(hasTargets := true));
    var two := State(AddIndex, one.db.(hasColumn := true));
    var three := State(InsertSeed, two.db.(indexed := true));
    assert Attempt(env, db, n) == Steps(env, one, n - 1);
    assert Steps(env, one, n - 1) == Steps(env, two, n - 2);
    assert Steps(env, two, n - 2) == Steps(env, three, n - 3);
  }

  lemma FewStatementsStart(env: Env, db: Db, n: nat)
    requires n < 4
    ensures !Attempt(env, db, n).pc.Done? && Attempt(env, db, n).db.history == db.history
  {
    var one := Step(env, State(CreateTable, db));
    var two := Step(env, one);
    assert n >= 1 ==> Attempt(env, db, n) == Steps(env, one, n - 1);
    assert n >= 2 ==> Steps(env, one, n - 1) == Steps(env, two, n - 2);
    assert n >= 3 ==> Steps(env, two, n - 2) == Steps(env, Step(env, two), n - 3);
  }

  /**
   Exactly when one boot completes the migration: it survives the four
   statements ahead of the back-fill, a statement for every chunk still to do
   (one, if none), and the one behind it. One that dies earlier has still done
   a chunk for every statement it got to.
   */
  lemma ABootCompletesIff(env: Env, db: Db, n: nat)
    requires env.chunk >= 1
    ensures var chunks, after := Chunks(Unattributed(db.history), env.chunk), Attempt(env, db, n);
            if Prepared(env, db).targets == [] then
              (after.pc.Done? <==> n >= 5) && after.db.history == db.history
            else
              && (after.pc.Done? <==> n >= 5 + AtLeastOne(chunks))
              && Chunks(Unattributed(after.db.history), env.chunk)
                 == if n < 4 then chunks else if n - 4 <= chunks then chunks - (n - 4) else 0
  {
    if n < 4 {
      FewStatementsStart(env, db, n);
    } else {
      FourStatementsPrepare(env, db, n);
      var prepared := Prepared(env, db);
      if prepared.targets != [] {
        FillSteps(env, State(BackFill, prepared), n - 4);
      } else if n > 4 {
        DoneStays(env, Step(env, State(DeleteKeys, prepared)), n - 5);
      }
    }
  }

  lemma {:induction false} EachBootGains(env: Env, first: Db, survived: seq<nat>)
    requires env.chunk >= 1 && (forall i :: 0 <= i < |survived| ==> survived[i] >= 6)
    ensures var end, chunks := Boots(env, first, survived), Chunks(Unattributed(first.history), env.chunk);
            var left := Chunks(Unattributed(end.db.history), env.chunk);
            end.pc.Done? || (|survived| < AtLeastOne(chunks) && left <= chunks - |survived|)
  {
    if survived == [] {
    } else {
      var init, last := survived[..|survived| - 1], survived[|survived| - 1];
      EachBootGains(env, first, init);
      var before := Boots(env, first, init);
      if !before.pc.Done? {
        ABootCompletesIff(env, before.db, last);
      }
    }
  }

  /** No boot loop: when every boot survives six statements, as many boots as there are chunks are enough. */
  lemma EnoughBootsComplete(env: Env, first: Db, survived: seq<nat>)
    requires env.chunk >= 1 && (forall i :: 0 <= i < |survived| ==> survived[i] >= 6)
    requires |survived| >= AtLeastOne((Unattributed(first.history) + env.chunk - 1) / env.chunk)
    ensures Boots(env, first, survived).pc.Done?
  {
    EachBootGains(env, first, survived);
    ChunksIsCeil(Unattributed(first.history), env.chunk);
  }

  /** Until the upgrade is done, a boot finds a target or can still seed one. */
  lemma StillSeeds(env: Env, first: Db, survived: seq<nat>)
    requires env.chunk >= 1 && Untouched(first) && SeedTarget(first.config, env.fetchable).Some?
    requires !Boots(env, first, survived).pc.Done?
    ensures Prepared(env, Boots(env, first, survived).db).targets != []
  {
    BootsReach(env, first, survived);
  }

  /**
   Six is the least that will do: an instance with a provider to seed, whose every
   boot dies behind its fifth statement or sooner, never completes - that would be
   the boot loop, however short the history.
   */
  lemma {:induction false} FiveStatementsNeverComplete(env: Env, first: Db, survived: seq<nat>)
    requires env.chunk >= 1 && Untouched(first) && ChoseAProvider(first.config)
    requires forall i :: 0 <= i < |survived| ==> survived[i] <= 5
    ensures !Boots(env, first, survived).pc.Done?
  {
    SeedIs(first.config, env.fetchable);
    if survived == [] {
    } else {
      var init, last := survived[..|survived| - 1], survived[|survived| - 1];
      FiveStatementsNeverComplete(env, first, init);
      StillSeeds(env, first, init);
      ABootCompletesIff(env, Boots(env, first, init).db, last);
    }
  }

  // --------------------------------------------------------------------- running again

  lemma {:induction false} FillingNothing(history: seq<Option<int>>, limit: nat, id: int)
    requires Unattributed(history) == 0
    ensures Fill(history, limit, id) == history
  {
    if history == [] {
    } else {
      FillingNothing(history[1..], limit, id);
    }
  }

  /** A completed migration run again, and cut short anywhere, changes nothing. */
  lemma RunningAgainChangesNothing(env: Env, first: Db, survived: seq<nat>, n: nat)
    requires env.chunk >= 1 && Untouched(first) && Boots(env, first, survived).pc.Done?
    ensures Attempt(env, Boots(env, first, survived).db, n).db == Boots(env, first, survived).db
  {
    BootsReach(env, first, survived);
    StepsChangeNothing(env, State(CreateTable, Boots(env, first, survived).db), n);
  }

  ghost predicate Settled(s: State) {
    && s.db.hasTargets && s.db.hasColumn && s.db.indexed
    && s.db.config == s.db.config - LEGACY_KEYS
    && (s.db.targets != [] ==> Unattributed(s.db.history) == 0)
  }

  lemma {:induction false} StepsChangeNothing(env: Env, s: State, n: nat)
    requires Settled(s)
    ensures Steps(env, s, n).db == s.db
    decreases n
  {
    if n == 0 {
    } else {
      StepChangesNothing(env, s);
      StepsChangeNothing(env, Step(env, s), n - 1);
    }
  }

  lemma StepChangesNothing(env: Env, s: State)
    requires Settled(s)
    ensures Step(env, s).db == s.db
  {
    assert "provider" !in s.db.config;
    if s.pc.BackFill? && s.db.targets != [] {
      FillingNothing(s.db.history, env.chunk, FirstId(s.db.targets));
    }
  }
}
