/** The schedule's life: the one main job, the two digests, and the sleeps a teardown releases. */
module Timer {
  import opened Wrappers

  datatype Kind = Main | Weekly | Monthly

  /** A rule the scheduler has compiled, in a zone or on the host's clock. */
  datatype Job = Job(kind: Kind, rule: string, zone: Option<string>)

  /** node-schedule: the jobs it will fire, by handle. */
  datatype Scheduler = Scheduler(live: map<nat, Job>, issued: nat)

  /** scheduleJob, which may answer null: `taken` is whether it could compile the rule. */
  function Scheduled(scheduler: Scheduler, job: Job, taken: bool): (Scheduler, Option<nat>) {
    if taken
    then (Scheduler(scheduler.live[scheduler.issued := job], scheduler.issued + 1), Some(scheduler.issued))
    else (scheduler, None)
  }

  /** `asleep` is pendingDelays: the runs sleeping their offset, and when each would wake. */
  datatype State = State(scheduler: Scheduler, job: Option<nat>, digests: seq<nat>, cron: Option<string>,
                         zone: Option<string>, generation: nat, asleep: map<nat, int>)

  datatype Env = Env(validCron: string -> bool, usableZone: string -> bool, defaultCron: string)

  const DIGEST_WEEKLY_CRON := "0 8 * * 1"
  const DIGEST_MONTHLY_CRON := "0 8 1 * *"

  function ZoneOf(env: Env, timezone: string): Option<string> {
    if env.usableZone(timezone) then Some(timezone) else None
  }

  /** The digest of kind k, as startDigests asks for it. */
  function Digest(env: Env, k: nat, timezone: string): Job {
    if k == 0 then Job(Weekly, DIGEST_WEEKLY_CRON, ZoneOf(env, timezone))
    else Job(Monthly, DIGEST_MONTHLY_CRON, ZoneOf(env, timezone))
  }

  function AsSet(handles: seq<nat>): set<nat> {
    set h | h in handles
  }

  function AsOption(handle: Option<nat>): set<nat> {
    if handle.Some? then {handle.value} else {}
  }

  function AsList(handle: Option<nat>): seq<nat> {
    if handle.Some? then [handle.value] else []
  }

  function DigestsStopped(s: State): State {
    s.(scheduler := s.scheduler.(live := s.scheduler.live - AsSet(s.digests)), digests := [])
  }

  function DigestsStarted(env: Env, s: State, timezone: string, taken: nat -> bool): State {
    var stopped := DigestsStopped(s);
    var (first, weekly) := Scheduled(stopped.scheduler, Digest(env, 0, timezone), taken(0));
    var (second, monthly) := Scheduled(first, Digest(env, 1, timezone), taken(1));
    stopped.(scheduler := second, digests := AsList(weekly) + AsList(monthly))
  }

  function Stopped(s: State): State {
    DigestsStopped(s.(generation := s.generation + 1, asleep := map[], job := None,
                      scheduler := s.scheduler.(live := s.scheduler.live - AsOption(s.job))))
  }

  /** The main job, scheduled as asked or, refused, as the default. */
  function MainStarted(env: Env, s: State, cron: string, timezone: string, taken: nat -> bool): State {
    var (asked, handle) := Scheduled(s.scheduler, Job(Main, cron, ZoneOf(env, timezone)), taken(2));
    if handle.Some? then s.(scheduler := asked, job := handle, cron := Some(cron), zone := Some(timezone))
    else
      var (fallen, other) := Scheduled(s.scheduler, Job(Main, env.defaultCron, ZoneOf(env, timezone)), taken(3));
      s.(scheduler := fallen, job := other, cron := Some(env.defaultCron), zone := Some(timezone))
  }

  /** startTimer; `taken(k)` is what the scheduler makes of the k-th rule it is handed. */
  function Started(env: Env, s: State, cron: string, timezone: string, taken: nat -> bool): State {
    if !env.validCron(cron) && s.job.Some? then DigestsStarted(env, s, timezone, taken)
    else
      MainStarted(env, DigestsStarted(env, Stopped(s), timezone, taken),
                  if env.validCron(cron) then cron else env.defaultCron, timezone, taken)
  }

  /** The module's state, beside the scheduler it talks to. */
  class Module {
    const env: Env
    var scheduler: Scheduler
    var job: Option<nat>
    var digests: seq<nat>
    var cron: Option<string>
    var zone: Option<string>
    var generation: nat
    var asleep: map<nat, int>

    constructor (env: Env)
      ensures this.env == env && View() == State(Scheduler(map[], 0), None, [], None, None, 0, map[])
    {
      this.env := env;
      scheduler, job, digests, cron, zone := Scheduler(map[], 0), None, [], None, None;
      generation, asleep := 0, map[];
    }

    ghost function View(): State
      reads this
    {
      State(scheduler, job, digests, cron, zone, generation, asleep)
    }

    method ScheduleJob(spec: Job, taken: bool) returns (handle: Option<nat>)
      modifies this`scheduler
      ensures (scheduler, handle) == Scheduled(old(scheduler), spec, taken)
    {
      if !taken { return None; }
      handle := Some(scheduler.issued);
      scheduler := Scheduler(scheduler.live[scheduler.issued := spec], scheduler.issued + 1);
    }

    method Cancel(handle: nat)
      modifies this`scheduler
      ensures scheduler == old(scheduler).(live := old(scheduler).live - {handle})
    {
      scheduler := scheduler.(live := scheduler.live - {handle});
    }

    method StopDigests()
      modifies this`scheduler, this`digests
      ensures View() == DigestsStopped(old(View()))
    {
      ghost var before := scheduler;
      for i := 0 to |digests|
        invariant digests == old(digests)
        invariant scheduler == before.(live := before.live - AsSet(digests[..i]))
      {
        Cancel(digests[i]);
        assert AsSet(digests[..i + 1]) == AsSet(digests[..i]) + {digests[i]};
      }
      assert digests[..|digests|] == digests;
      digests := [];
    }

    method StartDigests(timezone: string, taken: nat -> bool)
      modifies this`scheduler, this`digests
      ensures View() == DigestsStarted(env, old(View()), timezone, taken)
    {
      StopDigests();
      var weekly := ScheduleJob(Digest(env, 0, timezone), taken(0));
      var monthly := ScheduleJob(Digest(env, 1, timezone), taken(1));
      digests := AsList(weekly) + AsList(monthly);
    }

    /** Releases every sleep, cancels every job, retires the generation. */
    method StopTimer()
      modifies this
      ensures View() == Stopped(old(View()))
    {
      generation := generation + 1;
      asleep := map[];
      if job.Some? {
        Cancel(job.value);
        job := None;
      }
      StopDigests();
    }

    method StartTimer(requested: string, timezone: string, taken: nat -> bool)
      modifies this
      ensures View() == Started(env, old(View()), requested, timezone, taken)
      ensures Holds(env, old(View())) ==> Schedules(env, old(View()), requested, timezone, taken, View())
    {
      if Holds(env, View()) {
        StartSchedules(env, View(), requested, timezone, taken);
      }
      var expression := requested;
      if !env.validCron(expression) {
        if job.Some? {
          StartDigests(timezone, taken);
          return;
        }
        expression := env.defaultCron;
      }
      StopTimer();
      StartDigests(timezone, taken);
      var scheduled := ScheduleJob(Job(Main, expression, ZoneOf(env, timezone)), taken(2));
      if scheduled.None? {
        expression := env.defaultCron;
        scheduled := ScheduleJob(Job(Main, expression, ZoneOf(env, timezone)), taken(3));
      }
      cron, zone, job := Some(expression), Some(timezone), scheduled;
    }

    /** When the run sleeping its offset will wake: the earliest, or none. */
    method PendingRunAt() returns (earliest: Option<int>)
      ensures earliest.None? <==> asleep == map[]
      ensures earliest.Some? ==> earliest.value in asleep.Values && forall i :: i in asleep ==>
              earliest.value <= asleep[i]
    {
      earliest := None;
      var left := asleep.Keys;
      while left != {}
        invariant left <= asleep.Keys
        invariant earliest.None? <==> left == asleep.Keys
        invariant earliest.Some? ==> earliest.value in asleep.Values
        invariant earliest.Some? ==> forall i :: i in asleep && i !in left ==> earliest.value <= asleep[i]
        decreases |left|
      {
        var i :| i in left;
        if earliest.None? || asleep[i] < earliest.value {
          earliest := Some(asleep[i]);
        }
        left := left - {i};
      }
      assert earliest.None? ==> asleep.Keys == {};
    }
  }

  // ---------------------------------------------------------------- the handles held

  function Handles(s: State): set<nat> {
    AsOption(s.job) + AsSet(s.digests)
  }

  /** The handle of the main job is not a digest's, nor one digest's the other's. */
  ghost predicate Apart(s: State) {
    && (s.job.Some? ==> s.job.value !in s.digests)
    && (forall i, j :: 0 <= i < j < |s.digests| ==> s.digests[i] != s.digests[j])
  }

  /**
   The live jobs are the handles held, none of them twice; the main one was
   compiled from the cron and zone the module answers for.
   */
  ghost predicate Holds(env: Env, s: State) {
    && s.scheduler.live.Keys == Handles(s) && Apart(s)
    && (forall h :: h in s.scheduler.live ==> h < s.scheduler.issued)
    && (s.job.Some? ==>
          && s.cron.Some? && s.zone.Some?
          && s.scheduler.live[s.job.value] == Job(Main, s.cron.value, ZoneOf(env, s.zone.value)))
    && |s.digests| <= 2
    && (forall i :: 0 <= i < |s.digests| ==> !s.scheduler.live[s.digests[i]].kind.Main?)
    && (|s.digests| == 2 ==>
          s.scheduler.live[s.digests[0]].kind.Weekly? && s.scheduler.live[s.digests[1]].kind.Monthly?)
  }

  lemma StopDigestsHolds(env: Env, s: State)
    requires Holds(env, s)
    ensures Holds(env, DigestsStopped(s)) && DigestsStopped(s).digests == []
  {
    assert s.job.Some? ==> s.job.value in s.scheduler.live.Keys;
  }

  /** One digest, asked for and held if it is taken. */
  function DigestAsked(env: Env, s: State, k: nat, timezone: string, taken: bool): State {
    var (scheduler, handle) := Scheduled(s.scheduler, Digest(env, k, timezone), taken);
    s.(scheduler := scheduler, digests := s.digests + AsList(handle))
  }

  lemma WeeklyHolds(env: Env, s: State, timezone: string, taken: bool)
    requires Holds(env, s) && s.digests == []
    ensures var after := DigestAsked(env, s, 0, timezone, taken);
            && Holds(env, after) && after.job == s.job && |after.digests| <= 1
            && (|after.digests| == 1 ==> after.scheduler.live[after.digests[0]].kind.Weekly?)
  {
    assert s.job.Some? ==> s.job.value in s.scheduler.live.Keys;
  }

  lemma MonthlyHolds(env: Env, s: State, timezone: string, taken: bool)
    requires Holds(env, s) && |s.digests| <= 1
    requires |s.digests| == 1 ==> s.digests[0] in s.scheduler.live && s.scheduler.live[s.digests[0]].kind.Weekly?
    ensures Holds(env, DigestAsked(env, s, 1, timezone, taken)) && DigestAsked(env, s, 1, timezone, taken).job == s.job
  {
    assert s.job.Some? ==> s.job.value in s.scheduler.live.Keys;
  }

  lemma StartDigestsHolds(env: Env, s: State, timezone: string, taken: nat -> bool)
    requires Holds(env, s)
    ensures Holds(env, DigestsStarted(env, s, timezone, taken))
    ensures DigestsStarted(env, s, timezone, taken).job == s.job
  {
    var stopped := DigestsStopped(s);
    var first := DigestAsked(env, stopped, 0, timezone, taken(0));
    StopDigestsHolds(env, s);
    WeeklyHolds(env, stopped, timezone, taken(0));
    MonthlyHolds(env, first, timezone, taken(1));
    assert DigestsStarted(env, s, timezone, taken) == DigestAsked(env, first, 1, timezone, taken(1));
  }

  lemma StopHolds(env: Env, s: State)
    requires Holds(env, s)
    ensures Holds(env, Stopped(s)) && Stopped(s).scheduler.live == map[] && Stopped(s).job.None?
  {
    assert Stopped(s).scheduler.live.Keys == {};
  }

  lemma StartHolds(env: Env, s: State, cron: string, timezone: string, taken: nat -> bool)
    requires Holds(env, s)
    ensures Holds(env, Started(env, s, cron, timezone, taken))
  {
    if !env.validCron(cron) && s.job.Some? {
      StartDigestsHolds(env, s, timezone, taken);
    } else {
      StopHolds(env, s);
      StartDigestsHolds(env, Stopped(s), timezone, taken);
      MainHolds(env, DigestsStarted(env, Stopped(s), timezone, taken),
                if env.validCron(cron) then cron else env.defaultCron, timezone, taken);
    }
  }

  lemma MainHolds(env: Env, s: State, cron: string, timezone: string, taken: nat -> bool)
    requires Holds(env, s) && s.job.None?
    ensures Holds(env, MainStarted(env, s, cron, timezone, taken))
  {
  }

  /**
   An expression nobody can schedule leaves a running schedule alone, sleeps and all;
   without one, the default runs.
   */
  lemma InvalidCronKeepsTheSchedule(env: Env, s: State, cron: string, timezone: string, taken: nat -> bool)
    requires Holds(env, s) && !env.validCron(cron)
    ensures var after := Started(env, s, cron, timezone, taken);
            if s.job.Some? then
              && after.job == s.job && after.cron == s.cron && after.zone == s.zone
              && after.generation == s.generation && after.asleep == s.asleep
              && s.job.value in after.scheduler.live
              && after.scheduler.live[s.job.value] == s.scheduler.live[s.job.value]
            else
              && after.cron == Some(env.defaultCron) && after.generation == s.generation + 1
              && (taken(2) || taken(3) ==> after.job.Some?)
  {
    if s.job.Some? {
      StartDigestsHolds(env, s, timezone, taken);
      assert s.job.value in s.scheduler.live.Keys;
    }
  }

  // ------------------------------------------------------- what a start leaves scheduled

  /** The rules of the jobs that will fire, whatever their handles. */
  function Rules(s: State): set<Job> {
    s.scheduler.live.Values
  }

  function When(taken: bool, job: Job): set<Job> {
    if taken then {job} else {}
  }

  /** The weekly digest on Monday and the monthly one on the first, each at eight, where the scheduler takes them. */
  function DigestRules(zone: Option<string>, taken: nat -> bool): set<Job> {
    When(taken(0), Job(Weekly, "0 8 * * 1", zone)) + When(taken(1), Job(Monthly, "0 8 1 * *", zone))
  }

  /**
   What a start has to leave. A valid expression, or any one while no schedule
   runs, replaces the schedule: the expression asked for - the default for an
   invalid one - where the scheduler takes it, or else the default where it takes
   that, or else no main job at all; and the module answers for what it scheduled.
   An invalid one leaves a running schedule. The digests are armed anew either way,
   in the zone asked for, and nothing else is left to fire.
   */
  ghost predicate Schedules(env: Env, before: State, cron: string, timezone: string, taken: nat -> bool,
                            after: State) {
    var zone := if env.usableZone(timezone) then Some(timezone) else None;
    if env.validCron(cron) || before.job.None? then
      var wanted := if env.validCron(cron) then cron else env.defaultCron;
      var scheduled := if taken(2) then wanted else env.defaultCron;
      && Rules(after) == DigestRules(zone, taken) + When(taken(2) || taken(3), Job(Main, scheduled, zone))
      && (after.job.Some? <==> taken(2) || taken(3))
      && (after.job.Some? ==> after.job.value in after.scheduler.live
                              && after.scheduler.live[after.job.value] == Job(Main, scheduled, zone))
      && after.cron == Some(scheduled) && after.zone == Some(timezone)
      && after.generation == before.generation + 1 && after.asleep == map[]
    else
      && before.job.value in before.scheduler.live
      && Rules(after) == DigestRules(zone, taken) + {before.scheduler.live[before.job.value]}
      && after.job == before.job && after.cron == before.cron && after.zone == before.zone
      && after.generation == before.generation && after.asleep == before.asleep
  }

  lemma RulesWithOneMore(scheduler: Scheduler, job: Job, taken: bool)
    requires scheduler.issued !in scheduler.live
    ensures var (after, handle) := Scheduled(scheduler, job, taken);
            && after.live.Values == scheduler.live.Values + When(taken, job)
            && (handle.Some? <==> taken) && (taken ==> handle.value in after.live && after.live[handle.value] == job)
            && forall h :: h in scheduler.live ==> h in after.live && after.live[h] == scheduler.live[h]
  {
    var (after, handle) := Scheduled(scheduler, job, taken);
    if taken {
      forall j ensures j in after.live.Values <==> j in scheduler.live.Values || j == job {
        if j in scheduler.live.Values {
          var h :| h in scheduler.live && scheduler.live[h] == j;
          assert after.live[h] == j;
        }
        assert after.live[scheduler.issued] == job;
      }
    }
  }

  /** The handles beyond those issued are free. */
  ghost predicate Fresh(s: State) {
    forall h :: h in s.scheduler.live ==> h < s.scheduler.issued
  }

  lemma DigestRulesAre(env: Env, s: State, timezone: string, taken: nat -> bool)
    requires Fresh(s)
    ensures var after, stopped := DigestsStarted(env, s, timezone, taken), DigestsStopped(s);
            && Rules(after)
               == Rules(stopped) + DigestRules(if env.usableZone(timezone) then Some(timezone) else None, taken)
            && Fresh(after)
            && forall h :: h in stopped.scheduler.live ==>
                 h in after.scheduler.live && after.scheduler.live[h] == stopped.scheduler.live[h]
  {
    var stopped := DigestsStopped(s);
    RulesWithOneMore(stopped.scheduler, Digest(env, 0, timezone), taken(0));
    var first := Scheduled(stopped.scheduler, Digest(env, 0, timezone), taken(0)).0;
    RulesWithOneMore(first, Digest(env, 1, timezone), taken(1));
  }

  lemma RulesLeftByDigests(env: Env, s: State)
    requires Holds(env, s) && s.job.Some?
    ensures s.job.value in s.scheduler.live && Rules(DigestsStopped(s)) == {s.scheduler.live[s.job.value]}
    ensures s.job.value in DigestsStopped(s).scheduler.live
  {
    assert s.job.value in s.scheduler.live.Keys;
    var left := DigestsStopped(s).scheduler.live;
    assert left.Keys == {s.job.value};
    assert left[s.job.value] == s.scheduler.live[s.job.value];
  }

  lemma MainRulesAre(env: Env, s: State, cron: string, timezone: string, taken: nat -> bool)
    requires Fresh(s)
    ensures var zone := if env.usableZone(timezone) then Some(timezone) else None;
            var after := MainStarted(env, s, cron, timezone, taken);
            var scheduled := if taken(2) then cron else env.defaultCron;
            && Rules(after) == Rules(s) + When(taken(2) || taken(3), Job(Main, scheduled, zone))
            && (after.job.Some? <==> taken(2) || taken(3))
            && (after.job.Some? ==> after.job.value in after.scheduler.live
                                    && after.scheduler.live[after.job.value] == Job(Main, scheduled, zone))
            && after.cron == Some(scheduled) && after.zone == Some(timezone)
            && after.generation == s.generation && after.asleep == s.asleep
  {
    RulesWithOneMore(s.scheduler, Job(Main, cron, ZoneOf(env, timezone)), taken(2));
    RulesWithOneMore(s.scheduler, Job(Main, env.defaultCron, ZoneOf(env, timezone)), taken(3));
  }

  lemma StartSchedules(env: Env, s: State, cron: string, timezone: string, taken: nat -> bool)
    requires Holds(env, s)
    ensures Schedules(env, s, cron, timezone, taken, Started(env, s, cron, timezone, taken))
  {
    if !env.validCron(cron) && s.job.Some? {
      DigestRulesAre(env, s, timezone, taken);
      RulesLeftByDigests(env, s);
    } else {
      var stopped := Stopped(s);
      StopHolds(env, s);
      DigestRulesAre(env, stopped, timezone, taken);
      assert DigestsStopped(stopped).scheduler.live == map[] && Rules(DigestsStopped(stopped)) == {};
      MainRulesAre(env, DigestsStarted(env, stopped, timezone, taken),
                   if env.validCron(cron) then cron else env.defaultCron, timezone, taken);
    }
  }

  // -------------------------------------------------------------------- what comes next

  const MAX_QUIET_OCCURRENCES := 1500

  /** nextRun: the first occurrence outside the quiet hours, among those looked at; none when one cannot be read. */
  method NextRun(cron: Option<string>, env: Env, occurrences: nat -> Option<int>, quiet: int -> bool)
    returns (next: Option<int>)
    ensures next.Some? ==>
              && cron.Some? && env.validCron(cron.value)
              && exists k :: 0 <= k < MAX_QUIET_OCCURRENCES && occurrences(k) == next && !quiet(next.value)
                   && forall j :: 0 <= j < k ==> occurrences(j).Some? && quiet(occurrences(j).value)
    ensures next.None? && cron.Some? && env.validCron(cron.value) ==>
              || (forall k :: 0 <= k < MAX_QUIET_OCCURRENCES ==> occurrences(k).Some? && quiet(occurrences(k).value))
              || (exists k :: 0 <= k < MAX_QUIET_OCCURRENCES && occurrences(k).None?
                    && forall j :: 0 <= j < k ==> occurrences(j).Some? && quiet(occurrences(j).value))
  {
    if cron.None? || !env.validCron(cron.value) { return None; }
    for stepped := 0 to MAX_QUIET_OCCURRENCES
      invariant forall j :: 0 <= j < stepped ==> occurrences(j).Some? && quiet(occurrences(j).value)
    {
      var occurrence := occurrences(stepped);
      if occurrence.None? { return None; }
      if !quiet(occurrence.value) { return occurrence; }
    }
    return None;
  }
}
