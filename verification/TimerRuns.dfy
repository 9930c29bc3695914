/**
 Scheduled runs in flight: each a chain of awaits between a tick and its round,
 while schedules are stopped, replaced and paused around them.
 */
module TimerRuns {
  import opened Wrappers
  import opened Timer

  /** Where a run stands: behind which await, or how it came out. */
  datatype Pc =
    | AskingQuiet | AskingOffset | Sleeping | Awake | AskingQuietAgain
    | Skipped | InRound

  /** `firedBy` is the main job whose tick it is; a run asked for at startup has none. */
  datatype Run = Run(firedBy: Option<nat>, startedIn: nat, pc: Pc)

  datatype World = World(timer: State, paused: bool, runs: seq<Run>)

  datatype Event =
    | Start(cron: string, timezone: string, taken: nat -> bool)
    | Stop
    | SetPaused(paused: bool)
    | Tick(handle: nat)
    | Startup
    | Quiet(run: nat, within: bool)
    | Offset(run: nat, on: bool, until: int)
    | Elapse(run: nat)
    | Wake(run: nat)
    | QuietAgain(run: nat, within: bool)

  // ------------------------------------------------------------------- one run's steps

  /** The guards with nothing awaited between them and the round. */
  function LastGuards(w: World, run: Run): Run {
    run.(pc := if run.startedIn != w.timer.generation || w.paused then Skipped else InRound)
  }

  function Begun(w: World, firedBy: Option<nat>): Run {
    Run(firedBy, w.timer.generation, if w.paused then Skipped else AskingQuiet)
  }

  /** The quiet-hours answer: a startup run takes no offset and goes straight to the last guards. */
  function AfterQuiet(w: World, run: Run, within: bool): Run {
    if within then run.(pc := Skipped)
    else if run.firedBy.None? then LastGuards(w, run)
    else run.(pc := AskingOffset)
  }

  function AfterOffset(w: World, run: Run, on: bool): Run {
    if on && w.timer.cron.Some? then run.(pc := Sleeping) else LastGuards(w, run)
  }

  /** The sleep is over, elapsed or released: a retired run reads nothing more. */
  function AfterSleep(w: World, run: Run): Run {
    run.(pc := if run.startedIn != w.timer.generation then Skipped else AskingQuietAgain)
  }

  function AfterQuietAgain(w: World, run: Run, within: bool): Run {
    if within then run.(pc := Skipped) else LastGuards(w, run)
  }

  predicate At(w: World, i: nat, pc: Pc) {
    i < |w.runs| && w.runs[i].pc == pc
  }

  /** stopTimer resolves every pending sleep: the runs behind them go on. */
  function Released(runs: seq<Run>): seq<Run> {
    seq(|runs|, i requires 0 <= i < |runs| => if runs[i].pc.Sleeping? then runs[i].(pc := Awake) else runs[i])
  }

  /** Whether starting this schedule stops the one that runs. */
  predicate Replaces(env: Env, w: World, cron: string) {
    env.validCron(cron) || w.timer.job.None?
  }

  /** One event; one that is not due changes nothing. */
  function After(env: Env, w: World, e: Event): World {
    match e
    case Start(cron, timezone, taken) =>
      w.(timer := Started(env, w.timer, cron, timezone, taken),
         runs := if Replaces(env, w, cron) then Released(w.runs) else w.runs)
    case Stop => w.(timer := Stopped(w.timer), runs := Released(w.runs))
    case SetPaused(paused) => w.(paused := paused)
    case Tick(handle) =>
      if handle in w.timer.scheduler.live && w.timer.scheduler.live[handle].kind.Main?
      then w.(runs := w.runs + [Begun(w, Some(handle))]) else w
    case Startup => w.(runs := w.runs + [Begun(w, None)])
    case Quiet(i, within) =>
      if At(w, i, AskingQuiet) then w.(runs := w.runs[i := AfterQuiet(w, w.runs[i], within)]) else w
    case Offset(i, on, until) =>
      if At(w, i, AskingOffset) then
        var run := AfterOffset(w, w.runs[i], on);
        w.(runs := w.runs[i := run],
           timer := if run.pc.Sleeping? then w.timer.(asleep := w.timer.asleep[i := until]) else w.timer)
      else w
    case Elapse(i) =>
      if At(w, i, Sleeping) && i in w.timer.asleep
      then w.(runs := w.runs[i := w.runs[i].(pc := Awake)], timer := w.timer.(asleep := w.timer.asleep - {i})) else w
    case Wake(i) => if At(w, i, Awake) then w.(runs := w.runs[i := AfterSleep(w, w.runs[i])]) else w
    case QuietAgain(i, within) =>
      if At(w, i, AskingQuietAgain) then w.(runs := w.runs[i := AfterQuietAgain(w, w.runs[i], within)]) else w
  }

  // ------------------------------------------------------------------------ invariants

  /** A run of the generation that stands was fired by the job that stands. */
  ghost predicate RunIsKnown(w: World, run: Run) {
    && run.startedIn <= w.timer.generation
    && (run.startedIn == w.timer.generation && run.firedBy.Some? ==> w.timer.job == run.firedBy)
  }

  /** The pending delays are the runs asleep, and only they. */
  ghost predicate AsleepAre(asleep: map<nat, int>, runs: seq<Run>) {
    && (forall i :: i in asleep ==> i < |runs| && runs[i].pc.Sleeping?)
    && (forall i :: 0 <= i < |runs| && runs[i].pc.Sleeping? ==> i in asleep)
  }

  ghost predicate Inv(env: Env, w: World) {
    && Holds(env, w.timer)
    && (forall i :: 0 <= i < |w.runs| ==> RunIsKnown(w, w.runs[i]))
    && AsleepAre(w.timer.asleep, w.runs)
  }

  lemma StoppedKeepsInv(env: Env, w: World, timer: State)
    requires Inv(env, w) && Holds(env, timer) && timer.generation > w.timer.generation && timer.asleep == map[]
    ensures Inv(env, w.(timer := timer, runs := Released(w.runs)))
  {
  }

  lemma StartKeepsInv(env: Env, w: World, cron: string, timezone: string, taken: nat -> bool)
    requires Inv(env, w)
    ensures Inv(env, After(env, w, Start(cron, timezone, taken)))
  {
    StartHolds(env, w.timer, cron, timezone, taken);
    if Replaces(env, w, cron) {
      StoppedKeepsInv(env, w, Started(env, w.timer, cron, timezone, taken));
    } else {
      InvalidCronKeepsTheSchedule(env, w.timer, cron, timezone, taken);
    }
  }

  /** A run stepping within its generation keeps what is known of it. */
  lemma RunStepKeepsInv(env: Env, w: World, i: nat, run: Run, asleep: map<nat, int>)
    requires Inv(env, w) && i < |w.runs| && run.startedIn == w.runs[i].startedIn && run.firedBy == w.runs[i].firedBy
    requires AsleepAre(asleep, w.runs[i := run])
    ensures Inv(env, w.(runs := w.runs[i := run], timer := w.timer.(asleep := asleep)))
  {
  }

  lemma TickKeepsInv(env: Env, w: World, handle: nat)
    requires Inv(env, w)
    ensures Inv(env, After(env, w, Tick(handle)))
  {
    if handle in w.timer.scheduler.live && w.timer.scheduler.live[handle].kind.Main? {
      assert handle in w.timer.scheduler.live.Keys;
    }
  }

  lemma EventKeepsInv(env: Env, w: World, e: Event)
    requires Inv(env, w)
    ensures Inv(env, After(env, w, e))
  {
    match e
    case Start(cron, timezone, taken) => StartKeepsInv(env, w, cron, timezone, taken);
    case Stop =>
      StopHolds(env, w.timer);
      StoppedKeepsInv(env, w, Stopped(w.timer));
    case SetPaused(paused) =>
    case Tick(handle) => TickKeepsInv(env, w, handle);
    case Startup =>
    case Quiet(i, within) =>
      if At(w, i, AskingQuiet) { RunStepKeepsInv(env, w, i, AfterQuiet(w, w.runs[i], within), w.timer.asleep); }
    case Offset(i, on, until) =>
      if At(w, i, AskingOffset) {
        var run := AfterOffset(w, w.runs[i], on);
        RunStepKeepsInv(env, w, i, run, if run.pc.Sleeping? then w.timer.asleep[i := until] else w.timer.asleep);
      }
    case Elapse(i) =>
      if At(w, i, Sleeping) { RunStepKeepsInv(env, w, i, w.runs[i].(pc := Awake), w.timer.asleep - {i}); }
    case Wake(i) =>
      if At(w, i, Awake) { RunStepKeepsInv(env, w, i, AfterSleep(w, w.runs[i]), w.timer.asleep); }
    case QuietAgain(i, within) =>
      if At(w, i, AskingQuietAgain) {
        RunStepKeepsInv(env, w, i, AfterQuietAgain(w, w.runs[i], within), w.timer.asleep);
      }
  }

  function Reached(env: Env, events: seq<Event>): World {
    if events == [] then World(State(Scheduler(map[], 0), None, [], None, None, 0, map[]), false, [])
    else After(env, Reached(env, events[..|events| - 1]), events[|events| - 1])
  }

  lemma {:induction false} ReachedKeepsInv(env: Env, events: seq<Event>)
    ensures Inv(env, Reached(env, events))
  {
    if events == [] {
    } else {
      ReachedKeepsInv(env, events[..|events| - 1]);
      EventKeepsInv(env, Reached(env, events[..|events| - 1]), events[|events| - 1]);
    }
  }

  // ---------------------------------------------------------------------- what it is for

  predicate Rounds(w: World, i: nat) {
    At(w, i, InRound)
  }

  /** Whether run i starts its round in this event. */
  predicate RoundStarts(env: Env, w: World, e: Event, i: nat) {
    !Rounds(w, i) && Rounds(After(env, w, e), i)
  }

  /**
   In every interleaving: a round starts only unpaused and in its own
   generation, and a scheduled one only while the job whose tick it was is still
   the live main job, compiled from the cron the module answers for.
   */
  lemma RoundsAreCurrent(env: Env, events: seq<Event>, e: Event, i: nat)
    requires RoundStarts(env, Reached(env, events), e, i)
    ensures var w := Reached(env, events);
            && i < |w.runs| && !w.paused && w.runs[i].startedIn == w.timer.generation
            && (w.runs[i].firedBy.Some? ==>
                  && w.timer.job == w.runs[i].firedBy && w.timer.job.value in w.timer.scheduler.live
                  && w.timer.cron.Some? && w.timer.zone.Some?
                  && w.timer.scheduler.live[w.timer.job.value]
                     == Job(Main, w.timer.cron.value, ZoneOf(env, w.timer.zone.value)))
  {
    ReachedKeepsInv(env, events);
    var w := Reached(env, events);
    RoundsComeOfLastGuards(env, w, e, i);
    assert w.timer.job.Some? ==> w.timer.job.value in w.timer.scheduler.live.Keys;
  }

  lemma RoundsComeOfLastGuards(env: Env, w: World, e: Event, i: nat)
    requires RoundStarts(env, w, e, i)
    ensures i < |w.runs| && LastGuards(w, w.runs[i]).pc.InRound?
  {
  }

  /** The run has passed its last await with this event, and no quiet hour stopped it there. */
  ghost predicate ComesThrough(w: World, e: Event, i: nat) {
    && i < |w.runs|
    && (|| (w.runs[i].pc.AskingQuiet? && w.runs[i].firedBy.None? && e == Quiet(i, false))
        || (w.runs[i].pc.AskingQuietAgain? && e == QuietAgain(i, false))
        || (w.runs[i].pc.AskingOffset? && e.Offset? && e.run == i && (!e.on || w.timer.cron.None?)))
  }

  /** A run starts its round exactly when it comes through unpaused and in its own generation. */
  lemma RoundStartsIff(env: Env, w: World, e: Event, i: nat)
    ensures RoundStarts(env, w, e, i)
            <==> ComesThrough(w, e, i) && !w.paused && w.runs[i].startedIn == w.timer.generation
  {
  }

  /** And it is given up exactly for a quiet hour, for a schedule that is gone, or for a pause. */
  lemma RunIsSkippedIff(env: Env, w: World, e: Event, i: nat)
    requires i < |w.runs| && !w.runs[i].pc.Skipped?
    ensures At(After(env, w, e), i, Skipped)
            <==> || (e == Quiet(i, true) && w.runs[i].pc.AskingQuiet?)
                 || (e == QuietAgain(i, true) && w.runs[i].pc.AskingQuietAgain?)
                 || (e == Wake(i) && w.runs[i].pc.Awake? && w.runs[i].startedIn != w.timer.generation)
                 || (ComesThrough(w, e, i) && (w.paused || w.runs[i].startedIn != w.timer.generation))
  {
  }

  /** The steps of a tick that nothing gets in the way of. */
  function ItsOwnSteps(i: nat, offset: bool, until: int): seq<Event> {
    if offset
    then [Quiet(i, false), Offset(i, true, until), Elapse(i), Wake(i), QuietAgain(i, false)]
    else [Quiet(i, false), Offset(i, false, until)]
  }

  lemma OneMoreEvent(env: Env, w: World, events: seq<Event>, e: Event)
    ensures RunFrom(env, w, events + [e]) == After(env, RunFrom(env, w, events), e)
  {
    assert (events + [e])[..|events|] == events;
  }

  lemma OneEvent(env: Env, w: World, e: Event)
    ensures RunFrom(env, w, [e]) == After(env, w, e)
  {
    OneMoreEvent(env, w, [], e);
    assert [] + [e] == [e];
  }

  /** A ticked run of the standing schedule, unpaused, behind an await. */
  ghost predicate Standing(w: World, i: nat, pc: Pc) {
    && At(w, i, pc) && w.runs[i].firedBy.Some? && w.runs[i].startedIn == w.timer.generation
    && !w.paused && w.timer.cron.Some? && (pc.Sleeping? ==> i in w.timer.asleep)
  }

  lemma TickStands(env: Env, w: World, handle: nat)
    requires handle in w.timer.scheduler.live && w.timer.scheduler.live[handle].kind.Main? && !w.paused
    requires w.timer.cron.Some?
    ensures Standing(After(env, w, Tick(handle)), |w.runs|, AskingQuiet)
  {
  }

  lemma QuietStands(env: Env, w: World, i: nat)
    requires Standing(w, i, AskingQuiet)
    ensures Standing(After(env, w, Quiet(i, false)), i, AskingOffset)
  {
  }

  lemma OffsetStands(env: Env, w: World, i: nat, offset: bool, until: int)
    requires Standing(w, i, AskingOffset)
    ensures var after := After(env, w, Offset(i, offset, until));
            if offset then Standing(after, i, Sleeping) else Rounds(after, i)
  {
  }

  lemma SleepStands(env: Env, w: World, i: nat)
    requires Standing(w, i, Sleeping)
    ensures Standing(After(env, w, Elapse(i)), i, Awake)
  {
  }

  lemma WakingStands(env: Env, w: World, i: nat)
    requires Standing(w, i, Awake)
    ensures Standing(After(env, w, Wake(i)), i, AskingQuietAgain)
  {
  }

  lemma QuietAgainRounds(env: Env, w: World, i: nat)
    requires Standing(w, i, AskingQuietAgain)
    ensures Rounds(After(env, w, QuietAgain(i, false)), i)
  {
  }

  /** Where a run stands is told of the events so far, one at a time. */
  lemma FirstTwoSteps(env: Env, w: World, i: nat, offset: bool, until: int)
    requires Standing(w, i, AskingQuiet)
    ensures var after := RunFrom(env, w, [Quiet(i, false), Offset(i, offset, until)]);
            if offset then Standing(after, i, Sleeping) else Rounds(after, i)
  {
    var a, b := Quiet(i, false), Offset(i, offset, until);
    OneEvent(env, w, a);
    OneMoreEvent(env, w, [a], b);
    assert [a] + [b] == [a, b];
    QuietStands(env, w, i);
    OffsetStands(env, RunFrom(env, w, [a]), i, offset, until);
  }

  lemma LastThreeSteps(env: Env, w: World, so: seq<Event>, i: nat)
    requires Standing(RunFrom(env, w, so), i, Sleeping)
    ensures Rounds(RunFrom(env, w, so + [Elapse(i)] + [Wake(i)] + [QuietAgain(i, false)]), i)
  {
    OneMoreEvent(env, w, so, Elapse(i));
    SleepStands(env, RunFrom(env, w, so), i);
    OneMoreEvent(env, w, so + [Elapse(i)], Wake(i));
    WakingStands(env, RunFrom(env, w, so + [Elapse(i)]), i);
    OneMoreEvent(env, w, so + [Elapse(i)] + [Wake(i)], QuietAgain(i, false));
    QuietAgainRounds(env, RunFrom(env, w, so + [Elapse(i)] + [Wake(i)]), i);
  }

  /**
   A tick of the live main job comes to its round: unpaused, outside the quiet hours,
   with nothing replacing the schedule meanwhile - with the offset, after its sleep.
   */
  lemma DueTickComesToItsRound(env: Env, w: World, handle: nat, offset: bool, until: int)
    requires handle in w.timer.scheduler.live && w.timer.scheduler.live[handle].kind.Main? && !w.paused
    requires w.timer.cron.Some?
    ensures var i := |w.runs|;
            Rounds(RunFrom(env, After(env, w, Tick(handle)), ItsOwnSteps(i, offset, until)), i)
  {
    var i, ticked := |w.runs|, After(env, w, Tick(handle));
    TickStands(env, w, handle);
    FirstTwoSteps(env, ticked, i, offset, until);
    if offset {
      var so := [Quiet(i, false), Offset(i, true, until)];
      LastThreeSteps(env, ticked, so, i);
      assert so + [Elapse(i)] + [Wake(i)] + [QuietAgain(i, false)] == ItsOwnSteps(i, true, until);
    }
  }

  /** A run asked for at startup takes no offset: one quiet-hours answer, and it is in its round. */
  lemma StartupComesToItsRound(env: Env, w: World)
    requires !w.paused
    ensures Rounds(After(env, After(env, w, Startup), Quiet(|w.runs|, false)), |w.runs|)
  {
  }

  /** The jobs that would fire are the ones the module can cancel, whatever was started, refused and stopped. */
  lemma LiveJobsAreHeld(env: Env, events: seq<Event>)
    ensures var timer := Reached(env, events).timer;
            && timer.scheduler.live.Keys == AsOption(timer.job) + AsSet(timer.digests)
            && (timer.job.Some? ==> timer.job.value !in timer.digests) && |timer.digests| <= 2
            && forall h, g | h in timer.scheduler.live && g in timer.scheduler.live
                             && timer.scheduler.live[h].kind == timer.scheduler.live[g].kind :: h == g
  {
    ReachedKeepsInv(env, events);
    var timer := Reached(env, events).timer;
    forall h, g | h in timer.scheduler.live && g in timer.scheduler.live
                  && timer.scheduler.live[h].kind == timer.scheduler.live[g].kind
      ensures h == g
    {
      KindsDiffer(env, timer, h, g);
    }
  }

  lemma KindsDiffer(env: Env, timer: State, h: nat, g: nat)
    requires Holds(env, timer) && h in timer.scheduler.live && g in timer.scheduler.live
    requires timer.scheduler.live[h].kind == timer.scheduler.live[g].kind
    ensures h == g
  {
    assert h in timer.scheduler.live.Keys && g in timer.scheduler.live.Keys;
  }

  /** What a teardown leaves of a run: retired, and not in a round. */
  ghost predicate Retired(w: World, i: nat) {
    i < |w.runs| && w.runs[i].startedIn < w.timer.generation && !w.runs[i].pc.InRound?
  }

  lemma GenerationGrows(env: Env, w: World, e: Event)
    ensures w.timer.generation <= After(env, w, e).timer.generation
  {
  }

  lemma RetiredStays(env: Env, w: World, e: Event, i: nat)
    requires Retired(w, i)
    ensures Retired(After(env, w, e), i)
  {
    GenerationGrows(env, w, e);
    if Rounds(After(env, w, e), i) {
      RoundsComeOfLastGuards(env, w, e, i);
    }
  }

  function RunFrom(env: Env, w: World, events: seq<Event>): World {
    if events == [] then w else After(env, RunFrom(env, w, events[..|events| - 1]), events[|events| - 1])
  }

  lemma {:induction false} RetiredForGood(env: Env, w: World, events: seq<Event>, i: nat)
    requires Retired(w, i)
    ensures Retired(RunFrom(env, w, events), i)
  {
    if events == [] {
    } else {
      RetiredForGood(env, w, events[..|events| - 1], i);
      RetiredStays(env, RunFrom(env, w, events[..|events| - 1]), events[|events| - 1], i);
    }
  }

  /**
   Stopping wakes every sleeper at once and leaves no delay pending; no run that
   was under way, asleep or not, ever comes to a round afterwards.
   */
  lemma StopEndsEveryRun(env: Env, events: seq<Event>, later: seq<Event>, i: nat)
    requires i < |Reached(env, events).runs| && !Rounds(Reached(env, events), i)
    ensures var stopped := After(env, Reached(env, events), Stop);
            && stopped.timer.asleep == map[] && stopped.timer.scheduler.live == map[]
            && !At(stopped, i, Sleeping)
            && (At(Reached(env, events), i, Sleeping) ==> At(stopped, i, Awake))
            && !Rounds(RunFrom(env, stopped, later), i)
  {
    ReachedKeepsInv(env, events);
    var w := Reached(env, events);
    StopHolds(env, w.timer);
    assert RunIsKnown(w, w.runs[i]);
    RetiredForGood(env, After(env, w, Stop), later, i);
  }

  /** The same of a schedule that replaces another. */
  lemma ReplacingEndsEveryRun(env: Env, events: seq<Event>, cron: string, timezone: string, taken: nat -> bool,
                              later: seq<Event>, i: nat)
    requires i < |Reached(env, events).runs| && !Rounds(Reached(env, events), i)
    requires Replaces(env, Reached(env, events), cron)
    ensures var started := After(env, Reached(env, events), Start(cron, timezone, taken));
            started.timer.asleep == map[] && !Rounds(RunFrom(env, started, later), i)
  {
    ReachedKeepsInv(env, events);
    var w := Reached(env, events);
    assert RunIsKnown(w, w.runs[i]);
    RetiredForGood(env, After(env, w, Start(cron, timezone, taken)), later, i);
  }
}
