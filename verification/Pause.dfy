/** The pause switch, and the one timer that may lift it. */
module Pause {
  import opened Wrappers

  const MS_PER_HOUR := 3600000.0
  const MAX_TIMEOUT_MS := 2147483647.0

  /** `armed` are the timeouts that have neither fired nor been cleared, each with what it was set to. */
  datatype State = State(paused: bool, updateTimer: Option<nat>, armed: map<nat, real>, issued: nat)

  function Updated(s: State, paused: bool): State {
    State(paused, None, if s.updateTimer.Some? then s.armed - {s.updateTimer.value} else s.armed, s.issued)
  }

  /** resumeIn; None for what is not a number. */
  function ResumedIn(s: State, hours: Option<real>): (State, bool) {
    if hours.None? || hours.value <= 0.0 then (s, false)
    else
      var paused, delay := Updated(s, true), hours.value * MS_PER_HOUR;
      if delay < MAX_TIMEOUT_MS
      then (State(true, Some(paused.issued), paused.armed[paused.issued := delay], paused.issued + 1), true)
      else (paused, true)
  }

  /** A timeout fires: it is gone from the loop, and lifts the pause. */
  function Fired(s: State, timer: nat): State {
    if timer in s.armed then Updated(s.(armed := s.armed - {timer}), false) else s
  }

  class Switch {
    var paused: bool
    var updateTimer: Option<nat>
    var armed: map<nat, real>
    var issued: nat

    constructor ()
      ensures View() == State(false, None, map[], 0)
    {
      paused, updateTimer, armed, issued := false, None, map[], 0;
    }

    ghost function View(): State
      reads this
    {
      State(paused, updateTimer, armed, issued)
    }

    method ClearTimer()
      modifies this`updateTimer, this`armed
      ensures updateTimer.None?
      ensures armed == if old(updateTimer).Some? then old(armed) - {old(updateTimer).value} else old(armed)
    {
      if updateTimer.None? { return; }
      armed := armed - {updateTimer.value};
      updateTimer := None;
    }

    method UpdateState(newState: bool)
      modifies this
      ensures View() == Updated(old(View()), newState)
    {
      ClearTimer();
      paused := newState;
    }

    method ResumeIn(hours: Option<real>) returns (applied: bool)
      modifies this
      ensures (View(), applied) == ResumedIn(old(View()), hours)
    {
      if hours.None? || hours.value <= 0.0 { return false; }
      UpdateState(true);
      var delay := if hours.value * MS_PER_HOUR < MAX_TIMEOUT_MS then hours.value * MS_PER_HOUR else MAX_TIMEOUT_MS;
      if delay < MAX_TIMEOUT_MS {
        armed := armed[issued := delay];
        updateTimer := Some(issued);
        issued := issued + 1;
      }
      return true;
    }
  }

  datatype Event = Set(paused: bool) | ResumeAfter(hours: Option<real>) | Fire(timer: nat)

  function After(s: State, e: Event): State {
    match e
    case Set(paused) => Updated(s, paused)
    case ResumeAfter(hours) => ResumedIn(s, hours).0
    case Fire(timer) => Fired(s, timer)
  }

  function Run(events: seq<Event>): State {
    if events == [] then State(false, None, map[], 0)
    else After(Run(events[..|events| - 1]), events[|events| - 1])
  }

  /**
   At most one timeout is armed, only while paused, and it is the one the last
   pause set: no earlier pause's timeout can lift a later one. None is ever set
   beyond what the event loop can count.
   */
  ghost predicate OneTimer(s: State) {
    && s.armed.Keys == (if s.updateTimer.Some? then {s.updateTimer.value} else {})
    && (s.updateTimer.Some? ==> s.paused && s.updateTimer.value + 1 == s.issued)
    && (forall t :: t in s.armed ==> 0.0 < s.armed[t] < MAX_TIMEOUT_MS)
  }

  lemma StepKeepsOneTimer(s: State, e: Event)
    requires OneTimer(s)
    ensures OneTimer(After(s, e))
  {
    if e.Fire? && e.timer in s.armed {
      assert e.timer in s.armed.Keys;
    }
  }

  lemma {:induction false} RunKeepsOneTimer(events: seq<Event>)
    ensures OneTimer(Run(events))
  {
    if events == [] {
    } else {
      RunKeepsOneTimer(events[..|events| - 1]);
      StepKeepsOneTimer(Run(events[..|events| - 1]), events[|events| - 1]);
    }
  }

  /** What lifts a pause: a hand, or the timeout of the last pause that was set. */
  lemma OnlyItsOwnTimerLiftsAPause(events: seq<Event>, e: Event)
    ensures var before, after := Run(events), After(Run(events), e);
            before.paused && !after.paused ==> e == Set(false) || (e.Fire? && before.updateTimer == Some(e.timer))
  {
    RunKeepsOneTimer(events);
    var before := Run(events);
    if e.Fire? && e.timer in before.armed {
      assert e.timer in before.armed.Keys;
    }
  }

  /**
   What a pause for some hours comes to: nothing for what is no duration; otherwise the
   instance is paused, and for as many milliseconds exactly - the one timeout that is then
   armed lifts it - or, past what a timeout can count, until it is lifted by hand.
   */
  lemma PausedFor(events: seq<Event>, hours: Option<real>)
    ensures var before, after := Run(events), After(Run(events), ResumeAfter(hours));
            if hours.None? || hours.value <= 0.0 then after == before
            else
              && after.paused
              && (if hours.value * 3600000.0 < 2147483647.0 then
                    exists timer: nat :: after.armed == map[timer := hours.value * 3600000.0]
                                    && !After(after, Fire(timer)).paused && After(after, Fire(timer)).armed == map[]
                  else after.armed == map[])
  {
    RunKeepsOneTimer(events);
    StepKeepsOneTimer(Run(events), ResumeAfter(hours));
    var after := After(Run(events), ResumeAfter(hours));
    if after.updateTimer.Some? && hours.Some? && hours.value > 0.0 {
      var timer := after.updateTimer.value;
      assert timer in after.armed.Keys;
      assert after.armed == map[timer := after.armed[timer]];
      assert After(after, Fire(timer)).armed == map[];
    } else {
      assert after.updateTimer.None? ==> after.armed.Keys == {};
    }
  }

  /** Switched by hand, it is as it was switched, and no timeout is left to change it. */
  lemma SwitchedByHand(events: seq<Event>, paused: bool)
    ensures var after := After(Run(events), Set(paused)); after.paused == paused && after.armed == map[]
  {
    RunKeepsOneTimer(events);
    StepKeepsOneTimer(Run(events), Set(paused));
    assert After(Run(events), Set(paused)).armed.Keys == {};
  }
}
