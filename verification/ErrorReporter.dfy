/**
 What a listener that is already up writes to the error log: each distinct fault
 once per interval, a storm of one fault counted rather than written.
 */
module ErrorReporter {
  import opened Wrappers

  /** windowStart is None before the first event: minus infinity. */
  datatype State = State(windowStart: Option<int>, reported: set<string>, suppressed: map<string, nat>)

  /** A full entry carries the count of its fault's suppressed events. */
  datatype Outcome = Written(noted: nat) | Suppressed

  datatype Event = Event(fault: string, now: int)

  const INITIAL := State(None, {}, map[])

  function Held(s: State, fault: string): nat {
    if fault in s.suppressed then s.suppressed[fault] else 0
  }

  /** Whether `now` opens a new window. */
  predicate Opens(s: State, interval: nat, now: int) {
    s.windowStart.None? || now - s.windowStart.value >= interval
  }

  function Step(s: State, interval: nat, e: Event): (State, Outcome) {
    var s1 := if Opens(s, interval, e.now) then s.(windowStart := Some(e.now), reported := {}) else s;
    if e.fault in s1.reported then
      (s1.(suppressed := s1.suppressed[e.fault := Held(s1, e.fault) + 1]), Suppressed)
    else
      (s1.(reported := s1.reported + {e.fault}, suppressed := s1.suppressed - {e.fault}), Written(Held(s1, e.fault)))
  }

  /** The reporter of one listener. */
  class Reporter {
    const interval: nat
    var windowStart: Option<int>
    var reported: set<string>
    var suppressed: map<string, nat>

    function Abs(): State
      reads this
    {
      State(windowStart, reported, suppressed)
    }

    constructor (interval: nat)
      ensures this.interval == interval && Abs() == INITIAL
    {
      this.interval := interval;
      windowStart, reported, suppressed := None, {}, map[];
    }

    method Report(e: Event) returns (outcome: Outcome)
      modifies this
      ensures (Abs(), outcome) == Step(old(Abs()), interval, e)
    {
      if windowStart.None? || e.now - windowStart.value >= interval {
        windowStart := Some(e.now);
        reported := {};
      }
      var held := if e.fault in suppressed then suppressed[e.fault] else 0;
      if e.fault in reported {
        suppressed := suppressed[e.fault := held + 1];
        return Suppressed;
      }
      reported := reported + {e.fault};
      suppressed := suppressed - {e.fault};
      return Written(held);
    }
  }

  // ---------------------------------------------------------------- runs

  function After(interval: nat, run: seq<Event>): State {
    if run == [] then INITIAL else Step(After(interval, run[..|run| - 1]), interval, run[|run| - 1]).0
  }

  function OutcomeOf(interval: nat, run: seq<Event>): Outcome
    requires run != []
  {
    Step(After(interval, run[..|run| - 1]), interval, run[|run| - 1]).1
  }

  function Events(run: seq<Event>, fault: string): nat {
    if run == [] then 0
    else Events(run[..|run| - 1], fault) + if run[|run| - 1].fault == fault then 1 else 0
  }

  /** Full entries of one fault written in [from, to). */
  function EntriesWithin(interval: nat, run: seq<Event>, fault: string, from: int, to: int): nat {
    if run == [] then 0
    else
      var e := run[|run| - 1];
      EntriesWithin(interval, run[..|run| - 1], fault, from, to)
      + if e.fault == fault && from <= e.now < to && OutcomeOf(interval, run).Written? then 1 else 0
  }

  function Entries(interval: nat, run: seq<Event>, fault: string): nat {
    if run == [] then 0
    else
      Entries(interval, run[..|run| - 1], fault)
      + if run[|run| - 1].fault == fault && OutcomeOf(interval, run).Written? then 1 else 0
  }

  /** Suppressed events of one fault that a later entry of that fault has owned up to. */
  function Flushed(interval: nat, run: seq<Event>, fault: string): nat {
    if run == [] then 0
    else
      Flushed(interval, run[..|run| - 1], fault)
      + match OutcomeOf(interval, run)
        case Written(noted) => if run[|run| - 1].fault == fault then noted else 0
        case Suppressed => 0
  }

  /** No event is lost and none is counted onto another fault's entry. */
  lemma {:induction false} EveryEventIsAccountedFor(interval: nat, run: seq<Event>, fault: string)
    ensures Events(run, fault)
         == Entries(interval, run, fault) + Flushed(interval, run, fault) + Held(After(interval, run), fault)
  {
    if run == [] {
    } else {
      EveryEventIsAccountedFor(interval, run[..|run| - 1], fault);
    }
  }

  ghost predicate Monotone(run: seq<Event>) {
    forall i, j :: 0 <= i < j < |run| ==> run[i].now <= run[j].now
  }

  ghost predicate Ceiling(s: State, interval: nat, fault: string, from: int, last: int, entries: nat) {
    && s.windowStart.Some?
    && s.windowStart.value <= last
    && (last < from ==> entries == 0)
    && var mine := if fault in s.reported then 1 else 0;
    && (s.windowStart.value < from ==> entries <= mine)
    && (from <= s.windowStart.value < from + interval ==> entries <= 1 + mine)
    && entries <= 2
  }

  lemma {:induction false} RunKeepsCeiling(interval: nat, run: seq<Event>, fault: string, from: int)
    requires Monotone(run) && run != []
    ensures Ceiling(After(interval, run), interval, fault, from, run[|run| - 1].now,
                    EntriesWithin(interval, run, fault, from, from + interval))
  {
    var before := run[..|run| - 1];
    if before == [] {
    } else {
      RunKeepsCeiling(interval, before, fault, from);
      assert before[|before| - 1].now <= run[|run| - 1].now;
    }
  }

  /** However long the storm, one fault earns at most two full entries in any stretch as long as the interval. */
  lemma LogGrowthIsBounded(interval: nat, run: seq<Event>, fault: string, from: int)
    requires Monotone(run)
    ensures EntriesWithin(interval, run, fault, from, from + interval) <= 2
  {
    if run != [] {
      RunKeepsCeiling(interval, run, fault, from);
    }
  }

  /** A fault no entry of the current window names is written in full: no other fault can mute it. */
  lemma DifferentFaultIsNeverMuted(interval: nat, run: seq<Event>, e: Event)
    requires forall i :: 0 <= i < |run| && run[i].fault == e.fault ==> e.now - run[i].now >= interval
    requires Monotone(run + [e])
    ensures Step(After(interval, run), interval, e).1.Written?
  {
    assert Monotone(run) by {
      assert forall i :: 0 <= i < |run| ==> run[i] == (run + [e])[i];
    }
    ReportedInThisWindow(interval, run, e.fault);
  }

  /** A fault counts as reported only for an event the current window has seen. */
  lemma {:induction false} ReportedInThisWindow(interval: nat, run: seq<Event>, fault: string)
    requires Monotone(run)
    ensures run != [] ==>
              After(interval, run).windowStart.Some? && After(interval, run).windowStart.value <= run[|run| - 1].now
    ensures fault in After(interval, run).reported ==>
              exists i :: 0 <= i < |run| && run[i].fault == fault
                && After(interval, run).windowStart.value <= run[i].now
  {
    if run == [] {
    } else {
      var before := run[..|run| - 1];
      ReportedInThisWindow(interval, before, fault);
      if before != [] {
        assert before[|before| - 1].now <= run[|run| - 1].now;
      }
      if fault in After(interval, run).reported && run[|run| - 1].fault != fault {
        var i :| 0 <= i < |before| && before[i].fault == fault
          && After(interval, before).windowStart.value <= before[i].now;
        assert run[i].fault == fault;
      } else {
        assert 0 <= |run| - 1 < |run|;
      }
    }
  }

  // ------------------------------------------------------------- exactly what is written

  /** The event that opened the window a run ends in: the first, and the first an interval or more behind an opener. */
  function OpenedAt(interval: nat, run: seq<Event>): (k: nat)
    requires run != []
    ensures k < |run|
  {
    if |run| == 1 then 0
    else
      var k := OpenedAt(interval, run[..|run| - 1]);
      if run[|run| - 1].now - run[k].now >= interval then |run| - 1 else k
  }

  /** Some event from the k-th on, the last left out, is of the fault. */
  ghost predicate SeenSince(run: seq<Event>, k: nat, fault: string) {
    exists i :: k <= i < |run| - 1 && run[i].fault == fault
  }

  lemma {:induction false} WindowIs(interval: nat, run: seq<Event>)
    requires run != []
    ensures var s, k := After(interval, run), OpenedAt(interval, run);
            && s.windowStart == Some(run[k].now)
            && forall fault :: fault in s.reported <==> exists i :: k <= i < |run| && run[i].fault == fault
  {
    var before, last := run[..|run| - 1], run[|run| - 1];
    var k := OpenedAt(interval, run);
    if before != [] {
      WindowIs(interval, before);
    }
    assert forall i :: 0 <= i < |before| ==> run[i] == before[i];
    forall fault
      ensures fault in After(interval, run).reported <==> exists i :: k <= i < |run| && run[i].fault == fault
    {
      if fault == last.fault {
        assert run[|run| - 1].fault == fault;
      } else if before != [] && fault in After(interval, before).reported && k < |run| - 1 {
        var i :| OpenedAt(interval, before) <= i < |before| && before[i].fault == fault;
        assert run[i].fault == fault;
      }
    }
  }

  /** An event is written in full exactly when it is the first of its fault in the window it falls into. */
  lemma WrittenIff(interval: nat, run: seq<Event>)
    requires run != []
    ensures OutcomeOf(interval, run).Written? <==> !SeenSince(run, OpenedAt(interval, run), run[|run| - 1].fault)
  {
    var before, last, k := run[..|run| - 1], run[|run| - 1], OpenedAt(interval, run);
    if before != [] {
      WindowIs(interval, before);
      if SeenSince(run, k, last.fault) {
        var i :| k <= i < |run| - 1 && run[i].fault == last.fault;
        assert before[i].fault == last.fault;
      }
      if last.fault in After(interval, before).reported && k < |run| - 1 {
        var i :| k <= i < |before| && before[i].fault == last.fault;
        assert run[i].fault == last.fault;
      }
    }
  }
}
