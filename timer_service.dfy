/** The session timer of `TimerService`: elapsed time, the running flag and
    the start reference, driven by start/pause/stop/reset commands and by the
    ticks of its update loop. The wall clock is an explicit `now` argument.
    The persistent notification is kept only as the text it would show
    (`notice`, `None` once it is removed). */
module Timer {
  import opened Common
  import opened Text

  /** The service's observable state: `_elapsedTime`, `_isRunning`,
      `startTime`, and the text of the ongoing notification. */
  datatype TimerState = TimerState(
    elapsed: int,
    running: bool,
    startTime: int,
    notice: Option<string>)

  /** A freshly created service: nothing elapsed, not running. */
  const Initial: TimerState := TimerState(0, false, 0, None)

  // ---------------------------------------------------------------------
  // Transitions
  // ---------------------------------------------------------------------

  /** `startTimer`: a no-op while running; otherwise the start reference is
      moved back by the time already elapsed, so the session resumes. */
  function Start(s: TimerState, habitName: string, now: int): TimerState {
    if s.running then s
    else s.(running := true, startTime := now - s.elapsed,
            notice := Some("Timing: " + habitName))
  }

  /** One pass of the update loop: while running, elapsed is recomputed from
      the clock (never summed from deltas) and shown in the notification. */
  function Tick(s: TimerState, now: int): TimerState {
    if s.running then
      var e := now - s.startTime;
      s.(elapsed := e, notice := Some("Elapsed: " + FormatTime(e)))
    else s
  }

  /** `pauseTimer`: stops the loop, keeps the last elapsed value and keeps a
      "Paused" notification posted. */
  function Pause(s: TimerState): TimerState {
    s.(running := false, notice := Some("Paused"))
  }

  /** `stopTimer`: stops the loop and removes the notification; elapsed is
      kept. */
  function Stop(s: TimerState): TimerState {
    s.(running := false, notice := None)
  }

  /** `resetTimer`: elapsed back to zero, nothing else. */
  function Reset(s: TimerState): TimerState {
    s.(elapsed := 0)
  }

  /** `formatTime`: whole minutes and the seconds within the minute, each
      rendered with `%02d`, using Kotlin's truncating `Long` arithmetic. */
  function FormatTime(millis: int): string {
    var seconds := Quot(millis, 1000);
    var m := Quot(seconds, 60);
    var s := Rem(seconds, 60);
    Pad2(m) + ":" + Pad2(s)
  }

  // ---------------------------------------------------------------------
  // Runs of commands
  // ---------------------------------------------------------------------

  /** Something that happens to the service. */
  datatype Event =
    | Started(habitName: string, now: int)
    | Ticked(now: int)
    | Paused
    | Stopped
    | WasReset

  function Apply(s: TimerState, e: Event): TimerState {
    match e
    case Started(name, now) => Start(s, name, now)
    case Ticked(now) => Tick(s, now)
    case Paused => Pause(s)
    case Stopped => Stop(s)
    case WasReset => Reset(s)
  }

  /** The state after a sequence of events, in order. */
  function Run(s: TimerState, evs: seq<Event>): TimerState
    decreases |evs|
  {
    if evs == [] then s else Run(Apply(s, evs[0]), evs[1..])
  }

  /** The clock value an event reads, if it reads one. */
  function NextClock(clock: int, e: Event): int {
    match e
    case Started(_, now) => now
    case Ticked(now) => now
    case _ => clock
  }

  /** The clock never goes back: every event that reads it sees a value at
      least the previous one, starting from `clock`. */
  predicate ClockOrdered(clock: int, evs: seq<Event>)
    decreases |evs|
  {
    evs == [] ||
    (NextClock(clock, evs[0]) >= clock && ClockOrdered(NextClock(clock, evs[0]), evs[1..]))
  }

  predicate NoReset(evs: seq<Event>) {
    forall i :: 0 <= i < |evs| ==> !evs[i].WasReset?
  }

  predicate NoStartOrReset(evs: seq<Event>) {
    forall i :: 0 <= i < |evs| ==> !evs[i].Started? && !evs[i].WasReset?
  }

  /** While running, the start reference plus elapsed is no later than the
      last clock reading (equal to it right after a start or a tick). */
  predicate Synced(s: TimerState, clock: int) {
    s.running ==> s.startTime + s.elapsed <= clock
  }

  /** One event with a well-behaved clock, other than a reset, never lowers
      elapsed and keeps the state in step with the clock. */
  lemma StepKeepsElapsed(s: TimerState, clock: int, e: Event)
    requires Synced(s, clock) && NextClock(clock, e) >= clock && !e.WasReset?
    ensures Apply(s, e).elapsed >= s.elapsed
    ensures Synced(Apply(s, e), NextClock(clock, e))
  {
  }

  /** With a clock that never goes back and no reset, the published elapsed
      time never decreases over any sequence of commands and ticks. */
  lemma {:induction false} ElapsedNeverDecreases(s: TimerState, clock: int, evs: seq<Event>)
    requires Synced(s, clock) && ClockOrdered(clock, evs) && NoReset(evs)
    ensures Run(s, evs).elapsed >= s.elapsed
    decreases |evs|
  {
    if evs != [] {
      StepKeepsElapsed(s, clock, evs[0]);
      assert NoReset(evs[1..]) by {
        forall i | 0 <= i < |evs[1..]| ensures !evs[1..][i].WasReset? {
          assert evs[1..][i] == evs[i + 1];
        }
      }
      ElapsedNeverDecreases(Apply(s, evs[0]), NextClock(clock, evs[0]), evs[1..]);
    }
  }

  /** The same, for every two points of one run: a later state never shows
      less elapsed time than an earlier one. */
  lemma {:induction false} ElapsedMonotoneAlongRun(s: TimerState, clock: int, evs: seq<Event>, i: nat, j: nat)
    requires Synced(s, clock) && ClockOrdered(clock, evs) && NoReset(evs)
    requires i <= j <= |evs|
    ensures Run(s, evs[..i]).elapsed <= Run(s, evs[..j]).elapsed
    decreases |evs|
  {
    if i > 0 {
      StepKeepsElapsed(s, clock, evs[0]);
      var t := evs[1..];
      assert NoReset(t) by {
        forall k | 0 <= k < |t| ensures !t[k].WasReset? {
          assert t[k] == evs[k + 1];
        }
      }
      assert evs[..i][1..] == t[..i - 1];
      assert evs[..j][1..] == t[..j - 1];
      ElapsedMonotoneAlongRun(Apply(s, evs[0]), NextClock(clock, evs[0]), t, i - 1, j - 1);
    } else {
      assert evs[..i] == [];
      ElapsedNeverDecreases(s, clock, evs[..j]) by {
        ClockOrderedPrefix(clock, evs, j);
        assert NoReset(evs[..j]) by {
          forall k | 0 <= k < j ensures !evs[..j][k].WasReset? {
            assert evs[..j][k] == evs[k];
          }
        }
      }
    }
  }

  lemma {:induction false} ClockOrderedPrefix(clock: int, evs: seq<Event>, j: nat)
    requires ClockOrdered(clock, evs) && j <= |evs|
    ensures ClockOrdered(clock, evs[..j])
    decreases |evs|
  {
    if j > 0 {
      assert evs[..j][0] == evs[0];
      assert evs[..j][1..] == evs[1..][..j - 1];
      ClockOrderedPrefix(NextClock(clock, evs[0]), evs[1..], j - 1);
    }
  }

  /** Once paused or stopped, ticks, pauses and stops leave elapsed where it
      is and the timer not running, until the next start or reset. */
  lemma {:induction false} FrozenUntilStarted(s: TimerState, evs: seq<Event>)
    requires !s.running && NoStartOrReset(evs)
    ensures Run(s, evs).elapsed == s.elapsed && !Run(s, evs).running
    decreases |evs|
  {
    if evs != [] {
      assert NoStartOrReset(evs[1..]) by {
        forall i | 0 <= i < |evs[1..]| ensures !evs[1..][i].Started? && !evs[1..][i].WasReset? {
          assert evs[1..][i] == evs[i + 1];
        }
      }
      FrozenUntilStarted(Apply(s, evs[0]), evs[1..]);
    }
  }

  /** Whatever the commands (resets included), a run from the initial
      state under a clock that never goes back never publishes a negative
      elapsed time. */
  lemma {:induction false} ElapsedNeverNegative(s: TimerState, clock: int, evs: seq<Event>)
    requires s.elapsed >= 0 && Synced(s, clock) && ClockOrdered(clock, evs)
    ensures Run(s, evs).elapsed >= 0
    decreases |evs|
  {
    if evs != [] {
      var s' := Apply(s, evs[0]);
      assert s'.elapsed >= 0 && Synced(s', NextClock(clock, evs[0]));
      ElapsedNeverNegative(s', NextClock(clock, evs[0]), evs[1..]);
    }
  }

  // ---------------------------------------------------------------------
  // Single-command properties
  // ---------------------------------------------------------------------

  /** Starting while running changes nothing at all. */
  lemma StartWhileRunningIsNoOp(s: TimerState, habitName: string, now: int)
    requires s.running
    ensures Start(s, habitName, now) == s
  {
  }

  /** Resume: after a start from a paused or stopped state, the next tick
      shows the old elapsed time plus the time since the start. */
  lemma ResumeAccumulates(s: TimerState, habitName: string, t0: int, t1: int)
    requires !s.running
    ensures Start(s, habitName, t0).running
    ensures Start(s, habitName, t0).elapsed == s.elapsed
    ensures Tick(Start(s, habitName, t0), t1).elapsed == s.elapsed + (t1 - t0)
  {
  }

  /** Stop does not reset: stop followed by start resumes from the stopped
      elapsed value; only a reset in between starts again from zero. */
  lemma StopThenStart(s: TimerState, habitName: string, t0: int, t1: int)
    ensures Stop(s).elapsed == s.elapsed && !Stop(s).running
    ensures Tick(Start(Stop(s), habitName, t0), t1).elapsed == s.elapsed + (t1 - t0)
    ensures Tick(Start(Reset(Stop(s)), habitName, t0), t1).elapsed == t1 - t0
  {
  }

  /** Pause keeps the last ticked value: time between the last tick and the
      pause is not added. */
  lemma PauseKeepsLastTick(s: TimerState, now: int)
    ensures !Pause(s).running && Pause(s).elapsed == s.elapsed
    ensures s.running ==> Pause(Tick(s, now)).elapsed == now - s.startTime
  {
  }

  /** Start, one tick T milliseconds later, pause: elapsed is exactly T. */
  lemma StartWaitPause(habitName: string, t0: int, wait: nat)
    ensures Pause(Tick(Start(Initial, habitName, t0), t0 + wait)).elapsed == wait
  {
  }

  /** Reset leaves the running flag alone; while running, the next tick
      recomputes elapsed from the unchanged start reference, so a reset
      does not restart a running session. */
  lemma ResetWhileRunning(s: TimerState, now: int)
    ensures Reset(s).running == s.running && Reset(s).elapsed == 0
    ensures s.running ==> Tick(Reset(s), now).elapsed == Tick(s, now).elapsed
  {
  }

  /** For a non-negative duration, `formatTime` reads back as whole
      minutes, a ':' and exactly two digits of seconds below 60; minutes
      are at least two digits and are not capped at 59. */
  lemma FormatTimeReadsBack(millis: int)
    requires millis >= 0
    ensures var r := FormatTime(millis);
      |r| >= 5 && r[|r| - 3] == ':'
      && AllDigits(r[..|r| - 3]) && ParseNat(r[..|r| - 3]) == millis / 1000 / 60
      && AllDigits(r[|r| - 2..]) && ParseNat(r[|r| - 2..]) == (millis / 1000) % 60
      && (millis / 1000) % 60 < 60
  {
    var seconds := Quot(millis, 1000);
    QuotRemFacts(millis, 1000);
    QuotRemFacts(seconds, 60);
    var m := Quot(seconds, 60);
    var sec := Rem(seconds, 60);
    Pad2Digits(m);
    Pad2Digits(sec);
    var r := FormatTime(millis);
    var pm := Pad2(m);
    var ps := Pad2(sec);
    assert r == pm + ":" + ps;
    assert r[..|r| - 3] == pm;
    assert r[|r| - 2..] == ps;
  }

  // ---------------------------------------------------------------------
  // The service object
  // ---------------------------------------------------------------------

  class TimerService {
    var elapsed: int
    var running: bool
    var startTime: int
    var notice: Option<string>

    function State(): TimerState
      reads this
    {
      TimerState(elapsed, running, startTime, notice)
    }

    constructor ()
      ensures State() == Initial
    {
      elapsed, running, startTime, notice := 0, false, 0, None;
    }

    /** `startTimer(habitName)` at clock `now`. */
    method StartTimer(habitName: string, now: int)
      modifies this
      ensures State() == Start(old(State()), habitName, now)
      ensures old(running) ==> State() == old(State())
      ensures !old(running) ==> running && elapsed == old(elapsed) && startTime == now - old(elapsed)
    {
      if running {
        return;
      }
      running := true;
      startTime := now - elapsed;
      notice := Some("Timing: " + habitName);
    }

    /** One pass of the `while (_isRunning.value)` loop at clock `now`. */
    method LoopStep(now: int)
      modifies this
      ensures State() == Tick(old(State()), now)
      ensures running == old(running) && startTime == old(startTime)
      ensures old(running) ==> elapsed == now - startTime
      ensures !old(running) ==> State() == old(State())
    {
      if running {
        var next := Tick(State(), now);
        elapsed := next.elapsed;
        notice := next.notice;
      }
    }

    /** `pauseTimer()`. */
    method PauseTimer()
      modifies this
      ensures State() == Pause(old(State()))
      ensures !running && elapsed == old(elapsed) && startTime == old(startTime)
    {
      running := false;
      notice := Some("Paused");
    }

    /** `stopTimer()`. */
    method StopTimer()
      modifies this
      ensures State() == Stop(old(State()))
      ensures !running && elapsed == old(elapsed) && notice == None
    {
      running := false;
      notice := None;
    }

    /** `resetTimer()`. */
    method ResetTimer()
      modifies this
      ensures State() == Reset(old(State()))
      ensures elapsed == 0 && running == old(running) && startTime == old(startTime)
    {
      elapsed := 0;
    }
  }
}
