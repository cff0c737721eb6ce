/** `HomeViewModel`: today's view of the habits (completed or not), whether
    a mood check-in was logged today, and the writes of the home screen.
    The flows are reduced to functions of the current tables; the start of
    today is fixed when the view model is created. */
module Home {
  import opened Common
  import opened Models
  import opened EchoDao

  /** The habit-name snapshot that marks a mood-only log. */
  const MoodCheckIn: string := "Mood Check-in"

  datatype HabitUIState = HabitUIState(habit: Habit, isCompletedToday: bool)

  /** `logs.any { it.habitId == id }`. */
  predicate AnyForHabit(logs: seq<LogEntry>, id: int) {
    exists i :: 0 <= i < |logs| && logs[i].habitId == Some(id)
  }

  /** `habitStates`: the habits in table order, each with whether one of
      today's logs points at it. */
  function HabitStates(t: Tables, startOfToday: int): seq<HabitUIState> {
    var today := LogsSince(t.logs, startOfToday);
    seq(|t.habits|, i requires 0 <= i < |t.habits| =>
      HabitUIState(t.habits[i], AnyForHabit(today, t.habits[i].id)))
  }

  predicate IsMoodCheckIn(l: LogEntry) {
    l.habitId.None? && l.habitName == Some(MoodCheckIn)
  }

  /** `hasLoggedMoodToday`. */
  predicate HasLoggedMoodToday(t: Tables, startOfToday: int) {
    var today := LogsSince(t.logs, startOfToday);
    exists i :: 0 <= i < |today| && IsMoodCheckIn(today[i])
  }

  /** One entry per habit, in order, carrying the habit unchanged; a habit
      is completed today exactly when some log at or after the start of
      today refers to its id. */
  lemma HabitStatesSpec(t: Tables, startOfToday: int)
    ensures |HabitStates(t, startOfToday)| == |t.habits|
    ensures forall i :: 0 <= i < |t.habits| ==> HabitStates(t, startOfToday)[i].habit == t.habits[i]
    ensures forall i :: 0 <= i < |t.habits| ==>
      (HabitStates(t, startOfToday)[i].isCompletedToday <==>
        exists j :: 0 <= j < |t.logs| && t.logs[j].timestamp >= startOfToday && t.logs[j].habitId == Some(t.habits[i].id))
  {
    var today := LogsSince(t.logs, startOfToday);
    forall i | 0 <= i < |t.habits|
      ensures AnyForHabit(today, t.habits[i].id) <==>
        exists j :: 0 <= j < |t.logs| && t.logs[j].timestamp >= startOfToday && t.logs[j].habitId == Some(t.habits[i].id)
    {
      var id := t.habits[i].id;
      if AnyForHabit(today, id) {
        var k :| 0 <= k < |today| && today[k].habitId == Some(id);
        assert today[k] in t.logs;
        var j :| 0 <= j < |t.logs| && t.logs[j] == today[k];
      }
      if exists j :: 0 <= j < |t.logs| && t.logs[j].timestamp >= startOfToday && t.logs[j].habitId == Some(id) {
        var j :| 0 <= j < |t.logs| && t.logs[j].timestamp >= startOfToday && t.logs[j].habitId == Some(id);
        assert t.logs[j] in today;
        var k :| 0 <= k < |today| && today[k] == t.logs[j];
      }
    }
  }

  /** A mood was logged today exactly when some log at or after the start
      of today has no habit id and the "Mood Check-in" name. */
  lemma HasLoggedMoodTodaySpec(t: Tables, startOfToday: int)
    ensures HasLoggedMoodToday(t, startOfToday) <==>
      exists j :: 0 <= j < |t.logs| && t.logs[j].timestamp >= startOfToday && IsMoodCheckIn(t.logs[j])
  {
    var today := LogsSince(t.logs, startOfToday);
    if HasLoggedMoodToday(t, startOfToday) {
      var k :| 0 <= k < |today| && IsMoodCheckIn(today[k]);
      assert today[k] in t.logs;
      var j :| 0 <= j < |t.logs| && t.logs[j] == today[k];
    }
    if exists j :: 0 <= j < |t.logs| && t.logs[j].timestamp >= startOfToday && IsMoodCheckIn(t.logs[j]) {
      var j :| 0 <= j < |t.logs| && t.logs[j].timestamp >= startOfToday && IsMoodCheckIn(t.logs[j]);
      assert t.logs[j] in today;
      var k :| 0 <= k < |today| && today[k] == t.logs[j];
    }
  }

  /** The log built by `completeHabit`. */
  function CompletionLog(h: Habit, now: int): LogEntry {
    LogEntry(GenerateId, Some(h.id), Some(h.name), None, None, None, now)
  }

  /** The log built by `logMood`: the emoji and phrase joined by " | ". */
  function MoodLog(moodEmoji: string, phrase: string, now: int): LogEntry {
    LogEntry(GenerateId, None, Some(MoodCheckIn), None, None, Some(moodEmoji + " | " + phrase), now)
  }

  /** The tables after an insert whose exception is caught: the insert's
      result when it succeeds, the old tables otherwise. */
  function InsertCaught(t: Tables, log: LogEntry, fault: bool): Tables {
    if !fault && AppendLog(t, log).Some? then AppendLog(t, log).value else t
  }

  /** Completing a stored habit at a time not before the start of today
      succeeds (barring an engine fault) and marks that habit completed
      today. */
  lemma CompleteHabitMarksCompleted(t: Tables, j: nat, now: int, startOfToday: int)
    requires Consistent(t) && j < |t.habits| && now >= startOfToday
    ensures AppendLog(t, CompletionLog(t.habits[j], now)).Some?
    ensures HabitStates(AppendLog(t, CompletionLog(t.habits[j], now)).value, startOfToday)[j].isCompletedToday
  {
    var log := CompletionLog(t.habits[j], now);
    assert HasKey(t.habits, HabitKey, t.habits[j].id);
    AppendLogEffect(t, log);
    var r := AppendLog(t, log).value;
    HabitStatesSpec(r, startOfToday);
    assert r.logs[|t.logs|].habitId == Some(t.habits[j].id);
  }

  /** Completing a habit twice keeps it completed and adds two rows. */
  lemma CompleteTwice(t: Tables, j: nat, now: int, startOfToday: int)
    requires Consistent(t) && j < |t.habits| && now >= startOfToday
    ensures var log := CompletionLog(t.habits[j], now);
      AppendLog(t, log).Some? && AppendLog(AppendLog(t, log).value, log).Some?
      && |AppendLog(AppendLog(t, log).value, log).value.logs| == |t.logs| + 2
      && HabitStates(AppendLog(AppendLog(t, log).value, log).value, startOfToday)[j].isCompletedToday
  {
    var log := CompletionLog(t.habits[j], now);
    CompleteHabitMarksCompleted(t, j, now, startOfToday);
    InsertTwiceTwoRows(t, log);
    var t1 := AppendLog(t, log).value;
    AppendLogEffect(t, log);
    CompleteHabitMarksCompleted(t1, j, now, startOfToday);
  }

  /** A mood check-in has no foreign keys, so only an engine fault can make
      it fail; once stored at a time not before the start of today, a mood
      counts as logged today. */
  lemma LogMoodMarksMood(t: Tables, moodEmoji: string, phrase: string, now: int, startOfToday: int)
    requires Consistent(t) && now >= startOfToday
    ensures AppendLog(t, MoodLog(moodEmoji, phrase, now)).Some?
    ensures HasLoggedMoodToday(AppendLog(t, MoodLog(moodEmoji, phrase, now)).value, startOfToday)
  {
    var log := MoodLog(moodEmoji, phrase, now);
    AppendLogEffect(t, log);
    var r := AppendLog(t, log).value;
    HasLoggedMoodTodaySpec(r, startOfToday);
    assert IsMoodCheckIn(r.logs[|t.logs|]);
  }

  class HomeViewModel {
    const store: Store
    /** Captured once, when the view model is created. */
    const startOfToday: int

    constructor (store: Store, startOfToday: int)
      ensures this.store == store && this.startOfToday == startOfToday
    {
      this.store := store;
      this.startOfToday := startOfToday;
    }

    /** `completeHabit(habit)` at clock `now`; a failing insert is caught
        and leaves the store unchanged. */
    method CompleteHabit(habit: Habit, now: int, fault: bool)
      requires store.Valid()
      modifies store
      ensures store.Valid()
      ensures store.Snapshot() == InsertCaught(old(store.Snapshot()), CompletionLog(habit, now), fault)
    {
      var _ := store.InsertLog(CompletionLog(habit, now), fault);
    }

    /** `insertLog(log)`: the same catch around the DAO call. */
    method InsertLog(log: LogEntry, fault: bool)
      requires store.Valid()
      modifies store
      ensures store.Valid()
      ensures store.Snapshot() == InsertCaught(old(store.Snapshot()), log, fault)
    {
      var _ := store.InsertLog(log, fault);
    }

    /** `logMood(moodEmoji, phrase)` at clock `now`. */
    method LogMood(moodEmoji: string, phrase: string, now: int, fault: bool)
      requires store.Valid()
      modifies store
      ensures store.Valid()
      ensures store.Snapshot() == InsertCaught(old(store.Snapshot()), MoodLog(moodEmoji, phrase, now), fault)
    {
      var _ := store.InsertLog(MoodLog(moodEmoji, phrase, now), fault);
    }

    /** `deleteHabit(habit)`. */
    method DeleteHabit(habit: Habit)
      requires store.Valid()
      modifies store
      ensures store.Valid()
      ensures store.Snapshot() == RemoveHabit(old(store.Snapshot()), habit.id)
    {
      store.DeleteHabit(habit);
    }

    /** `insertHabit(habit)`. */
    method InsertHabit(habit: Habit)
      requires store.Valid()
      modifies store
      ensures store.Valid()
      ensures store.Snapshot() == ReplaceHabit(old(store.Snapshot()), habit)
    {
      store.InsertHabit(habit);
    }

    /** `deleteLog(log)`. */
    method DeleteLog(log: LogEntry)
      requires store.Valid()
      modifies store
      ensures store.Valid()
      ensures store.Snapshot() == RemoveLog(old(store.Snapshot()), log.id)
    {
      store.DeleteLog(log);
    }
  }
}
