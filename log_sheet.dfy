/** The "Log Session" sheet: the entry its Save button writes, the duration
    line, and the two ways the main activity opens it (a habit's check box
    on the home screen, and the timer's finish). The sheet's own state is
    the selected mood (-1 for none), the note text and whether it has been
    dismissed. */
module Logging {
  import opened Common
  import opened Text
  import opened Models
  import opened EchoDao
  import opened Home
  import TimerScreenRules

  /** The "no mood selected" value of `selectedMoodId`. */
  const NoMood: int := -1

  /** The entry built by Save from the sheet's arguments and state. */
  function SheetEntry(initialDuration: int, initialHabitId: Option<int>, initialHabitName: Option<string>,
                      selectedMoodId: int, note: string, now: int): (r: LogEntry)
    ensures r.id == GenerateId && r.timestamp == now
    ensures r.habitId == initialHabitId && r.habitName == initialHabitName
    ensures r.moodId.None? <==> selectedMoodId == NoMood
    ensures r.moodId.Some? ==> r.moodId.value == selectedMoodId
    ensures r.duration.Some? <==> initialDuration > 0
    ensures r.duration.Some? ==> r.duration.value == initialDuration
    ensures r.note.None? <==> IsBlank(note)
    ensures r.note.Some? ==> r.note.value == note
  {
    LogEntry(GenerateId, initialHabitId, initialHabitName,
      if selectedMoodId == NoMood then None else Some(selectedMoodId),
      if initialDuration > 0 then Some(initialDuration) else None,
      if IsBlank(note) then None else Some(note),
      now)
  }

  /** The "Duration: Ns" line, present only for a positive duration. */
  function DurationLine(initialDuration: int): Option<string> {
    if initialDuration > 0 then Some("Duration: " + IntToString(Quot(initialDuration, 1000)) + "s") else None
  }

  /** The line appears exactly for a positive duration and reads back as
      the whole seconds of it. */
  lemma DurationLineReadsBack(initialDuration: int)
    ensures DurationLine(initialDuration).Some? <==> initialDuration > 0
    ensures initialDuration > 0 ==>
      var line := DurationLine(initialDuration).value;
      var digits := line[10..|line| - 1];
      |line| >= 12 && line[..10] == "Duration: " && line[|line| - 1] == 's'
      && AllDigits(digits) && ParseNat(digits) == initialDuration / 1000
  {
    if initialDuration > 0 {
      QuotRemFacts(initialDuration, 1000);
      var n := NatToString(initialDuration / 1000);
      var line := DurationLine(initialDuration).value;
      assert line == "Duration: " + n + "s";
      assert line[10..|line| - 1] == n;
      ParseNatToString(initialDuration / 1000);
    }
  }

  /** The arguments the sheet is opened with. */
  datatype SheetArgs = SheetArgs(duration: int, habitId: Option<int>, habitName: Option<string>)

  /** Opened from a habit's check box: no duration, that habit. */
  function CheckboxArgs(id: int, name: string): SheetArgs {
    SheetArgs(0, Some(id), Some(name))
  }

  /** Opened by the timer's `onFinish(duration, habitId)`, with the timer
      route's habit name. */
  function FinishArgs(f: TimerScreenRules.Finish, habitName: string): SheetArgs {
    SheetArgs(f.duration, Some(f.habitId), Some(habitName))
  }

  /** Saving a check-box sheet with no mood and a blank note writes the same
      entry as the home screen's `completeHabit`. */
  lemma CheckboxPlainIsCompletion(h: Habit, note: string, now: int)
    requires IsBlank(note)
    ensures var a := CheckboxArgs(h.id, h.name);
      SheetEntry(a.duration, a.habitId, a.habitName, NoMood, note, now) == CompletionLog(h, now)
  {
  }

  /** A timed session hands its full pre-stop duration to the sheet: the
      entry records it, and the sheet shows its whole seconds. */
  lemma FinishKeepsDuration(f: TimerScreenRules.Finish, habitName: string, moodId: int, note: string, now: int)
    requires f.duration > 0
    ensures var a := FinishArgs(f, habitName);
      var e := SheetEntry(a.duration, a.habitId, a.habitName, moodId, note, now);
      e.duration == Some(f.duration) && e.habitId == Some(f.habitId) && e.habitName == Some(habitName)
      && DurationLine(a.duration).Some?
  {
  }

  /** Saving succeeds (barring an engine fault) exactly when the habit and
      the mood it names exist, and then stores the entry under a fresh id
      after the existing logs. */
  lemma SheetSaveOutcome(t: Tables, a: SheetArgs, selectedMoodId: int, note: string, now: int)
    requires Consistent(t)
    ensures var e := SheetEntry(a.duration, a.habitId, a.habitName, selectedMoodId, note, now);
      AppendLog(t, e).Some? <==>
        (a.habitId.None? || HasKey(t.habits, HabitKey, a.habitId.value))
        && (selectedMoodId == NoMood || HasKey(t.moods, MoodKey, selectedMoodId))
    ensures var e := SheetEntry(a.duration, a.habitId, a.habitName, selectedMoodId, note, now);
      AppendLog(t, e).Some? ==>
        var r := AppendLog(t, e).value;
        |r.logs| == |t.logs| + 1 && r.logs[|t.logs|] == e.(id := t.logSeq + 1)
        && !HasKey(t.logs, LogKey, t.logSeq + 1)
  {
    var e := SheetEntry(a.duration, a.habitId, a.habitName, selectedMoodId, note, now);
    GeneratedIdFresh(t.logs, LogKey, t.logSeq);
    AppendLogEffect(t, e);
  }

  class LogSheet {
    const initialDuration: int
    const initialHabitId: Option<int>
    const initialHabitName: Option<string>
    const home: HomeViewModel
    var selectedMoodId: int
    var note: string
    var dismissed: bool

    /** The sheet opens with no mood selected and an empty note. */
    constructor (args: SheetArgs, home: HomeViewModel)
      ensures initialDuration == args.duration && initialHabitId == args.habitId
      ensures initialHabitName == args.habitName && this.home == home
      ensures selectedMoodId == NoMood && note == "" && !dismissed
    {
      initialDuration := args.duration;
      initialHabitId := args.habitId;
      initialHabitName := args.habitName;
      this.home := home;
      selectedMoodId := NoMood;
      note := "";
      dismissed := false;
    }

    /** `onMoodSelected`. */
    method SelectMood(id: int)
      modifies this
      ensures selectedMoodId == id && note == old(note) && dismissed == old(dismissed)
    {
      selectedMoodId := id;
    }

    /** `onValueChange` of the note field. */
    method EditNote(text: string)
      modifies this
      ensures note == text && selectedMoodId == old(selectedMoodId) && dismissed == old(dismissed)
    {
      note := text;
    }

    /** Save at clock `now`: insert the entry through the home view model
        (which swallows a failure), then dismiss. */
    method Save(now: int, fault: bool)
      requires home.store.Valid()
      modifies this, home.store
      ensures home.store.Valid()
      ensures home.store.Snapshot() == InsertCaught(old(home.store.Snapshot()),
        SheetEntry(initialDuration, initialHabitId, initialHabitName, old(selectedMoodId), old(note), now), fault)
      ensures dismissed && selectedMoodId == old(selectedMoodId) && note == old(note)
    {
      var entry := SheetEntry(initialDuration, initialHabitId, initialHabitName, selectedMoodId, note, now);
      home.InsertLog(entry, fault);
      dismissed := true;
    }
  }
}
