/** The persisted records (`Habit`, `Mood`, `LogEntry`) and the per-query
    join `LogDetails`. Ids are Kotlin `Int`s, times and colours `Long`s,
    both unbounded here; an id of 0 asks the store to generate one. */
module Models {
  import opened Common

  /** The id value that asks for a generated id (`autoGenerate = true`). */
  const GenerateId: int := 0

  datatype Habit = Habit(id: int, name: string, color: int, isTimed: bool, createdAt: int)

  /** `label` is a Dafny keyword, hence `moodLabel`. */
  datatype Mood = Mood(id: int, moodLabel: string, icon: string)

  /** One log row. `habitName` is a snapshot taken when the log is written;
      `habitId` and `moodId` point at parent rows. */
  datatype LogEntry = LogEntry(
    id: int,
    habitId: Option<int>,
    habitName: Option<string>,
    moodId: Option<int>,
    duration: Option<int>,
    note: Option<string>,
    timestamp: int)

  /** A log with its habit and mood looked up by id. */
  datatype LogDetails = LogDetails(log: LogEntry, habit: Option<Habit>, mood: Option<Mood>)

  /** The primary key of each table. */
  function HabitKey(h: Habit): int { h.id }
  function MoodKey(m: Mood): int { m.id }
  function LogKey(l: LogEntry): int { l.id }

  /** The `@Relation` lookup of a nullable foreign key into habits. */
  function HabitOf(hs: seq<Habit>, habitId: Option<int>): (r: Option<Habit>)
    ensures r.Some? <==> habitId.Some? && HasKey(hs, HabitKey, habitId.value)
    ensures r.Some? ==> r.value in hs && habitId == Some(r.value.id)
  {
    if habitId.None? then None else Lookup(hs, HabitKey, habitId.value)
  }

  /** The same lookup into moods. */
  function MoodOf(ms: seq<Mood>, moodId: Option<int>): (r: Option<Mood>)
    ensures r.Some? <==> moodId.Some? && HasKey(ms, MoodKey, moodId.value)
    ensures r.Some? ==> r.value in ms && moodId == Some(r.value.id)
  {
    if moodId.None? then None else Lookup(ms, MoodKey, moodId.value)
  }

  /** `LogDetails` for one log: the log embedded unchanged, and the habit
      and mood whose ids equal its foreign keys; null when the key is null
      or no such row exists. */
  function Details(log: LogEntry, hs: seq<Habit>, ms: seq<Mood>): (r: LogDetails)
    ensures r.log == log
    ensures r.habit.Some? <==> log.habitId.Some? && HasKey(hs, HabitKey, log.habitId.value)
    ensures r.habit.Some? ==> r.habit.value in hs && log.habitId == Some(r.habit.value.id)
    ensures r.mood.Some? <==> log.moodId.Some? && HasKey(ms, MoodKey, log.moodId.value)
    ensures r.mood.Some? ==> r.mood.value in ms && log.moodId == Some(r.mood.value.id)
  {
    LogDetails(log, HabitOf(hs, log.habitId), MoodOf(ms, log.moodId))
  }
}
