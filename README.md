# Echo: a verified model of the habit and mood tracker's core

Echo is an Android app for tracking habits and moods. A habit is either a
check box or a timed session. A mood check-in is an emoji and a phrase. The
app keeps the logs in a local Room (SQLite) database and shows a seven-day
statistics screen.

This project models the app's logic in Dafny and proves properties about it:

- **Session timer.** `TimerService` and its controller `TimerViewModel`, and
  the click and back rules of the timer screen.
- **Database.** The three tables (habits, moods, logs) behind `EchoDao`:
  - REPLACE inserts and generated ids;
  - the foreign-key actions: a deleted habit's logs keep their row but lose
    the reference, and a deleted mood's logs are removed;
  - the time-window queries and the joined `LogDetails` rows;
  - the mood seeding transaction of `EchoDatabase`.
- **Home screen.** What it derives from the tables, and its writes with errors
  swallowed.
- **Statistics screen.** The seven-day chart buckets and the display rules
  that read mood notes back.
- **Log and habit sheets.** The "Log Session" sheet, the create/edit habit
  sheet and the habit management screen.
- **Settings and navigation.** The persisted theme preference and the
  bottom-bar highlight rule.

The model follows the shape of the source:

- **Objects that change state are classes.** The timer service, the timer
  view model, the store, the sheets, the management screen and the
  preference file. Their methods are tied by `ensures` to pure functions of
  the old state.
- **Pure logic is functions.** Everything else: the table operations, the
  chart, and the text and display rules.
- **Properties are lemmas.** Resume, monotone elapsed time, REPLACE effects,
  cascade and SET NULL, seeding idempotence, the chart's totals and the note
  round trip are lemmas about those functions.

**Tables.** Each table is a sequence of rows with unique integer keys, plus
an SQLite sequence counter that holds the largest id the table has held.
Rows are kept in insertion order: a replaced row keeps its position and a
new row goes at the end. Id 0 asks for the next id.

**REPLACE and foreign keys.** A REPLACE on an existing id deletes the old
row first, so that delete's foreign-key action fires. Two consequences are
proved:

- `HabitManagement.EditDetachesHistory`: editing a habit, which re-inserts
  it under the same id, sets `habitId` to null in every log of that habit.
  So the habit is no longer shown as completed today.
- `EchoDao.ReplaceMoodEffect`: replacing a mood removes that mood's logs.

**Clocks and calendar.** Clocks are explicit `now` parameters. The calendar
is a pair of functions: the day number of an instant, and the first instant
of a day. They are required only to agree with each other, by the
`Stats.Coherent` predicate.

## Model

| member | source | states |
|---|---|---|
| Timer.StartWhileRunningIsNoOp | src/main/java/com/anish/echo/services/TimerService.kt:46 | Starting while running leaves the whole state unchanged. |
| Timer.ResumeAccumulates | src/main/java/com/anish/echo/services/TimerService.kt:48-59 | A start from not-running sets running and keeps elapsed. The next tick at `t1` shows the old elapsed plus `t1 - t0`. |
| Timer.StopThenStart | src/main/java/com/anish/echo/services/TimerService.kt:49-82 | Stop clears running and keeps elapsed. A later start resumes from the stopped value, and only a reset in between makes it start from 0. |
| Timer.PauseKeepsLastTick | src/main/java/com/anish/echo/services/TimerService.kt:58-68 | Pause clears running and keeps the last ticked elapsed value. |
| Timer.StartWaitPause | src/main/java/com/anish/echo/services/TimerService.kt:27-67 | From the initial state, start at `t0`, tick at `t0 + w` and pause: elapsed is exactly `w`. |
| Timer.ResetWhileRunning | src/main/java/com/anish/echo/services/TimerService.kt:58-82 | Reset sets elapsed to 0 and keeps the running flag. While running, the next tick recomputes elapsed as if no reset had happened. |
| Timer.StepKeepsElapsed | src/main/java/com/anish/echo/services/TimerService.kt:45-82 | With a clock that never goes back, one event other than a reset never lowers elapsed, and the event keeps the start-time invariant. |
| Timer.ElapsedNeverDecreases | src/main/java/com/anish/echo/services/TimerService.kt:57-63 | Along any run of events with a non-decreasing clock and no reset, elapsed never decreases. |
| Timer.ElapsedMonotoneAlongRun | src/main/java/com/anish/echo/services/TimerService.kt:57-63 | For any two points `i <= j` of such a run, elapsed at `i` is at most elapsed at `j`. |
| Timer.ClockOrderedPrefix | src/main/java/com/anish/echo/services/TimerService.kt:57-63 | Every prefix of a run with an ordered clock also has an ordered clock. |
| Timer.FrozenUntilStarted | src/main/java/com/anish/echo/services/TimerService.kt:58-78 | Once paused or stopped, ticks, pauses and stops change neither elapsed nor the running flag. |
| Timer.ElapsedNeverNegative | src/main/java/com/anish/echo/services/TimerService.kt:27-82 | From a non-negative, synchronised state, elapsed stays non-negative whatever the commands, resets included. |
| Timer.FormatTimeReadsBack | src/main/java/com/anish/echo/services/TimerService.kt:106-111 | For `ms >= 0`: at least 5 characters, ':' third from the end. The digits before it read as `ms/1000/60`, which has no 59 cap. The two digits after it read as `(ms/1000)%60 < 60`. |
| Timer.TimerService.constructor | src/main/java/com/anish/echo/services/TimerService.kt:27-31 | A new service has nothing elapsed, is not running and has start time 0. |
| Timer.TimerService.StartTimer | src/main/java/com/anish/echo/services/TimerService.kt:45-64 | The new state is `Start` of the old state. While running nothing changes. Otherwise running becomes true and `startTime = now - elapsed`. |
| Timer.TimerService.LoopStep | src/main/java/com/anish/echo/services/TimerService.kt:58-61 | One loop pass. While running, elapsed becomes `now - startTime`, running and the start time are unchanged, and the notice shows the formatted elapsed time ("Elapsed: " + `FormatTime`). Otherwise nothing changes. |
| Timer.TimerService.PauseTimer | src/main/java/com/anish/echo/services/TimerService.kt:66-71 | Clears running and keeps elapsed and the start time. The notice becomes "Paused". |
| Timer.TimerService.StopTimer | src/main/java/com/anish/echo/services/TimerService.kt:73-78 | Clears running, keeps elapsed and removes the notice. |
| Timer.TimerService.ResetTimer | src/main/java/com/anish/echo/services/TimerService.kt:80-82 | Elapsed becomes 0. Running and the start time are unchanged. |
| TimerController.TimerViewModel.constructor | src/main/java/com/anish/echo/ui/timer/TimerViewModel.kt:24-31 | No handle, not bound, no collectors; mirrored elapsed 0, not running. |
| TimerController.TimerViewModel.OnServiceConnected | src/main/java/com/anish/echo/ui/timer/TimerViewModel.kt:34-51 | Takes the handle, sets bound, and the collectors now read that service. The mirrored values are unchanged until a collection. |
| TimerController.TimerViewModel.OnServiceDisconnected | src/main/java/com/anish/echo/ui/timer/TimerViewModel.kt:54-57 | Clears the handle and the bound flag. The mirrored values and the collectors are unchanged. |
| TimerController.TimerViewModel.Collect | src/main/java/com/anish/echo/ui/timer/TimerViewModel.kt:40-50 | The mirrored elapsed and running take the collected service's values. Without collectors nothing changes. |
| TimerController.TimerViewModel.StartTimer | src/main/java/com/anish/echo/ui/timer/TimerViewModel.kt:66-68 | With a handle, the service's state becomes `Start(old, habitName, now)`, with the name passed through unchanged. |
| TimerController.TimerViewModel.StopTimer | src/main/java/com/anish/echo/ui/timer/TimerViewModel.kt:70-72 | With a handle, the service's state becomes `Stop(old)`. |
| TimerController.TimerViewModel.PauseTimer | src/main/java/com/anish/echo/ui/timer/TimerViewModel.kt:74-76 | With a handle, the service's state becomes `Pause(old)`. |
| TimerController.TimerViewModel.OnCleared | src/main/java/com/anish/echo/ui/timer/TimerViewModel.kt:85-91 | The bound flag is cleared. Clearing cancels `viewModelScope`, so the collectors stop (`source` becomes null) and later service updates no longer reach the mirrors. The handle, the mirrored values and the service are unchanged: the session is not stopped. |
| TimerController.FormatTimeAgrees | src/main/java/com/anish/echo/ui/timer/TimerViewModel.kt:78-83 | The view model's `formatTime` equals the service's for every input. |
| TimerController.DroppedThenConnected | src/main/java/com/anish/echo/ui/timer/TimerViewModel.kt:24-76 | While there is no handle, start, pause and stop are dropped, not queued. After connecting, a start acts on the service's unchanged state. |
| TimerScreenRules.StatusText | src/main/java/com/anish/echo/ui/timer/TimerScreen.kt:242-246 | Running gives "Focus time...". Otherwise elapsed > 0 gives "Paused", and anything else gives "Ready to start". |
| TimerScreenRules.StatusTextDistinguishes | src/main/java/com/anish/echo/ui/timer/TimerScreen.kt:242-246 | Equal status texts imply the same running flag and, when not running, the same elapsed > 0. |
| TimerScreenRules.FinishVisibleNotReady | src/main/java/com/anish/echo/ui/timer/TimerScreen.kt:220-246 | Whenever the Finish button is shown, the status is not "Ready to start". |
| TimerScreenRules.PlayPauseClicked | src/main/java/com/anish/echo/ui/timer/TimerScreen.kt:200-204 | Pauses the service when the mirrored flag says running. Otherwise starts it with the screen's habit name. |
| TimerScreenRules.CloseOrFinishClicked | src/main/java/com/anish/echo/ui/timer/TimerScreen.kt:115-119 | The close button. With elapsed <= 0, nothing happens and there is no `onFinish`. Otherwise the service is stopped, then `onFinish` gets the pre-stop elapsed and the habit id. The finish button (lines 220-226) has no guard of its own, but it is shown only when `FinishVisible` (elapsed > 0) holds, so its click is the second branch. |
| TimerScreenRules.BackPressed | src/main/java/com/anish/echo/ui/timer/TimerScreen.kt:66-71 | Back is always consumed, with the same finish rule as close. |
| Models.HabitOf | src/main/java/com/anish/echo/data/models/LogDetails.kt:8-12 | Present exactly when the key is non-null and a habit with that id exists. The result is that habit. |
| Models.MoodOf | src/main/java/com/anish/echo/data/models/LogDetails.kt:13-17 | The same for moods. |
| Models.Details | src/main/java/com/anish/echo/data/models/LogDetails.kt:6-18 | The log is embedded unchanged. The habit and the mood are the rows whose ids equal the log's keys, or null when a key is null or dangling. |
| EchoDao.EmptyConsistent | src/main/java/com/anish/echo/data/db/EchoDatabase.kt:15 | A new database satisfies the engine's invariants. |
| EchoDao.GeneratedIdFresh | src/main/java/com/anish/echo/data/models/LogEntry.kt:27 | Id 0 resolves to `sequence + 1`, which no row in the table has. |
| EchoDao.SetNullHabitEffect | src/main/java/com/anish/echo/data/models/LogEntry.kt:11-16 | After SET NULL no log refers to the habit. A referring log keeps every other field, and every other log is unchanged. |
| EchoDao.CascadeMoodEffect | src/main/java/com/anish/echo/data/models/LogEntry.kt:17-22 | The cascade keeps exactly the logs not referring to the mood, every one of them unchanged. Without a referring log the table is unchanged. |
| EchoDao.AppendLog | src/main/java/com/anish/echo/data/db/EchoDao.kt:24-25 | The insert succeeds exactly when there is no primary-key clash and no dangling foreign key. |
| EchoDao.ReplaceHabitEffect | src/main/java/com/anish/echo/data/db/EchoDao.kt:12-13 | The resolved id maps to the record, and other ids are unchanged. The table grows only for a new id, which is fresh for id 0. Moods are unchanged and consistency is kept. |
| EchoDao.ReplaceMoodEffect | src/main/java/com/anish/echo/data/db/EchoDao.kt:21-22 | The same for moods, with the cascade on a replaced id. Habits are unchanged and consistency is kept. |
| EchoDao.RemoveHabitEffect | src/main/java/com/anish/echo/data/db/EchoDao.kt:15-16 | Only that habit is removed, and other ids are unchanged. Its logs are set to null and moods are unchanged. Consistency is kept. |
| EchoDao.RemoveLogEffect | src/main/java/com/anish/echo/data/db/EchoDao.kt:34-35 | Only the log with that key is removed. Every other log, the habits and the moods stay. |
| EchoDao.AppendLogEffect | src/main/java/com/anish/echo/data/db/EchoDao.kt:24-25 | A successful insert appends exactly one row, the log under the resolved (fresh) id, and changes nothing else. Consistency is kept. |
| EchoDao.InsertTwiceTwoRows | src/main/java/com/anish/echo/data/db/EchoDao.kt:24-25 | Inserting the same id-0 content twice yields two rows with distinct ids. |
| EchoDao.LogsSinceExact | src/main/java/com/anish/echo/data/db/EchoDao.kt:27-28 | The result holds exactly the logs with `timestamp >= since`. |
| EchoDao.InsertByTime | src/main/java/com/anish/echo/data/db/EchoDao.kt:31 | Inserting into a newest-first list keeps it newest-first, as a permutation of the list plus the element. |
| EchoDao.SortByTime | src/main/java/com/anish/echo/data/db/EchoDao.kt:31 | `ORDER BY timestamp DESC`: the result is sorted newest-first and is a permutation of the input. |
| EchoDao.LogDetailsSinceSpec | src/main/java/com/anish/echo/data/db/EchoDao.kt:30-32 | The same logs as `getLogsSince` (as a multiset), newest first, each joined with its own habit and mood. |
| EchoDao.Store.InsertHabit | src/main/java/com/anish/echo/data/db/EchoDao.kt:12-13 | The tables become `ReplaceHabit(old, habit)` and stay consistent. |
| EchoDao.Store.InsertMood | src/main/java/com/anish/echo/data/db/EchoDao.kt:21-22 | The tables become `ReplaceMood(old, mood)` and stay consistent. |
| EchoDao.Store.DeleteHabit | src/main/java/com/anish/echo/data/db/EchoDao.kt:15-16 | The tables become `RemoveHabit(old, habit.id)` and stay consistent. |
| EchoDao.Store.DeleteLog | src/main/java/com/anish/echo/data/db/EchoDao.kt:34-35 | The tables become `RemoveLog(old, log.id)` and stay consistent. |
| EchoDao.Store.InsertLog | src/main/java/com/anish/echo/data/db/EchoDao.kt:24-25 | Succeeds exactly when there is no engine fault and no rejection, and then stores `AppendLog`. On failure nothing changes. |
| EchoDatabase.InsertAllPresent | src/main/java/com/anish/echo/data/db/EchoDatabase.kt:48-52 | After the inserts, every id that was present or inserted is present. |
| EchoDatabase.InsertAllNoOp | src/main/java/com/anish/echo/data/db/EchoDatabase.kt:65-69 | When all ids are already taken, `INSERT OR IGNORE` changes nothing. |
| EchoDatabase.InsertAllFills | src/main/java/com/anish/echo/data/db/EchoDatabase.kt:48-52 | A seed row whose id was free is stored exactly. |
| EchoDatabase.InsertAllKeepsRest | src/main/java/com/anish/echo/data/db/EchoDatabase.kt:48-69 | Existing mood rows are never overwritten. Habits, logs and sequences stay. |
| EchoDatabase.InsertAllConsistent | src/main/java/com/anish/echo/data/db/EchoDatabase.kt:48-52 | The inserts keep the engine's invariants. |
| EchoDatabase.SeedEffect | src/main/java/com/anish/echo/data/db/EchoDatabase.kt:42-74 | Moods 1-5 exist afterwards. Free ids get the seed rows and taken ids keep their rows. Only the moods table changes, and consistency is kept. |
| EchoDatabase.SeedOnCreate | src/main/java/com/anish/echo/data/db/EchoDatabase.kt:42-57 | On a new database the moods table is exactly Great, Good, Okay, Low and Bad with ids 1-5 and their emoji. |
| EchoDatabase.SeedIdempotent | src/main/java/com/anish/echo/data/db/EchoDatabase.kt:42-74 | Seeding twice gives the same tables as seeding once. |
| EchoDatabase.ExecInsertOrIgnore | src/main/java/com/anish/echo/data/db/EchoDatabase.kt:48 | One `INSERT OR IGNORE` statement on the store. |
| EchoDatabase.SeedTransaction | src/main/java/com/anish/echo/data/db/EchoDatabase.kt:45-56 | Commits exactly when no statement fails, and then stores `Seeded(old)`. If a statement throws, the `finally` ends the transaction unmarked, so the store is rolled back unchanged. The exception then escapes `onCreate`/`onOpen` (there is no `catch`), and `committed == false` reports it: opening the database fails. |
| Home.HabitStatesSpec | src/main/java/com/anish/echo/ui/home/HomeViewModel.kt:41-50 | One entry per habit, in order, carrying the habit unchanged. Completed today exactly when some log at or after the start of today has that habit's id. |
| Home.HasLoggedMoodTodaySpec | src/main/java/com/anish/echo/ui/home/HomeViewModel.kt:58-61 | True exactly when some log since the start of today has a null habit id and the name "Mood Check-in". |
| Home.CompleteHabitMarksCompleted | src/main/java/com/anish/echo/ui/home/HomeViewModel.kt:68-89 | For a stored habit at `now >= startOfToday`, the completion insert succeeds and marks that habit completed today. |
| Home.CompleteTwice | src/main/java/com/anish/echo/ui/home/HomeViewModel.kt:45-50 | Completing twice adds two rows and keeps the habit completed. |
| Home.LogMoodMarksMood | src/main/java/com/anish/echo/ui/home/HomeViewModel.kt:119-136 | A mood check-in has no foreign keys, so only an engine fault can fail it. Once stored, a mood counts as logged today. |
| Home.HomeViewModel.CompleteHabit | src/main/java/com/anish/echo/ui/home/HomeViewModel.kt:68-89 | Inserts `habitId = h.id`, `habitName = h.name`, no mood, duration or note, at `now`. A failure is swallowed and leaves the store unchanged. |
| Home.HomeViewModel.InsertLog | src/main/java/com/anish/echo/ui/home/HomeViewModel.kt:91-99 | The DAO insert with the same catch. |
| Home.HomeViewModel.LogMood | src/main/java/com/anish/echo/ui/home/HomeViewModel.kt:119-136 | Inserts no habit id, the name "Mood Check-in", no mood or duration, and the note `emoji + " \| " + phrase`. A failure is swallowed. |
| Home.HomeViewModel.DeleteHabit | src/main/java/com/anish/echo/ui/home/HomeViewModel.kt:101-105 | The store becomes `RemoveHabit(old, habit.id)`. |
| Home.HomeViewModel.InsertHabit | src/main/java/com/anish/echo/ui/home/HomeViewModel.kt:107-111 | The store becomes `ReplaceHabit(old, habit)`. |
| Home.HomeViewModel.DeleteLog | src/main/java/com/anish/echo/ui/home/HomeViewModel.kt:113-117 | The store becomes `RemoveLog(old, log.id)`. |
| Stats.DayOfMonotone | src/main/java/com/anish/echo/ui/stats/StatsViewModel.kt:34-36 | Under a coherent calendar an earlier instant never has a later day. |
| Stats.SevenDaysAgoWindow | src/main/java/com/anish/echo/ui/stats/StatsViewModel.kt:29-31 | An instant is at or after `sevenDaysAgo` exactly when its day is today - 6 or later. |
| Stats.GroupByDaySizes | src/main/java/com/anish/echo/ui/stats/StatsViewModel.kt:34-36 | A day is a group key exactly when some log falls on it, and its group's size is the number of those logs. |
| Stats.WeeklySpec | src/main/java/com/anish/echo/ui/stats/StatsViewModel.kt:39-44 | Exactly 7 entries. Entry i is labelled with day today - (6 - i) and counts the logs of that day, 0 when there are none. |
| Stats.WeeklyTotal | src/main/java/com/anish/echo/ui/stats/StatsViewModel.kt:34-44 | The counts sum to the number of input logs whose day is in [today - 6, today]. |
| Stats.WeeklyStatsTotal | src/main/java/com/anish/echo/ui/stats/StatsViewModel.kt:29-45 | Over the store: 7 entries, summing to the stored logs of the last seven days. Logs dated after today are not counted. |
| Stats.RecentLogsSpec | src/main/java/com/anish/echo/ui/stats/StatsViewModel.kt:52-57 | Exactly the logs since `sevenDaysAgo`, newest first. Every stored log dated today - 6 or later is among them. |
| Stats.StatsViewModel.DeleteLog | src/main/java/com/anish/echo/ui/stats/StatsViewModel.kt:59-63 | The store becomes `RemoveLog(old, log.id)`. |
| StatsScreenRules.FormatDurationReadsBack | src/main/java/com/anish/echo/ui/stats/StatsScreen.kt:277-280 | For `ms >= 0`, the text is decimal digits reading as `ms/1000/60`, followed by "m". |
| StatsScreenRules.DisplayEmoji | src/main/java/com/anish/echo/ui/stats/StatsScreen.kt:212-217 | The mood's icon when joined. Otherwise present exactly when the note contains '\|'. The value is then `Trim(a)` for the split `note == a + "\|" + b` with no '\|' in `a` (the first '\|'), and it is trimmed and free of '\|'. |
| StatsScreenRules.NotePhrase | src/main/java/com/anish/echo/ui/stats/StatsScreen.kt:235-239 | Present exactly when the note contains '\|'. The value is then `Trim(b)` for the split `note == a + "\|" + b` at the first '\|', and it is trimmed. |
| StatsScreenRules.NoteSplitReadsBack | src/main/java/com/anish/echo/ui/stats/StatsScreen.kt:212-239 | For any note `a + "\|" + b` with no '\|' in `a` and no joined mood, the row emoji is exactly `Trim(a)` and the phrase exactly `Trim(b)`. |
| StatsScreenRules.DisplayedTextsTrimmed | src/main/java/com/anish/echo/ui/stats/StatsScreen.kt:212-239 | Trimming the displayed emoji (without a joined mood) or the displayed phrase again changes nothing: both are fixed points of `trim`. |
| StatsScreenRules.DialogNote | src/main/java/com/anish/echo/ui/stats/StatsScreen.kt:353-362 | Shown only for a non-blank note and a non-blank text. That text is the phrase when the note has '\|'. A non-blank note without '\|' is shown exactly as stored. |
| StatsScreenRules.DialogNoteOfPhrase | src/main/java/com/anish/echo/ui/stats/StatsScreen.kt:353-362 | For a note with '\|', the dialog shows the phrase, or nothing when the phrase is empty. |
| StatsScreenRules.TrailingCell | src/main/java/com/anish/echo/ui/stats/StatsScreen.kt:259-272 | The duration text exactly when duration (absent counts as 0) is > 0. Otherwise a check mark exactly when the habit joined. |
| StatsScreenRules.LogTitle | src/main/java/com/anish/echo/ui/stats/StatsScreen.kt:229-313 | The habit-name snapshot. Without one, "Mood Log" in a list row (line 229) and "Mood Check-in" in the dialog (line 313). |
| StatsScreenRules.MoodNoteRoundTrip | src/main/java/com/anish/echo/ui/stats/StatsScreen.kt:212-239 | Take a trimmed emoji with no '\|' and a trimmed phrase. The note `logMood` writes shows that emoji and that phrase back, even when the phrase has '\|'. It shows no duration or check, and both titles say "Mood Check-in". |
| StatsScreenRules.HabitDeletedKeepsSnapshot | src/main/java/com/anish/echo/data/models/LogDetails.kt:8-12 | After its habit is deleted, a detail's habit is null, while the name snapshot and the title remain. An untimed row loses its check mark. |
| StatsScreenRules.MaxOfCounts | src/main/java/com/anish/echo/ui/stats/StatsScreen.kt:411 | `maxOfOrNull`: null exactly for an empty list, otherwise an upper bound that is attained. |
| StatsScreenRules.MaxCount | src/main/java/com/anish/echo/ui/stats/StatsScreen.kt:411 | At least 1 and at least every count. It equals some count or 1, and it is attained when any count is positive. |
| Logging.SheetEntry | src/main/java/com/anish/echo/ui/logging/LogSheet.kt:77-84 | The habit id and name are copied. The mood is null exactly for -1 and otherwise the selection. The duration is present exactly when > 0. The note is null exactly when blank and otherwise untrimmed. The timestamp is now. |
| Logging.DurationLineReadsBack | src/main/java/com/anish/echo/ui/logging/LogSheet.kt:44-47 | The line exists exactly for a positive duration and reads "Duration: " followed by the digits of `duration/1000` and "s". |
| Logging.CheckboxPlainIsCompletion | src/main/java/com/anish/echo/MainActivity.kt:86-91 | A check-box sheet saved with no mood and a blank note writes the same entry as `completeHabit`. |
| Logging.FinishKeepsDuration | src/main/java/com/anish/echo/MainActivity.kt:113-118 | A finished session's duration, habit id and route name reach the entry, and the duration line is shown. |
| Logging.SheetSaveOutcome | src/main/java/com/anish/echo/ui/logging/LogSheet.kt:77-86 | Save succeeds exactly when the named habit and mood exist. It then adds one row under a fresh id. |
| Logging.LogSheet.constructor | src/main/java/com/anish/echo/ui/logging/LogSheet.kt:17-27 | The sheet opens with its arguments, no mood (-1) and an empty note. |
| Logging.LogSheet.SelectMood | src/main/java/com/anish/echo/ui/logging/LogSheet.kt:60 | The selection becomes the picked mood id, and the note and the dismissed flag are unchanged. |
| Logging.LogSheet.EditNote | src/main/java/com/anish/echo/ui/logging/LogSheet.kt:67 | The note becomes the typed text, and the selection and the dismissed flag are unchanged. |
| Logging.LogSheet.Save | src/main/java/com/anish/echo/ui/logging/LogSheet.kt:74-88 | One insert of `SheetEntry`, with failures swallowed, then dismiss. |
| EditHabit.SaveOutcome | src/main/java/com/anish/echo/ui/settings/EditHabitSheet.kt:62-66 | No call exactly for a blank name. Otherwise the untrimmed name, the flag and colour 0xFFD0BCFF, whatever the habit's own colour. |
| EditHabit.Title | src/main/java/com/anish/echo/ui/settings/EditHabitSheet.kt:31 | "New Habit" for a new habit, "Edit Habit" otherwise. |
| EditHabit.EditHabitSheet.constructor | src/main/java/com/anish/echo/ui/settings/EditHabitSheet.kt:18-19 | The name is the habit's or "". The timed flag is the habit's or false. |
| EditHabit.EditHabitSheet.EditName | src/main/java/com/anish/echo/ui/settings/EditHabitSheet.kt:38 | The name becomes the typed text and the timed flag is unchanged. |
| EditHabit.EditHabitSheet.SetTimed | src/main/java/com/anish/echo/ui/settings/EditHabitSheet.kt:51 | The timed flag becomes the switch value and the name is unchanged. |
| EditHabit.EditHabitSheet.SaveClicked | src/main/java/com/anish/echo/ui/settings/EditHabitSheet.kt:61-67 | A blank name calls neither `onSave` nor `onDismiss`. Otherwise `onSave(name, isTimed, 0xFFD0BCFF)`, then dismiss. |
| HabitManagement.SavedHabit | src/main/java/com/anish/echo/ui/settings/HabitManagementScreen.kt:86-99 | New: id 0 and `createdAt = now`. Edit: the same id and `createdAt`. Both carry the sheet's name, flag and colour. |
| HabitManagement.CreateAddsHabit | src/main/java/com/anish/echo/ui/settings/HabitManagementScreen.kt:87-91 | A new habit gets a fresh id `habitSeq + 1`. One row is added, the other habits and the logs are unchanged, and consistency is kept. |
| HabitManagement.EditKeepsCount | src/main/java/com/anish/echo/ui/settings/HabitManagementScreen.kt:96-98 | An edit keeps the number of habits and stores the edited record under the same id. Other habits are unchanged. |
| HabitManagement.EditDetachesHistory | src/main/java/com/anish/echo/ui/settings/HabitManagementScreen.kt:93-98 | REPLACE deletes before inserting, so every log of the edited habit loses its `habitId`. The habit no longer shows as completed today. |
| HabitManagement.HabitManagementScreen.AddClicked | src/main/java/com/anish/echo/ui/settings/HabitManagementScreen.kt:46-48 | The target becomes "new" and the sheet opens. |
| HabitManagement.HabitManagementScreen.EditClicked | src/main/java/com/anish/echo/ui/settings/HabitManagementScreen.kt:66-69 | The target becomes that habit and the sheet opens. |
| HabitManagement.HabitManagementScreen.DeleteClicked | src/main/java/com/anish/echo/ui/settings/HabitManagementScreen.kt:72 | The store becomes `RemoveHabit(old, habit.id)`. |
| HabitManagement.HabitManagementScreen.Dismiss | src/main/java/com/anish/echo/ui/settings/HabitManagementScreen.kt:85 | Closes the sheet and keeps the target. |
| HabitManagement.HabitManagementScreen.Save | src/main/java/com/anish/echo/ui/settings/HabitManagementScreen.kt:86-100 | The store becomes `ReplaceHabit(old, SavedHabit(target, args, now))`. |
| Settings.Ordinal | src/main/java/com/anish/echo/ui/theme/Theme.kt:100-106 | Every theme's ordinal lies in 0..4. |
| Settings.Entry | src/main/java/com/anish/echo/data/SettingsPreferences.kt:20 | Present exactly for 0..4, and then the theme with that ordinal. |
| Settings.EntryOfOrdinal | src/main/java/com/anish/echo/ui/theme/Theme.kt:100-106 | Each theme is the entry at its ordinal. |
| Settings.Decode | src/main/java/com/anish/echo/data/SettingsPreferences.kt:18-21 | No stored value reads as `DARK_MODE_2`. A stored 0..4 reads as the theme with that ordinal, and any other value as `DARK_MODE_2`. |
| Settings.SettingsPreferences.SetThemeMode | src/main/java/com/anish/echo/data/SettingsPreferences.kt:22-28 | Writes the ordinal under "theme_mode" and changes no other key. Reading back gives the theme written. |
| Settings.WriteThenRead | src/main/java/com/anish/echo/data/SettingsPreferences.kt:17-24 | After writing m into any preference map, decoding gives m. |
| Navigation.NoRouteSelectsNone | src/main/java/com/anish/echo/ui/CurvedBottomNavigation.kt:85-88 | A null current route selects no item. |
| Navigation.AtMostOneSelected | src/main/java/com/anish/echo/ui/CurvedBottomNavigation.kt:85-88 | Over home, stats and settings, at most one item is selected for any route. |
| Navigation.SettingsSubpages | src/main/java/com/anish/echo/ui/CurvedBottomNavigation.kt:86-88 | "habits", "theme" and routes starting with "settings" select the settings item and neither of the others. |
| Navigation.TimerRoutesSelectNone | src/main/java/com/anish/echo/ui/CurvedBottomNavigation.kt:85-88 | A route starting with "timer" selects no item. |
| Navigation.BarVisible | src/main/java/com/anish/echo/MainActivity.kt:56-61 | The bar is shown exactly when the route is null or does not start with "timer". |

## Left out

- Notifications and the foreground service are left out: channel set-up, `startForeground`, `stopSelf`. Only the notification's text is kept, as `notice`, and its late update after each loop pass is merged into `LoopStep`.
- Coroutines, `Flow`/`StateFlow` and `stateIn` are left out, and each write runs synchronously. The launched timer loop and its 100 ms delay become `LoopStep` calls, and `timerJob` cancellation becomes the running flag.
- The Android binding handshake (`bindService`, `unbindService`, the `IBinder` cast) is reduced to the `OnServiceConnected`, `OnServiceDisconnected` and `OnCleared` events. Collector coroutines that outlive a disconnect are modelled by the `source` field, which `OnCleared` resets when `viewModelScope` is cancelled.
- `TimerController.TimerViewModel.OnServiceConnected`: each connect launches a new pair of collectors, and the ones from an earlier connection keep running until the view model is cleared. The model keeps only the latest connection's collectors in `source`. After a reconnect to a different service object, the mirrors could also receive the earlier service's values; the model does not capture that interleaving.
- `System.currentTimeMillis`, `LocalDate.now()` and the system time zone become parameters: `now`, `today` and the `Calendar` functions. The "EEE" weekday label and the date and time formatters are abstract function parameters.
- `Stats.WeeklyStats` and `Stats.RecentLogs` take a single `today`. The source computes `sevenDaysAgo` once, at construction, while `LocalDate.now()` in the mapping is re-evaluated on each emission. A view model kept across midnight is not modelled.
- 64-bit overflow of `Long` and 32-bit overflow of `Int` ids are not modelled. Integers are unbounded, and Kotlin's truncating `/` and `%` are written out.
- Engine faults are modelled for `insertLog` (the `fault` flag) and for the seeding statements (`failAt` of `EchoDatabase.SeedTransaction`). An I/O error during `insertHabit`, `insertMood`, `deleteHabit` or `deleteLog` is not a case of the model. Such a failure would propagate out of the view model's coroutine uncaught.
- A failing seed statement's exception escapes the database callback after the rollback, and the database open fails. The model reports this only as `committed == false`. What Room and the app do after a failed open (a crash, a retry on the next access) is not modelled.
- Room internals are not modelled: the schema, migrations, `fallbackToDestructiveMigration`, and the `@Relation` and `@Transaction` machinery. The engine is assumed to have foreign keys enforced and REPLACE firing ON DELETE actions. `@Delete` works by primary key alone.
- Row order is modelled as insertion order. `getAllHabits` and `getLogsSince` in SQLite give no ordering guarantee. The model's results are one possible order, and the proved properties do not depend on it except where stated.
- `EchoDao.SortByTime`: logs with equal timestamps come out in one fixed order, whereas SQLite leaves ties unspecified.
- The trivial reads `getAllHabits` and `getAllMoods` are used as the tables themselves.
- The Compose UI is left out: layout, animations, haptics, the mood picker's rendering, themes' colour schemes and `SettingsScreen`/`ThemeScreen` navigation. The random phrase that `HomeScreen` pairs with a mood is a parameter of `logMood`.
- Unicode: strings are sequences of code points. Kotlin's `trim`/`isBlank` (`Char.isWhitespace`) are modelled with a fixed whitespace set: U+0009–U+000D, U+001C–U+0020, U+00A0, U+1680, U+2000–U+200A, U+2028, U+2029, U+202F, U+205F and U+3000. U+0085 (NEL) is not whitespace there, as on the JVM.
- Route strings built as `"timer/$id/$name"` from habit names that contain '/' are not modelled.
- `HabitManagement.EditKeepsCount` and `HabitManagement.EditDetachesHistory` require the edited habit's id to be non-zero. Every stored id is, since the generated ids start at 1, but the tables' invariant does not record that.
