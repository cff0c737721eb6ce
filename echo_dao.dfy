/** The local store behind `EchoDao`: three tables keyed by id, each an
    SQLite `AUTOINCREMENT` table with its own sequence counter, and the
    foreign keys from logs to habits (ON DELETE SET NULL) and to moods
    (ON DELETE CASCADE), enforced. A table is the sequence of its rows; a
    replaced row keeps its place, a new row goes to the end. */
module EchoDao {
  import opened Common
  import opened Models

  /** The three tables and their `sqlite_sequence` entries (the largest id
      each table has ever held). */
  datatype Tables = Tables(
    habits: seq<Habit>,
    moods: seq<Mood>,
    logs: seq<LogEntry>,
    habitSeq: int,
    moodSeq: int,
    logSeq: int)

  /** A newly created database. */
  const Empty: Tables := Tables([], [], [], 0, 0, 0)

  function Max(a: int, b: int): int {
    if a >= b then a else b
  }

  predicate KeysAtMost<T>(s: seq<T>, key: T -> int, n: int) {
    forall i :: 0 <= i < |s| ==> key(s[i]) <= n
  }

  /** Every non-null foreign key of a log names an existing parent row. */
  predicate LinksResolve(logs: seq<LogEntry>, hs: seq<Habit>, ms: seq<Mood>) {
    forall i :: 0 <= i < |logs| ==>
      (logs[i].habitId.Some? ==> HasKey(hs, HabitKey, logs[i].habitId.value)) &&
      (logs[i].moodId.Some? ==> HasKey(ms, MoodKey, logs[i].moodId.value))
  }

  /** What the database engine maintains: unique primary keys, sequences
      at least every id in their table, and resolved foreign keys. */
  predicate Consistent(t: Tables) {
    UniqueKeys(t.habits, HabitKey) && UniqueKeys(t.moods, MoodKey) && UniqueKeys(t.logs, LogKey)
    && t.habitSeq >= 0 && t.moodSeq >= 0 && t.logSeq >= 0
    && KeysAtMost(t.habits, HabitKey, t.habitSeq)
    && KeysAtMost(t.moods, MoodKey, t.moodSeq)
    && KeysAtMost(t.logs, LogKey, t.logSeq)
    && LinksResolve(t.logs, t.habits, t.moods)
  }

  lemma EmptyConsistent()
    ensures Consistent(Empty)
  {
  }

  /** The id a row is stored under: 0 asks for the next value of the
      table's sequence, any other id is used as given. */
  function ResolveId(requested: int, sequence: int): int {
    if requested == GenerateId then sequence + 1 else requested
  }

  /** A generated id is distinct from every id already in the table. */
  lemma GeneratedIdFresh<T>(s: seq<T>, key: T -> int, sequence: int)
    requires KeysAtMost(s, key, sequence)
    ensures ResolveId(GenerateId, sequence) == sequence + 1
    ensures !HasKey(s, key, ResolveId(GenerateId, sequence))
  {
  }

  // ---------------------------------------------------------------------
  // Foreign-key actions
  // ---------------------------------------------------------------------

  /** ON DELETE SET NULL for habit `id`. */
  function SetNullHabit(logs: seq<LogEntry>, id: int): (r: seq<LogEntry>)
    ensures |r| == |logs|
  {
    seq(|logs|, i requires 0 <= i < |logs| =>
      if logs[i].habitId == Some(id) then logs[i].(habitId := None) else logs[i])
  }

  /** After SET NULL no log refers to the habit; a log that did keeps its
      name snapshot, mood, duration, note, timestamp and id, and every
      other log is unchanged. */
  lemma SetNullHabitEffect(logs: seq<LogEntry>, id: int)
    ensures forall i :: 0 <= i < |logs| ==> SetNullHabit(logs, id)[i].habitId != Some(id)
    ensures forall i :: 0 <= i < |logs| && logs[i].habitId == Some(id) ==>
      SetNullHabit(logs, id)[i] == logs[i].(habitId := None)
    ensures forall i :: 0 <= i < |logs| && logs[i].habitId != Some(id) ==>
      SetNullHabit(logs, id)[i] == logs[i]
  {
  }

  /** ON DELETE CASCADE for mood `id`. */
  function CascadeMood(logs: seq<LogEntry>, id: int): seq<LogEntry> {
    Filter(logs, (l: LogEntry) => l.moodId != Some(id))
  }

  /** The cascade removes exactly the logs that referred to the mood: every
      remaining log is an original one not referring to it, and every
      original log not referring to it remains. */
  lemma CascadeMoodEffect(logs: seq<LogEntry>, id: int)
    ensures forall i :: 0 <= i < |CascadeMood(logs, id)| ==>
      CascadeMood(logs, id)[i] in logs && CascadeMood(logs, id)[i].moodId != Some(id)
    ensures forall i :: 0 <= i < |logs| && logs[i].moodId != Some(id) ==> logs[i] in CascadeMood(logs, id)
    ensures (forall i :: 0 <= i < |logs| ==> logs[i].moodId != Some(id)) ==> CascadeMood(logs, id) == logs
  {
    NoMatchFilterIdentity(logs, id);
  }

  lemma {:induction false} NoMatchFilterIdentity(logs: seq<LogEntry>, id: int)
    ensures (forall i :: 0 <= i < |logs| ==> logs[i].moodId != Some(id)) ==> CascadeMood(logs, id) == logs
    decreases |logs|
  {
    if logs != [] && forall i :: 0 <= i < |logs| ==> logs[i].moodId != Some(id) {
      assert forall i :: 0 <= i < |logs[1..]| ==> logs[1..][i] == logs[i + 1];
      NoMatchFilterIdentity(logs[1..], id);
      assert logs == [logs[0]] + logs[1..];
    }
  }

  // ---------------------------------------------------------------------
  // Table operations
  // ---------------------------------------------------------------------

  /** `insertHabit` with `OnConflictStrategy.REPLACE`: a row already under
      the id is deleted first (firing SET NULL on its logs) and the new
      row takes its place. */
  function ReplaceHabit(t: Tables, h: Habit): Tables {
    var id := ResolveId(h.id, t.habitSeq);
    t.(habits := Put(t.habits, HabitKey, h.(id := id)),
       logs := if HasKey(t.habits, HabitKey, id) then SetNullHabit(t.logs, id) else t.logs,
       habitSeq := Max(t.habitSeq, id))
  }

  /** `insertMood` with `OnConflictStrategy.REPLACE`: a row already under
      the id is deleted first (cascading to its logs). */
  function ReplaceMood(t: Tables, m: Mood): Tables {
    var id := ResolveId(m.id, t.moodSeq);
    t.(moods := Put(t.moods, MoodKey, m.(id := id)),
       logs := if HasKey(t.moods, MoodKey, id) then CascadeMood(t.logs, id) else t.logs,
       moodSeq := Max(t.moodSeq, id))
  }

  /** `deleteHabit`: delete by primary key, firing SET NULL. */
  function RemoveHabit(t: Tables, id: int): Tables {
    t.(habits := RemoveKey(t.habits, HabitKey, id),
       logs := if HasKey(t.habits, HabitKey, id) then SetNullHabit(t.logs, id) else t.logs)
  }

  /** `deleteLog`: delete by primary key; nothing refers to logs. */
  function RemoveLog(t: Tables, id: int): Tables {
    t.(logs := RemoveKey(t.logs, LogKey, id))
  }

  /** Why a plain `@Insert` of a log is aborted. */
  predicate InsertLogRejected(t: Tables, log: LogEntry) {
    HasKey(t.logs, LogKey, ResolveId(log.id, t.logSeq))
    || (log.habitId.Some? && !HasKey(t.habits, HabitKey, log.habitId.value))
    || (log.moodId.Some? && !HasKey(t.moods, MoodKey, log.moodId.value))
  }

  /** `insertLog` (default `ABORT` strategy): a row with a generated id is
      appended; a primary-key clash or a dangling foreign key aborts. */
  function AppendLog(t: Tables, log: LogEntry): (r: Option<Tables>)
    ensures r.Some? <==> !InsertLogRejected(t, log)
  {
    var id := ResolveId(log.id, t.logSeq);
    if InsertLogRejected(t, log) then None
    else Some(t.(logs := t.logs + [log.(id := id)], logSeq := Max(t.logSeq, id)))
  }

  // ---------------------------------------------------------------------
  // Effects of the table operations
  // ---------------------------------------------------------------------

  /** `insertHabit` stores the record under its (resolved) id, leaves the
      row of every other id and the moods table as they were, grows the
      table only for a new id, and keeps the store consistent. With id 0
      the new id is fresh. */
  lemma ReplaceHabitEffect(t: Tables, h: Habit)
    requires Consistent(t)
    ensures var id := ResolveId(h.id, t.habitSeq); var r := ReplaceHabit(t, h);
      Lookup(r.habits, HabitKey, id) == Some(h.(id := id))
      && (forall k :: k != id ==> Lookup(r.habits, HabitKey, k) == Lookup(t.habits, HabitKey, k))
      && |r.habits| == (if HasKey(t.habits, HabitKey, id) then |t.habits| else |t.habits| + 1)
      && (h.id == GenerateId ==> !HasKey(t.habits, HabitKey, id))
      && r.moods == t.moods && r.moodSeq == t.moodSeq && r.logSeq == t.logSeq
      && Consistent(r)
  {
    var id := ResolveId(h.id, t.habitSeq);
    PutEffect(t.habits, HabitKey, h.(id := id));
    ReplaceHabitLinks(t, h);
  }

  /** The logs after `insertHabit` still resolve, and the habit keys stay
      within the sequence. */
  lemma ReplaceHabitLinks(t: Tables, h: Habit)
    requires Consistent(t)
    ensures var r := ReplaceHabit(t, h);
      KeysAtMost(r.habits, HabitKey, r.habitSeq) && LinksResolve(r.logs, r.habits, r.moods)
      && UniqueKeys(r.logs, LogKey) && KeysAtMost(r.logs, LogKey, r.logSeq)
  {
    var id := ResolveId(h.id, t.habitSeq);
    var r := ReplaceHabit(t, h);
    PutEffect(t.habits, HabitKey, h.(id := id));
    SetNullHabitEffect(t.logs, id);
    forall i | 0 <= i < |r.logs| && r.logs[i].habitId.Some?
      ensures HasKey(r.habits, HabitKey, r.logs[i].habitId.value)
    {
      var k := r.logs[i].habitId.value;
      assert t.logs[i].habitId == Some(k);
      assert HasKey(t.habits, HabitKey, k);
      assert Lookup(r.habits, HabitKey, k).Some?;
    }
  }

  /** `insertMood` in the same way; replacing an existing mood also
      removes its logs. */
  lemma ReplaceMoodEffect(t: Tables, m: Mood)
    requires Consistent(t)
    ensures var id := ResolveId(m.id, t.moodSeq); var r := ReplaceMood(t, m);
      Lookup(r.moods, MoodKey, id) == Some(m.(id := id))
      && (forall k :: k != id ==> Lookup(r.moods, MoodKey, k) == Lookup(t.moods, MoodKey, k))
      && |r.moods| == (if HasKey(t.moods, MoodKey, id) then |t.moods| else |t.moods| + 1)
      && (m.id == GenerateId ==> !HasKey(t.moods, MoodKey, id))
      && r.habits == t.habits && r.habitSeq == t.habitSeq && r.logSeq == t.logSeq
      && Consistent(r)
  {
    var id := ResolveId(m.id, t.moodSeq);
    PutEffect(t.moods, MoodKey, m.(id := id));
    ReplaceMoodLinks(t, m);
  }

  /** The logs the cascade keeps still resolve, keep unique keys and stay
      within the sequence. */
  lemma ReplaceMoodLinks(t: Tables, m: Mood)
    requires Consistent(t)
    ensures var r := ReplaceMood(t, m);
      KeysAtMost(r.moods, MoodKey, r.moodSeq) && LinksResolve(r.logs, r.habits, r.moods)
      && UniqueKeys(r.logs, LogKey) && KeysAtMost(r.logs, LogKey, r.logSeq)
  {
    var id := ResolveId(m.id, t.moodSeq);
    var r := ReplaceMood(t, m);
    PutEffect(t.moods, MoodKey, m.(id := id));
    forall k | HasKey(t.moods, MoodKey, k) ensures HasKey(r.moods, MoodKey, k) {
      assert Lookup(r.moods, MoodKey, k).Some?;
    }
    if HasKey(t.moods, MoodKey, id) {
      CascadeMoodEffect(t.logs, id);
      FilterUnique(t.logs, (l: LogEntry) => l.moodId != Some(id), LogKey);
      SubsetLinks(t.logs, r.logs, t.habits, t.moods, r.moods, t.logSeq);
    } else {
      SubsetLinks(t.logs, t.logs, t.habits, t.moods, r.moods, t.logSeq);
    }
  }

  /** Logs taken from a resolving table still resolve against a mood table
      that keeps every mood key. */
  lemma SubsetLinks(logs: seq<LogEntry>, kept: seq<LogEntry>, hs: seq<Habit>, ms: seq<Mood>, ms2: seq<Mood>, logSeq: int)
    requires LinksResolve(logs, hs, ms) && KeysAtMost(logs, LogKey, logSeq)
    requires forall i :: 0 <= i < |kept| ==> kept[i] in logs
    requires forall k :: HasKey(ms, MoodKey, k) ==> HasKey(ms2, MoodKey, k)
    ensures LinksResolve(kept, hs, ms2) && KeysAtMost(kept, LogKey, logSeq)
  {
    forall i | 0 <= i < |kept|
      ensures kept[i].id <= logSeq
      ensures kept[i].habitId.Some? ==> HasKey(hs, HabitKey, kept[i].habitId.value)
      ensures kept[i].moodId.Some? ==> HasKey(ms2, MoodKey, kept[i].moodId.value)
    {
      var j :| 0 <= j < |logs| && logs[j] == kept[i];
    }
  }

  /** `deleteHabit` removes exactly the row with that id, nulls the habit
      id of its logs, leaves moods and the number of logs unchanged, and
      keeps the store consistent. */
  lemma RemoveHabitEffect(t: Tables, id: int)
    requires Consistent(t)
    ensures var r := RemoveHabit(t, id);
      !HasKey(r.habits, HabitKey, id)
      && (forall k :: k != id ==> Lookup(r.habits, HabitKey, k) == Lookup(t.habits, HabitKey, k))
      && |r.habits| == (if HasKey(t.habits, HabitKey, id) then |t.habits| - 1 else |t.habits|)
      && r.logs == SetNullHabit(t.logs, id)
      && r.moods == t.moods && r.habitSeq == t.habitSeq && r.moodSeq == t.moodSeq && r.logSeq == t.logSeq
      && Consistent(r)
  {
    var r := RemoveHabit(t, id);
    RemoveKeyEffect(t.habits, HabitKey, id);
    SetNullHabitEffect(t.logs, id);
    if !HasKey(t.habits, HabitKey, id) {
      assert forall i :: 0 <= i < |t.logs| ==> t.logs[i].habitId != Some(id);
      assert r.logs == SetNullHabit(t.logs, id);
    }
    forall i | 0 <= i < |r.habits| ensures r.habits[i].id <= r.habitSeq {
      assert r.habits[i] in t.habits;
    }
    forall i | 0 <= i < |r.logs| && r.logs[i].habitId.Some?
      ensures HasKey(r.habits, HabitKey, r.logs[i].habitId.value)
    {
      var k := r.logs[i].habitId.value;
      assert t.logs[i].habitId == Some(k);
      assert Lookup(t.habits, HabitKey, k).Some?;
      assert Lookup(r.habits, HabitKey, k).Some?;
    }
  }

  /** `deleteLog` removes exactly the log with that id and nothing else. */
  lemma RemoveLogEffect(t: Tables, id: int)
    requires Consistent(t)
    ensures var r := RemoveLog(t, id);
      !HasKey(r.logs, LogKey, id)
      && (forall k :: k != id ==> Lookup(r.logs, LogKey, k) == Lookup(t.logs, LogKey, k))
      && |r.logs| == (if HasKey(t.logs, LogKey, id) then |t.logs| - 1 else |t.logs|)
      && r.habits == t.habits && r.moods == t.moods
      && Consistent(r)
  {
    var r := RemoveLog(t, id);
    RemoveKeyEffect(t.logs, LogKey, id);
    forall i | 0 <= i < |r.logs|
      ensures r.logs[i].id <= r.logSeq
      ensures r.logs[i].habitId.Some? ==> HasKey(r.habits, HabitKey, r.logs[i].habitId.value)
      ensures r.logs[i].moodId.Some? ==> HasKey(r.moods, MoodKey, r.logs[i].moodId.value)
    {
      assert r.logs[i] in t.logs;
    }
  }

  /** `insertLog` of a record asking for a generated id (as every caller in
      the app does) is rejected only for a dangling foreign key; when it
      succeeds it appends exactly one row, the record under a fresh id,
      and keeps the store consistent. */
  lemma AppendLogEffect(t: Tables, log: LogEntry)
    requires Consistent(t)
    ensures log.id == GenerateId ==>
      (InsertLogRejected(t, log) <==>
        (log.habitId.Some? && !HasKey(t.habits, HabitKey, log.habitId.value))
        || (log.moodId.Some? && !HasKey(t.moods, MoodKey, log.moodId.value)))
    ensures AppendLog(t, log).Some? ==>
      var id := ResolveId(log.id, t.logSeq); var r := AppendLog(t, log).value;
      r.logs == t.logs + [log.(id := id)] && !HasKey(t.logs, LogKey, id)
      && r.habits == t.habits && r.moods == t.moods
      && Consistent(r)
  {
    if AppendLog(t, log).Some? {
      var id := ResolveId(log.id, t.logSeq);
      var r := AppendLog(t, log).value;
      assert forall i :: 0 <= i < |t.logs| ==> r.logs[i] == t.logs[i];
      assert r.logs[|t.logs|] == log.(id := id);
    }
  }

  /** There is no deduplication: inserting the same content twice gives
      two rows, with distinct ids, equal in everything else. */
  lemma InsertTwiceTwoRows(t: Tables, log: LogEntry)
    requires Consistent(t) && log.id == GenerateId && AppendLog(t, log).Some?
    ensures AppendLog(AppendLog(t, log).value, log).Some?
    ensures var r := AppendLog(AppendLog(t, log).value, log).value;
      |r.logs| == |t.logs| + 2
      && r.logs[|t.logs|].id != r.logs[|t.logs| + 1].id
      && r.logs[|t.logs|] == log.(id := r.logs[|t.logs|].id)
      && r.logs[|t.logs| + 1] == log.(id := r.logs[|t.logs| + 1].id)
  {
    AppendLogEffect(t, log);
    var t1 := AppendLog(t, log).value;
    AppendLogEffect(t1, log);
  }

  // ---------------------------------------------------------------------
  // Queries
  // ---------------------------------------------------------------------

  /** `SELECT * FROM logs WHERE timestamp >= :since`. */
  function LogsSince(logs: seq<LogEntry>, since: int): seq<LogEntry> {
    Filter(logs, (l: LogEntry) => l.timestamp >= since)
  }

  /** `getLogsSince` returns exactly the logs at or after `since`, each
      once. */
  lemma LogsSinceExact(logs: seq<LogEntry>, since: int)
    requires UniqueKeys(logs, LogKey)
    ensures forall i :: 0 <= i < |LogsSince(logs, since)| ==>
      LogsSince(logs, since)[i] in logs && LogsSince(logs, since)[i].timestamp >= since
    ensures forall i :: 0 <= i < |logs| && logs[i].timestamp >= since ==> logs[i] in LogsSince(logs, since)
    ensures UniqueKeys(LogsSince(logs, since), LogKey)
  {
    FilterUnique(logs, (l: LogEntry) => l.timestamp >= since, LogKey);
  }

  /** `ORDER BY timestamp DESC`. */
  predicate NewestFirst(s: seq<LogEntry>) {
    forall i, j :: 0 <= i < j < |s| ==> s[i].timestamp >= s[j].timestamp
  }

  /** Dropping the head of a newest-first list keeps it newest-first. */
  lemma NewestFirstTail(s: seq<LogEntry>)
    requires NewestFirst(s) && s != []
    ensures NewestFirst(s[1..])
  {
    var t := s[1..];
    forall i, j | 0 <= i < j < |t| ensures t[i].timestamp >= t[j].timestamp {
      assert t[i] == s[i + 1] && t[j] == s[j + 1];
    }
  }

  /** A row no older than every row of a newest-first list can be put in
      front of it. */
  lemma NewestFirstCons(h: LogEntry, rest: seq<LogEntry>)
    requires NewestFirst(rest)
    requires forall k :: 0 <= k < |rest| ==> h.timestamp >= rest[k].timestamp
    ensures NewestFirst([h] + rest)
  {
    var r := [h] + rest;
    forall i, j | 0 <= i < j < |r| ensures r[i].timestamp >= r[j].timestamp {
      assert r[j] == rest[j - 1];
      if i > 0 {
        assert r[i] == rest[i - 1];
      }
    }
  }

  /** A bound on every row of `t` and on `x` bounds every row of a
      permutation of `t` plus `x`. */
  lemma BoundOfPermutation(bound: int, t: seq<LogEntry>, x: LogEntry, rest: seq<LogEntry>)
    requires multiset(rest) == multiset(t) + multiset{x}
    requires forall j :: 0 <= j < |t| ==> bound >= t[j].timestamp
    requires bound >= x.timestamp
    ensures forall k :: 0 <= k < |rest| ==> bound >= rest[k].timestamp
  {
    forall k | 0 <= k < |rest| ensures bound >= rest[k].timestamp {
      assert rest[k] in multiset(rest);
      if rest[k] != x {
        assert rest[k] in multiset(t);
        var j :| 0 <= j < |t| && t[j] == rest[k];
      }
    }
  }

  /** The head of a newest-first list is no older than any of its rows. */
  lemma HeadNewest(s: seq<LogEntry>)
    requires NewestFirst(s) && s != []
    ensures forall k :: 0 <= k < |s| ==> s[0].timestamp >= s[k].timestamp
  {
    forall k | 0 < k < |s| ensures s[0].timestamp >= s[k].timestamp {
    }
  }

  /** Insert `x` into a newest-first list, after every strictly newer row. */
  function InsertByTime(x: LogEntry, s: seq<LogEntry>): (r: seq<LogEntry>)
    requires NewestFirst(s)
    ensures NewestFirst(r)
    ensures multiset(r) == multiset(s) + multiset{x}
    decreases |s|
  {
    if s == [] then [x]
    else
      HeadNewest(s);
      if s[0].timestamp > x.timestamp then
        var t := s[1..];
        NewestFirstTail(s);
        var rest := InsertByTime(x, t);
        assert s == [s[0]] + t;
        assert forall j :: 0 <= j < |t| ==> t[j] == s[j + 1];
        BoundOfPermutation(s[0].timestamp, t, x, rest);
        NewestFirstCons(s[0], rest);
        [s[0]] + rest
      else
        NewestFirstCons(x, s);
        [x] + s
  }

  /** A newest-first permutation of `s` (rows with equal timestamps keep
      their table order). */
  function SortByTime(s: seq<LogEntry>): (r: seq<LogEntry>)
    ensures NewestFirst(r)
    ensures multiset(r) == multiset(s)
    ensures |r| == |s|
    decreases |s|
  {
    if s == [] then []
    else
      assert s == [s[0]] + s[1..];
      InsertByTime(s[0], SortByTime(s[1..]))
  }

  /** `getLogDetailsSince`: the same logs as `getLogsSince`, newest first,
      each joined with its habit and mood. */
  function LogDetailsSince(t: Tables, since: int): seq<LogDetails> {
    var sorted := SortByTime(LogsSince(t.logs, since));
    seq(|sorted|, i requires 0 <= i < |sorted| => Details(sorted[i], t.habits, t.moods))
  }

  /** The embedded logs of a list of details. */
  function LogsOf(ds: seq<LogDetails>): (r: seq<LogEntry>)
    ensures |r| == |ds|
  {
    seq(|ds|, i requires 0 <= i < |ds| => ds[i].log)
  }

  /** The details query covers exactly the logs of `getLogsSince(since)`
      (as a multiset), newest first, each joined with its own habit and
      mood. */
  lemma LogDetailsSinceSpec(t: Tables, since: int)
    ensures multiset(LogsOf(LogDetailsSince(t, since))) == multiset(LogsSince(t.logs, since))
    ensures NewestFirst(LogsOf(LogDetailsSince(t, since)))
    ensures forall i :: 0 <= i < |LogDetailsSince(t, since)| ==>
      LogDetailsSince(t, since)[i] == Details(LogDetailsSince(t, since)[i].log, t.habits, t.moods)
  {
    var sorted := SortByTime(LogsSince(t.logs, since));
    assert LogsOf(LogDetailsSince(t, since)) == sorted;
  }

  // ---------------------------------------------------------------------
  // The store object
  // ---------------------------------------------------------------------

  /** The Room database's tables, updated in place by the DAO methods. */
  class Store {
    var habits: seq<Habit>
    var moods: seq<Mood>
    var logs: seq<LogEntry>
    var habitSeq: int
    var moodSeq: int
    var logSeq: int

    function Snapshot(): Tables
      reads this
    {
      Tables(habits, moods, logs, habitSeq, moodSeq, logSeq)
    }

    predicate Valid()
      reads this
    {
      Consistent(Snapshot())
    }

    /** A newly created, empty database. */
    constructor ()
      ensures Snapshot() == Empty && Valid()
    {
      habits, moods, logs := [], [], [];
      habitSeq, moodSeq, logSeq := 0, 0, 0;
    }

    /** Overwrite every table (what a transaction's rollback does). */
    method Load(t: Tables)
      modifies this
      ensures Snapshot() == t
    {
      habits, moods, logs := t.habits, t.moods, t.logs;
      habitSeq, moodSeq, logSeq := t.habitSeq, t.moodSeq, t.logSeq;
    }

    /** `insertHabit(habit)`. */
    method InsertHabit(habit: Habit)
      requires Valid()
      modifies this
      ensures Valid()
      ensures Snapshot() == ReplaceHabit(old(Snapshot()), habit)
    {
      ReplaceHabitEffect(Snapshot(), habit);
      Load(ReplaceHabit(Snapshot(), habit));
    }

    /** `insertMood(mood)`. */
    method InsertMood(mood: Mood)
      requires Valid()
      modifies this
      ensures Valid()
      ensures Snapshot() == ReplaceMood(old(Snapshot()), mood)
    {
      ReplaceMoodEffect(Snapshot(), mood);
      Load(ReplaceMood(Snapshot(), mood));
    }

    /** `deleteHabit(habit)`: only the primary key of the argument is
        used. */
    method DeleteHabit(habit: Habit)
      requires Valid()
      modifies this
      ensures Valid()
      ensures Snapshot() == RemoveHabit(old(Snapshot()), habit.id)
    {
      RemoveHabitEffect(Snapshot(), habit.id);
      habits, logs := RemoveKey(habits, HabitKey, habit.id),
        if HasKey(habits, HabitKey, habit.id) then SetNullHabit(logs, habit.id) else logs;
    }

    /** `deleteLog(log)`: by primary key. */
    method DeleteLog(log: LogEntry)
      requires Valid()
      modifies this
      ensures Valid()
      ensures Snapshot() == RemoveLog(old(Snapshot()), log.id)
    {
      RemoveLogEffect(Snapshot(), log.id);
      logs := RemoveKey(logs, LogKey, log.id);
    }

    /** `insertLog(log)`. `fault` stands for an engine failure (disk,
        corruption); `ok` is false when the call throws, and then nothing
        changed. */
    method InsertLog(log: LogEntry, fault: bool) returns (ok: bool)
      requires Valid()
      modifies this
      ensures Valid()
      ensures ok <==> !fault && AppendLog(old(Snapshot()), log).Some?
      ensures ok ==> Snapshot() == AppendLog(old(Snapshot()), log).value
      ensures !ok ==> Snapshot() == old(Snapshot())
    {
      var r := AppendLog(Snapshot(), log);
      if fault || r.None? {
        return false;
      }
      AppendLogEffect(Snapshot(), log);
      var id := ResolveId(log.id, logSeq);
      logs := logs + [log.(id := id)];
      logSeq := Max(logSeq, id);
      ok := true;
    }
  }
}
