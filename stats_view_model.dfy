/** `StatsViewModel`: the 7-day bar chart data, the recent-log list and
    log deletion. The system calendar is a pair of functions, the day number
    of an instant and the first instant of a day, required only to agree
    with each other; "today" is a day number given as a parameter and the
    "EEE" weekday label an abstract function of the day. */
module Stats {
  import opened Common
  import opened Models
  import opened EchoDao

  /** Day numbers and their starting instants in the device's time zone. */
  datatype Calendar = Calendar(dayOf: int -> int, startOfDay: int -> int)

  /** An instant lies on day `d` or later exactly when it is not before
      the start of day `d`. */
  ghost predicate Coherent(c: Calendar) {
    forall ts, d {:trigger c.dayOf(ts), c.startOfDay(d)} :: c.dayOf(ts) >= d <==> ts >= c.startOfDay(d)
  }

  /** Under a coherent calendar the day number never goes back. */
  lemma DayOfMonotone(c: Calendar, a: int, b: int)
    requires Coherent(c) && a <= b
    ensures c.dayOf(a) <= c.dayOf(b)
  {
    var d := c.dayOf(a);
    assert a >= c.startOfDay(d);
    assert b >= c.startOfDay(d);
  }

  /** `sevenDaysAgo`: the start of the day six days before today. */
  function SevenDaysAgo(c: Calendar, today: int): int {
    c.startOfDay(today - 6)
  }

  /** The query window begins with the day six days before today: an
      instant is at or after `sevenDaysAgo` exactly when its day is. */
  lemma SevenDaysAgoWindow(c: Calendar, today: int, ts: int)
    requires Coherent(c)
    ensures ts >= SevenDaysAgo(c, today) <==> c.dayOf(ts) >= today - 6
  {
  }

  datatype DailyStat = DailyStat(dayLabel: string, totalCount: int)

  /** `logs.groupBy { its day }`: each day that has logs, with them in
      order. */
  function GroupByDay(logs: seq<LogEntry>, dayOf: int -> int): map<int, seq<LogEntry>>
    decreases |logs|
  {
    if logs == [] then map[]
    else
      var groups := GroupByDay(logs[..|logs| - 1], dayOf);
      var last := logs[|logs| - 1];
      var d := dayOf(last.timestamp);
      groups[d := (if d in groups then groups[d] else []) + [last]]
  }

  /** The logs on day `d`. */
  function OnDay(logs: seq<LogEntry>, dayOf: int -> int, d: int): nat {
    Count(logs, (l: LogEntry) => dayOf(l.timestamp) == d)
  }

  /** A day is a group key exactly when it has logs, and its group holds
      exactly the logs of that day. */
  lemma {:induction false} GroupByDaySizes(logs: seq<LogEntry>, dayOf: int -> int, d: int)
    ensures d in GroupByDay(logs, dayOf) <==> OnDay(logs, dayOf, d) > 0
    ensures d in GroupByDay(logs, dayOf) ==> |GroupByDay(logs, dayOf)[d]| == OnDay(logs, dayOf, d)
    decreases |logs|
  {
    if logs != [] {
      var init := logs[..|logs| - 1];
      var last := logs[|logs| - 1];
      GroupByDaySizes(init, dayOf, d);
      assert logs == init + [last];
      FilterAppend(init, [last], (l: LogEntry) => dayOf(l.timestamp) == d);
    }
  }

  /** One bar per day from six days ago to today, oldest first, each the
      size of that day's group or 0 when the day has none. */
  function Weekly(logs: seq<LogEntry>, c: Calendar, today: int, dayName: int -> string): seq<DailyStat> {
    var dayCounts := GroupByDay(logs, c.dayOf);
    seq(7, i requires 0 <= i < 7 =>
      var date := today - (6 - i);
      DailyStat(dayName(date), if date in dayCounts then |dayCounts[date]| else 0))
  }

  /** `weeklyStats`, over the tables. */
  function WeeklyStats(t: Tables, c: Calendar, today: int, dayName: int -> string): seq<DailyStat> {
    Weekly(LogsSince(t.logs, SevenDaysAgo(c, today)), c, today, dayName)
  }

  /** Exactly seven entries; entry i is for day today - (6 - i) and counts
      the logs of that day. */
  lemma WeeklySpec(logs: seq<LogEntry>, c: Calendar, today: int, dayName: int -> string)
    ensures |Weekly(logs, c, today, dayName)| == 7
    ensures forall i :: 0 <= i < 7 ==>
      Weekly(logs, c, today, dayName)[i].dayLabel == dayName(today - (6 - i))
      && Weekly(logs, c, today, dayName)[i].totalCount == OnDay(logs, c.dayOf, today - (6 - i))
  {
    forall i | 0 <= i < 7
      ensures Weekly(logs, c, today, dayName)[i].totalCount == OnDay(logs, c.dayOf, today - (6 - i))
    {
      GroupByDaySizes(logs, c.dayOf, today - (6 - i));
    }
  }

  /** The sum of the bars. */
  function TotalCount(stats: seq<DailyStat>): int
    decreases |stats|
  {
    if stats == [] then 0 else TotalCount(stats[..|stats| - 1]) + stats[|stats| - 1].totalCount
  }

  /** The logs whose day lies in the `n` days starting at `lo`. */
  function InDays(logs: seq<LogEntry>, dayOf: int -> int, lo: int, n: nat): nat {
    Count(logs, (l: LogEntry) => lo <= dayOf(l.timestamp) < lo + n)
  }

  lemma {:induction false} InDaysStep(logs: seq<LogEntry>, dayOf: int -> int, lo: int, n: nat)
    ensures InDays(logs, dayOf, lo, n + 1) == InDays(logs, dayOf, lo, n) + OnDay(logs, dayOf, lo + n)
  {
    var p := (l: LogEntry) => lo <= dayOf(l.timestamp) < lo + n;
    var q := (l: LogEntry) => dayOf(l.timestamp) == lo + n;
    CountDisjoint(logs, p, q, (l: LogEntry) => lo <= dayOf(l.timestamp) < lo + (n + 1));
  }

  /** The first `n` bars together count the logs of those `n` days. */
  lemma {:induction false} WeeklyPrefixSum(logs: seq<LogEntry>, c: Calendar, today: int, dayName: int -> string, n: nat)
    requires n <= 7
    ensures TotalCount(Weekly(logs, c, today, dayName)[..n]) == InDays(logs, c.dayOf, today - 6, n)
  {
    var w := Weekly(logs, c, today, dayName);
    if n > 0 {
      WeeklyPrefixSum(logs, c, today, dayName, n - 1);
      WeeklySpec(logs, c, today, dayName);
      assert w[..n][..n - 1] == w[..n - 1];
      InDaysStep(logs, c.dayOf, today - 6, n - 1);
    } else {
      CountNone(logs, (l: LogEntry) => today - 6 <= c.dayOf(l.timestamp) < today - 6 + n);
    }
  }

  /** The bars sum to the number of logs dated from six days ago to
      today; logs dated after today fall in no bar. */
  lemma WeeklyTotal(logs: seq<LogEntry>, c: Calendar, today: int, dayName: int -> string)
    ensures TotalCount(Weekly(logs, c, today, dayName)) ==
      Count(logs, (l: LogEntry) => today - 6 <= c.dayOf(l.timestamp) <= today)
  {
    var w := Weekly(logs, c, today, dayName);
    WeeklyPrefixSum(logs, c, today, dayName, 7);
    assert w[..7] == w;
    CountCongruent(logs, (l: LogEntry) => today - 6 <= c.dayOf(l.timestamp) < today - 6 + 7,
      (l: LogEntry) => today - 6 <= c.dayOf(l.timestamp) <= today);
  }

  /** Over the store, with a coherent calendar: the chart counts exactly
      the stored logs whose day is one of the last seven, today included. */
  lemma WeeklyStatsTotal(t: Tables, c: Calendar, today: int, dayName: int -> string)
    requires Coherent(c)
    ensures |WeeklyStats(t, c, today, dayName)| == 7
    ensures TotalCount(WeeklyStats(t, c, today, dayName)) ==
      Count(t.logs, (l: LogEntry) => today - 6 <= c.dayOf(l.timestamp) <= today)
  {
    var since := SevenDaysAgo(c, today);
    var inWeek := (l: LogEntry) => today - 6 <= c.dayOf(l.timestamp) <= today;
    WeeklySpec(LogsSince(t.logs, since), c, today, dayName);
    WeeklyTotal(LogsSince(t.logs, since), c, today, dayName);
    forall i | 0 <= i < |t.logs| && inWeek(t.logs[i]) ensures t.logs[i].timestamp >= since {
      SevenDaysAgoWindow(c, today, t.logs[i].timestamp);
    }
    CountFiltered(t.logs, (l: LogEntry) => l.timestamp >= since, inWeek);
  }

  /** `recentLogs`: the details of the logs since `sevenDaysAgo`. */
  function RecentLogs(t: Tables, c: Calendar, today: int): seq<LogDetails> {
    LogDetailsSince(t, SevenDaysAgo(c, today))
  }

  /** The recent list holds exactly the stored logs dated six days ago or
      later (as a multiset), newest first. */
  lemma RecentLogsSpec(t: Tables, c: Calendar, today: int)
    requires Coherent(c) && UniqueKeys(t.logs, LogKey)
    ensures multiset(LogsOf(RecentLogs(t, c, today))) == multiset(LogsSince(t.logs, SevenDaysAgo(c, today)))
    ensures NewestFirst(LogsOf(RecentLogs(t, c, today)))
    ensures forall i :: 0 <= i < |t.logs| && c.dayOf(t.logs[i].timestamp) >= today - 6 ==>
      t.logs[i] in multiset(LogsOf(RecentLogs(t, c, today)))
  {
    var since := SevenDaysAgo(c, today);
    LogDetailsSinceSpec(t, since);
    LogsSinceExact(t.logs, since);
    forall i | 0 <= i < |t.logs| && c.dayOf(t.logs[i].timestamp) >= today - 6
      ensures t.logs[i] in multiset(LogsSince(t.logs, since))
    {
      SevenDaysAgoWindow(c, today, t.logs[i].timestamp);
    }
  }

  class StatsViewModel {
    const store: Store

    constructor (store: Store)
      ensures this.store == store
    {
      this.store := store;
    }

    /** `deleteLog(log)`: removes that log from the store. */
    method DeleteLog(log: LogEntry)
      requires store.Valid()
      modifies store
      ensures store.Valid()
      ensures store.Snapshot() == RemoveLog(old(store.Snapshot()), log.id)
    {
      store.DeleteLog(log);
    }
  }
}
