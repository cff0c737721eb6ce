/** The display rules of the statistics screen: the duration text, the
    emoji and phrase read back out of a note, the dialog's note text, the
    duration-or-check cell, the titles and the chart's scale. */
module StatsScreenRules {
  import opened Common
  import opened Text
  import opened Models
  import opened EchoDao
  import opened Home
  import opened Stats

  /** `formatDuration`: whole minutes (truncating) followed by "m". */
  function FormatDuration(millis: int): string {
    IntToString(Quot(Quot(millis, 1000), 60)) + "m"
  }

  /** For a non-negative duration the text is the decimal digits of the
      whole minutes, then "m". */
  lemma FormatDurationReadsBack(millis: int)
    requires millis >= 0
    ensures var r := FormatDuration(millis);
      |r| >= 2 && r[|r| - 1] == 'm' && AllDigits(r[..|r| - 1])
      && ParseNat(r[..|r| - 1]) == millis / 1000 / 60 == millis / 60000
  {
    var r := FormatDuration(millis);
    QuotRemFacts(millis, 1000);
    QuotRemFacts(millis / 1000, 60);
    var digits := NatToString(millis / 1000 / 60);
    assert r == digits + "m";
    assert r[..|r| - 1] == digits;
    ParseNatToString(millis / 1000 / 60);
  }

  /** The emoji shown in a row and in the dialog title: the mood's icon,
      else the trimmed text before the first '|' of the note, else none. */
  function DisplayEmoji(d: LogDetails): (r: Option<string>)
    ensures d.mood.Some? ==> r == Some(d.mood.value.icon)
    ensures d.mood.None? ==> (r.Some? <==> d.log.note.Some? && '|' in d.log.note.value)
    ensures r.Some? && d.mood.None? ==> IsTrimmed(r.value) && '|' !in r.value
    ensures r.Some? && d.mood.None? ==>
      exists a, b :: d.log.note.value == a + "|" + b && '|' !in a && r.value == Trim(a)
  {
    if d.mood.Some? then Some(d.mood.value.icon)
    else if d.log.note.Some? && '|' in d.log.note.value then
      var before := SubstringBefore(d.log.note.value, '|');
      SplitAtFirst(d.log.note.value, '|');
      TrimShape(before);
      assert d.log.note.value == before + "|" + SubstringAfter(d.log.note.value, '|');
      Some(Trim(before))
    else None
  }

  /** The phrase line: the trimmed text after the first '|', when the note
      has one. */
  function NotePhrase(note: Option<string>): (r: Option<string>)
    ensures r.Some? <==> note.Some? && '|' in note.value
    ensures r.Some? ==> IsTrimmed(r.value)
    ensures r.Some? ==> exists a, b :: note.value == a + "|" + b && '|' !in a && r.value == Trim(b)
  {
    if note.Some? && '|' in note.value then
      TrimShape(SubstringAfter(note.value, '|'));
      SplitAtFirst(note.value, '|');
      assert note.value == SubstringBefore(note.value, '|') + "|" + SubstringAfter(note.value, '|');
      Some(Trim(SubstringAfter(note.value, '|')))
    else None
  }

  /** Any note the form `a + "|" + b` with no '|' in `a` (so the '|' is the
      first one) shows the trimmed `a` as its emoji when no mood is joined,
      and the trimmed `b` as its phrase. */
  lemma NoteSplitReadsBack(d: LogDetails, a: string, b: string)
    requires d.mood.None? && d.log.note == Some(a + "|" + b) && '|' !in a
    ensures DisplayEmoji(d) == Some(Trim(a))
    ensures NotePhrase(d.log.note) == Some(Trim(b))
  {
    assert a + "|" + b == a + ['|'] + b;
    SplitJoined(a, '|', b);
    assert '|' in d.log.note.value by {
      assert d.log.note.value[|a|] == '|';
    }
  }

  /** The texts taken from a note are already trimmed: trimming them again
      changes nothing. */
  lemma DisplayedTextsTrimmed(d: LogDetails)
    ensures d.mood.None? && DisplayEmoji(d).Some? ==> Trim(DisplayEmoji(d).value) == DisplayEmoji(d).value
    ensures NotePhrase(d.log.note).Some? ==> Trim(NotePhrase(d.log.note).value) == NotePhrase(d.log.note).value
  {
    if d.mood.None? && DisplayEmoji(d).Some? {
      TrimFixedPoint(DisplayEmoji(d).value);
    }
    if NotePhrase(d.log.note).Some? {
      TrimFixedPoint(NotePhrase(d.log.note).value);
    }
  }

  /** The note text in the dialog: shown only for a non-blank note whose
      displayed text (the trimmed part after the first '|', or the whole
      note without one) is also non-blank. */
  function DialogNote(note: Option<string>): (r: Option<string>)
    ensures r.Some? ==> note.Some? && !IsBlank(note.value) && !IsBlank(r.value)
    ensures r.Some? && '|' !in note.value ==> r.value == note.value
    ensures r.Some? && '|' in note.value ==> Some(r.value) == NotePhrase(note)
    ensures note.Some? && !IsBlank(note.value) && '|' !in note.value ==> r == note
  {
    if note.None? || IsBlank(note.value) then None
    else
      var display := if '|' in note.value then Trim(SubstringAfter(note.value, '|')) else note.value;
      if IsBlank(display) then None else Some(display)
  }

  /** Every note with a '|' and a non-blank phrase shows that phrase in the
      dialog; a blank phrase hides the note altogether. */
  lemma DialogNoteOfPhrase(note: string)
    requires '|' in note
    ensures NotePhrase(Some(note)).Some?
    ensures DialogNote(Some(note)) == (if NotePhrase(Some(note)).value == [] then None else NotePhrase(Some(note)))
  {
    var p := Trim(SubstringAfter(note, '|'));
    BlankIffTrimEmpty(SubstringAfter(note, '|'));
    TrimShape(SubstringAfter(note, '|'));
    BlankIffTrimEmpty(p);
    SplitAtFirst(note, '|');
  }

  /** The right-hand cell of a row. */
  datatype Trailing = DurationText(text: string) | CheckMark | NoMark

  /** A positive duration (absent counts as 0) shows as text; otherwise a
      check mark appears exactly when the log's habit still exists. */
  function TrailingCell(d: LogDetails): (r: Trailing)
    ensures r.DurationText? <==> d.log.duration.Some? && d.log.duration.value > 0
    ensures r.DurationText? ==> r.text == FormatDuration(d.log.duration.value)
    ensures r.CheckMark? <==> !(d.log.duration.Some? && d.log.duration.value > 0) && d.habit.Some?
  {
    var duration := if d.log.duration.Some? then d.log.duration.value else 0;
    if duration > 0 then DurationText(FormatDuration(duration))
    else if d.habit.Some? then CheckMark
    else NoMark
  }

  /** Where a log's title is shown: a row of the list, or the dialog. */
  datatype Place = ListRow | Dialog

  /** A log's title: the habit name it was written with, else "Mood Log"
      in the list and "Mood Check-in" in the dialog. */
  function LogTitle(log: LogEntry, place: Place): (r: string)
    ensures log.habitName.Some? ==> r == log.habitName.value
    ensures log.habitName.None? && place == ListRow ==> r == "Mood Log"
    ensures log.habitName.None? && place == Dialog ==> r == "Mood Check-in"
  {
    if log.habitName.Some? then log.habitName.value
    else if place == ListRow then "Mood Log"
    else "Mood Check-in"
  }

  /** A mood check-in written by the home screen reads back on the
      statistics screen: the emoji and the phrase come back unchanged (the
      phrase may itself contain '|'), no duration and no check mark are
      shown, and both titles say "Mood Check-in". */
  lemma MoodNoteRoundTrip(moodEmoji: string, phrase: string, now: int, hs: seq<Habit>, ms: seq<Mood>)
    requires '|' !in moodEmoji && IsTrimmed(moodEmoji) && IsTrimmed(phrase)
    ensures var d := Details(MoodLog(moodEmoji, phrase, now), hs, ms);
      DisplayEmoji(d) == Some(moodEmoji)
      && NotePhrase(d.log.note) == Some(phrase)
      && (DialogNote(d.log.note) == if phrase == [] then None else Some(phrase))
      && TrailingCell(d) == NoMark
      && LogTitle(d.log, ListRow) == MoodCheckIn && LogTitle(d.log, Dialog) == MoodCheckIn
  {
    var note := moodEmoji + " | " + phrase;
    assert note == (moodEmoji + " ") + ['|'] + (" " + phrase);
    assert '|' !in moodEmoji + " ";
    SplitJoined(moodEmoji + " ", '|', " " + phrase);
    assert IsBlank(" ");
    assert IsBlank("");
    TrimPadded("", moodEmoji, " ");
    assert "" + moodEmoji + " " == moodEmoji + " ";
    TrimPadded(" ", phrase, "");
    assert " " + phrase + "" == " " + phrase;
    DialogNoteOfPhrase(note);
  }

  /** After its habit is deleted, a log's details lose the habit (and with
      it the check mark) while the title still shows the name captured when
      the log was written. */
  lemma HabitDeletedKeepsSnapshot(t: Tables, id: int, i: nat)
    requires Consistent(t) && i < |t.logs| && t.logs[i].habitId == Some(id)
    ensures var r := RemoveHabit(t, id);
      var d := Details(r.logs[i], r.habits, r.moods);
      i < |r.logs| && d.habit.None? && d.log.habitName == t.logs[i].habitName
      && LogTitle(d.log, ListRow) == LogTitle(t.logs[i], ListRow)
      && LogTitle(d.log, Dialog) == LogTitle(t.logs[i], Dialog)
      && (t.logs[i].duration.None? ==> TrailingCell(d) == NoMark)
  {
    RemoveHabitEffect(t, id);
    SetNullHabitEffect(t.logs, id);
  }

  /** Kotlin's `maxOfOrNull { it.totalCount }`. */
  function MaxOfCounts(stats: seq<DailyStat>): (r: Option<int>)
    ensures r.None? <==> stats == []
    ensures r.Some? ==> forall i :: 0 <= i < |stats| ==> stats[i].totalCount <= r.value
    ensures r.Some? ==> exists i :: 0 <= i < |stats| && stats[i].totalCount == r.value
    decreases |stats|
  {
    if stats == [] then None
    else
      var rest := MaxOfCounts(stats[..|stats| - 1]);
      var last := stats[|stats| - 1].totalCount;
      assert forall i :: 0 <= i < |stats| - 1 ==> stats[..|stats| - 1][i] == stats[i];
      if rest.Some? && rest.value >= last then rest else Some(last)
  }

  /** `maxCount`: the largest bar if it is positive, else 1; at least 1,
      never below any bar, and either some bar's value or 1. */
  function MaxCount(stats: seq<DailyStat>): (r: int)
    ensures r >= 1
    ensures forall i :: 0 <= i < |stats| ==> stats[i].totalCount <= r
    ensures r == 1 || exists i :: 0 <= i < |stats| && stats[i].totalCount == r
    ensures (exists i :: 0 <= i < |stats| && stats[i].totalCount > 0) ==>
      exists i :: 0 <= i < |stats| && stats[i].totalCount == r
  {
    var m := MaxOfCounts(stats);
    if m.Some? && m.value > 0 then m.value else 1
  }
}
