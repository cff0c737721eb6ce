/** The database callback of `EchoDatabase`: on creation and on every
    open, one transaction runs five `INSERT OR IGNORE` statements for the
    moods with ids 1 to 5. */
module EchoDatabase {
  import opened Common
  import opened Models
  import opened EchoDao

  /** The five moods, in statement order. */
  const SeedMoods: seq<Mood> := [
    Mood(1, "Great", "\U{1F604}"),
    Mood(2, "Good", "\U{1F642}"),
    Mood(3, "Okay", "\U{1F610}"),
    Mood(4, "Low", "\U{1F614}"),
    Mood(5, "Bad", "\U{1F62B}")]

  /** `INSERT OR IGNORE INTO moods (id, label, icon)` with an explicit id:
      nothing happens when the id is taken. */
  function InsertOrIgnoreMood(t: Tables, m: Mood): Tables {
    if HasKey(t.moods, MoodKey, m.id) then t
    else t.(moods := t.moods + [m], moodSeq := Max(t.moodSeq, m.id))
  }

  /** The statements of one transaction, in order. */
  function InsertAllOrIgnore(t: Tables, ms: seq<Mood>): Tables
    decreases |ms|
  {
    if ms == [] then t else InsertAllOrIgnore(InsertOrIgnoreMood(t, ms[0]), ms[1..])
  }

  /** The tables after a committed seeding transaction. */
  function Seeded(t: Tables): Tables {
    InsertAllOrIgnore(t, SeedMoods)
  }

  // ---------------------------------------------------------------------
  // Lemmas about a run of INSERT OR IGNORE statements
  // ---------------------------------------------------------------------

  /** Only the moods table and its sequence change, and existing mood rows
      stay where they are, unchanged: new rows are only appended. */
  lemma {:induction false} InsertAllKeepsRest(t: Tables, ms: seq<Mood>)
    ensures var r := InsertAllOrIgnore(t, ms);
      r.habits == t.habits && r.logs == t.logs && r.habitSeq == t.habitSeq && r.logSeq == t.logSeq
      && |r.moods| >= |t.moods| && r.moods[..|t.moods|] == t.moods
    decreases |ms|
  {
    if ms != [] {
      var t' := InsertOrIgnoreMood(t, ms[0]);
      InsertAllKeepsRest(t', ms[1..]);
      assert t'.moods[..|t.moods|] == t.moods;
    }
  }

  /** After the run, every statement's id is present. */
  lemma {:induction false} InsertAllPresent(t: Tables, ms: seq<Mood>, k: int)
    requires HasKey(t.moods, MoodKey, k) || HasKey(ms, MoodKey, k)
    ensures HasKey(InsertAllOrIgnore(t, ms).moods, MoodKey, k)
    decreases |ms|
  {
    if ms != [] {
      var t' := InsertOrIgnoreMood(t, ms[0]);
      if HasKey(t.moods, MoodKey, k) {
        var j :| 0 <= j < |t.moods| && t.moods[j].id == k;
        assert t'.moods[j] == t.moods[j];
      } else if ms[0].id == k {
        assert t'.moods[|t'.moods| - 1] == ms[0] || HasKey(t.moods, MoodKey, k);
      } else {
        var j :| 0 <= j < |ms| && ms[j].id == k;
        assert ms[1..][j - 1] == ms[j];
      }
      InsertAllPresent(t', ms[1..], k);
    }
  }

  /** A run whose ids are all present already changes nothing. */
  lemma {:induction false} InsertAllNoOp(t: Tables, ms: seq<Mood>)
    requires forall i :: 0 <= i < |ms| ==> HasKey(t.moods, MoodKey, ms[i].id)
    ensures InsertAllOrIgnore(t, ms) == t
    decreases |ms|
  {
    if ms != [] {
      assert forall i :: 0 <= i < |ms[1..]| ==> ms[1..][i] == ms[i + 1];
      InsertAllNoOp(t, ms[1..]);
    }
  }

  /** An id that was absent ends up holding the statement's row for it. */
  lemma {:induction false} InsertAllFills(t: Tables, ms: seq<Mood>, i: nat)
    requires UniqueKeys(ms, MoodKey) && i < |ms|
    requires !HasKey(t.moods, MoodKey, ms[i].id)
    ensures Lookup(InsertAllOrIgnore(t, ms).moods, MoodKey, ms[i].id) == Some(ms[i])
    decreases |ms|
  {
    var t' := InsertOrIgnoreMood(t, ms[0]);
    if i == 0 {
      InsertAllKeepsRest(t', ms[1..]);
      var r := InsertAllOrIgnore(t', ms[1..]);
      assert t'.moods == t.moods + [ms[0]];
      assert t'.moods[|t.moods|] == ms[0];
      LookupPrefix(t'.moods, r.moods, ms[0].id);
      LookupAfterMiss(t.moods, ms[0]);
    } else {
      var tail := ms[1..];
      assert tail[i - 1] == ms[i];
      assert UniqueKeys(tail, MoodKey) by {
        forall a, b | 0 <= a < b < |tail| ensures tail[a].id != tail[b].id {
          assert tail[a] == ms[a + 1] && tail[b] == ms[b + 1];
        }
      }
      assert ms[0].id != ms[i].id;
      forall j | 0 <= j < |t'.moods| ensures t'.moods[j].id != ms[i].id {
        if j < |t.moods| {
          assert t'.moods[j] == t.moods[j];
        }
      }
      InsertAllFills(t', tail, i - 1);
    }
  }

  /** Lookups in a table are not affected by rows appended after it. */
  lemma {:induction false} LookupPrefix(a: seq<Mood>, b: seq<Mood>, k: int)
    requires HasKey(a, MoodKey, k) && |b| >= |a| && b[..|a|] == a
    ensures Lookup(b, MoodKey, k) == Lookup(a, MoodKey, k)
    decreases |a|
  {
    assert b[0] == a[0];
    if a[0].id != k {
      assert HasKey(a[1..], MoodKey, k) by {
        var j :| 0 <= j < |a| && MoodKey(a[j]) == k;
        assert a[1..][j - 1] == a[j];
      }
      assert b[1..][..|a| - 1] == a[1..];
      LookupPrefix(a[1..], b[1..], k);
    }
  }

  lemma LookupAfterMiss(a: seq<Mood>, m: Mood)
    requires !HasKey(a, MoodKey, m.id)
    ensures Lookup(a + [m], MoodKey, m.id) == Some(m)
  {
    LookupFirst(a + [m], MoodKey, m.id);
    var j :| 0 <= j < |a + [m]| && (a + [m])[j].id == m.id && Lookup(a + [m], MoodKey, m.id) == Some((a + [m])[j]);
    if j < |a| {
      assert (a + [m])[j] == a[j];
    }
  }

  /** `Lookup` finds the first row with the key. */
  lemma {:induction false} LookupFirst<T>(s: seq<T>, key: T -> int, k: int)
    requires HasKey(s, key, k)
    ensures exists j :: (0 <= j < |s| && key(s[j]) == k && Lookup(s, key, k) == Some(s[j])
                         && forall j' :: 0 <= j' < j ==> key(s[j']) != k)
    decreases |s|
  {
    if key(s[0]) != k {
      var t := s[1..];
      assert HasKey(t, key, k) by {
        var j :| 0 <= j < |s| && key(s[j]) == k;
        assert t[j - 1] == s[j];
      }
      LookupFirst(t, key, k);
      var j :| 0 <= j < |t| && key(t[j]) == k && Lookup(t, key, k) == Some(t[j])
        && forall j' :: 0 <= j' < j ==> key(t[j']) != k;
      assert s[j + 1] == t[j];
      assert forall j' :: 1 <= j' < j + 1 ==> s[j'] == t[j' - 1];
    } else {
      assert Lookup(s, key, k) == Some(s[0]);
    }
  }

  /** A run keeps the store consistent. */
  lemma {:induction false} InsertAllConsistent(t: Tables, ms: seq<Mood>)
    requires Consistent(t)
    ensures Consistent(InsertAllOrIgnore(t, ms))
    decreases |ms|
  {
    if ms != [] {
      var t' := InsertOrIgnoreMood(t, ms[0]);
      assert Consistent(t') by {
        if !HasKey(t.moods, MoodKey, ms[0].id) {
          assert forall i :: 0 <= i < |t.moods| ==> t'.moods[i] == t.moods[i];
          forall i | 0 <= i < |t.logs| && t.logs[i].moodId.Some?
            ensures HasKey(t'.moods, MoodKey, t.logs[i].moodId.value)
          {
            var j :| 0 <= j < |t.moods| && t.moods[j].id == t.logs[i].moodId.value;
            assert t'.moods[j] == t.moods[j];
          }
        }
      }
      InsertAllConsistent(t', ms[1..]);
    }
  }

  // ---------------------------------------------------------------------
  // The seeding transaction
  // ---------------------------------------------------------------------

  /** After seeding, moods 1 to 5 all exist; an id that was free holds the
      seed row (label and icon) for it, and an id that was taken keeps its
      old row: `INSERT OR IGNORE` never overwrites. Habits and logs are not
      touched and the store stays consistent. */
  lemma SeedEffect(t: Tables)
    requires Consistent(t)
    ensures forall k :: 1 <= k <= 5 ==> HasKey(Seeded(t).moods, MoodKey, k)
    ensures forall i :: 0 <= i < 5 && !HasKey(t.moods, MoodKey, SeedMoods[i].id) ==>
      Lookup(Seeded(t).moods, MoodKey, SeedMoods[i].id) == Some(SeedMoods[i])
    ensures forall k :: HasKey(t.moods, MoodKey, k) ==>
      Lookup(Seeded(t).moods, MoodKey, k) == Lookup(t.moods, MoodKey, k)
    ensures Seeded(t).habits == t.habits && Seeded(t).logs == t.logs
    ensures Consistent(Seeded(t))
  {
    forall k | 1 <= k <= 5 ensures HasKey(Seeded(t).moods, MoodKey, k) {
      assert SeedMoods[k - 1].id == k;
      InsertAllPresent(t, SeedMoods, k);
    }
    forall i | 0 <= i < 5 && !HasKey(t.moods, MoodKey, SeedMoods[i].id)
      ensures Lookup(Seeded(t).moods, MoodKey, SeedMoods[i].id) == Some(SeedMoods[i])
    {
      InsertAllFills(t, SeedMoods, i);
    }
    InsertAllKeepsRest(t, SeedMoods);
    forall k | HasKey(t.moods, MoodKey, k)
      ensures Lookup(Seeded(t).moods, MoodKey, k) == Lookup(t.moods, MoodKey, k)
    {
      LookupPrefix(t.moods, Seeded(t).moods, k);
    }
    InsertAllConsistent(t, SeedMoods);
  }

  /** On a new database (`onCreate`), the moods table becomes exactly the
      five seed moods, in id order. */
  lemma SeedOnCreate()
    ensures Seeded(Empty).moods == SeedMoods
  {
  }

  /** Seeding twice gives the same tables as seeding once, so running the
      transaction in `onCreate` and again in every `onOpen` is harmless. */
  lemma SeedIdempotent(t: Tables)
    ensures Seeded(Seeded(t)) == Seeded(t)
  {
    forall i | 0 <= i < |SeedMoods| ensures HasKey(Seeded(t).moods, MoodKey, SeedMoods[i].id) {
      InsertAllPresent(t, SeedMoods, SeedMoods[i].id);
    }
    InsertAllNoOp(Seeded(t), SeedMoods);
  }

  /** One `execSQL("INSERT OR IGNORE ...")`. */
  method ExecInsertOrIgnore(store: Store, m: Mood)
    modifies store
    ensures store.Snapshot() == InsertOrIgnoreMood(old(store.Snapshot()), m)
  {
    store.Load(InsertOrIgnoreMood(store.Snapshot(), m));
  }

  /** `onCreate` / `onOpen`: begin a transaction, run the five statements,
      mark it successful and end it. `failAt` is the index of a statement
      that throws (none when it is 5 or more); then the `finally` block
      ends the transaction without it being marked successful, so it is
      rolled back: all five statements apply or none does. There is no
      `catch`: `committed == false` stands for the exception leaving
      `onCreate`/`onOpen` after the rollback, which makes opening the
      database fail. */
  method SeedTransaction(store: Store, failAt: nat) returns (committed: bool)
    requires store.Valid()
    modifies store
    ensures store.Valid()
    ensures committed <==> failAt >= 5
    ensures committed ==> store.Snapshot() == Seeded(old(store.Snapshot()))
    ensures !committed ==> store.Snapshot() == old(store.Snapshot())
  {
    var saved := store.Snapshot();
    committed := false;
    if failAt == 0 { store.Load(saved); return; }
    ExecInsertOrIgnore(store, SeedMoods[0]);
    if failAt == 1 { store.Load(saved); return; }
    ExecInsertOrIgnore(store, SeedMoods[1]);
    if failAt == 2 { store.Load(saved); return; }
    ExecInsertOrIgnore(store, SeedMoods[2]);
    if failAt == 3 { store.Load(saved); return; }
    ExecInsertOrIgnore(store, SeedMoods[3]);
    if failAt == 4 { store.Load(saved); return; }
    ExecInsertOrIgnore(store, SeedMoods[4]);
    committed := true;
    assert store.Snapshot() == Seeded(saved);
    InsertAllConsistent(saved, SeedMoods);
  }
}
