/** Kotlin's nullable types and the list operations the model shares. */
module Common {

  /** A Kotlin `T?`: `None` stands for `null`. */
  datatype Option<T> = None | Some(value: T)

  /** Kotlin's `filter`: the elements satisfying `p`, in their order. */
  function Filter<T(==)>(s: seq<T>, p: T -> bool): (r: seq<T>)
    ensures |r| <= |s|
    ensures forall i :: 0 <= i < |r| ==> r[i] in s && p(r[i])
    ensures forall i :: 0 <= i < |s| && p(s[i]) ==> s[i] in r
    decreases |s|
  {
    if s == [] then []
    else
      var rest := Filter(s[1..], p);
      assert forall i :: 1 <= i < |s| ==> s[i] == s[1..][i - 1];
      if p(s[0]) then [s[0]] + rest else rest
  }

  /** Filtering distributes over concatenation. */
  lemma {:induction false} FilterAppend<T>(a: seq<T>, b: seq<T>, p: T -> bool)
    ensures Filter(a + b, p) == Filter(a, p) + Filter(b, p)
    decreases |a|
  {
    if a == [] {
      assert a + b == b;
    } else {
      assert (a + b)[1..] == a[1..] + b;
      assert (a + b)[0] == a[0];
      FilterAppend(a[1..], b, p);
    }
  }

  /** How many elements satisfy `p` (Kotlin's `count { }`). */
  function Count<T(==)>(s: seq<T>, p: T -> bool): nat {
    |Filter(s, p)|
  }

  /** No element satisfies `p`: the count is zero. */
  lemma {:induction false} CountNone<T>(s: seq<T>, p: T -> bool)
    requires forall i :: 0 <= i < |s| ==> !p(s[i])
    ensures Count(s, p) == 0
    decreases |s|
  {
    if s != [] {
      assert forall i :: 0 <= i < |s[1..]| ==> s[1..][i] == s[i + 1];
      CountNone(s[1..], p);
    }
  }

  /** Elements satisfying at most one of two predicates split the count
      of their union `either`. */
  lemma {:induction false} CountDisjoint<T>(s: seq<T>, p: T -> bool, q: T -> bool, either: T -> bool)
    requires forall i :: 0 <= i < |s| ==> !(p(s[i]) && q(s[i]))
    requires forall i :: 0 <= i < |s| ==> (either(s[i]) <==> p(s[i]) || q(s[i]))
    ensures Count(s, either) == Count(s, p) + Count(s, q)
    decreases |s|
  {
    if s != [] {
      assert forall i :: 0 <= i < |s[1..]| ==> s[1..][i] == s[i + 1];
      CountDisjoint(s[1..], p, q, either);
    }
  }

  /** Counting with a predicate that agrees with another on `s`. */
  lemma {:induction false} CountCongruent<T>(s: seq<T>, p: T -> bool, q: T -> bool)
    requires forall i :: 0 <= i < |s| ==> (p(s[i]) <==> q(s[i]))
    ensures Count(s, p) == Count(s, q)
    decreases |s|
  {
    if s != [] {
      assert forall i :: 0 <= i < |s[1..]| ==> s[1..][i] == s[i + 1];
      CountCongruent(s[1..], p, q);
    }
  }

  // -----------------------------------------------------------------------
  // Tables of rows identified by an integer key
  // -----------------------------------------------------------------------

  /** Some row has key `k`. */
  predicate HasKey<T>(s: seq<T>, key: T -> int, k: int) {
    exists j :: 0 <= j < |s| && key(s[j]) == k
  }

  /** No two rows share a key (a primary key). */
  predicate UniqueKeys<T>(s: seq<T>, key: T -> int) {
    forall a, b :: 0 <= a < b < |s| ==> key(s[a]) != key(s[b])
  }

  /** The first row with key `k`, if any. */
  function Lookup<T>(s: seq<T>, key: T -> int, k: int): (r: Option<T>)
    ensures r.Some? <==> HasKey(s, key, k)
    ensures r.Some? ==> key(r.value) == k && exists j :: 0 <= j < |s| && s[j] == r.value
    decreases |s|
  {
    if s == [] then None
    else if key(s[0]) == k then Some(s[0])
    else
      assert forall j :: 1 <= j < |s| ==> s[j] == s[1..][j - 1];
      assert HasKey(s, key, k) ==> HasKey(s[1..], key, k);
      Lookup(s[1..], key, k)
  }

  /** With unique keys, looking up a row's key finds that row. */
  lemma LookupUnique<T>(s: seq<T>, key: T -> int, j: nat)
    requires UniqueKeys(s, key) && j < |s|
    ensures Lookup(s, key, key(s[j])) == Some(s[j])
  {
    assert HasKey(s, key, key(s[j]));
  }

  /** Store `row` under its key: the row with that key is replaced where
      it stands, or `row` is appended when the key is new. */
  function Put<T>(s: seq<T>, key: T -> int, row: T): (r: seq<T>)
    ensures HasKey(s, key, key(row)) ==> |r| == |s|
    ensures !HasKey(s, key, key(row)) ==> |r| == |s| + 1 && r[|s|] == row
    ensures forall i :: 0 <= i < |s| ==> r[i] == (if key(s[i]) == key(row) then row else s[i])
  {
    if HasKey(s, key, key(row)) then
      seq(|s|, i requires 0 <= i < |s| => if key(s[i]) == key(row) then row else s[i])
    else s + [row]
  }

  /** `Put` keeps keys unique, makes `row` the row for its key, and leaves
      the row for every other key as it was; the table grows by one exactly
      when the key is new. */
  lemma PutEffect<T>(s: seq<T>, key: T -> int, row: T)
    requires UniqueKeys(s, key)
    ensures UniqueKeys(Put(s, key, row), key)
    ensures Lookup(Put(s, key, row), key, key(row)) == Some(row)
    ensures forall k :: k != key(row) ==> Lookup(Put(s, key, row), key, k) == Lookup(s, key, k)
    ensures |Put(s, key, row)| == if HasKey(s, key, key(row)) then |s| else |s| + 1
  {
    var r := Put(s, key, row);
    assert forall i :: 0 <= i < |r| ==> key(r[i]) == (if i < |s| then key(s[i]) else key(row));
    assert UniqueKeys(r, key);
    var jr: nat :| jr < |r| && r[jr] == row by {
      if HasKey(s, key, key(row)) {
        var j :| 0 <= j < |s| && key(s[j]) == key(row);
        assert r[j] == row;
      } else {
        assert r[|s|] == row;
      }
    }
    LookupUnique(r, key, jr);
    forall k | k != key(row)
      ensures Lookup(r, key, k) == Lookup(s, key, k)
    {
      if HasKey(s, key, k) {
        var j :| 0 <= j < |s| && key(s[j]) == k;
        assert r[j] == s[j];
        LookupUnique(r, key, j);
        LookupUnique(s, key, j);
      } else {
        assert !HasKey(r, key, k);
      }
    }
  }

  /** Delete the row with key `k` (by primary key). */
  function RemoveKey<T(==)>(s: seq<T>, key: T -> int, k: int): seq<T> {
    Filter(s, x => key(x) != k)
  }

  /** Filtering keeps keys unique. */
  lemma {:induction false} FilterUnique<T>(s: seq<T>, p: T -> bool, key: T -> int)
    requires UniqueKeys(s, key)
    ensures UniqueKeys(Filter(s, p), key)
    decreases |s|
  {
    if s != [] {
      var t := s[1..];
      assert UniqueKeys(t, key) by {
        forall a, b | 0 <= a < b < |t| ensures key(t[a]) != key(t[b]) {
          assert t[a] == s[a + 1] && t[b] == s[b + 1];
        }
      }
      FilterUnique(t, p, key);
      var rest := Filter(t, p);
      forall i | 0 <= i < |rest| ensures key(rest[i]) != key(s[0]) {
        var j :| 0 <= j < |t| && t[j] == rest[i];
        assert t[j] == s[j + 1];
      }
    }
  }

  /** Removing key `k` leaves no row with that key and every other key's
      row as it was; exactly one row goes when the key was present. */
  lemma RemoveKeyEffect<T>(s: seq<T>, key: T -> int, k: int)
    requires UniqueKeys(s, key)
    ensures UniqueKeys(RemoveKey(s, key, k), key)
    ensures !HasKey(RemoveKey(s, key, k), key, k)
    ensures forall k' :: k' != k ==> Lookup(RemoveKey(s, key, k), key, k') == Lookup(s, key, k')
    ensures |RemoveKey(s, key, k)| == if HasKey(s, key, k) then |s| - 1 else |s|
  {
    var p := x => key(x) != k;
    var r := Filter(s, p);
    FilterUnique(s, p, key);
    forall k' | k' != k
      ensures Lookup(r, key, k') == Lookup(s, key, k')
    {
      if HasKey(s, key, k') {
        var j :| 0 <= j < |s| && key(s[j]) == k';
        assert s[j] in r;
        var jr :| 0 <= jr < |r| && r[jr] == s[j];
        LookupUnique(r, key, jr);
        LookupUnique(s, key, j);
      } else {
        forall i | 0 <= i < |r| ensures key(r[i]) != k' {
          var j :| 0 <= j < |s| && s[j] == r[i];
        }
      }
    }
    RemoveKeyLength(s, key, k);
  }

  lemma {:induction false} RemoveKeyLength<T>(s: seq<T>, key: T -> int, k: int)
    requires UniqueKeys(s, key)
    ensures |RemoveKey(s, key, k)| == if HasKey(s, key, k) then |s| - 1 else |s|
    decreases |s|
  {
    if s != [] {
      var t := s[1..];
      assert UniqueKeys(t, key) by {
        forall a, b | 0 <= a < b < |t| ensures key(t[a]) != key(t[b]) {
          assert t[a] == s[a + 1] && t[b] == s[b + 1];
        }
      }
      RemoveKeyLength(t, key, k);
      assert RemoveKey(s, key, k) == (if key(s[0]) != k then [s[0]] else []) + RemoveKey(t, key, k);
      if key(s[0]) == k {
        assert !HasKey(t, key, k) by {
          forall j | 0 <= j < |t| ensures key(t[j]) != k {
            assert t[j] == s[j + 1];
          }
        }
      } else {
        assert HasKey(s, key, k) <==> HasKey(t, key, k) by {
          if HasKey(s, key, k) {
            var j :| 0 <= j < |s| && key(s[j]) == k;
            assert t[j - 1] == s[j];
          }
          if HasKey(t, key, k) {
            var j :| 0 <= j < |t| && key(t[j]) == k;
            assert s[j + 1] == t[j];
          }
        }
      }
    }
  }

  /** Counting a sub-property over a filtered list: when `q` implies `p`,
      filtering by `p` first loses nothing `q` counts. */
  lemma {:induction false} CountFiltered<T>(s: seq<T>, p: T -> bool, q: T -> bool)
    requires forall i :: 0 <= i < |s| ==> q(s[i]) ==> p(s[i])
    ensures Count(Filter(s, p), q) == Count(s, q)
    decreases |s|
  {
    if s != [] {
      assert forall i :: 0 <= i < |s[1..]| ==> s[1..][i] == s[i + 1];
      CountFiltered(s[1..], p, q);
      if p(s[0]) {
        assert Filter(s, p) == [s[0]] + Filter(s[1..], p);
        assert Filter(s, p)[1..] == Filter(s[1..], p);
      }
    }
  }
}
