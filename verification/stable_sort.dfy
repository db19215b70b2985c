/** A stable sort into non-increasing order of an extended-real key.

    JavaScript's `Array.prototype.sort` is stable, and every sort in the
    pipeline orders by a descending numeric key (`b.x - a.x`).  This module
    models all of them with one insertion sort and states its contract as
    sortedness, permutation and stability: for every key value, the elements
    carrying that key keep their original relative order. */
module StableSort {
  import opened ExtReals

  /** Every element's key is at least the key of every later element. */
  ghost predicate SortedDesc<T>(s: seq<T>, key: T -> ExtReal) {
    forall i, j | 0 <= i < j < |s| :: Le(key(s[j]), key(s[i]))
  }

  /** No two elements share an identity. */
  ghost predicate DistinctBy<T, K>(s: seq<T>, id: T -> K) {
    forall i, j | 0 <= i < j < |s| :: id(s[i]) != id(s[j])
  }

  /** The subsequence of `s` whose key is exactly `k`, in order. */
  function WithKey<T>(s: seq<T>, key: T -> ExtReal, k: ExtReal): seq<T> {
    if |s| == 0 then []
    else WithKey(s[..|s| - 1], key, k) + (if key(s[|s| - 1]) == k then [s[|s| - 1]] else [])
  }

  lemma {:induction false} WithKeyConcat<T>(a: seq<T>, b: seq<T>, key: T -> ExtReal, k: ExtReal)
    ensures WithKey(a + b, key, k) == WithKey(a, key, k) + WithKey(b, key, k)
    decreases |b|
  {
    if |b| == 0 {
      assert a + b == a;
    } else {
      assert (a + b)[..|a + b| - 1] == a + b[..|b| - 1];
      WithKeyConcat(a, b[..|b| - 1], key, k);
    }
  }

  lemma {:induction false} WithKeyAbsent<T>(s: seq<T>, key: T -> ExtReal, k: ExtReal)
    requires forall i | 0 <= i < |s| :: key(s[i]) != k
    ensures WithKey(s, key, k) == []
    decreases |s|
  {
    if |s| > 0 {
      WithKeyAbsent(s[..|s| - 1], key, k);
    }
  }

  /** Places `x` after every element whose key is at least its own. */
  function Insert<T>(x: T, s: seq<T>, key: T -> ExtReal): (r: seq<T>)
    ensures |r| == |s| + 1
  {
    if |s| == 0 then [x]
    else if Le(key(x), key(s[0])) then [s[0]] + Insert(x, s[1..], key)
    else [x] + s
  }

  /** Inserting adds `x` and loses nothing. */
  lemma {:induction false} InsertPermutes<T>(x: T, s: seq<T>, key: T -> ExtReal)
    ensures multiset(Insert(x, s, key)) == multiset(s) + multiset{x}
    decreases |s|
  {
    if |s| > 0 && Le(key(x), key(s[0])) {
      InsertPermutes(x, s[1..], key);
      assert s == [s[0]] + s[1..];
    }
  }

  lemma {:induction false} InsertSorted<T>(x: T, s: seq<T>, key: T -> ExtReal)
    requires SortedDesc(s, key)
    ensures SortedDesc(Insert(x, s, key), key)
    decreases |s|
  {
    if |s| > 0 && Le(key(x), key(s[0])) {
      var t := Insert(x, s[1..], key);
      InsertSorted(x, s[1..], key);
      InsertPermutes(x, s[1..], key);
      forall j | 0 <= j < |t|
        ensures Le(key(t[j]), key(s[0]))
      {
        assert t[j] in multiset(t);
        assert t[j] in multiset(s[1..]) || t[j] == x;
        if t[j] != x {
          var m :| 0 <= m < |s[1..]| && s[1..][m] == t[j];
          assert s[m + 1] == t[j];
        }
      }
    }
  }

  lemma WithKeySingle<T>(x: T, key: T -> ExtReal, k: ExtReal)
    ensures WithKey([x], key, k) == if key(x) == k then [x] else []
  {
    assert [x][..0] == [];
  }

  lemma {:induction false} InsertStable<T>(x: T, s: seq<T>, key: T -> ExtReal, k: ExtReal)
    requires SortedDesc(s, key)
    ensures WithKey(Insert(x, s, key), key, k)
         == WithKey(s, key, k) + (if key(x) == k then [x] else [])
    decreases |s|
  {
    WithKeySingle(x, key, k);
    if |s| == 0 {
    } else if Le(key(x), key(s[0])) {
      InsertStable(x, s[1..], key, k);
      InsertStableFront(x, s, key, k);
    } else {
      InsertStableAhead(x, s, key, k);
    }
  }

  lemma InsertStableFront<T>(x: T, s: seq<T>, key: T -> ExtReal, k: ExtReal)
    requires |s| > 0 && Le(key(x), key(s[0]))
    requires WithKey(Insert(x, s[1..], key), key, k)
          == WithKey(s[1..], key, k) + WithKey([x], key, k)
    ensures WithKey(Insert(x, s, key), key, k) == WithKey(s, key, k) + WithKey([x], key, k)
  {
    var t := Insert(x, s[1..], key);
    assert Insert(x, s, key) == [s[0]] + t;
    WithKeyConcat([s[0]], t, key, k);
    WithKeyConcat([s[0]], s[1..], key, k);
    assert [s[0]] + s[1..] == s;
  }

  lemma InsertStableAhead<T>(x: T, s: seq<T>, key: T -> ExtReal, k: ExtReal)
    requires SortedDesc(s, key)
    requires |s| > 0 && !Le(key(x), key(s[0]))
    ensures WithKey(Insert(x, s, key), key, k) == WithKey(s, key, k) + WithKey([x], key, k)
  {
    assert Insert(x, s, key) == [x] + s;
    WithKeyConcat([x], s, key, k);
    WithKeySingle(x, key, k);
    if key(x) == k {
      forall i | 0 <= i < |s|
        ensures key(s[i]) != k
      {
        if i > 0 {
          assert Le(key(s[i]), key(s[0]));
        }
      }
      WithKeyAbsent(s, key, k);
    }
  }

  lemma {:induction false} InsertDistinct<T, K>(x: T, s: seq<T>, key: T -> ExtReal, id: T -> K)
    requires DistinctBy(s, id)
    requires forall i | 0 <= i < |s| :: id(s[i]) != id(x)
    ensures DistinctBy(Insert(x, s, key), id)
    decreases |s|
  {
    if |s| > 0 && Le(key(x), key(s[0])) {
      var t := Insert(x, s[1..], key);
      InsertDistinct(x, s[1..], key, id);
      InsertPermutes(x, s[1..], key);
      forall j | 0 <= j < |t|
        ensures id(t[j]) != id(s[0])
      {
        assert t[j] in multiset(t);
        assert t[j] in multiset(s[1..]) || t[j] == x;
        if t[j] != x {
          var m :| 0 <= m < |s[1..]| && s[1..][m] == t[j];
          assert s[m + 1] == t[j];
        }
      }
    }
  }

  /** Stable insertion sort, non-increasing in `key` (its contract is
      `SortPermutes`, `SortSorted` and `SortStable`). */
  function Sort<T>(s: seq<T>, key: T -> ExtReal): (r: seq<T>)
    ensures |r| == |s|
    decreases |s|
  {
    if |s| == 0 then []
    else Insert(s[|s| - 1], Sort(s[..|s| - 1], key), key)
  }

  /** The sorted list holds the same elements, as often as the input. */
  lemma {:induction false} SortPermutes<T>(s: seq<T>, key: T -> ExtReal)
    ensures multiset(Sort(s, key)) == multiset(s)
    decreases |s|
  {
    if |s| > 0 {
      var init := s[..|s| - 1];
      var last := s[|s| - 1];
      calc {
        multiset(Sort(s, key));
        { assert Sort(s, key) == Insert(last, Sort(init, key), key); }
        multiset(Insert(last, Sort(init, key), key));
        { InsertPermutes(last, Sort(init, key), key); }
        multiset(Sort(init, key)) + multiset{last};
        { SortPermutes(init, key); }
        multiset(init) + multiset{last};
        { assert multiset([last]) == multiset{last}; }
        multiset(init) + multiset([last]);
        multiset(init + [last]);
        { assert s == init + [last]; }
        multiset(s);
      }
    }
  }

  /** The sorted list is in non-increasing key order. */
  lemma {:induction false} SortSorted<T>(s: seq<T>, key: T -> ExtReal)
    ensures SortedDesc(Sort(s, key), key)
    decreases |s|
  {
    if |s| > 0 {
      var init := s[..|s| - 1];
      SortSorted(init, key);
      InsertSorted(s[|s| - 1], Sort(init, key), key);
    }
  }

  /** Elements that share a key keep their original relative order. */
  lemma {:induction false} SortStable<T>(s: seq<T>, key: T -> ExtReal, k: ExtReal)
    ensures WithKey(Sort(s, key), key, k) == WithKey(s, key, k)
    decreases |s|
  {
    if |s| > 0 {
      var init := s[..|s| - 1];
      var last := s[|s| - 1];
      var t := Sort(init, key);
      var tail := if key(last) == k then [last] else [];
      calc {
        WithKey(Sort(s, key), key, k);
        { assert Sort(s, key) == Insert(last, t, key); }
        WithKey(Insert(last, t, key), key, k);
        { SortSorted(init, key); InsertStable(last, t, key, k); }
        WithKey(t, key, k) + tail;
        { SortStable(init, key, k); }
        WithKey(init, key, k) + tail;
      }
    }
  }

  /** Sorting never makes two elements share an identity. */
  lemma {:induction false} SortDistinct<T, K>(s: seq<T>, key: T -> ExtReal, id: T -> K)
    requires DistinctBy(s, id)
    ensures DistinctBy(Sort(s, key), id)
    decreases |s|
  {
    if |s| > 0 {
      var init := s[..|s| - 1];
      var last := s[|s| - 1];
      var t := Sort(init, key);
      SortDistinct(init, key, id);
      SortPermutes(init, key);
      forall i | 0 <= i < |t|
        ensures id(t[i]) != id(last)
      {
        assert t[i] in multiset(init);
        var m :| 0 <= m < |init| && init[m] == t[i];
        assert s[m] == t[i];
      }
      InsertDistinct(last, t, key, id);
    }
  }
}
