/** Positions of the marked entries of a list, in order: the shape shared by
    the source's `filter` calls, which keep the entries they select in
    their original order. */
module Positions {

  /** The positions, from `k` on, whose flag is set. */
  function TruePositions(flags: seq<bool>, k: nat): seq<nat>
    requires k <= |flags|
    decreases |flags| - k
  {
    if k == |flags| then [] else (if flags[k] then [k] else []) + TruePositions(flags, k + 1)
  }

  ghost predicate Increasing(idx: seq<nat>) {
    forall i, m | 0 <= i < m < |idx| :: idx[i] < idx[m]
  }

  /** `idx` lists, in strictly increasing order, exactly the positions from
      `k` on whose flag is set. */
  ghost predicate MarksFrom(idx: seq<nat>, flags: seq<bool>, k: nat) {
    && (forall i | 0 <= i < |idx| :: k <= idx[i] < |flags| && flags[idx[i]])
    && Increasing(idx)
    && (forall j | k <= j < |flags| && flags[j] :: j in idx)
  }

  /** Every listed position is marked and lies in `[k, |flags|)`. */
  lemma {:induction false} TruePositionsMarked(flags: seq<bool>, k: nat)
    requires k <= |flags|
    ensures forall i | 0 <= i < |TruePositions(flags, k)| ::
      k <= TruePositions(flags, k)[i] < |flags| && flags[TruePositions(flags, k)[i]]
    decreases |flags| - k
  {
    if k < |flags| {
      TruePositionsMarked(flags, k + 1);
      var tail := TruePositions(flags, k + 1);
      var head: seq<nat> := if flags[k] then [k] else [];
      var idx := TruePositions(flags, k);
      assert idx == head + tail;
      forall i | 0 <= i < |idx|
        ensures k <= idx[i] < |flags| && flags[idx[i]]
      {
        if i >= |head| {
          assert idx[i] == tail[i - |head|];
        }
      }
    }
  }

  lemma {:induction false} TruePositionsIncreasing(flags: seq<bool>, k: nat)
    requires k <= |flags|
    ensures Increasing(TruePositions(flags, k))
    decreases |flags| - k
  {
    if k < |flags| {
      TruePositionsIncreasing(flags, k + 1);
      TruePositionsMarked(flags, k + 1);
      var tail := TruePositions(flags, k + 1);
      var head: seq<nat> := if flags[k] then [k] else [];
      var idx := TruePositions(flags, k);
      assert idx == head + tail;
      forall i, m | 0 <= i < m < |idx|
        ensures idx[i] < idx[m]
      {
        assert idx[m] == tail[m - |head|];
        if i >= |head| {
          assert idx[i] == tail[i - |head|];
        }
      }
    }
  }

  /** Every marked position from `k` on is listed. */
  lemma {:induction false} TruePositionsComplete(flags: seq<bool>, k: nat)
    requires k <= |flags|
    ensures forall j | k <= j < |flags| && flags[j] :: j in TruePositions(flags, k)
    decreases |flags| - k
  {
    if k < |flags| {
      TruePositionsComplete(flags, k + 1);
      var tail := TruePositions(flags, k + 1);
      var head: seq<nat> := if flags[k] then [k] else [];
      assert TruePositions(flags, k) == head + tail;
    }
  }

  lemma TruePositionsSpec(flags: seq<bool>, k: nat)
    requires k <= |flags|
    ensures MarksFrom(TruePositions(flags, k), flags, k)
  {
    TruePositionsMarked(flags, k);
    TruePositionsIncreasing(flags, k);
    TruePositionsComplete(flags, k);
  }

  /** The entries of `s`, from `k` on, whose flag is set, in order (the
      source's `filter`). */
  function KeptFrom<T>(s: seq<T>, flags: seq<bool>, k: nat): (r: seq<T>)
    requires |flags| == |s| && k <= |s|
    ensures |r| <= |s| - k
    decreases |s| - k
  {
    if k == |s| then [] else (if flags[k] then [s[k]] else []) + KeptFrom(s, flags, k + 1)
  }

  function Kept<T>(s: seq<T>, flags: seq<bool>): seq<T>
    requires |flags| == |s|
  {
    KeptFrom(s, flags, 0)
  }

  /** The `i`-th kept entry is the entry at the `i`-th marked position. */
  lemma {:induction false} KeptAt<T>(s: seq<T>, flags: seq<bool>, k: nat)
    requires |flags| == |s| && k <= |s|
    ensures |KeptFrom(s, flags, k)| == |TruePositions(flags, k)|
    ensures forall i | 0 <= i < |TruePositions(flags, k)| ::
      TruePositions(flags, k)[i] < |s| && KeptFrom(s, flags, k)[i] == s[TruePositions(flags, k)[i]]
    decreases |s| - k
  {
    if k < |s| {
      KeptAt(s, flags, k + 1);
      TruePositionsSpec(flags, k + 1);
      var tail := TruePositions(flags, k + 1);
      var rest := KeptFrom(s, flags, k + 1);
      var idx := TruePositions(flags, k);
      var r := KeptFrom(s, flags, k);
      var head: seq<nat> := if flags[k] then [k] else [];
      var front: seq<T> := if flags[k] then [s[k]] else [];
      assert idx == head + tail;
      assert r == front + rest;
      forall i | 0 <= i < |idx|
        ensures idx[i] < |s| && r[i] == s[idx[i]]
      {
        if i >= |head| {
          assert idx[i] == tail[i - |head|] && r[i] == rest[i - |head|];
        }
      }
    }
  }

  /** Kept entries, stated from the start: they are the entries at the
      marked positions, which are listed increasing and completely. */
  lemma KeptInOrder<T>(s: seq<T>, flags: seq<bool>)
    requires |flags| == |s|
    ensures var idx := TruePositions(flags, 0);
      && Increasing(idx)
      && (forall j | 0 <= j < |s| :: flags[j] <==> j in idx)
      && |Kept(s, flags)| == |idx|
      && (forall i | 0 <= i < |idx| :: idx[i] < |s| && Kept(s, flags)[i] == s[idx[i]])
  {
    TruePositionsSpec(flags, 0);
    KeptAt(s, flags, 0);
  }

  /** In an increasing list, a smaller entry sits at an earlier place. */
  lemma IncreasingPlaces(idx: seq<nat>, i: nat, m: nat)
    requires Increasing(idx) && i < |idx| && m < |idx| && idx[i] < idx[m]
    ensures i < m
  {
  }
}
