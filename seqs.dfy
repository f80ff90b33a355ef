/** Removal of flagged elements from a sequence, the effect of repeated `splice(i, 1)`. */
module Seqs {
  /** The number of true flags at positions j and later. */
  function CountFrom(flags: seq<bool>, j: int): nat
    requires 0 <= j <= |flags|
    decreases |flags| - j
  {
    if j == |flags| then 0 else (if flags[j] then 1 else 0) + CountFrom(flags, j + 1)
  }

  /** The number of true flags. */
  function Count(flags: seq<bool>): nat
  {
    CountFrom(flags, 0)
  }

  /** Positions i and j of `s` hold different elements. */
  ghost predicate DifferAt<T>(s: seq<T>, i: int, j: int)
    requires 0 <= i < |s| && 0 <= j < |s|
  {
    s[i] != s[j]
  }

  /** No element occurs twice. */
  ghost predicate Distinct<T>(s: seq<T>)
  {
    forall i, j | 0 <= i < j < |s| :: DifferAt(s, i, j)
  }

  lemma DistinctAt<T>(s: seq<T>, i: int, j: int)
    requires Distinct(s) && 0 <= i < |s| && 0 <= j < |s| && i != j
    ensures s[i] != s[j]
  {
    if i < j {
      assert DifferAt(s, i, j);
    } else {
      assert DifferAt(s, j, i);
    }
  }

  /** Appending an element not yet present keeps the elements distinct. */
  lemma DistinctAppend<T>(s: seq<T>, x: T)
    requires Distinct(s) && x !in s
    ensures Distinct(s + [x])
  {
    var r := s + [x];
    forall i, j | 0 <= i < j < |r| ensures DifferAt(r, i, j) {
      if j < |s| {
        assert DifferAt(s, i, j);
      } else {
        assert r[i] == s[i];
      }
    }
  }

  /** Prepending an element not yet present keeps the elements distinct. */
  lemma DistinctCons<T>(x: T, s: seq<T>)
    requires Distinct(s) && x !in s
    ensures Distinct([x] + s)
  {
    var r := [x] + s;
    forall a, b | 0 <= a < b < |r| ensures DifferAt(r, a, b) {
      if a == 0 {
        assert r[b] == s[b - 1];
      } else {
        assert DifferAt(s, a - 1, b - 1);
      }
    }
  }

  /** The elements of `s` at positions j and later whose flag in `drop` is false, in order. */
  function FilterFrom<T>(s: seq<T>, drop: seq<bool>, j: int): (r: seq<T>)
    requires |drop| == |s| && 0 <= j <= |s|
    ensures |r| + CountFrom(drop, j) == |s| - j
    decreases |s| - j
  {
    if j == |s| then [] else (if drop[j] then [] else [s[j]]) + FilterFrom(s, drop, j + 1)
  }

  /** The elements of `s` whose flag in `drop` is false, in their original order. */
  function Filter<T>(s: seq<T>, drop: seq<bool>): (r: seq<T>)
    requires |drop| == |s|
    ensures |r| + Count(drop) == |s|
  {
    FilterFrom(s, drop, 0)
  }

  /** Filtering a list with one more element in front: the front is shifted by one. */
  lemma {:induction false} FilterFromShift<T>(x: T, s: seq<T>, b: bool, drop: seq<bool>, j: int)
    requires |drop| == |s| && 0 <= j <= |s|
    ensures FilterFrom([x] + s, [b] + drop, j + 1) == FilterFrom(s, drop, j)
    decreases |s| - j
  {
    var s', drop' := [x] + s, [b] + drop;
    if j < |s| {
      FilterFromShift(x, s, b, drop, j + 1);
      assert s'[j + 1] == s[j] && drop'[j + 1] == drop[j];
      assert FilterFrom(s', drop', j + 1) ==
        (if drop'[j + 1] then [] else [s'[j + 1]]) + FilterFrom(s', drop', j + 2);
    } else {
      assert j + 1 == |s'|;
    }
  }

  /** The first element survives exactly when its flag is false; the rest filter as before. */
  lemma FilterCons<T>(x: T, s: seq<T>, b: bool, drop: seq<bool>)
    requires |drop| == |s|
    ensures Filter([x] + s, [b] + drop) == (if b then [] else [x]) + Filter(s, drop)
  {
    FilterFromShift(x, s, b, drop, 0);
  }

  /** An element at a position before j is not among the survivors from j on. */
  lemma {:induction false} FilterFromExcludes<T>(s: seq<T>, drop: seq<bool>, i: int, j: int)
    requires |drop| == |s| && Distinct(s) && 0 <= i < j <= |s|
    ensures s[i] !in FilterFrom(s, drop, j)
    decreases |s| - j
  {
    if j < |s| {
      FilterFromExcludes(s, drop, i, j + 1);
      assert DifferAt(s, i, j);
    }
  }

  /** Among distinct elements, the one at position i (at or after j) survives iff its flag is false. */
  lemma {:induction false} FilterFromMember<T>(s: seq<T>, drop: seq<bool>, i: int, j: int)
    requires |drop| == |s| && Distinct(s) && 0 <= j <= i < |s|
    ensures s[i] in FilterFrom(s, drop, j) <==> !drop[i]
    decreases i - j
  {
    if j == i {
      if i + 1 < |s| {
        FilterFromExcludes(s, drop, i, i + 1);
      }
    } else {
      FilterFromMember(s, drop, i, j + 1);
      assert DifferAt(s, j, i);
    }
  }

  /** Every survivor is an element of the original list. */
  lemma {:induction false} FilterFromSubset<T>(s: seq<T>, drop: seq<bool>, j: int, x: T)
    requires |drop| == |s| && 0 <= j <= |s| && x in FilterFrom(s, drop, j)
    ensures exists i | j <= i < |s| :: s[i] == x && !drop[i]
    decreases |s| - j
  {
    if j < |s| {
      if !drop[j] && x == s[j] {
      } else {
        assert x in FilterFrom(s, drop, j + 1);
        FilterFromSubset(s, drop, j + 1, x);
      }
    }
  }

  /**
   * Filter removes exactly the flagged elements of a list without repetitions: an element
   * survives iff it sits at a position whose flag is false.
   */
  lemma FilterMembers<T>(s: seq<T>, drop: seq<bool>, x: T)
    requires |drop| == |s| && Distinct(s)
    ensures x in Filter(s, drop) <==> exists i | 0 <= i < |s| :: s[i] == x && !drop[i]
  {
    if x in Filter(s, drop) {
      FilterFromSubset(s, drop, 0, x);
    }
    if exists i | 0 <= i < |s| :: s[i] == x && !drop[i] {
      var i :| 0 <= i < |s| && s[i] == x && !drop[i];
      FilterFromMember(s, drop, i, 0);
    }
  }

  /** An element at position i (at or after j) whose flag is false is among the survivors from j on. */
  lemma {:induction false} FilterFromKeeps<T>(s: seq<T>, drop: seq<bool>, i: int, j: int)
    requires |drop| == |s| && 0 <= j <= i < |s| && !drop[i]
    ensures s[i] in FilterFrom(s, drop, j)
    decreases i - j
  {
    if j < i {
      FilterFromKeeps(s, drop, i, j + 1);
    }
  }

  /** x occurs in r at some position before a position where y occurs. */
  ghost predicate InOrder<T>(r: seq<T>, x: T, y: T)
  {
    exists a, b | 0 <= a < b < |r| :: r[a] == x && r[b] == y
  }

  /** Two survivors from positions i < j (both at or after k) keep their relative order. */
  lemma {:induction false} FilterFromKeepsOrder<T>(s: seq<T>, drop: seq<bool>, k: int, i: int, j: int)
    requires |drop| == |s| && 0 <= k <= i < j < |s| && !drop[i] && !drop[j]
    ensures InOrder(FilterFrom(s, drop, k), s[i], s[j])
    decreases i - k
  {
    var r := FilterFrom(s, drop, k);
    var head := if drop[k] then [] else [s[k]];
    var tail := FilterFrom(s, drop, k + 1);
    assert r == head + tail;
    if k == i {
      FilterFromKeeps(s, drop, j, k + 1);
      var b :| 0 <= b < |tail| && tail[b] == s[j];
      var a, b' := 0, b + 1;
      assert 0 <= a < b' < |r| && r[a] == s[i] && r[b'] == s[j];
    } else {
      FilterFromKeepsOrder(s, drop, k + 1, i, j);
      var a, b :| 0 <= a < b < |tail| && tail[a] == s[i] && tail[b] == s[j];
      var a', b' := |head| + a, |head| + b;
      assert 0 <= a' < b' < |r| && r[a'] == s[i] && r[b'] == s[j];
    }
  }

  /** Filter keeps the survivors in their original relative order. */
  lemma FilterKeepsOrder<T>(s: seq<T>, drop: seq<bool>, i: int, j: int)
    requires |drop| == |s| && 0 <= i < j < |s| && !drop[i] && !drop[j]
    ensures InOrder(Filter(s, drop), s[i], s[j])
  {
    FilterFromKeepsOrder(s, drop, 0, i, j);
    assert Filter(s, drop) == FilterFrom(s, drop, 0);
  }

  /** Removing elements never makes two entries refer to the same thing. */
  lemma {:induction false} FilterFromDistinct<T>(s: seq<T>, drop: seq<bool>, j: int)
    requires |drop| == |s| && 0 <= j <= |s| && Distinct(s)
    ensures Distinct(FilterFrom(s, drop, j))
    decreases |s| - j
  {
    if j < |s| {
      FilterFromDistinct(s, drop, j + 1);
      var rest := FilterFrom(s, drop, j + 1);
      if !drop[j] {
        FilterFromExcludes(s, drop, j, j + 1);
        DistinctCons(s[j], rest);
      } else {
        assert [] + rest == rest;
      }
    }
  }

  lemma FilterDistinct<T>(s: seq<T>, drop: seq<bool>)
    requires |drop| == |s| && Distinct(s)
    ensures Distinct(Filter(s, drop))
  {
    FilterFromDistinct(s, drop, 0);
  }

  /** Splicing index i out of `s[..i + 1] + tail`, or keeping it, as one step of a backward filter. */
  lemma SpliceStep<T>(s: seq<T>, i: int, tail: seq<T>, drop: bool)
    requires 0 <= i < |s|
    ensures var cur := s[..i + 1] + tail;
      (if drop then cur[..i] + cur[i + 1..] else cur) == s[..i] + ((if drop then [] else [s[i]]) + tail)
  {
    var cur := s[..i + 1] + tail;
    assert cur[..i] == s[..i];
    assert cur[i + 1..] == tail;
    assert s[..i + 1] == s[..i] + [s[i]];
  }
}
