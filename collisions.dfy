/** The collision test and which enemies one pass of the collision check removes. */
module Collisions {
  import opened Config
  import opened Seqs

  /**
   * The hit test `hypot(px - ex, py - ey) - r - PLAYER_RADIUS < 1`, written without the
   * square root: the distance is below r + PLAYER_RADIUS + 1 exactly when its square is
   * below that bound squared (see HitTestMatchesDistance).
   */
  predicate Overlaps(px: int, py: int, ex: int, ey: real, r: int)
  {
    var ddx := (px - ex) as real;
    var ddy := py as real - ey;
    var reach := (r + PLAYER_RADIUS + 1) as real;
    ddx * ddx + ddy * ddy < reach * reach
  }

  lemma SquareMonotone(a: real, b: real)
    requires 0.0 <= a && 0.0 <= b
    ensures a < b <==> a * a < b * b
  {
    var aa, ab, bb := a * a, a * b, b * b;
    if a < b {
      assert aa <= ab;
      assert ab < bb;
    } else {
      assert bb <= ab;
      assert ab <= aa;
    }
  }

  /**
   * For the Euclidean distance `dist` between the two centres (a non-negative root of the
   * squared distance), the source's test on `dist` and Overlaps agree.
   */
  lemma HitTestMatchesDistance(px: int, py: int, ex: int, ey: real, r: int, dist: real)
    requires r >= 0
    requires dist >= 0.0
    requires dist * dist == (px - ex) as real * (px - ex) as real + (py as real - ey) * (py as real - ey)
    ensures dist - r as real - PLAYER_RADIUS as real < 1.0 <==> Overlaps(px, py, ex, ey, r)
  {
    SquareMonotone(dist, (r + PLAYER_RADIUS + 1) as real);
  }

  /**
   * The removal rule at position i: enemy i is removed exactly when it overlaps the player
   * and the enemy before it was not removed (a removed enemy's successor slides into the
   * slot just visited and is not tested in that pass).
   */
  predicate RemovedAt(hits: seq<bool>, removed: seq<bool>, i: int)
    requires |removed| == |hits| && 0 <= i < |hits|
  {
    removed[i] == (hits[i] && (i == 0 || !removed[i - 1]))
  }

  /**
   * Which enemies the check removes, given which of them overlap the player.
   * The loop visits index 0, 1, 2, ... of an array that shrinks by `splice(index, 1)` on
   * every hit. Entry i of the result is true iff enemy i is removed.
   */
  function SpliceMask(hits: seq<bool>): (removed: seq<bool>)
    ensures |removed| == |hits|
    ensures forall i | 0 <= i < |hits| :: RemovedAt(hits, removed, i)
  {
    if hits == [] then []
    else if !hits[0] then
      var rest := SpliceMask(hits[1..]);
      var r := [false] + rest;
      assert forall i | 0 <= i < |hits| :: RemovedAt(hits, r, i) by {
        forall i | 0 < i < |hits| ensures RemovedAt(hits, r, i) {
          assert RemovedAt(hits[1..], rest, i - 1);
        }
      }
      r
    else if |hits| == 1 then [true]
    else
      var rest := SpliceMask(hits[2..]);
      var r := [true, false] + rest;
      assert forall i | 0 <= i < |hits| :: RemovedAt(hits, r, i) by {
        forall i | 1 < i < |hits| ensures RemovedAt(hits, r, i) {
          assert RemovedAt(hits[2..], rest, i - 2);
        }
      }
      r
  }

  /** The removal rule holds at every position. */
  ghost predicate RemovalRules(hits: seq<bool>, removed: seq<bool>)
  {
    |removed| == |hits| && forall i | 0 <= i < |hits| :: RemovedAt(hits, removed, i)
  }

  /** Two masks obeying the removal rule agree at every position up to i. */
  lemma {:induction false} RulesAgree(hits: seq<bool>, a: seq<bool>, b: seq<bool>, i: int)
    requires RemovalRules(hits, a) && RemovalRules(hits, b) && 0 <= i < |hits|
    ensures a[i] == b[i]
    decreases i
  {
    assert RemovedAt(hits, a, i) && RemovedAt(hits, b, i);
    if i > 0 {
      RulesAgree(hits, a, b, i - 1);
    }
  }

  /** The rule determines the removals completely: SpliceMask is the only mask obeying it. */
  lemma RemovalRulesDetermineMask(hits: seq<bool>, removed: seq<bool>)
    requires RemovalRules(hits, removed)
    ensures removed == SpliceMask(hits)
  {
    var m := SpliceMask(hits);
    forall i | 0 <= i < |hits| ensures removed[i] == m[i] {
      RulesAgree(hits, removed, m, i);
    }
  }

  /** Only overlapping enemies are removed, and never two neighbours in one pass. */
  lemma RemovalsAreHitsApart(hits: seq<bool>, i: int)
    requires 0 <= i < |hits|
    ensures SpliceMask(hits)[i] ==> hits[i]
    ensures i + 1 < |hits| && SpliceMask(hits)[i] ==> !SpliceMask(hits)[i + 1]
  {
    var m := SpliceMask(hits);
    assert RemovedAt(hits, m, i);
    if i + 1 < |hits| {
      assert RemovedAt(hits, m, i + 1);
    }
  }

  /**
   * Every overlapping enemy is removed in one pass exactly when no two overlapping enemies
   * sit next to each other in the array.
   */
  lemma RemovesEveryHitIff(hits: seq<bool>)
    ensures SpliceMask(hits) == hits <==> forall i | 0 <= i < |hits| - 1 :: !(hits[i] && hits[i + 1])
  {
    var m := SpliceMask(hits);
    if forall i | 0 <= i < |hits| - 1 :: !(hits[i] && hits[i + 1]) {
      forall i | 0 <= i < |hits| ensures RemovedAt(hits, hits, i) {
        if i > 0 {
          assert !(hits[i - 1] && hits[i]);
        }
      }
      RemovalRulesDetermineMask(hits, hits);
    } else {
      var i :| 0 <= i < |hits| - 1 && hits[i] && hits[i + 1];
      assert RemovedAt(hits, m, i + 1);
    }
  }

  /**
   * The collision pass itself, on a list `live` with its overlap flags `hit` kept aligned:
   * visit index 0, 1, 2, ... of the current list; an overlapping element is spliced out
   * together with its flag, and the visit goes on at the next index of the shrunken list.
   * The result is the list left when the index runs past the end.
   */
  function SplicePass<T>(live: seq<T>, hit: seq<bool>, index: nat): (left: seq<T>)
    requires |hit| == |live|
    ensures |left| <= |live|
    ensures index >= |live| ==> left == live
    decreases |live| - index
  {
    if index >= |live| then live
    else if hit[index] then
      SplicePass(live[..index] + live[index + 1..], hit[..index] + hit[index + 1..], index + 1)
    else SplicePass(live, hit, index + 1)
  }

  /**
   * Started at the end of a settled prefix `kept`, the pass leaves `kept` alone and removes
   * from the rest `s` exactly the elements SpliceMask selects.
   */
  lemma {:induction false} SplicePassFrom<T>(kept: seq<T>, keptHit: seq<bool>, s: seq<T>, hit: seq<bool>)
    requires |keptHit| == |kept| && |hit| == |s|
    ensures SplicePass(kept + s, keptHit + hit, |kept|) == kept + Filter(s, SpliceMask(hit))
    decreases |s|, 1
  {
    if s == [] {
      assert kept + s == kept && Filter(s, SpliceMask(hit)) == [];
    } else if !hit[0] {
      SplicePassKeep(kept, keptHit, s, hit);
    } else if |s| == 1 {
      var live, flags, i := kept + s, keptHit + hit, |kept|;
      assert flags[i] && live[..i] + live[i + 1..] == kept;
      assert s == [s[0]] + [] && SpliceMask(hit) == [true] + [];
      FilterCons(s[0], [], true, []);
    } else {
      SplicePassSkip(kept, keptHit, s, hit);
    }
  }

  /** An element that does not overlap is kept and joins the settled prefix. */
  lemma {:induction false} SplicePassKeep<T>(kept: seq<T>, keptHit: seq<bool>, s: seq<T>, hit: seq<bool>)
    requires |keptHit| == |kept| && |hit| == |s| && |s| > 0 && !hit[0]
    ensures SplicePass(kept + s, keptHit + hit, |kept|) == kept + Filter(s, SpliceMask(hit))
    decreases |s|, 0
  {
    var live, flags := kept + s, keptHit + hit;
    assert flags[|kept|] == hit[0];
    assert live == (kept + [s[0]]) + s[1..] && flags == (keptHit + [hit[0]]) + hit[1..];
    SplicePassFrom(kept + [s[0]], keptHit + [hit[0]], s[1..], hit[1..]);
    assert s == [s[0]] + s[1..];
    FilterCons(s[0], s[1..], false, SpliceMask(hit[1..]));
  }

  /**
   * An overlapping element with a successor is spliced out; the successor slides into the
   * visited slot, is passed over and joins the settled prefix.
   */
  lemma {:induction false} SplicePassSkip<T>(kept: seq<T>, keptHit: seq<bool>, s: seq<T>, hit: seq<bool>)
    requires |keptHit| == |kept| && |hit| == |s| && |s| > 1 && hit[0]
    ensures SplicePass(kept + s, keptHit + hit, |kept|) == kept + Filter(s, SpliceMask(hit))
    decreases |s|, 0
  {
    var live, flags, i := kept + s, keptHit + hit, |kept|;
    assert flags[i];
    assert live[..i] + live[i + 1..] == (kept + [s[1]]) + s[2..];
    assert flags[..i] + flags[i + 1..] == (keptHit + [hit[1]]) + hit[2..];
    SplicePassFrom(kept + [s[1]], keptHit + [hit[1]], s[2..], hit[2..]);
    var m := SpliceMask(hit[2..]);
    assert SpliceMask(hit) == [true] + ([false] + m);
    assert s == [s[0]] + ([s[1]] + s[2..]);
    FilterCons(s[1], s[2..], false, m);
    FilterCons(s[0], [s[1]] + s[2..], true, [false] + m);
  }

  /** The pass over a whole list removes exactly the elements SpliceMask selects. */
  lemma SplicePassRemovesMask<T>(s: seq<T>, hit: seq<bool>)
    requires |hit| == |s|
    ensures SplicePass(s, hit, 0) == Filter(s, SpliceMask(hit))
  {
    SplicePassFrom([], [], s, hit);
    assert [] + s == s && [] + hit == hit;
  }

  /** Two neighbouring overlaps: the first is removed, the second is not even tested. */
  lemma AdjacentOverlapsRemoveOne()
    ensures SpliceMask([true, true]) == [true, false]
    ensures SpliceMask([true, true, true]) == [true, false, true]
  {
  }
}
