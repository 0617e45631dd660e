/**
 * The offline time alignment of parser.py and high_mem_parser.py (identical
 * in both files): each lidar timestamp is paired with the nearest pico
 * timestamp found by `np.searchsorted`, and pairs further apart than
 * DELTA_T_MAX are dropped.
 */
module TimeJoin {

  /** Largest accepted gap between paired timestamps, in seconds. */
  const DeltaTMax: real := 0.05

  function AbsR(x: real): real { if x < 0.0 then -x else x }

  ghost predicate Sorted(s: seq<real>)
  {
    forall i, j :: 0 <= i <= j < |s| ==> s[i] <= s[j]
  }

  /**
   * The first index whose element is at least `v` (|s| if none); on sorted
   * `s` this is what `np.searchsorted(s, v)` returns.
   */
  function InsertionPoint(s: seq<real>, v: real): (i: nat)
    ensures i <= |s|
    ensures forall k :: 0 <= k < i ==> s[k] < v
    ensures i < |s| ==> s[i] >= v
  {
    if |s| == 0 || s[0] >= v then 0 else 1 + InsertionPoint(s[1..], v)
  }

  /**
   * `np.searchsorted(s, v)` (side 'left'): the binary search numpy runs,
   * which on a sorted array returns the insertion point.
   */
  method SearchSorted(s: seq<real>, v: real) returns (i: nat)
    requires Sorted(s)
    ensures i == InsertionPoint(s, v)
  {
    var lo, hi := 0, |s|;
    while lo < hi
      invariant 0 <= lo <= hi <= |s|
      invariant forall k :: 0 <= k < lo ==> s[k] < v
      invariant forall k :: hi <= k < |s| ==> s[k] >= v
    {
      var mid := lo + (hi - lo) / 2;
      if s[mid] < v {
        lo := mid + 1;
      } else {
        hi := mid;
      }
    }
    i := lo;
    InsertionPointUnique(s, v, i);
  }

  /** The two facts that define an insertion point determine it. */
  lemma {:induction false} InsertionPointUnique(s: seq<real>, v: real, i: nat)
    requires i <= |s|
    requires forall k :: 0 <= k < i ==> s[k] < v
    requires i < |s| ==> s[i] >= v
    ensures i == InsertionPoint(s, v)
  {
    if |s| > 0 && s[0] < v {
      InsertionPointUnique(s[1..], v, i - 1);
    }
  }

  /** `np.clip(i, lo, hi)`, which is `min(max(i, lo), hi)` even when lo > hi. */
  function Clip(i: int, lo: int, hi: int): int
  {
    var m := if i < lo then lo else i;
    if m > hi then hi else m
  }

  /** `s[j]` with Python's reading of a negative index. */
  function At(s: seq<real>, j: int): real
    requires -|s| <= j < |s|
  {
    if j < 0 then s[|s| + j] else s[j]
  }

  /**
   * One entry of `match_pico_times`: the insertion point clipped to
   * [1, n-1], then whichever of it and its predecessor is strictly closer,
   * the clipped index itself on a tie. It agrees with numpy when `p` is sorted.
   */
  function NearestIndex(p: seq<real>, t: real): (r: nat)
    requires |p| >= 1
    ensures r < |p|
  {
    var idx := Clip(InsertionPoint(p, t), 1, |p| - 1);
    var left := AbsR(At(p, idx - 1) - t);
    var right := AbsR(p[idx] - t);
    if left < right then idx - 1 else idx
  }

  /** `match_pico_times(lidar_T, pico_T)`. */
  function MatchPicoTimes(lidarT: seq<real>, picoT: seq<real>): (idxs: seq<nat>)
    requires |picoT| >= 1
    ensures |idxs| == |lidarT|
    ensures forall j :: 0 <= j < |idxs| ==> idxs[j] == NearestIndex(picoT, lidarT[j]) < |picoT|
  {
    seq(|lidarT|, j requires 0 <= j < |lidarT| => NearestIndex(picoT, lidarT[j]))
  }

  /** On a sorted pico stream the chosen index is a nearest one: no pico time is strictly closer. */
  lemma NearestIsOptimal(p: seq<real>, t: real)
    requires |p| >= 1 && Sorted(p)
    ensures forall k :: 0 <= k < |p| ==> AbsR(p[NearestIndex(p, t)] - t) <= AbsR(p[k] - t)
  {
    var r := NearestIndex(p, t);
    var ip := InsertionPoint(p, t);
    if |p| > 1 {
      var idx := Clip(ip, 1, |p| - 1);
      forall k | 0 <= k < |p|
        ensures AbsR(p[r] - t) <= AbsR(p[k] - t)
      {
        if k < idx - 1 {
          assert p[k] <= p[idx - 1];
          if ip > idx - 1 { assert p[idx - 1] < t; }
        } else if k > idx {
          assert p[idx] <= p[k];
          if ip <= idx { assert p[idx] >= t; }
        }
      }
    }
  }

  /** On a sorted pico stream every lidar time is paired with a nearest pico time. */
  lemma MatchPicoTimesNearest(lidarT: seq<real>, picoT: seq<real>)
    requires |picoT| >= 1 && Sorted(picoT)
    ensures var idxs := MatchPicoTimes(lidarT, picoT);
      && |idxs| == |lidarT|
      && forall j :: 0 <= j < |idxs| ==>
           (idxs[j] < |picoT| &&
            forall k :: 0 <= k < |picoT| ==> AbsR(picoT[idxs[j]] - lidarT[j]) <= AbsR(picoT[k] - lidarT[j]))
  {
    forall j | 0 <= j < |lidarT| {
      NearestIsOptimal(picoT, lidarT[j]);
    }
  }

  /**
   * When t lies strictly above one pico time and at or below the next, and
   * is equally far from both, the later of the two is chosen (the
   * comparison `left < right` is strict).
   */
  lemma NearestTieTakesLater(p: seq<real>, t: real, j: nat)
    requires Sorted(p) && 1 <= j < |p|
    requires p[j - 1] < t <= p[j] && t - p[j - 1] == p[j] - t
    ensures NearestIndex(p, t) == j
  {
    assert forall k :: 0 <= k < j ==> p[k] <= p[j - 1];
    InsertionPointUnique(p, t, j);
  }

  /** A lidar row index paired with a pico row index. */
  datatype Pair = Pair(lidar: nat, pico: nat)

  ghost predicate Kept(r: seq<Pair>, j: nat)
  {
    exists k :: 0 <= k < |r| && r[k].lidar == j
  }

  /** The gap between lidar time `j` and its nearest pico time. */
  function Gap(lidarT: seq<real>, picoT: seq<real>, j: nat): real
    requires |picoT| >= 1 && j < |lidarT|
  {
    AbsR(picoT[NearestIndex(picoT, lidarT[j])] - lidarT[j])
  }

  /**
   * `lidar_np[valid], pico_np[idxs[valid]]` with `valid = |pico_T[idxs] - lidar_T| <= DELTA_T_MAX`:
   * the kept rows as (lidar, pico) index pairs, in lidar order.
   */
  function JoinPairs(lidarT: seq<real>, picoT: seq<real>): (r: seq<Pair>)
    requires |picoT| >= 1
    ensures JoinSpec(lidarT, picoT, r)
    decreases |lidarT|
  {
    if |lidarT| == 0 then []
    else
      var n := |lidarT| - 1;
      var r0 := JoinPairs(lidarT[..n], picoT);
      var r := r0 + (if Gap(lidarT, picoT, n) <= DeltaTMax then [Pair(n, NearestIndex(picoT, lidarT[n]))] else []);
      JoinStep(lidarT, picoT, r0, r);
      r
  }

  /**
   * What the kept pairs are: each joins a lidar row to its nearest pico row
   * within DELTA_T_MAX, in increasing lidar order, and a lidar row is kept
   * exactly when its gap is within DELTA_T_MAX.
   */
  ghost predicate JoinSpec(lidarT: seq<real>, picoT: seq<real>, r: seq<Pair>)
    requires |picoT| >= 1
  {
    && (forall k :: 0 <= k < |r| ==>
          r[k].lidar < |lidarT| && r[k].pico == NearestIndex(picoT, lidarT[r[k].lidar]))
    && (forall k :: 0 <= k < |r| ==> Gap(lidarT, picoT, r[k].lidar) <= DeltaTMax)
    && (forall k1, k2 :: 0 <= k1 < k2 < |r| ==> r[k1].lidar < r[k2].lidar)
    && (forall j :: 0 <= j < |lidarT| ==> (Kept(r, j) <==> Gap(lidarT, picoT, j) <= DeltaTMax))
  }

  /** Appending the last lidar row, if it is within range, extends a join of the others. */
  lemma JoinStep(lidarT: seq<real>, picoT: seq<real>, r0: seq<Pair>, r: seq<Pair>)
    requires |picoT| >= 1 && |lidarT| >= 1
    requires JoinSpec(lidarT[..|lidarT| - 1], picoT, r0)
    requires var n := |lidarT| - 1;
      r == r0 + (if Gap(lidarT, picoT, n) <= DeltaTMax then [Pair(n, NearestIndex(picoT, lidarT[n]))] else [])
    ensures JoinSpec(lidarT, picoT, r)
  {
    var n := |lidarT| - 1;
    KeptExtend(r0, r, n);
    JoinStepPairs(lidarT, picoT, r0, r);
    JoinStepOrder(r0, r, n);
    JoinStepKept(lidarT, picoT, r0, r);
  }

  lemma JoinStepPairs(lidarT: seq<real>, picoT: seq<real>, r0: seq<Pair>, r: seq<Pair>)
    requires |picoT| >= 1 && |lidarT| >= 1
    requires JoinSpec(lidarT[..|lidarT| - 1], picoT, r0)
    requires var n := |lidarT| - 1;
      r == r0 + (if Gap(lidarT, picoT, n) <= DeltaTMax then [Pair(n, NearestIndex(picoT, lidarT[n]))] else [])
    ensures forall k :: 0 <= k < |r| ==>
      r[k].lidar < |lidarT| && r[k].pico == NearestIndex(picoT, lidarT[r[k].lidar])
    ensures forall k :: 0 <= k < |r| ==> Gap(lidarT, picoT, r[k].lidar) <= DeltaTMax
  {
    var front := lidarT[..|lidarT| - 1];
    forall k | 0 <= k < |r|
      ensures r[k].lidar < |lidarT| && r[k].pico == NearestIndex(picoT, lidarT[r[k].lidar])
      ensures Gap(lidarT, picoT, r[k].lidar) <= DeltaTMax
    {
      if k < |r0| {
        assert r[k] == r0[k];
        assert front[r0[k].lidar] == lidarT[r0[k].lidar];
      }
    }
  }

  lemma JoinStepOrder(r0: seq<Pair>, r: seq<Pair>, n: nat)
    requires forall k :: 0 <= k < |r0| ==> r0[k].lidar < n
    requires forall k1, k2 :: 0 <= k1 < k2 < |r0| ==> r0[k1].lidar < r0[k2].lidar
    requires r == r0 || (|r| == |r0| + 1 && r[..|r0|] == r0 && r[|r0|].lidar == n)
    ensures forall k1, k2 :: 0 <= k1 < k2 < |r| ==> r[k1].lidar < r[k2].lidar
  {
    forall k1, k2 | 0 <= k1 < k2 < |r|
      ensures r[k1].lidar < r[k2].lidar
    {
      assert r[k1] == r0[k1];
      if k2 < |r0| {
        assert r[k2] == r0[k2];
      }
    }
  }

  lemma JoinStepKept(lidarT: seq<real>, picoT: seq<real>, r0: seq<Pair>, r: seq<Pair>)
    requires |picoT| >= 1 && |lidarT| >= 1
    requires JoinSpec(lidarT[..|lidarT| - 1], picoT, r0)
    requires var n := |lidarT| - 1;
      r == r0 + (if Gap(lidarT, picoT, n) <= DeltaTMax then [Pair(n, NearestIndex(picoT, lidarT[n]))] else [])
    ensures forall j :: 0 <= j < |lidarT| ==> (Kept(r, j) <==> Gap(lidarT, picoT, j) <= DeltaTMax)
  {
    var n := |lidarT| - 1;
    var front := lidarT[..n];
    KeptExtend(r0, r, n);
    forall j | 0 <= j < |lidarT|
      ensures Kept(r, j) <==> Gap(lidarT, picoT, j) <= DeltaTMax
    {
      if j < n {
        assert front[j] == lidarT[j];
        assert Gap(front, picoT, j) == Gap(lidarT, picoT, j);
      }
    }
  }

  lemma KeptExtend(r0: seq<Pair>, r: seq<Pair>, n: nat)
    requires forall k :: 0 <= k < |r0| ==> r0[k].lidar < n
    requires r == r0 || (|r| == |r0| + 1 && r[..|r0|] == r0 && r[|r0|].lidar == n)
    ensures forall j :: 0 <= j < n ==> (Kept(r, j) <==> Kept(r0, j))
    ensures !Kept(r0, n)
    ensures Kept(r, n) <==> r != r0
  {
    forall j | 0 <= j < n
      ensures Kept(r, j) <==> Kept(r0, j)
    {
      if Kept(r, j) {
        var k :| 0 <= k < |r| && r[k].lidar == j;
        assert r[k] == r0[k];
      }
      if Kept(r0, j) {
        var k :| 0 <= k < |r0| && r0[k].lidar == j;
        assert r[k] == r0[k];
      }
    }
    if r != r0 {
      assert r[|r0|].lidar == n;
    }
  }

  /** Every kept pair joins a lidar time to a nearest pico time, never more than 0.05 s away. */
  lemma JoinedPairsAreNearest(lidarT: seq<real>, picoT: seq<real>, r: seq<Pair>)
    requires |picoT| >= 1 && Sorted(picoT) && r == JoinPairs(lidarT, picoT)
    ensures forall k :: 0 <= k < |r| ==> AbsR(picoT[r[k].pico] - lidarT[r[k].lidar]) <= DeltaTMax
    ensures forall k, m :: 0 <= k < |r| && 0 <= m < |picoT| ==>
        AbsR(picoT[r[k].pico] - lidarT[r[k].lidar]) <= AbsR(picoT[m] - lidarT[r[k].lidar])
  {
    NearestPairs(lidarT, picoT, r);
  }

  /** The same for any sequence of pairs that meets the join's specification. */
  lemma NearestPairs(lidarT: seq<real>, picoT: seq<real>, r: seq<Pair>)
    requires |picoT| >= 1 && Sorted(picoT) && JoinSpec(lidarT, picoT, r)
    ensures forall k :: 0 <= k < |r| ==> AbsR(picoT[r[k].pico] - lidarT[r[k].lidar]) <= DeltaTMax
    ensures forall k, m :: 0 <= k < |r| && 0 <= m < |picoT| ==>
        AbsR(picoT[r[k].pico] - lidarT[r[k].lidar]) <= AbsR(picoT[m] - lidarT[r[k].lidar])
  {
    forall k, m | 0 <= k < |r| && 0 <= m < |picoT|
      ensures AbsR(picoT[r[k].pico] - lidarT[r[k].lidar]) <= AbsR(picoT[m] - lidarT[r[k].lidar])
    {
      NearestAt(picoT, lidarT[r[k].lidar], m);
    }
  }

  lemma NearestAt(p: seq<real>, t: real, m: nat)
    requires |p| >= 1 && Sorted(p) && m < |p|
    ensures AbsR(p[NearestIndex(p, t)] - t) <= AbsR(p[m] - t)
  {
    NearestIsOptimal(p, t);
  }
}
