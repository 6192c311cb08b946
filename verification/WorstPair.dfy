/** When the single-pass drawdown is the worst pair of a curve, on any curve.

    A value below zero falls furthest against the least positive value before it, while the single
    pass measures it against the greatest. */
module WorstPair {
  import opened Fractions
  import opened Metrics

  /** No later value falls further below an earlier positive one than the single pass says. */
  ghost predicate PassIsWorst(curve: seq<real>) {
    forall i, j, d :: DropAt(curve, i, j, d) ==> d <= Drawdown(curve)
  }

  /** The least positive value, zero if there is none. */
  function LeastPositive(curve: seq<real>): real {
    if curve == [] then 0.0
    else
      var low, v := LeastPositive(curve[..|curve| - 1]), Last(curve);
      if v > 0.0 && (low == 0.0 || v < low) then v else low
  }

  lemma {:induction false} LeastIsLeast(curve: seq<real>)
    ensures LeastPositive(curve) >= 0.0
    ensures forall i :: 0 <= i < |curve| && curve[i] > 0.0 ==> 0.0 < LeastPositive(curve) <= curve[i]
    ensures LeastPositive(curve) > 0.0 ==> exists i :: 0 <= i < |curve| && curve[i] == LeastPositive(curve)
  {
    if curve != [] {
      var n := |curve| - 1;
      LeastIsLeast(curve[..n]);
      forall i | 0 <= i < |curve| && curve[i] > 0.0
        ensures 0.0 < LeastPositive(curve) <= curve[i]
      {
        if i < n {
          assert curve[..n][i] == curve[i];
        }
      }
      if LeastPositive(curve) == LeastPositive(curve[..n]) && LeastPositive(curve) > 0.0 {
        var k :| 0 <= k < n && curve[..n][k] == LeastPositive(curve);
        assert curve[k] == LeastPositive(curve);
      } else if LeastPositive(curve) > 0.0 {
        assert curve[n] == LeastPositive(curve);
      }
    }
  }

  function LeastUpTo(curve: seq<real>, j: nat): real
    requires j < |curve|
  {
    LeastPositive(curve[..j + 1])
  }

  function PeakUpTo(curve: seq<real>, j: nat): real
    requires j < |curve|
  {
    Peak(curve[..j + 1])
  }

  /** A value below zero that follows a positive one. */
  predicate Sinks(curve: seq<real>, j: nat) {
    j < |curve| && curve[j] < 0.0 && LeastUpTo(curve, j) > 0.0
  }

  /** All positive values up to here are one and the same. */
  predicate Level(curve: seq<real>, j: nat)
    requires j < |curve|
  {
    LeastUpTo(curve, j) == PeakUpTo(curve, j)
  }

  /** How far a sinking value lies below zero, in units of the least positive value before it. */
  function Depth(curve: seq<real>, j: nat): real
    requires Sinks(curve, j)
  {
    -curve[j] / LeastUpTo(curve, j)
  }

  /** Every value that sinks after two different positive ones is matched in depth by one that sank
      before they differed. */
  predicate SinksMatched(curve: seq<real>) {
    forall j :: 0 <= j < |curve| && Sinks(curve, j) && !Level(curve, j) ==>
      exists k :: 0 <= k < j && Sinks(curve, k) && Level(curve, k) && Depth(curve, j) <= Depth(curve, k)
  }

  // ---------------------------------------------------------------- one value

  lemma BetweenLeastAndPeak(curve: seq<real>, i: nat, j: nat)
    requires i <= j < |curve| && curve[i] > 0.0
    ensures 0.0 < LeastUpTo(curve, j) <= curve[i] <= PeakUpTo(curve, j)
  {
    LeastIsLeast(curve[..j + 1]);
    PeakIsHighest(curve[..j + 1]);
    assert curve[..j + 1][i] == curve[i];
  }

  lemma LeastAt(curve: seq<real>, j: nat) returns (i: nat)
    requires j < |curve| && LeastUpTo(curve, j) > 0.0
    ensures i <= j && curve[i] == LeastUpTo(curve, j)
  {
    LeastIsLeast(curve[..j + 1]);
    i :| 0 <= i < j + 1 && curve[..j + 1][i] == LeastUpTo(curve, j);
  }

  lemma PeakAt(curve: seq<real>, j: nat) returns (i: nat)
    requires j < |curve|
    ensures i <= j && curve[i] == PeakUpTo(curve, j)
  {
    PeakIsHighest(curve[..j + 1]);
    i :| 0 <= i < j + 1 && curve[..j + 1][i] == PeakUpTo(curve, j);
  }

  lemma FallBelowZero(x: real, v: real)
    requires x > 0.0 && v < 0.0
    ensures Fall(x, v) == 1.0 + -v / x && Fall(x, v) > 1.0
  {
    assert (x - v) / x == x / x + -v / x;
    assert -v / x > 0.0;
  }

  lemma FallBelowZeroShrinks(low: real, high: real, v: real)
    requires 0.0 < low < high && v < 0.0
    ensures Fall(high, v) < Fall(low, v)
  {
    FallBelowZero(low, v);
    FallBelowZero(high, v);
    QuotientShrinks(-v, low, high);
  }

  lemma QuotientShrinks(a: real, low: real, high: real)
    requires a > 0.0 && 0.0 < low < high
    ensures a / high < a / low
  {
    var x, y := a / high, a / low;
    assert x * high == a == y * low;
    assert x > 0.0 && x * low < x * high;
    StrictlyCancels(x, y, low);
  }

  lemma StrictlyCancels(x: real, y: real, k: real)
    requires k > 0.0 && x * k < y * k
    ensures x < y
  {
  }

  /** The greatest drop that ends at a sinking value. */
  lemma DepthIsDrop(curve: seq<real>, j: nat) returns (i: nat)
    requires Sinks(curve, j)
    ensures DropAt(curve, i, j, 1.0 + Depth(curve, j))
  {
    i := LeastAt(curve, j);
    FallBelowZero(curve[i], curve[j]);
  }

  lemma NoDeeperDrop(curve: seq<real>, i: nat, j: nat)
    requires i <= j < |curve| && curve[i] > 0.0 && curve[j] < 0.0
    ensures Sinks(curve, j) && Fall(curve[i], curve[j]) <= 1.0 + Depth(curve, j)
  {
    BetweenLeastAndPeak(curve, i, j);
    var low := LeastUpTo(curve, j);
    FallBelowZero(low, curve[j]);
    if low < curve[i] {
      FallBelowZeroShrinks(low, curve[i], curve[j]);
    }
  }

  /** Once two positive values differ they stay different. */
  lemma LevelComesFirst(curve: seq<real>, j: nat, k: nat)
    requires j < |curve| && k < |curve| && LeastUpTo(curve, j) > 0.0
    requires !Level(curve, j) && Level(curve, k)
    ensures k < j
  {
    if j <= k {
      var a := LeastAt(curve, j);
      var b := PeakAt(curve, j);
      BetweenLeastAndPeak(curve, a, j);
      BetweenLeastAndPeak(curve, a, k);
      BetweenLeastAndPeak(curve, b, k);
    }
  }

  // ---------------------------------------------------------------- the whole curve

  /** The single pass covers the fall from every running peak. */
  lemma {:induction false} PassCovers(curve: seq<real>, j: nat)
    requires j < |curve|
    ensures Fall(PeakUpTo(curve, j), curve[j]) <= Drawdown(curve)
  {
    var n := |curve| - 1;
    if j < n {
      PassCovers(curve[..n], j);
      assert curve[..n][..j + 1] == curve[..j + 1];
    } else {
      assert curve[..j + 1] == curve;
    }
  }

  /** And it is one of those falls, or zero. */
  lemma {:induction false} PassAttained(curve: seq<real>) returns (k: nat)
    requires Drawdown(curve) > 0.0
    ensures k < |curve| && PeakUpTo(curve, k) > 0.0 && Drawdown(curve) == Fall(PeakUpTo(curve, k), curve[k])
  {
    var n := |curve| - 1;
    if Drawdown(curve) == Drawdown(curve[..n]) {
      k := PassAttained(curve[..n]);
      assert curve[..n][..k + 1] == curve[..k + 1];
    } else {
      k := n;
      assert curve[..n + 1] == curve;
    }
  }

  lemma LevelCovered(curve: seq<real>, j: nat)
    requires Sinks(curve, j) && Level(curve, j)
    ensures 1.0 + Depth(curve, j) <= Drawdown(curve)
  {
    PassCovers(curve, j);
    FallBelowZero(LeastUpTo(curve, j), curve[j]);
  }

  lemma MatchedCovers(curve: seq<real>, i: nat, j: nat)
    requires SinksMatched(curve) && i <= j < |curve| && curve[i] > 0.0
    ensures Fall(curve[i], curve[j]) <= Drawdown(curve)
  {
    if curve[j] >= 0.0 {
      BetweenLeastAndPeak(curve, i, j);
      FallRisesWithPeak(curve[i], PeakUpTo(curve, j), curve[j]);
      PassCovers(curve, j);
    } else {
      NoDeeperDrop(curve, i, j);
      if Level(curve, j) {
        LevelCovered(curve, j);
      } else {
        var k :| 0 <= k < j && Sinks(curve, k) && Level(curve, k) && Depth(curve, j) <= Depth(curve, k);
        LevelCovered(curve, k);
      }
    }
  }

  lemma WorstIsMatched(curve: seq<real>, j: nat) returns (k: nat)
    requires PassIsWorst(curve) && Sinks(curve, j) && !Level(curve, j)
    ensures k < j && Sinks(curve, k) && Level(curve, k) && Depth(curve, j) <= Depth(curve, k)
  {
    var i := DepthIsDrop(curve, j);
    FallBelowZero(LeastUpTo(curve, j), curve[j]);
    assert 1.0 < 1.0 + Depth(curve, j) <= Drawdown(curve);
    k := PassAttained(curve);
    PassSinks(curve, k);
    LevelComesFirst(curve, j, k);
    FallBelowZero(LeastUpTo(curve, k), curve[k]);
  }

  lemma FallIsFraction(peak: real, v: real)
    requires peak > 0.0 && v >= 0.0
    ensures Fall(peak, v) <= 1.0
  {
    CrossDivide(peak - v, peak, 1.0, 1.0);
  }

  lemma PassFallsShort(curve: seq<real>, k: nat)
    requires Sinks(curve, k) && !Level(curve, k)
    ensures Fall(PeakUpTo(curve, k), curve[k]) < 1.0 + Depth(curve, k)
  {
    var low := LeastAt(curve, k);
    BetweenLeastAndPeak(curve, low, k);
    FallBelowZeroShrinks(LeastUpTo(curve, k), PeakUpTo(curve, k), curve[k]);
    FallBelowZero(LeastUpTo(curve, k), curve[k]);
  }

  /** Where the pass is worst and exceeds one, the value it stops at sinks while all is level. */
  lemma PassSinks(curve: seq<real>, k: nat)
    requires PassIsWorst(curve) && Drawdown(curve) > 1.0
    requires k < |curve| && PeakUpTo(curve, k) > 0.0 && Drawdown(curve) == Fall(PeakUpTo(curve, k), curve[k])
    ensures Sinks(curve, k) && Level(curve, k)
  {
    if curve[k] >= 0.0 {
      FallIsFraction(PeakUpTo(curve, k), curve[k]);
      assert false;
    }
    var top := PeakAt(curve, k);
    NoDeeperDrop(curve, top, k);
    if !Level(curve, k) {
      PassFallsShort(curve, k);
      var i := DepthIsDrop(curve, k);
      assert false;
    }
  }

  /** On every curve the single pass is the worst pair exactly when no value sinks deeper, in units
      of the least positive value before it, after two positive values have differed than one did
      before. */
  lemma PassIsWorstExactly(curve: seq<real>)
    ensures PassIsWorst(curve) <==> SinksMatched(curve)
  {
    if SinksMatched(curve) {
      forall i, j, d | DropAt(curve, i, j, d)
        ensures d <= Drawdown(curve)
      {
        MatchedCovers(curve, i, j);
      }
    }
    if PassIsWorst(curve) {
      forall j | 0 <= j < |curve| && Sinks(curve, j) && !Level(curve, j)
        ensures exists k :: 0 <= k < j && Sinks(curve, k) && Level(curve, k) && Depth(curve, j) <= Depth(curve, k)
      {
        var k := WorstIsMatched(curve, j);
      }
    }
  }
}
