/** Returns and drawdown of an equity curve, over the reals. */
module Metrics {
  import opened Fractions

  predicate NonNegative(curve: seq<real>) {
    forall i :: 0 <= i < |curve| ==> curve[i] >= 0.0
  }

  predicate Positive(curve: seq<real>) {
    forall i :: 0 <= i < |curve| ==> curve[i] > 0.0
  }

  function Last(curve: seq<real>): real
    requires curve != []
  {
    curve[|curve| - 1]
  }

  // ---------------------------------------------------------------- drawdown

  /** The highest value of a curve. */
  function Peak(curve: seq<real>): real
    requires curve != []
  {
    if |curve| == 1 then curve[0] else Max(Peak(curve[..|curve| - 1]), Last(curve))
  }

  lemma {:induction false} PeakIsHighest(curve: seq<real>)
    requires curve != []
    ensures forall i :: 0 <= i < |curve| ==> curve[i] <= Peak(curve)
    ensures exists i :: 0 <= i < |curve| && curve[i] == Peak(curve)
  {
    if |curve| == 1 {
      assert curve[0] == Peak(curve);
    } else {
      var front := curve[..|curve| - 1];
      PeakIsHighest(front);
      var k :| 0 <= k < |front| && front[k] == Peak(front);
      var top := if Last(curve) > Peak(front) then |curve| - 1 else k;
      assert curve[top] == Peak(curve);
      forall i | 0 <= i < |curve|
        ensures curve[i] <= Peak(curve)
      {
        if i < |front| {
          assert curve[i] == front[i];
        }
      }
    }
  }

  /** The fall from a positive peak, as a fraction of it. */
  function Fall(peak: real, v: real): real {
    if peak > 0.0 then (peak - v) / peak else 0.0
  }

  /** The largest fall from the highest value so far. */
  function Drawdown(curve: seq<real>): (d: real)
    ensures d >= 0.0
  {
    if curve == [] then 0.0
    else Max(Drawdown(curve[..|curve| - 1]), Fall(Peak(curve), Last(curve)))
  }

  /** `max_drawdown`: one pass with a running peak. */
  method MaxDrawdown(curve: seq<real>) returns (mdd: real)
    ensures mdd == Drawdown(curve)
  {
    if curve == [] {
      return 0.0;
    }
    var peak := curve[0];
    mdd := 0.0;
    var i := 0;
    while i < |curve|
      invariant 0 <= i <= |curve|
      invariant mdd == Drawdown(curve[..i])
      invariant peak == if i == 0 then curve[0] else Peak(curve[..i])
    {
      var v := curve[i];
      assert curve[..i + 1][..i] == curve[..i];
      peak := Max(peak, v);
      if peak > 0.0 {
        mdd := Max(mdd, (peak - v) / peak);
      }
      i := i + 1;
    }
    assert curve[..i] == curve;
  }

  // ---------------------------------------------------------------- the quadratic definition

  /** A later value against an earlier positive one. */
  predicate DropAt(curve: seq<real>, i: int, j: int, d: real) {
    0 <= i <= j < |curve| && curve[i] > 0.0 && d == Fall(curve[i], curve[j])
  }

  lemma FallRisesWithPeak(low: real, high: real, v: real)
    requires 0.0 < low <= high && v >= 0.0
    ensures Fall(low, v) <= Fall(high, v)
  {
    assert (low - v) * high <= (high - v) * low;
    CrossDivide(low - v, low, high - v, high);
  }

  /** Every drop of a non-negative curve is within the drawdown. */
  lemma {:induction false} DrawdownCovers(curve: seq<real>, i: nat, j: nat)
    requires NonNegative(curve) && i <= j < |curve| && curve[i] > 0.0
    ensures Fall(curve[i], curve[j]) <= Drawdown(curve)
  {
    var front := curve[..|curve| - 1];
    if j < |front| {
      DrawdownCovers(front, i, j);
      assert front[i] == curve[i] && front[j] == curve[j];
    } else {
      PeakIsHighest(curve);
      FallRisesWithPeak(curve[i], Peak(curve), curve[j]);
    }
  }

  /** The drawdown is one of the drops, or zero: on any curve. */
  lemma {:induction false} DrawdownAttained(curve: seq<real>)
    ensures Drawdown(curve) == 0.0 || exists i, j :: DropAt(curve, i, j, Drawdown(curve))
  {
    if curve != [] {
      var front := curve[..|curve| - 1];
      var d := Drawdown(curve);
      DrawdownAttained(front);
      if d == Drawdown(front) && d != 0.0 {
        var i, j :| DropAt(front, i, j, d);
        assert DropAt(curve, i, j, d);
      } else if d != 0.0 {
        PeakIsHighest(curve);
        var i :| 0 <= i < |curve| && curve[i] == Peak(curve);
        assert DropAt(curve, i, |curve| - 1, d);
      }
    }
  }

  lemma PeakAppend(front: seq<real>, v: real)
    requires front != []
    ensures Peak(front + [v]) == Max(Peak(front), v)
  {
    assert (front + [v])[..|front|] == front;
  }

  lemma DrawdownAppend(front: seq<real>, v: real)
    ensures Drawdown(front + [v]) == Max(Drawdown(front), Fall(Peak(front + [v]), v))
  {
    assert (front + [v])[..|front|] == front;
  }

  /** On non-negative curves the single pass finds the maximum over all pairs, and it is a
      fraction. */
  lemma DrawdownIsQuadraticMaximum(curve: seq<real>)
    requires NonNegative(curve)
    ensures forall i, j, d :: DropAt(curve, i, j, d) ==> d <= Drawdown(curve)
    ensures Drawdown(curve) == 0.0 || exists i, j :: DropAt(curve, i, j, Drawdown(curve))
    ensures 0.0 <= Drawdown(curve) <= 1.0
  {
    forall i, j, d | DropAt(curve, i, j, d)
      ensures d <= Drawdown(curve)
    {
      DrawdownCovers(curve, i, j);
    }
    DrawdownAttained(curve);
    if Drawdown(curve) != 0.0 {
      var i, j :| DropAt(curve, i, j, Drawdown(curve));
      CrossDivide(curve[i] - curve[j], curve[i], 1.0, 1.0);
    }
  }

  /** Where a curve goes below zero the single pass reports less than the worst pair. */
  lemma NegativeEquityUnderstates()
    ensures var curve := [1.0, 2.0, -1.0];
            DropAt(curve, 0, 2, 2.0) && Drawdown(curve) < 2.0
  {
    var curve := [1.0, 2.0, -1.0];
    assert curve[..2] == [1.0, 2.0] && curve[..2][..1] == [1.0] && [1.0][..0] == [];
    assert Peak([1.0, 2.0]) == 2.0 && Peak(curve) == 2.0;
    assert Drawdown([1.0]) == 0.0;
    assert Drawdown([1.0, 2.0]) == 0.0;
    assert Fall(2.0, -1.0) == 1.5;
  }

  // ---------------------------------------------------------------- scaling and segments

  function Times(v: real, c: real): real {
    v * c
  }

  function Scaled(curve: seq<real>, c: real): (r: seq<real>)
    ensures |r| == |curve|
  {
    if curve == [] then [] else Scaled(curve[..|curve| - 1], c) + [Times(Last(curve), c)]
  }

  lemma ScaledAppend(curve: seq<real>, v: real, c: real)
    ensures Scaled(curve + [v], c) == Scaled(curve, c) + [Times(v, c)]
  {
    var more := curve + [v];
    assert more[..|curve|] == curve && Last(more) == v;
  }

  lemma {:induction false} ScaledAt(curve: seq<real>, c: real, i: nat)
    requires i < |curve|
    ensures Scaled(curve, c)[i] == curve[i] * c
  {
    if i < |curve| - 1 {
      ScaledAt(curve[..|curve| - 1], c, i);
    }
  }

  lemma ScaleOrder(x: real, y: real, c: real)
    requires c > 0.0
    ensures x <= y <==> Times(x, c) <= Times(y, c)
  {
  }

  lemma FallScales(p: real, v: real, c: real)
    requires c > 0.0
    ensures Fall(Times(p, c), Times(v, c)) == Fall(p, v)
  {
    if p > 0.0 {
      assert p * c > 0.0;
      assert p * c - v * c == (p - v) * c;
      CrossDivide(p * c - v * c, p * c, p - v, p);
      CrossDivide(p - v, p, p * c - v * c, p * c);
    } else {
      assert p * c <= 0.0;
    }
  }

  lemma MaxScales(a: real, b: real, c: real)
    requires c > 0.0
    ensures Max(Times(a, c), Times(b, c)) == Times(Max(a, b), c)
  {
    ScaleOrder(a, b, c);
    ScaleOrder(b, a, c);
  }

  lemma {:induction false} PeakScales(curve: seq<real>, c: real)
    requires curve != [] && c > 0.0
    ensures Peak(Scaled(curve, c)) == Times(Peak(curve), c)
  {
    var front, v := curve[..|curve| - 1], Last(curve);
    assert curve == front + [v];
    ScaledAppend(front, v, c);
    if front != [] {
      PeakScales(front, c);
      PeakAppend(front, v);
      PeakAppend(Scaled(front, c), Times(v, c));
      MaxScales(Peak(front), v, c);
    }
  }

  /** Drawdown is a fraction: rescaling the curve leaves it alone. */
  lemma {:induction false} DrawdownScales(curve: seq<real>, c: real)
    requires c > 0.0
    ensures Drawdown(Scaled(curve, c)) == Drawdown(curve)
  {
    if curve != [] {
      var front, v := curve[..|curve| - 1], Last(curve);
      assert curve == front + [v];
      ScaledAppend(front, v, c);
      DrawdownScales(front, c);
      DrawdownAppend(front, v);
      DrawdownAppend(Scaled(front, c), Times(v, c));
      PeakScales(curve, c);
      FallScales(Peak(curve), v, c);
    }
  }

  /** A stretch of a non-negative curve falls no further than the whole curve. */
  lemma SegmentDrawdown(before: seq<real>, segment: seq<real>, after: seq<real>)
    requires NonNegative(before + segment + after)
    ensures Drawdown(segment) <= Drawdown(before + segment + after)
  {
    var whole := before + segment + after;
    DrawdownAttained(segment);
    if Drawdown(segment) != 0.0 {
      var i, j :| DropAt(segment, i, j, Drawdown(segment));
      assert whole[|before| + i] == segment[i] && whole[|before| + j] == segment[j];
      DrawdownCovers(whole, |before| + i, |before| + j);
    }
  }

  // ---------------------------------------------------------------- returns

  function TotalReturn(curve: seq<real>): real {
    if |curve| >= 2 && curve[0] != 0.0 then (Last(curve) - curve[0]) / curve[0] else 0.0
  }

  function Returns(curve: seq<real>): seq<real> {
    if |curve| <= 1 then []
    else
      var n := |curve| - 1;
      var prev := curve[n - 1];
      Returns(curve[..n]) + if prev != 0.0 then [(curve[n] - prev) / prev] else []
  }

  /** `returns_from_equity`. */
  method ReturnsFromEquity(curve: seq<real>) returns (out: seq<real>)
    ensures out == Returns(curve)
  {
    out := [];
    var i := 1;
    while i < |curve|
      invariant 1 <= i && (|curve| <= 1 || i <= |curve|)
      invariant out == Returns(if i <= |curve| then curve[..i] else [])
    {
      assert curve[..i + 1][..i] == curve[..i];
      var prev := curve[i - 1];
      if prev != 0.0 {
        out := out + [(curve[i] - prev) / prev];
      }
      i := i + 1;
    }
    if |curve| > 1 {
      assert curve[..i] == curve;
    }
  }

  /** One plus each return, multiplied together. */
  function Compounded(rs: seq<real>): real {
    if rs == [] then 1.0
    else Compounded(rs[..|rs| - 1]) * (1.0 + rs[|rs| - 1])
  }

  lemma CompoundedAppend(rs: seq<real>, r: real)
    ensures Compounded(rs + [r]) == Compounded(rs) * (1.0 + r)
  {
    assert (rs + [r])[..|rs|] == rs;
  }

  /** What a non-empty curve that starts off zero is multiplied by. */
  function Growth(curve: seq<real>): real
    requires curve != [] && curve[0] != 0.0
  {
    Last(curve) / curve[0]
  }

  lemma StepGrowth(a: real, b: real)
    requires a != 0.0
    ensures 1.0 + (b - a) / a == b / a
  {
    assert (b - a) / a == b / a - a / a;
  }

  lemma TotalReturnIsGrowth(curve: seq<real>)
    requires curve != [] && curve[0] != 0.0
    ensures 1.0 + TotalReturn(curve) == Growth(curve)
  {
    StepGrowth(curve[0], Last(curve));
  }

  /** The period returns compound to the total return when no value but the last is zero. */
  lemma {:induction false} ReturnsCompound(curve: seq<real>)
    requires curve != [] && forall i :: 0 <= i < |curve| - 1 ==> curve[i] != 0.0
    ensures curve[0] != 0.0 ==> Compounded(Returns(curve)) == 1.0 + TotalReturn(curve)
  {
    var n := |curve| - 1;
    if n > 0 {
      ReturnsCompound(curve[..n]);
      TotalReturnIsGrowth(curve[..n]);
      TotalReturnIsGrowth(curve);
      var first, prev, last := curve[0], curve[n - 1], curve[n];
      CompoundedAppend(Returns(curve[..n]), (last - prev) / prev);
      StepGrowth(prev, last);
      ChainQuotients(prev, first, last);
    }
  }

  lemma ChainQuotients(prev: real, first: real, last: real)
    requires first != 0.0 && prev != 0.0
    ensures (prev / first) * (last / prev) == last / first
  {
    var x, y := prev / first, last / prev;
    assert x * first == prev && y * prev == last;
    assert x * y * first == last;
  }
}
