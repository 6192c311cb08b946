/** Walk-forward validation: rolling windows, and the curve chained from their results. */
module WalkForward {
  import opened Contracts
  import opened Metrics
  import opened Options

  // ---------------------------------------------------------------- windows

  datatype Window<T> = Window(train: seq<T>, test: seq<T>)

  /** `step or test_size`: an absent or zero step is the test size. */
  function StepOf(step: Option<int>, testSize: int): int {
    if step == None || step == Some(0) then testSize else step.value
  }

  predicate Fits(barCount: nat, trainSize: int, testSize: int, start: int) {
    start + trainSize + testSize <= barCount
  }

  function WindowAt<T>(bars: seq<T>, trainSize: nat, testSize: nat, start: nat): Window<T>
    requires Fits(|bars|, trainSize, testSize, start)
  {
    Window(bars[start..start + trainSize], bars[start + trainSize..start + trainSize + testSize])
  }

  /** The windows taken at every `step` bars, as far as one fits. */
  predicate RollingFrom<T(==)>(bars: seq<T>, trainSize: nat, testSize: nat, step: nat, ws: seq<Window<T>>) {
    forall k :: 0 <= k < |ws| ==>
      Fits(|bars|, trainSize, testSize, k * step) && ws[k] == WindowAt(bars, trainSize, testSize, k * step)
  }

  predicate Rolling<T(==)>(bars: seq<T>, trainSize: nat, testSize: nat, step: nat, ws: seq<Window<T>>) {
    && RollingFrom(bars, trainSize, testSize, step, ws)
    && !Fits(|bars|, trainSize, testSize, |ws| * step)
  }

  lemma RollingNext<T>(bars: seq<T>, trainSize: nat, testSize: nat, step: nat, ws: seq<Window<T>>, start: nat)
    requires RollingFrom(bars, trainSize, testSize, step, ws) && start == |ws| * step
    requires Fits(|bars|, trainSize, testSize, start)
    ensures RollingFrom(bars, trainSize, testSize, step, ws + [WindowAt(bars, trainSize, testSize, start)])
    ensures start + step == (|ws| + 1) * step
  {
    var more := ws + [WindowAt(bars, trainSize, testSize, start)];
    forall k | 0 <= k < |more|
      ensures Fits(|bars|, trainSize, testSize, k * step) && more[k] == WindowAt(bars, trainSize, testSize, k * step)
    {
      if k < |ws| {
        assert Fits(|bars|, trainSize, testSize, k * step) && ws[k] == WindowAt(bars, trainSize, testSize, k * step);
      }
    }
  }

  /** The loop, for a positive step. */
  method Roll<T(==)>(bars: seq<T>, trainSize: nat, testSize: nat, step: nat) returns (windows: seq<Window<T>>)
    requires step > 0
    ensures Rolling(bars, trainSize, testSize, step, windows)
  {
    windows := [];
    var start := 0;
    while start + trainSize + testSize <= |bars|
      invariant start == |windows| * step && RollingFrom(bars, trainSize, testSize, step, windows)
      decreases |bars| - start
    {
      RollingNext(bars, trainSize, testSize, step, windows, start);
      windows := windows + [WindowAt(bars, trainSize, testSize, start)];
      start := start + step;
    }
  }

  /** `walk_forward_windows`, called so that it returns: with a negative step the loop ends only
      when the first window already fails to fit. */
  method WalkForwardWindows<T(==)>(bars: seq<T>, trainSize: int, testSize: int, step: Option<int>)
    returns (r: Outcome<seq<Window<T>>>)
    requires trainSize > 0 && testSize > 0 && StepOf(step, testSize) < 0 ==> !Fits(|bars|, trainSize, testSize, 0)
    ensures r.Raised? <==> trainSize <= 0 || testSize <= 0
    ensures r.Returned? && (step == None || step == Some(0)) ==> Rolling(bars, trainSize, testSize, testSize, r.value)
    ensures r.Returned? && step.Some? && step.value > 0 ==> Rolling(bars, trainSize, testSize, step.value, r.value)
    ensures r.Returned? && step.Some? && step.value < 0 ==> r.value == []
  {
    if trainSize <= 0 || testSize <= 0 {
      return Raised;
    }
    var stride := StepOf(step, testSize);
    if stride < 0 {
      return Returned([]);
    }
    var windows := Roll(bars, trainSize, testSize, stride);
    return Returned(windows);
  }

  /** With a negative step the guard never becomes false again: the loop does not end. */
  lemma NegativeStepNeverStops(barCount: nat, trainSize: nat, testSize: nat, step: int, k: nat)
    requires step < 0 && Fits(barCount, trainSize, testSize, 0)
    ensures Fits(barCount, trainSize, testSize, k * step)
  {
    assert k * step <= 0;
  }

  /** Every test block follows its train block directly, and later windows test later bars. */
  lemma WindowsMoveForward<T>(bars: seq<T>, trainSize: nat, testSize: nat, step: nat, ws: seq<Window<T>>, k: nat)
    requires Rolling(bars, trainSize, testSize, step, ws) && k < |ws|
    ensures k * step + trainSize + testSize <= |bars|
    ensures ws[k].train + ws[k].test == bars[k * step..k * step + trainSize + testSize]
    ensures |ws[k].train| == trainSize && |ws[k].test| == testSize
  {
    var start := k * step;
    assert Fits(|bars|, trainSize, testSize, start) && ws[k] == WindowAt(bars, trainSize, testSize, start);
    assert bars[start..start + trainSize] + bars[start + trainSize..start + trainSize + testSize]
        == bars[start..start + trainSize + testSize];
  }

  /** As many windows as there can be. */
  lemma WindowCount<T>(bars: seq<T>, trainSize: nat, testSize: nat, step: nat, ws: seq<Window<T>>)
    requires step > 0 && Rolling(bars, trainSize, testSize, step, ws)
    ensures |ws| == if |bars| < trainSize + testSize then 0 else (|bars| - trainSize - testSize) / step + 1
  {
    var n, room := |ws|, |bars| - trainSize - testSize;
    if n > 0 {
      assert Fits(|bars|, trainSize, testSize, (n - 1) * step);
      assert (n - 1) * step <= room < n * step;
      QuotientBetween(room, step, n - 1);
    } else {
      assert 0 * step == 0;
    }
  }

  lemma ProductsCompare(a: int, b: int, k: nat)
    requires k > 0 && a * k < b * k
    ensures a < b
  {
  }

  lemma QuotientBetween(room: int, step: nat, q: nat)
    requires step > 0 && q * step <= room < (q + 1) * step
    ensures room / step == q
  {
    var d := room / step;
    assert room == d * step + room % step;
    assert d * step <= room < (d + 1) * step;
    ProductsCompare(d, q + 1, step);
    ProductsCompare(q, d + 1, step);
  }

  function Tests<T>(ws: seq<Window<T>>): seq<T> {
    if ws == [] then [] else Tests(ws[..|ws| - 1]) + ws[|ws| - 1].test
  }

  /** With the default step the test blocks are disjoint and contiguous: laid end to end they are
      one stretch of the bars, and fewer than one block is left over. */
  lemma {:induction false} DefaultTestsAreContiguous<T>(bars: seq<T>, trainSize: nat, testSize: nat, ws: seq<Window<T>>)
    requires RollingFrom(bars, trainSize, testSize, testSize, ws)
    ensures ws != [] ==> trainSize + |ws| * testSize <= |bars|
    ensures ws != [] ==> Tests(ws) == bars[trainSize..trainSize + |ws| * testSize]
    ensures Rolling(bars, trainSize, testSize, testSize, ws) ==>
              |bars| < trainSize + |ws| * testSize + testSize
  {
    if ws != [] {
      var n := |ws| - 1;
      var start := n * testSize;
      assert Fits(|bars|, trainSize, testSize, start) && ws[n] == WindowAt(bars, trainSize, testSize, start);
      assert |ws| * testSize == start + testSize;
      DefaultTestsAreContiguous(bars, trainSize, testSize, ws[..n]);
      if n > 0 {
        assert Tests(ws[..n]) == bars[trainSize..trainSize + start];
      } else {
        assert Tests(ws[..n]) == [] == bars[trainSize..trainSize + start];
      }
      assert bars[trainSize..trainSize + start] + bars[start + trainSize..start + trainSize + testSize]
          == bars[trainSize..trainSize + start + testSize];
    }
  }

  // ---------------------------------------------------------------- the chained curve

  /** The curve of one window, rescaled to continue where the chained curve stands. */
  function Continued(combined: seq<real>, curve: seq<real>): seq<real> {
    if combined != [] && curve != []
    then Scaled(curve, if curve[0] != 0.0 then Last(combined) / curve[0] else 1.0)
    else curve
  }

  function Combine(curves: seq<seq<real>>): seq<real> {
    if curves == [] then []
    else
      var front := Combine(curves[..|curves| - 1]);
      front + Continued(front, curves[|curves| - 1])
  }

  function AllTrades(trades: seq<seq<real>>): seq<real> {
    if trades == [] then [] else AllTrades(trades[..|trades| - 1]) + trades[|trades| - 1]
  }

  /** What the backtester returns for one window. */
  datatype BacktestResult = BacktestResult(equity: seq<real>, pnls: seq<real>)

  datatype BacktestMetrics = BacktestMetrics(periods: nat, trades: nat, totalReturn: real, maxDrawdown: real)

  function MetricsOf(curve: seq<real>, pnls: seq<real>): BacktestMetrics {
    BacktestMetrics(|Returns(curve)|, |pnls|, TotalReturn(curve), Drawdown(curve))
  }

  /** `compute_metrics`, the fields modelled here. */
  method ComputeMetrics(curve: seq<real>, pnls: seq<real>) returns (m: BacktestMetrics)
    ensures m == MetricsOf(curve, pnls)
  {
    var rets := ReturnsFromEquity(curve);
    var totalReturn := TotalReturn(curve);
    var mdd := MaxDrawdown(curve);
    m := BacktestMetrics(|rets|, |pnls|, totalReturn, mdd);
  }

  function Curves(rs: seq<BacktestResult>): (cs: seq<seq<real>>)
    ensures |cs| == |rs| && forall i :: 0 <= i < |rs| ==> cs[i] == rs[i].equity
  {
    seq(|rs|, i requires 0 <= i < |rs| => rs[i].equity)
  }

  function Pnls(rs: seq<BacktestResult>): (ps: seq<seq<real>>)
    ensures |ps| == |rs| && forall i :: 0 <= i < |rs| ==> ps[i] == rs[i].pnls
  {
    seq(|rs|, i requires 0 <= i < |rs| => rs[i].pnls)
  }

  /** `extend(v * scale for v in curve)`. */
  method Extend(combined: seq<real>, curve: seq<real>, scale: real) returns (r: seq<real>)
    ensures r == combined + Scaled(curve, scale)
  {
    r := combined;
    var i := 0;
    while i < |curve|
      invariant 0 <= i <= |curve| && r == combined + Scaled(curve[..i], scale)
    {
      assert curve[..i + 1] == curve[..i] + [curve[i]];
      ScaledAppend(curve[..i], curve[i], scale);
      assert r + [Times(curve[i], scale)] == combined + Scaled(curve[..i + 1], scale);
      r := r + [Times(curve[i], scale)];
      i := i + 1;
    }
    assert curve[..i] == curve;
  }

  lemma CombineNext(results: seq<BacktestResult>, i: nat)
    requires i < |results|
    ensures var front := Combine(Curves(results)[..i]);
            Combine(Curves(results)[..i + 1]) == front + Continued(front, results[i].equity)
    ensures AllTrades(Pnls(results)[..i + 1]) == AllTrades(Pnls(results)[..i]) + results[i].pnls
  {
    assert Curves(results)[..i + 1][..i] == Curves(results)[..i];
    assert Pnls(results)[..i + 1][..i] == Pnls(results)[..i];
  }

  /** One curve onto the chain. */
  method Chain(equity0: seq<real>, curve: seq<real>) returns (equity: seq<real>)
    ensures equity == equity0 + Continued(equity0, curve)
  {
    if equity0 != [] && curve != [] {
      equity := Extend(equity0, curve, if curve[0] != 0.0 then Last(equity0) / curve[0] else 1.0);
    } else {
      equity := equity0 + curve;
    }
  }

  function MetricsFor(r: BacktestResult): BacktestMetrics {
    MetricsOf(r.equity, r.pnls)
  }

  function EachMetrics(rs: seq<BacktestResult>): (ms: seq<BacktestMetrics>)
    ensures |ms| == |rs|
  {
    seq(|rs|, i requires 0 <= i < |rs| => MetricsFor(rs[i]))
  }

  /** A period is counted for every value but the last that is not zero. */
  lemma {:induction false} PeriodsCounted(curve: seq<real>)
    ensures |Returns(curve)| <= if curve == [] then 0 else |curve| - 1
    ensures curve != [] ==> (|Returns(curve)| == |curve| - 1 <==> forall i :: 0 <= i < |curve| - 1 ==> curve[i] != 0.0)
  {
    if |curve| > 1 {
      var n := |curve| - 1;
      PeriodsCounted(curve[..n]);
      assert forall i :: 0 <= i < n ==> curve[..n][i] == curve[i];
      if forall i :: 0 <= i < n - 1 ==> curve[..n][i] != 0.0 {
        assert curve[n - 1] != 0.0 ==> forall i :: 0 <= i < n ==> curve[i] != 0.0;
      }
    }
  }

  function TradesIn(ms: seq<BacktestMetrics>): nat {
    if ms == [] then 0 else TradesIn(ms[..|ms| - 1]) + ms[|ms| - 1].trades
  }

  lemma TradesAppend(ms: seq<BacktestMetrics>, m: BacktestMetrics)
    ensures TradesIn(ms + [m]) == TradesIn(ms) + m.trades
  {
  }

  /** Each window is reported on by its own curve and its own trades. */
  lemma WindowReports(rs: seq<BacktestResult>, k: nat)
    requires k < |rs|
    ensures var m, curve := EachMetrics(rs)[k], rs[k].equity;
      && m.trades == |rs[k].pnls| && m.maxDrawdown == Drawdown(curve)
      && (|curve| >= 2 && curve[0] != 0.0 ==> curve[0] * (1.0 + m.totalReturn) == Last(curve))
      && (|curve| < 2 || curve[0] == 0.0 ==> m.totalReturn == 0.0)
      && m.periods <= (if curve == [] then 0 else |curve| - 1)
      && (curve != [] ==> (m.periods == |curve| - 1 <==> forall i :: 0 <= i < |curve| - 1 ==> curve[i] != 0.0))
  {
    PeriodsCounted(rs[k].equity);
  }

  /** The chain carries the trades of all windows. */
  lemma {:induction false} TradesAddUp(rs: seq<BacktestResult>)
    ensures |AllTrades(Pnls(rs))| == TradesIn(EachMetrics(rs))
  {
    if rs != [] {
      var n := |rs| - 1;
      TradesAddUp(rs[..n]);
      assert Pnls(rs)[..n] == Pnls(rs[..n]);
      assert EachMetrics(rs) == EachMetrics(rs[..n]) + [MetricsFor(rs[n])];
      TradesAppend(EachMetrics(rs[..n]), MetricsFor(rs[n]));
    }
  }

  lemma EachNext(rs: seq<BacktestResult>, i: nat)
    requires i < |rs|
    ensures EachMetrics(rs)[..i + 1] == EachMetrics(rs)[..i] + [MetricsFor(rs[i])]
  {
  }

  /** One turn of the loop: the window's own metrics, and its curve and trades onto the chain. */
  method RunWindow(r: BacktestResult, equity0: seq<real>, pnls0: seq<real>)
    returns (m: BacktestMetrics, equity: seq<real>, pnls: seq<real>)
    ensures m == MetricsFor(r) && equity == equity0 + Continued(equity0, r.equity) && pnls == pnls0 + r.pnls
  {
    m := ComputeMetrics(r.equity, r.pnls);
    equity := Chain(equity0, r.equity);
    pnls := pnls0 + r.pnls;
  }

  /** The loop of `walk_forward`. */
  method RunWindows(results: seq<BacktestResult>)
    returns (windowMetrics: seq<BacktestMetrics>, equity: seq<real>, pnls: seq<real>)
    ensures windowMetrics == EachMetrics(results)
    ensures equity == Combine(Curves(results)) && pnls == AllTrades(Pnls(results))
  {
    windowMetrics, equity, pnls := [], [], [];
    var i := 0;
    while i < |results|
      invariant 0 <= i <= |results| && windowMetrics == EachMetrics(results)[..i]
      invariant equity == Combine(Curves(results)[..i]) && pnls == AllTrades(Pnls(results)[..i])
    {
      CombineNext(results, i);
      EachNext(results, i);
      var m;
      m, equity, pnls := RunWindow(results[i], equity, pnls);
      windowMetrics := windowMetrics + [m];
      i := i + 1;
    }
    assert Curves(results)[..i] == Curves(results) && Pnls(results)[..i] == Pnls(results);
  }

  /** `walk_forward`, given what the backtester returns on each test segment. */
  method RunWalkForward(results: seq<BacktestResult>)
    returns (windowMetrics: seq<BacktestMetrics>, combined: Option<BacktestMetrics>)
    ensures windowMetrics == EachMetrics(results)
    ensures var curve := Combine(Curves(results));
            combined == if curve == [] then None else Some(MetricsOf(curve, AllTrades(Pnls(results))))
  {
    var equity, pnls;
    windowMetrics, equity, pnls := RunWindows(results);
    combined := None;
    if equity != [] {
      var m := ComputeMetrics(equity, pnls);
      combined := Some(m);
    }
  }

  // ---------------------------------------------------------------- compounding

  predicate StartsNonZero(curves: seq<seq<real>>) {
    forall i :: 0 <= i < |curves| && curves[i] != [] ==> curves[i][0] != 0.0
  }

  /** One plus each window's total return, multiplied together. */
  function WindowGrowth(curves: seq<seq<real>>): real {
    if curves == [] then 1.0
    else WindowGrowth(curves[..|curves| - 1]) * (1.0 + TotalReturn(curves[|curves| - 1]))
  }

  lemma ScaledEnds(curve: seq<real>, c: real)
    requires curve != []
    ensures Scaled(curve, c)[0] == curve[0] * c && Last(Scaled(curve, c)) == Last(curve) * c
  {
    ScaledAt(curve, c, 0);
    ScaledAt(curve, c, |curve| - 1);
  }

  lemma QuotientsSwap(a: real, first: real, b: real, c: real)
    requires first != 0.0 && c != 0.0
    ensures (b * (a / c)) / first == (a / first) * (b / c)
  {
    var x, y, z := a / c, a / first, b / c;
    assert x * c == a && y * first == a && z * c == b;
    assert y * z * first == a * z == x * c * z == x * b;
    assert (b * x) / first * first == b * x;
  }

  lemma ChainGrows(front: seq<real>, curve: seq<real>)
    requires front != [] && front[0] != 0.0 && curve != [] && curve[0] != 0.0
    ensures var c := front + Continued(front, curve);
            c[0] == front[0] && Last(c) / c[0] == Growth(front) * Growth(curve)
  {
    var scale := Last(front) / curve[0];
    ScaledEnds(curve, scale);
    QuotientsSwap(Last(front), front[0], Last(curve), curve[0]);
  }

  /** A curve that is either empty or grows by `g` in all. */
  predicate GrowsBy(curve: seq<real>, g: real) {
    if curve == [] then g == 1.0 else curve[0] != 0.0 && Growth(curve) == g
  }

  lemma ContinuedGrows(front: seq<real>, curve: seq<real>, g: real)
    requires GrowsBy(front, g) && (curve != [] ==> curve[0] != 0.0)
    ensures GrowsBy(front + Continued(front, curve), g * (1.0 + TotalReturn(curve)))
  {
    if curve == [] {
      assert front + Continued(front, curve) == front;
    } else {
      TotalReturnIsGrowth(curve);
      if front == [] {
        assert front + Continued(front, curve) == curve;
      } else {
        ChainGrows(front, curve);
      }
    }
  }

  /** The last value of the chained curve carries the growth of all windows. */
  lemma {:induction false} CombineGrows(curves: seq<seq<real>>)
    requires StartsNonZero(curves)
    ensures GrowsBy(Combine(curves), WindowGrowth(curves))
  {
    if curves != [] {
      var n := |curves| - 1;
      CombineGrows(curves[..n]);
      ContinuedGrows(Combine(curves[..n]), curves[n], WindowGrowth(curves[..n]));
    }
  }

  /** One plus the combined total return is the product over the windows of one plus theirs. */
  lemma WalkForwardCompounds(curves: seq<seq<real>>)
    requires StartsNonZero(curves)
    ensures 1.0 + TotalReturn(Combine(curves)) == WindowGrowth(curves)
  {
    CombineGrows(curves);
    if Combine(curves) != [] {
      TotalReturnIsGrowth(Combine(curves));
    }
  }

  /** A window that starts at zero breaks the chain. */
  lemma ZeroStartBreaksCompounding()
    ensures var curves := [[1.0, 2.0], [0.0, 6.0]];
            1.0 + TotalReturn(Combine(curves)) != WindowGrowth(curves)
  {
    var curves := [[1.0, 2.0], [0.0, 6.0]];
    assert curves[..1] == [[1.0, 2.0]] && [[1.0, 2.0]][..0] == [];
    assert Combine([]) == [];
    assert Combine([[1.0, 2.0]]) == [1.0, 2.0];
    ScaledEnds([0.0, 6.0], 1.0);
    assert Last(Combine(curves)) == 6.0 && Combine(curves)[0] == 1.0;
    assert WindowGrowth([]) == 1.0;
    assert WindowGrowth([[1.0, 2.0]]) == 2.0;
    assert WindowGrowth(curves) == 2.0;
  }

  // ---------------------------------------------------------------- drawdown of the chain

  predicate AllPositive(curves: seq<seq<real>>) {
    forall i :: 0 <= i < |curves| ==> Positive(curves[i])
  }

  lemma {:induction false} ScaledPositive(curve: seq<real>, c: real)
    requires Positive(curve) && c > 0.0
    ensures Positive(Scaled(curve, c))
  {
    forall i | 0 <= i < |curve|
      ensures Scaled(curve, c)[i] > 0.0
    {
      ScaledAt(curve, c, i);
    }
  }

  lemma ContinuedKeepsDrawdown(front: seq<real>, curve: seq<real>)
    requires Positive(front) && Positive(curve)
    ensures Positive(Continued(front, curve)) && Drawdown(Continued(front, curve)) == Drawdown(curve)
  {
    if front != [] && curve != [] {
      var scale := Last(front) / curve[0];
      assert scale * curve[0] == Last(front) > 0.0;
      assert scale > 0.0;
      ScaledPositive(curve, scale);
      DrawdownScales(curve, scale);
    }
  }

  lemma ChainCoversBoth(front: seq<real>, curve: seq<real>)
    requires Positive(front) && Positive(curve)
    ensures Positive(front + Continued(front, curve))
    ensures Drawdown(front + Continued(front, curve)) >= Drawdown(front)
    ensures Drawdown(front + Continued(front, curve)) >= Drawdown(curve)
  {
    var tail := Continued(front, curve);
    ContinuedKeepsDrawdown(front, curve);
    assert [] + front + tail == front + tail && front + tail + [] == front + tail;
    SegmentDrawdown([], front, tail);
    SegmentDrawdown(front, tail, []);
  }

  /** Chaining positive curves hides no drawdown: the combined one is at least every window's. */
  lemma {:induction false} CombinedDrawdownCovers(curves: seq<seq<real>>, k: nat)
    requires AllPositive(curves) && k < |curves|
    ensures Drawdown(Combine(curves)) >= Drawdown(curves[k])
  {
    var n := |curves| - 1;
    CombinePositive(curves[..n]);
    ChainCoversBoth(Combine(curves[..n]), curves[n]);
    if k < n {
      CombinedDrawdownCovers(curves[..n], k);
    }
  }

  lemma {:induction false} CombinePositive(curves: seq<seq<real>>)
    requires AllPositive(curves)
    ensures Positive(Combine(curves))
  {
    if curves != [] {
      CombinePositive(curves[..|curves| - 1]);
      ChainCoversBoth(Combine(curves[..|curves| - 1]), curves[|curves| - 1]);
    }
  }
}
