/** The bootstrap of trade outcomes: many equity paths drawn from the same trades, summarised by
    percentiles.  The random draws are an arbitrary input. */
module MonteCarlo {
  import opened Contracts
  import opened Fractions
  import opened Metrics
  import opened Ordering

  /** The equity path of one sample of trade indices. */
  function Path(trades: seq<real>, start: real, draws: seq<nat>): (curve: seq<real>)
    requires forall i :: 0 <= i < |draws| ==> draws[i] < |trades|
    ensures |curve| == |draws| + 1
  {
    if draws == [] then [start]
    else
      var front := Path(trades, start, draws[..|draws| - 1]);
      front + [Last(front) + trades[draws[|draws| - 1]]]
  }

  /** Each run draws as many trades as there are. */
  predicate Draws(samples: seq<seq<nat>>, n: nat) {
    forall k :: 0 <= k < |samples| ==>
      |samples[k]| == n && forall i :: 0 <= i < n ==> samples[k][i] < n
  }

  function FinalOf(trades: seq<real>, start: real, draws: seq<nat>): real
    requires forall i :: 0 <= i < |draws| ==> draws[i] < |trades|
  {
    Last(Path(trades, start, draws))
  }

  function Finals(trades: seq<real>, start: real, samples: seq<seq<nat>>): (xs: seq<real>)
    requires Draws(samples, |trades|)
    ensures |xs| == |samples|
  {
    seq(|samples|, k requires 0 <= k < |samples| => FinalOf(trades, start, samples[k]))
  }

  function Falls(trades: seq<real>, start: real, samples: seq<seq<nat>>): (xs: seq<real>)
    requires Draws(samples, |trades|)
    ensures |xs| == |samples|
  {
    seq(|samples|, k requires 0 <= k < |samples| => Drawdown(Path(trades, start, samples[k])))
  }

  // ---------------------------------------------------------------- sorting and percentiles

  predicate Ascending(xs: seq<real>) {
    forall i, j :: 0 <= i < j < |xs| ==> xs[i] <= xs[j]
  }

  function Place(x: real, xs: seq<real>): seq<real> {
    if xs == [] || x <= xs[0] then [x] + xs else [xs[0]] + Place(x, xs[1..])
  }

  function Arranged(xs: seq<real>): seq<real> {
    if xs == [] then [] else Place(xs[0], Arranged(xs[1..]))
  }

  lemma {:induction false} PlaceKeeps(x: real, xs: seq<real>)
    ensures multiset(Place(x, xs)) == multiset{x} + multiset(xs)
  {
    if xs != [] && x > xs[0] {
      PlaceKeeps(x, xs[1..]);
      assert xs == [xs[0]] + xs[1..];
    }
  }

  lemma HeadBelowPlaced(x: real, xs: seq<real>, i: nat)
    requires Ascending(xs) && xs != [] && xs[0] <= x && i < |Place(x, xs[1..])|
    ensures xs[0] <= Place(x, xs[1..])[i]
  {
    var rest := Place(x, xs[1..]);
    PlaceKeeps(x, xs[1..]);
    assert rest[i] in multiset(rest);
    if rest[i] != x {
      var k :| 0 <= k < |xs[1..]| && xs[1..][k] == rest[i];
      assert xs[0] <= xs[k + 1];
    }
  }

  lemma {:induction false} PlaceAscends(x: real, xs: seq<real>)
    requires Ascending(xs)
    ensures Ascending(Place(x, xs)) && multiset(Place(x, xs)) == multiset{x} + multiset(xs)
  {
    PlaceKeeps(x, xs);
    if xs != [] && x > xs[0] {
      PlaceAscends(x, xs[1..]);
      forall i | 0 <= i < |Place(x, xs[1..])|
        ensures xs[0] <= Place(x, xs[1..])[i]
      {
        HeadBelowPlaced(x, xs, i);
      }
    }
  }

  lemma {:induction false} ArrangedAscends(xs: seq<real>)
    ensures Ascending(Arranged(xs)) && multiset(Arranged(xs)) == multiset(xs)
  {
    if xs != [] {
      ArrangedAscends(xs[1..]);
      PlaceAscends(xs[0], Arranged(xs[1..]));
      assert xs == [xs[0]] + xs[1..];
    }
  }

  /** The index `pct` reads: `min(n - 1, max(0, int(q * n)))`. */
  function Rank(q: real, n: nat): nat
    requires n > 0 && q >= 0.0
  {
    var k := (q * n as real).Floor;
    if n - 1 <= k then n - 1 else k
  }

  /** `pct` of an already sorted list. */
  function Percentile(sorted: seq<real>, q: real): real
    requires q >= 0.0
  {
    if sorted == [] then 0.0 else sorted[Rank(q, |sorted|)]
  }

  function Below(bound: real): real -> bool {
    x => x < bound
  }

  /** How many values lie below a bound. */
  function CountBelow(xs: seq<real>, bound: real): nat {
    multiset(Map(xs, Below(bound)))[true]
  }

  lemma CountForgetsOrder(xs: seq<real>, ys: seq<real>, bound: real)
    requires multiset(xs) == multiset(ys)
    ensures CountBelow(xs, bound) == CountBelow(ys, bound)
  {
    MapOfPermutation(xs, ys, Below(bound));
  }

  lemma CountUpTo(xs: seq<real>, bound: real, k: nat)
    requires forall i :: k <= i < |xs| ==> bound <= xs[i]
    ensures CountBelow(xs, bound) <= k
  {
    var below := Map(xs, Below(bound));
    forall i | k <= i < |below|
      ensures !below[i]
    {
      assert bound <= xs[i];
    }
    TrueCount(below, k);
  }

  lemma NoneBelow(xs: seq<real>, bound: real)
    ensures CountBelow(xs, bound) == 0 <==> forall k :: 0 <= k < |xs| ==> xs[k] >= bound
  {
    var below := Map(xs, Below(bound));
    if CountBelow(xs, bound) == 0 {
      forall k | 0 <= k < |xs|
        ensures xs[k] >= bound
      {
        assert below[k] in multiset(below);
      }
    }
    if forall k :: 0 <= k < |xs| ==> xs[k] >= bound {
      CountUpTo(xs, bound, 0);
    }
  }

  lemma {:induction false} TrueCount(bs: seq<bool>, k: nat)
    requires forall i :: k <= i < |bs| ==> !bs[i]
    ensures multiset(bs)[true] <= k
  {
    if bs != [] {
      var n := |bs| - 1;
      assert bs == bs[..n] + [bs[n]];
      TrueCount(bs[..n], if k < n then k else n);
      if k <= n {
        assert !bs[n];
      } else {
        assert multiset(bs)[true] <= multiset(bs[..n])[true] + 1;
      }
    }
  }

  lemma RankWithinShare(q: real, n: nat)
    requires n > 0 && q >= 0.0
    ensures Rank(q, n) as real <= q * n as real
  {
    var k := (q * n as real).Floor;
    assert k as real <= q * n as real;
  }

  lemma RankSplits(sorted: seq<real>, k: nat)
    requires Ascending(sorted) && k < |sorted|
    ensures CountBelow(sorted, sorted[k]) <= k
  {
    CountUpTo(sorted, sorted[k], k);
  }

  lemma PercentileCount(xs: seq<real>, q: real)
    requires xs != [] && q >= 0.0
    ensures CountBelow(xs, Percentile(Arranged(xs), q)) <= Rank(q, |xs|)
  {
    var sorted := Arranged(xs);
    ArrangedAscends(xs);
    assert |sorted| == |multiset(sorted)| == |multiset(xs)| == |xs|;
    RankSplits(sorted, Rank(q, |xs|));
    CountForgetsOrder(xs, sorted, sorted[Rank(q, |xs|)]);
  }

  /** At most a `q` share of the outcomes lies below the `q` percentile. */
  lemma PercentileBoundsShare(xs: seq<real>, q: real)
    requires xs != [] && q >= 0.0
    ensures CountBelow(xs, Percentile(Arranged(xs), q)) as real <= q * |xs| as real
  {
    PercentileCount(xs, q);
    RankWithinShare(q, |xs|);
  }

  // ---------------------------------------------------------------- percentiles are quantiles

  function UpTo(bound: real): real -> bool {
    x => x <= bound
  }

  /** How many values lie at or below a bound. */
  function CountAtMost(xs: seq<real>, bound: real): nat {
    multiset(Map(xs, UpTo(bound)))[true]
  }

  lemma {:induction false} TrueAtLeast(bs: seq<bool>, k: nat)
    requires k <= |bs| && forall i :: 0 <= i < k ==> bs[i]
    ensures multiset(bs)[true] >= k
  {
    if k > 0 {
      var n := |bs| - 1;
      assert bs == bs[..n] + [bs[n]];
      TrueAtLeast(bs[..n], if k <= n then k else n);
    }
  }

  /** `v` is one of the values; at most a `q` share lies below it, and more than that at or below it,
      unless that is all of them. */
  predicate Quantile(xs: seq<real>, q: real, v: real) {
    && v in xs && CountBelow(xs, v) as real <= q * |xs| as real
    && (CountAtMost(xs, v) as real > q * |xs| as real || CountAtMost(xs, v) == |xs|)
  }

  lemma CountedUpToRank(sorted: seq<real>, k: nat)
    requires Ascending(sorted) && k < |sorted|
    ensures CountAtMost(sorted, sorted[k]) >= k + 1
  {
    var upTo := Map(sorted, UpTo(sorted[k]));
    forall i | 0 <= i < k + 1
      ensures upTo[i]
    {
      assert i == k || sorted[i] <= sorted[k];
    }
    TrueAtLeast(upTo, k + 1);
  }

  lemma CountAtMostAll(xs: seq<real>, bound: real)
    ensures CountAtMost(xs, bound) <= |xs|
  {
    var upTo := Map(xs, UpTo(bound));
    TrueCount(upTo, |xs|);
  }

  lemma PercentileAtRank(xs: seq<real>, q: real)
    requires xs != [] && q >= 0.0
    ensures |Arranged(xs)| == |xs| && Percentile(Arranged(xs), q) in xs
    ensures CountAtMost(xs, Percentile(Arranged(xs), q)) >= Rank(q, |xs|) + 1
  {
    var sorted, v := Arranged(xs), Percentile(Arranged(xs), q);
    ArrangedAscends(xs);
    assert |sorted| == |multiset(sorted)| == |multiset(xs)| == |xs|;
    assert v in multiset(sorted);
    CountedUpToRank(sorted, Rank(q, |xs|));
    MapOfPermutation(xs, sorted, UpTo(v));
  }

  lemma RankReaches(q: real, n: nat)
    requires n > 0 && q >= 0.0
    ensures (Rank(q, n) + 1) as real > q * n as real || Rank(q, n) + 1 == n
  {
    var k := (q * n as real).Floor;
    assert q * n as real < (k + 1) as real;
  }

  /** The percentile read off the sorted outcomes is their quantile. */
  lemma PercentileIsQuantile(xs: seq<real>, q: real)
    requires xs != [] && q >= 0.0
    ensures Quantile(xs, q, Percentile(Arranged(xs), q))
  {
    PercentileBoundsShare(xs, q);
    PercentileAtRank(xs, q);
    RankReaches(q, |xs|);
    CountAtMostAll(xs, Percentile(Arranged(xs), q));
  }

  lemma {:induction false} CountsNest(xs: seq<real>, v: real, w: real)
    requires v < w
    ensures CountAtMost(xs, v) <= CountBelow(xs, w)
    ensures w in xs ==> CountAtMost(xs, v) < |xs|
  {
    if xs != [] {
      var n := |xs| - 1;
      CountsNest(xs[..n], v, w);
      assert xs == xs[..n] + [xs[n]];
      assert Map(xs, UpTo(v)) == Map(xs[..n], UpTo(v)) + [xs[n] <= v];
      assert Map(xs, Below(w)) == Map(xs[..n], Below(w)) + [xs[n] < w];
      CountAtMostAll(xs[..n], v);
    }
  }

  /** And there is only one. */
  lemma QuantileIsUnique(xs: seq<real>, q: real, v: real, w: real)
    requires Quantile(xs, q, v) && Quantile(xs, q, w)
    ensures v == w
  {
    if v < w {
      CountsNest(xs, v, w);
    } else if w < v {
      CountsNest(xs, w, v);
    }
  }

  lemma FloorMonotone(x: real, y: real)
    requires x <= y
    ensures x.Floor <= y.Floor
  {
  }

  lemma PercentilesOrdered(sorted: seq<real>, q: real, r: real)
    requires Ascending(sorted) && 0.0 <= q <= r
    ensures Percentile(sorted, q) <= Percentile(sorted, r)
  {
    if sorted != [] {
      assert q * |sorted| as real <= r * |sorted| as real;
      FloorMonotone(q * |sorted| as real, r * |sorted| as real);
      var i, j := Rank(q, |sorted|), Rank(r, |sorted|);
      assert i == j || sorted[i] <= sorted[j];
    }
  }

  // ---------------------------------------------------------------- the simulation

  datatype MonteCarloResult = MonteCarloResult(
    runs: nat, start: real, p05: real, p50: real, p95: real, drawdown50: real, drawdown95: real, probLoss: real)

  function Summary(trades: seq<real>, start: real, samples: seq<seq<nat>>): MonteCarloResult
    requires Draws(samples, |trades|) && samples != []
  {
    var finals, falls := Arranged(Finals(trades, start, samples)), Arranged(Falls(trades, start, samples));
    MonteCarloResult(
      |samples|, start, Percentile(finals, 0.05), Percentile(finals, 0.50), Percentile(finals, 0.95),
      Percentile(falls, 0.50), Percentile(falls, 0.95),
      CountBelow(finals, start) as real / |samples| as real)
  }

  /** One run: the path and where it ends. */
  method RunOnce(trades: seq<real>, start: real, draws: seq<nat>) returns (curve: seq<real>, equity: real)
    requires forall i :: 0 <= i < |draws| ==> draws[i] < |trades|
    ensures curve == Path(trades, start, draws) && equity == Last(curve)
  {
    curve, equity := [start], start;
    var i := 0;
    while i < |draws|
      invariant 0 <= i <= |draws|
      invariant curve == Path(trades, start, draws[..i]) && equity == Last(curve)
    {
      assert draws[..i + 1][..i] == draws[..i];
      equity := equity + trades[draws[i]];
      curve := curve + [equity];
      i := i + 1;
    }
    assert draws[..i] == draws;
  }

  /** `monte_carlo_trade_order`.  Without trades nothing is simulated; with trades and no runs the
      share of losing runs is a division by zero. */
  method MonteCarloTradeOrder(trades: seq<real>, start: real, samples: seq<seq<nat>>)
    returns (r: Outcome<MonteCarloResult>)
    requires Draws(samples, |trades|)
    ensures r == if trades == [] then Returned(MonteCarloResult(0, start, start, start, start, 0.0, 0.0, 0.0))
                 else if samples == [] then Raised
                 else Returned(Summary(trades, start, samples))
  {
    if trades == [] {
      return Returned(MonteCarloResult(0, start, start, start, start, 0.0, 0.0, 0.0));
    }
    if samples == [] {
      return Raised;
    }
    var finals: seq<real>, falls: seq<real> := [], [];
    var k := 0;
    while k < |samples|
      invariant 0 <= k <= |samples|
      invariant finals == Finals(trades, start, samples)[..k] && falls == Falls(trades, start, samples)[..k]
    {
      var curve, equity := RunOnce(trades, start, samples[k]);
      var mdd := MaxDrawdown(curve);
      finals, falls := finals + [equity], falls + [mdd];
      k := k + 1;
    }
    assert finals == Finals(trades, start, samples) && falls == Falls(trades, start, samples);
    finals, falls := Arranged(finals), Arranged(falls);
    r := Returned(MonteCarloResult(
      |samples|, start, Percentile(finals, 0.05), Percentile(finals, 0.50), Percentile(finals, 0.95),
      Percentile(falls, 0.50), Percentile(falls, 0.95),
      CountBelow(finals, start) as real / |samples| as real));
  }

  lemma ArrangedOrdered(xs: seq<real>, q: real, r: real)
    requires 0.0 <= q <= r
    ensures Percentile(Arranged(xs), q) <= Percentile(Arranged(xs), r)
  {
    ArrangedAscends(xs);
    PercentilesOrdered(Arranged(xs), q, r);
  }

  /** The percentiles come in order. */
  lemma SummaryPercentiles(trades: seq<real>, start: real, samples: seq<seq<nat>>)
    requires Draws(samples, |trades|) && samples != []
    ensures var s := Summary(trades, start, samples);
            s.p05 <= s.p50 <= s.p95 && s.drawdown50 <= s.drawdown95
  {
    var finals, falls := Finals(trades, start, samples), Falls(trades, start, samples);
    ArrangedOrdered(finals, 0.05, 0.50);
    ArrangedOrdered(finals, 0.50, 0.95);
    ArrangedOrdered(falls, 0.50, 0.95);
  }

  /** Every reported percentile is the quantile it is named after, of where the runs end and of how far
      they fall. */
  lemma SummaryQuantiles(trades: seq<real>, start: real, samples: seq<seq<nat>>)
    requires Draws(samples, |trades|) && samples != []
    ensures var s, finals, falls := Summary(trades, start, samples), Finals(trades, start, samples),
                                    Falls(trades, start, samples);
      && Quantile(finals, 0.05, s.p05) && Quantile(finals, 0.50, s.p50) && Quantile(finals, 0.95, s.p95)
      && Quantile(falls, 0.50, s.drawdown50) && Quantile(falls, 0.95, s.drawdown95)
      && s.runs == |samples| && s.start == start
      && s.probLoss == CountBelow(finals, start) as real / |samples| as real
  {
    var finals, falls := Finals(trades, start, samples), Falls(trades, start, samples);
    PercentileIsQuantile(finals, 0.05);
    PercentileIsQuantile(finals, 0.50);
    PercentileIsQuantile(finals, 0.95);
    PercentileIsQuantile(falls, 0.50);
    PercentileIsQuantile(falls, 0.95);
    ArrangedAscends(finals);
    CountForgetsOrder(finals, Arranged(finals), start);
  }

  function Sum(xs: seq<real>): real {
    if xs == [] then 0.0 else Sum(xs[..|xs| - 1]) + Last(xs)
  }

  /** A run ends at its start plus the trades drawn, in whatever order. */
  lemma {:induction false} FinalIsSum(trades: seq<real>, start: real, draws: seq<nat>)
    requires forall i :: 0 <= i < |draws| ==> draws[i] < |trades|
    ensures FinalOf(trades, start, draws)
         == start + Sum(seq(|draws|, i requires 0 <= i < |draws| => trades[draws[i]]))
  {
    if draws != [] {
      var n := |draws| - 1;
      var drawn := seq(|draws|, i requires 0 <= i < |draws| => trades[draws[i]]);
      FinalIsSum(trades, start, draws[..n]);
      assert drawn[..n] == seq(n, i requires 0 <= i < n => trades[draws[..n][i]]);
    }
  }

  /** No more than one run in twenty ends below the lowest percentile. */
  lemma SummaryTail(trades: seq<real>, start: real, samples: seq<seq<nat>>)
    requires Draws(samples, |trades|) && samples != []
    ensures var s := Summary(trades, start, samples);
            CountBelow(Finals(trades, start, samples), s.p05) <= Rank(0.05, |samples|)
  {
    PercentileCount(Finals(trades, start, samples), 0.05);
  }

  /** The share of losing runs is zero exactly when no run ends below the starting equity. */
  lemma SummaryLoss(trades: seq<real>, start: real, samples: seq<seq<nat>>)
    requires Draws(samples, |trades|) && samples != []
    ensures var s, finals := Summary(trades, start, samples), Finals(trades, start, samples);
      && 0.0 <= s.probLoss <= 1.0
      && (s.probLoss == 0.0 <==> forall k :: 0 <= k < |finals| ==> finals[k] >= start)
  {
    LossShare(Finals(trades, start, samples), start);
  }

  lemma ShareOf(n: nat, total: nat)
    requires n <= total && total > 0
    ensures 0.0 <= n as real / total as real <= 1.0
    ensures n as real / total as real == 0.0 <==> n == 0
  {
    CrossDivide(n as real, total as real, 1.0, 1.0);
    CrossDivide(0.0, 1.0, n as real, total as real);
    assert (n as real / total as real) * total as real == n as real;
  }

  lemma LossShare(finals: seq<real>, start: real)
    requires finals != []
    ensures var share := CountBelow(Arranged(finals), start) as real / |finals| as real;
      && 0.0 <= share <= 1.0
      && (share == 0.0 <==> forall k :: 0 <= k < |finals| ==> finals[k] >= start)
  {
    ArrangedAscends(finals);
    CountForgetsOrder(finals, Arranged(finals), start);
    CountUpTo(finals, start, |finals|);
    NoneBelow(finals, start);
    ShareOf(CountBelow(finals, start), |finals|);
  }
}
