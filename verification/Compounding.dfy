/** When the chained walk-forward curve compounds the returns of its windows, on any windows. */
module Compounding {
  import opened Metrics
  import opened WalkForward

  /** One plus the combined total return is the product over the windows of one plus theirs. */
  predicate Compounds(curves: seq<seq<real>>) {
    MultipliesBy(Combine(curves), WindowGrowth(curves))
  }

  predicate MultipliesBy(chain: seq<real>, growth: real) {
    1.0 + TotalReturn(chain) == growth
  }

  /** A window ends where the chain before it stood, or whatever follows loses everything. */
  predicate Meets(first: real, end: real, before: real, after: real) {
    end == first * before || after == 0.0
  }

  predicate StartsAtZero(curve: seq<real>) {
    curve != [] && curve[0] == 0.0
  }

  /** The last window that starts at zero, or -1. */
  function LastZeroStart(curves: seq<seq<real>>): (z: int)
    ensures -1 <= z < |curves|
    ensures z >= 0 ==> StartsAtZero(curves[z])
    ensures forall k :: z < k < |curves| ==> !StartsAtZero(curves[k])
  {
    if curves == [] then -1
    else if StartsAtZero(curves[|curves| - 1]) then |curves| - 1
    else LastZeroStart(curves[..|curves| - 1])
  }

  /** Either no window starts at zero; or the first non-empty one does, and the windows together
      neither gain nor lose; or the last that does ends, unscaled, exactly where the windows before
      it had brought the chain, unless the windows after it lose everything anyway. */
  predicate ChainHolds(curves: seq<seq<real>>) {
    var z, chain := LastZeroStart(curves), Combine(curves);
    z == -1 || (chain != [] &&
      if chain[0] == 0.0 then WindowGrowth(curves) == 1.0
      else Meets(chain[0], Last(curves[z]), WindowGrowth(curves[..z]), WindowGrowth(curves[z + 1..])))
  }

  lemma TimesOne(curve: seq<real>)
    requires curve != []
    ensures Last(Scaled(curve, 1.0)) == Last(curve)
  {
    ScaledAt(curve, 1.0, |curve| - 1);
  }

  /** A window that starts at zero continues the chain unscaled. */
  lemma ZeroStartContinues(front: seq<real>, curve: seq<real>)
    requires front != [] && StartsAtZero(curve)
    ensures var c := front + Continued(front, curve);
            |c| >= 2 && c[0] == front[0] && Last(c) == Last(curve)
    ensures TotalReturn(curve) == 0.0
  {
    TimesOne(curve);
  }

  function Gain(curve: seq<real>): real {
    1.0 + TotalReturn(curve)
  }

  lemma Rearranged(a: real, b: real, c: real)
    requires c != 0.0
    ensures b * (a / c) == a * (b / c)
  {
  }

  /** Any other window multiplies the chain by its growth. */
  lemma OtherContinues(front: seq<real>, curve: seq<real>)
    requires front != [] && !StartsAtZero(curve)
    ensures var c := front + Continued(front, curve);
            |c| >= |front| && c[0] == front[0] && Last(c) == Times(Last(front), Gain(curve))
  {
    if curve == [] {
      assert front + Continued(front, curve) == front;
    } else {
      TotalReturnIsGrowth(curve);
      ScaledAt(curve, Last(front) / curve[0], |curve| - 1);
      Rearranged(Last(front), Last(curve), curve[0]);
    }
  }

  lemma GrowthAppend(curves: seq<seq<real>>, curve: seq<real>)
    ensures WindowGrowth(curves + [curve]) == Times(WindowGrowth(curves), Gain(curve))
  {
    assert (curves + [curve])[..|curves|] == curves;
  }

  lemma Associates(a: real, b: real, c: real)
    ensures Times(Times(a, b), c) == Times(a, Times(b, c))
  {
  }

  lemma {:induction false} GrowthConcat(before: seq<seq<real>>, after: seq<seq<real>>)
    ensures WindowGrowth(before + after) == Times(WindowGrowth(before), WindowGrowth(after))
  {
    if after == [] {
      assert before + after == before;
    } else {
      var n := |after| - 1;
      GrowthConcat(before, after[..n]);
      assert before + after == (before + after[..n]) + [after[n]] && after == after[..n] + [after[n]];
      GrowthAppend(before + after[..n], after[n]);
      GrowthAppend(after[..n], after[n]);
      Associates(WindowGrowth(before), WindowGrowth(after[..n]), Gain(after[n]));
    }
  }

  /** A chain that begins at `first` and stands at `end` times `after`. */
  predicate StandsAt(chain: seq<real>, first: real, end: real, after: real) {
    |chain| >= 2 && chain[0] == first && Last(chain) == Times(end, after)
  }

  lemma StandsAfter(chain: seq<real>, curve: seq<real>, more: seq<real>, first: real, end: real, after: real,
                    later: real)
    requires StandsAt(chain, first, end, after) && !StartsAtZero(curve)
    requires more == chain + Continued(chain, curve) && later == Times(after, Gain(curve))
    ensures StandsAt(more, first, end, later)
  {
    OtherContinues(chain, curve);
    Associates(end, after, Gain(curve));
  }

  /** Where the chain stands after a zero start at `z`, when it began at `first`. */
  predicate Tail(curves: seq<seq<real>>, z: nat, first: real)
    requires z < |curves| && curves[z] != []
  {
    StandsAt(Combine(curves), first, Last(curves[z]), WindowGrowth(curves[z + 1..]))
  }

  lemma TailStarts(curves: seq<seq<real>>, z: nat)
    requires |curves| == z + 1 && StartsAtZero(curves[z]) && Combine(curves[..z]) != []
    ensures Tail(curves, z, Combine(curves[..z])[0])
  {
    assert curves[z + 1..] == [];
    ZeroStartContinues(Combine(curves[..z]), curves[z]);
  }

  lemma LaterGrowth(curves: seq<seq<real>>, z: nat)
    requires z + 1 < |curves|
    ensures var n := |curves| - 1;
            WindowGrowth(curves[z + 1..]) == Times(WindowGrowth(curves[..n][z + 1..]), Gain(curves[n]))
  {
    var n := |curves| - 1;
    assert curves[z + 1..] == curves[..n][z + 1..] + [curves[n]];
    GrowthAppend(curves[..n][z + 1..], curves[n]);
  }

  lemma TailContinues(curves: seq<seq<real>>, z: nat, first: real)
    requires z + 1 < |curves| && curves[z] != [] && !StartsAtZero(curves[|curves| - 1])
    requires Tail(curves[..|curves| - 1], z, first)
    ensures Tail(curves, z, first)
  {
    var n := |curves| - 1;
    LaterGrowth(curves, z);
    StandsAfter(Combine(curves[..n]), curves[n], Combine(curves), first, Last(curves[z]),
                WindowGrowth(curves[..n][z + 1..]), WindowGrowth(curves[z + 1..]));
  }

  lemma {:induction false} TailGrows(curves: seq<seq<real>>, z: nat)
    requires z < |curves| && StartsAtZero(curves[z]) && Combine(curves[..z]) != []
    requires forall k :: z < k < |curves| ==> !StartsAtZero(curves[k])
    ensures Tail(curves, z, Combine(curves[..z])[0])
  {
    if |curves| == z + 1 {
      TailStarts(curves, z);
    } else {
      assert curves[..|curves| - 1][..z] == curves[..z];
      TailGrows(curves[..|curves| - 1], z);
      TailContinues(curves, z, Combine(curves[..z])[0]);
    }
  }

  /** A chain keeps its first value, and takes it from the first window that has one. */
  lemma FirstStays(front: seq<real>, curve: seq<real>)
    ensures front != [] ==> front + Continued(front, curve) != [] && (front + Continued(front, curve))[0] == front[0]
    ensures front == [] ==> front + Continued(front, curve) == curve
  {
  }

  lemma {:induction false} ChainStarts(curves: seq<seq<real>>, z: nat)
    requires z < |curves| && curves[z] != []
    ensures Combine(curves) != []
    ensures Combine(curves)[0] == if Combine(curves[..z]) == [] then curves[z][0] else Combine(curves[..z])[0]
  {
    var n := |curves| - 1;
    FirstStays(Combine(curves[..n]), curves[n]);
    if z < n {
      assert curves[..n][..z] == curves[..z];
      ChainStarts(curves[..n], z);
    } else {
      assert curves[..n] == curves[..z];
    }
  }

  lemma GrowthCancels(end: real, start: real, before: real, after: real)
    requires start != 0.0
    ensures (end * after) / start == before * after <==> end == start * before || after == 0.0
  {
    var q := (end * after) / start;
    assert q * start == end * after;
    if q == before * after {
      assert before * after * start == end * after;
      assert (end - start * before) * after == 0.0;
    }
    if end == start * before || after == 0.0 {
      assert q * start == before * after * start;
      assert (q - before * after) * start == 0.0;
    }
  }

  lemma NonZeroStarts(curves: seq<seq<real>>)
    requires LastZeroStart(curves) == -1
    ensures StartsNonZero(curves)
  {
    forall i | 0 <= i < |curves| && curves[i] != []
      ensures curves[i][0] != 0.0
    {
      assert !StartsAtZero(curves[i]);
    }
  }

  lemma StandingCompounds(chain: seq<real>, all: real, first: real, end: real, before: real, after: real)
    requires StandsAt(chain, first, end, after) && all == Times(before, after) && first != 0.0
    ensures MultipliesBy(chain, all) <==> Meets(first, end, before, after)
  {
    TotalReturnIsGrowth(chain);
    GrowthCancels(end, first, before, after);
  }

  /** The window that starts at zero counts for nothing in the product. */
  lemma GrowthAround(curves: seq<seq<real>>, z: nat)
    requires z < |curves| && StartsAtZero(curves[z])
    ensures WindowGrowth(curves) == Times(WindowGrowth(curves[..z]), WindowGrowth(curves[z + 1..]))
  {
    assert curves == curves[..z + 1] + curves[z + 1..] && curves[..z + 1] == curves[..z] + [curves[z]];
    GrowthConcat(curves[..z + 1], curves[z + 1..]);
    GrowthAppend(curves[..z], curves[z]);
  }

  lemma TailCompounds(curves: seq<seq<real>>, z: nat)
    requires z < |curves| && StartsAtZero(curves[z]) && Combine(curves) != [] && Combine(curves)[0] != 0.0
    requires Tail(curves, z, Combine(curves)[0])
    ensures Compounds(curves) <==>
              Meets(Combine(curves)[0], Last(curves[z]), WindowGrowth(curves[..z]), WindowGrowth(curves[z + 1..]))
  {
    GrowthAround(curves, z);
    StandingCompounds(Combine(curves), WindowGrowth(curves), Combine(curves)[0], Last(curves[z]),
                      WindowGrowth(curves[..z]), WindowGrowth(curves[z + 1..]));
  }

  lemma LaterZeroStart(curves: seq<seq<real>>, z: nat)
    requires z == LastZeroStart(curves) && Combine(curves) != [] && Combine(curves)[0] != 0.0
    ensures Tail(curves, z, Combine(curves)[0])
  {
    ChainStarts(curves, z);
    TailGrows(curves, z);
  }

  /** The chain compounds exactly when it holds, whatever the windows start with. */
  lemma CompoundsExactly(curves: seq<seq<real>>)
    ensures Compounds(curves) <==> ChainHolds(curves)
  {
    var z := LastZeroStart(curves);
    if z == -1 {
      NonZeroStarts(curves);
      WalkForwardCompounds(curves);
    } else {
      ChainStarts(curves, z);
      if Combine(curves)[0] != 0.0 {
        LaterZeroStart(curves, z);
        TailCompounds(curves, z);
      }
    }
  }
}
