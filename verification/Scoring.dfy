/** The arithmetic of THINK's score: rounding, bounds, symmetry and monotonicity. */
module Scoring {
  import opened Fractions
  import opened Think

  lemma {:induction false} HalfEvenMonotone(x: real, y: real)
    requires x <= y
    ensures HalfEven(x) <= HalfEven(y)
  {
    assert x.Floor <= y.Floor;
  }

  /** `r` is the nearest integer, and the even one of two that are equally near. */
  predicate Nearest(x: real, r: int) {
    -0.5 <= x - r as real <= 0.5 && (x - r as real == 0.5 || x - r as real == -0.5 ==> r % 2 == 0)
  }

  /** Rounding gives the nearest integer, and no other one is. */
  lemma HalfEvenIsNearest(x: real, r: int)
    ensures HalfEven(x) == r <==> Nearest(x, r)
  {
    var low := x.Floor;
    assert low as real <= x < low as real + 1.0;
    if Nearest(x, r) {
      assert low <= r <= low + 1;
    }
  }

  lemma HalfEvenOfInteger(n: int)
    ensures HalfEven(n as real) == n
  {
  }

  /** Rounding is symmetric about the half of an even number. */
  lemma HalfEvenReflects(x: real, n: int)
    requires n % 2 == 0
    ensures HalfEven(n as real - x) == n - HalfEven(x)
  {
    var low := x.Floor;
    var part := x - low as real;
    if part == 0.0 {
      assert (n as real - x).Floor == n - low;
    } else {
      assert (n as real - x).Floor == n - low - 1;
    }
  }

  lemma Round12Monotone(x: real, y: real)
    requires x <= y
    ensures Round12(x) <= Round12(y)
  {
    HalfEvenMonotone(x * Scale as real, y * Scale as real);
  }

  lemma Round12Unit(x: real)
    requires 0.0 <= x <= 1.0
    ensures 0.0 <= Round12(x) <= 1.0
  {
    HalfEvenOfInteger(0);
    HalfEvenOfInteger(Scale);
    HalfEvenMonotone(0.0, x * Scale as real);
    HalfEvenMonotone(x * Scale as real, Scale as real);
  }

  lemma Round12Reflects(x: real)
    ensures Round12(1.0 - x) == 1.0 - Round12(x)
  {
    assert (1.0 - x) * Scale as real == Scale as real - x * Scale as real;
    HalfEvenReflects(x * Scale as real, Scale);
  }

  // ---------------------------------------------------------------- the raw form

  lemma Round12Close(x: real)
    ensures -0.000_000_000_000_5 <= Round12(x) - x <= 0.000_000_000_000_5
  {
    var y := x * Scale as real;
    assert -0.5 <= HalfEven(y) as real - y <= 0.5;
  }

  lemma RawUnit(prior: real, support: real, counter: real)
    requires 0.0 <= prior <= 1.0 && support >= 0.0 && counter >= 0.0
    ensures 0.0 <= RawScore(prior, support, counter) <= 1.0
  {
    CrossDivide(0.0, 1.0, prior + support, 1.0 + support + counter);
    CrossDivide(prior + support, 1.0 + support + counter, 1.0, 1.0);
  }

  /** The clamp never acts. */
  lemma ScoreIsRounded(prior: real, support: real, counter: real)
    requires 0.0 <= prior <= 1.0 && support >= 0.0 && counter >= 0.0
    ensures Score(prior, support, counter) == Round12(RawScore(prior, support, counter))
    ensures 0.0 <= Score(prior, support, counter) <= 1.0
  {
    RawUnit(prior, support, counter);
    Round12Unit(RawScore(prior, support, counter));
  }

  lemma RawReflects(prior: real, support: real, counter: real)
    requires support >= 0.0 && counter >= 0.0
    ensures RawScore(1.0 - prior, counter, support) == 1.0 - RawScore(prior, support, counter)
  {
    var d := 1.0 + support + counter;
    assert 1.0 + counter + support == d;
    DivideComplement(prior + support, 1.0 - prior + counter, d);
  }

  /** Opposing positions with complementary priors share out exactly one, even after rounding. */
  lemma ScoresReflect(prior: real, support: real, counter: real)
    requires 0.0 <= prior <= 1.0 && support >= 0.0 && counter >= 0.0
    ensures Score(prior, support, counter) + Score(1.0 - prior, counter, support) == 1.0
  {
    ScoreIsRounded(prior, support, counter);
    ScoreIsRounded(1.0 - prior, counter, support);
    RawReflects(prior, support, counter);
    Round12Reflects(RawScore(prior, support, counter));
  }

  lemma RawRises(prior: real, support: real, counter: real, more: real)
    requires 0.0 <= prior <= 1.0 && support >= 0.0 && counter >= 0.0 && more >= 0.0
    ensures RawScore(prior, support, counter) <= RawScore(prior, support + more, counter)
  {
    var n, d := prior + support, 1.0 + support + counter;
    assert more * n <= more * d;
    assert n * (d + more) <= (n + more) * d;
    CrossDivide(n, d, n + more, d + more);
    assert d + more == 1.0 + (support + more) + counter;
  }

  lemma ScoreRises(prior: real, support: real, counter: real, more: real)
    requires 0.0 <= prior <= 1.0 && support >= 0.0 && counter >= 0.0 && more >= 0.0
    ensures Score(prior, support, counter) <= Score(prior, support + more, counter)
  {
    ScoreIsRounded(prior, support, counter);
    ScoreIsRounded(prior, support + more, counter);
    RawRises(prior, support, counter, more);
    Round12Monotone(RawScore(prior, support, counter), RawScore(prior, support + more, counter));
  }

  lemma ScoreFalls(prior: real, support: real, counter: real, more: real)
    requires 0.0 <= prior <= 1.0 && support >= 0.0 && counter >= 0.0 && more >= 0.0
    ensures Score(prior, support, counter + more) <= Score(prior, support, counter)
  {
    ScoreRises(1.0 - prior, counter, support, more);
    ScoresReflect(prior, support, counter);
    ScoresReflect(prior, support, counter + more);
  }

  // ---------------------------------------------------------------- no evidence

  /** A number of at most twelve decimals. */
  predicate TwelveDecimals(x: real) {
    x * Scale as real == (x * Scale as real).Floor as real
  }

  lemma Round12Fixes(x: real)
    ensures Round12(x) == x <==> TwelveDecimals(x)
  {
    var y := x * Scale as real;
    if TwelveDecimals(x) {
      HalfEvenOfInteger(y.Floor);
    }
    if Round12(x) == x {
      assert HalfEven(y) as real == y;
    }
  }

  /** Without weight on either side the score is the rounded prior: the prior itself exactly when
      the prior has at most twelve decimals, and always within half a unit of the twelfth. */
  lemma ScoreWithoutEvidence(prior: real)
    requires 0.0 <= prior <= 1.0
    ensures Score(prior, 0.0, 0.0) == prior <==> TwelveDecimals(prior)
    ensures -0.000_000_000_000_5 <= Score(prior, 0.0, 0.0) - prior <= 0.000_000_000_000_5
  {
    ScoreIsRounded(prior, 0.0, 0.0);
    assert RawScore(prior, 0.0, 0.0) == prior;
    Round12Fixes(prior);
    Round12Close(prior);
  }

  /** A prior of one third is not returned. */
  lemma ThirdIsNotReturned()
    ensures Score(1.0 / 3.0, 0.0, 0.0) != 1.0 / 3.0
  {
    var y := (1.0 / 3.0) * Scale as real;
    assert y.Floor == 333_333_333_333;
    ScoreWithoutEvidence(1.0 / 3.0);
  }
}
