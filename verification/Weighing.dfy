/** What the quality of evidence counts for, in THINK's scores and in LEARN's posteriors: the numbers
    themselves, and that better quality never hurts the side it is on. */
module Weighing {
  import opened Fractions
  import opened Ordering
  import opened Contracts
  import opened Sense
  import opened Think
  import opened ThinkProperties
  import opened Scoring
  import opened Learn
  import opened LearnProperties

  /** How often items of one quality take a stance on a claim. */
  function Tally(items: seq<Evidence>, key: string, stance: Stance, q: Quality): nat {
    if items == [] then 0
    else
      var last := items[|items| - 1];
      Tally(items[..|items| - 1], key, stance, q) + if last.quality == q then Makes(last, key, stance) else 0
  }

  /** A verified statement counts in full, an observed one for three fifths of it, an unknown one for
      three tenths. */
  function Weighed(items: seq<Evidence>, key: string, stance: Stance): real {
    Tally(items, key, stance, Verified) as real + 0.6 * Tally(items, key, stance, ObservedOnly) as real
    + 0.3 * Tally(items, key, stance, Unknown) as real
  }

  lemma {:induction false} RepeatedWeight(e: Evidence, n: nat)
    ensures TotalWeight(Repeat(e, n))
         == n as real * (if e.quality == Verified then 1.0 else if e.quality == ObservedOnly then 0.6 else 0.3)
  {
    if n > 0 {
      RepeatedWeight(e, n - 1);
      OneMoreWeight(e, n - 1);
    }
  }

  lemma {:induction false} TotalIsWeighed(items: seq<Evidence>, key: string, stance: Stance)
    ensures TotalWeight(Bearing(items, key, stance)) == Weighed(items, key, stance)
  {
    if items != [] {
      var front, last := items[..|items| - 1], items[|items| - 1];
      TotalIsWeighed(front, key, stance);
      TotalAppend(Bearing(front, key, stance), Repeat(last, Makes(last, key, stance)));
      RepeatedWeight(last, Makes(last, key, stance));
    }
  }

  // ---------------------------------------------------------------- THINK

  lemma ScoreByTally(h: Hypothesis, usable: seq<Evidence>)
    requires ValidHypothesis(h)
    ensures var pro, con := Weighed(usable, h.claimKey, h.stance), Weighed(usable, h.claimKey, Opposite(h.stance));
            1.0 + pro + con > 0.0 && ScoreOf(h, usable) == Round12((h.prior + pro) / (1.0 + pro + con))
  {
    TotalIsWeighed(usable, h.claimKey, h.stance);
    TotalIsWeighed(usable, h.claimKey, Opposite(h.stance));
    ScoreIsRounded(h.prior, Pro(usable, h), Con(usable, h));
  }

  /** A judgement restates its hypothesis; its score, which is also the plausibility of its scenario,
      is the rounded share of the prior and the backing weight in one unit and all the weight. */
  lemma JudgementByTally(h: Hypothesis, usable: seq<Evidence>, asOf: Instant, limit: int)
    requires limit >= 0 && ValidHypothesis(h)
    ensures var j := JudgementOf(h, usable, asOf, limit);
            var pro, con := Weighed(usable, h.claimKey, h.stance), Weighed(usable, h.claimKey, Opposite(h.stance));
      && 1.0 + pro + con > 0.0
      && j.belief.score == Round12((h.prior + pro) / (1.0 + pro + con)) == j.scenario.plausibility
      && j.hypothesisId == j.scenario.id == h.id && j.claimKey == j.belief.claim == h.claimKey && j.stance == h.stance
      && j.scenario.thesis == h.thesis && j.scenario.conditions == h.conditions
  {
    ScoreByTally(h, usable);
  }

  lemma OneTally(e: Evidence, key: string, stance: Stance)
    requires ValidEvidence(e) && Assertion(key, stance) in e.assertions
    ensures forall q :: Tally([e], key, stance, q) == if e.quality == q then 1 else 0
    ensures forall q, st :: st != stance ==> Tally([e], key, st, q) == 0
  {
    MadeOnce(e.assertions, Assertion(key, stance));
    forall st | st != stance
      ensures Makes(e, key, st) == 0
    {
      if Assertion(key, st) in e.assertions {
        TwoStancesRepeatKey(e.assertions, key);
      }
    }
    assert [e][..0] == [];
  }

  lemma RepeatedKey(assertions: seq<Assertion>, a: Assertion)
    requires assertions != [] && a == assertions[|assertions| - 1] && a in assertions[..|assertions| - 1]
    ensures !DistinctKeys(assertions)
  {
    var i :| 0 <= i < |assertions| - 1 && assertions[..|assertions| - 1][i] == a;
    assert assertions[i].claimKey == assertions[|assertions| - 1].claimKey;
  }

  lemma {:induction false} MadeOnce(assertions: seq<Assertion>, a: Assertion)
    requires DistinctKeys(assertions)
    ensures multiset(assertions)[a] == if a in assertions then 1 else 0
  {
    if assertions != [] {
      var n := |assertions| - 1;
      assert assertions == assertions[..n] + [assertions[n]];
      MadeOnce(assertions[..n], a);
      if a == assertions[n] && a in assertions[..n] {
        RepeatedKey(assertions, a);
      }
    }
  }

  /** What one statement of a quality counts for. */
  function Worth(q: Quality): real {
    match q
    case Verified => 1.0
    case ObservedOnly => 0.6
    case Unknown => 0.3
  }

  lemma OneWeighed(e: Evidence, key: string, stance: Stance)
    requires ValidEvidence(e) && Assertion(key, stance) in e.assertions
    ensures Weighed([e], key, stance) == Worth(e.quality) && Weighed([e], key, Opposite(stance)) == 0.0
  {
    OneTally(e, key, stance);
  }

  lemma AllOnOneSide(prior: real, pro: real, con: real, w: real)
    requires pro == w > 0.0 && con == 0.0
    ensures (prior + pro) / (1.0 + pro + con) == (prior + w) / (1.0 + w)
  {
  }

  lemma BackedByOne(h: Hypothesis, usable: seq<Evidence>, w: real)
    requires ValidHypothesis(h) && w > 0.0
    requires Weighed(usable, h.claimKey, h.stance) == w && Weighed(usable, h.claimKey, Opposite(h.stance)) == 0.0
    ensures ScoreOf(h, usable) == Round12((h.prior + w) / (1.0 + w))
  {
    ScoreByTally(h, usable);
    AllOnOneSide(h.prior, Weighed(usable, h.claimKey, h.stance), Weighed(usable, h.claimKey, Opposite(h.stance)), w);
  }

  /** One backing item moves a prior `p` to `(p + 1) / 2` if it is verified, to `(p + 0.6) / 1.6` if
      it is observed only, and to `(p + 0.3) / 1.3` if its quality is unknown. */
  lemma OneBackingItem(h: Hypothesis, e: Evidence, asOf: Instant, limit: int)
    requires limit >= 0 && ValidHypothesis(h) && ValidEvidence(e) && Assertion(h.claimKey, h.stance) in e.assertions
    ensures var w := match e.quality { case Verified => 1.0 case ObservedOnly => 0.6 case Unknown => 0.3 };
            JudgementOf(h, [e], asOf, limit).belief.score == Round12((h.prior + w) / (1.0 + w))
  {
    OneWeighed(e, h.claimKey, h.stance);
    BackedByOne(h, [e], Worth(e.quality));
  }

  // ---------------------------------------------------------------- LEARN

  lemma DriftInNumbers(prior: real, pro: real, con: real)
    requires UnitScore(prior) && pro >= 0.0 && con >= 0.0
    ensures pro + con == 0.0 ==> DriftScore(pro, con) == 0.0 && Posterior(prior, DriftScore(pro, con)) == prior
    ensures pro + con > 0.0 ==>
              && DriftScore(pro, con) == con / (pro + con)
              && Posterior(prior, DriftScore(pro, con)) == prior * (1.0 - con / (pro + con))
  {
    DriftScoreUnit(pro, con);
    PosteriorIs(prior, DriftScore(pro, con));
  }

  predicate AssessedAs(a: Assessment, pro: real, con: real, prior: real, threshold: real)
    requires pro >= 0.0 && con >= 0.0
  {
    if pro + con == 0.0 then a.score == 0.0 && a.posterior == prior && !a.abstain
    else && a.score == con / (pro + con) && a.posterior == prior * (1.0 - con / (pro + con))
         && (a.abstain <==> a.posterior <= threshold)
  }

  lemma AssessmentBySides(usable: seq<Evidence>, key: string, prior: real, threshold: real)
    requires UnitScore(prior)
    ensures AssessedAs(Assess(usable, key, prior, threshold), Support(usable, key), Counter(usable, key),
                       prior, threshold)
  {
    AssessmentByWeight(usable, key, prior, threshold);
    BearsByWeight(usable, key);
    DriftInNumbers(prior, Support(usable, key), Counter(usable, key));
  }

  /** The drift score is the refuting share of the weight on the claim; the posterior is what it leaves
      of the prior, and it abstains exactly when anything bears on the claim and the posterior is at or
      below the threshold. */
  lemma AssessmentByTally(usable: seq<Evidence>, key: string, prior: real, threshold: real)
    requires UnitScore(prior)
    ensures var pro, con := Weighed(usable, key, Supports), Weighed(usable, key, Refutes);
      && pro >= 0.0 && con >= 0.0
      && AssessedAs(Assess(usable, key, prior, threshold), pro, con, prior, threshold)
  {
    TotalIsWeighed(usable, key, Supports);
    TotalIsWeighed(usable, key, Refutes);
    AssessmentBySides(usable, key, prior, threshold);
  }

  // ---------------------------------------------------------------- better quality

  function Rank(q: Quality): nat {
    match q
    case Unknown => 0
    case ObservedOnly => 1
    case Verified => 2
  }

  predicate Better(e': Evidence, e: Evidence) {
    e' == e.(quality := e'.quality) && Rank(e'.quality) >= Rank(e.quality)
  }

  lemma BetterSharesMore(e': Evidence, e: Evidence, key: string, stance: Stance)
    requires Better(e', e)
    ensures Share(e', key, stance) >= Share(e, key, stance)
  {
    RepeatedWeight(e, Makes(e, key, stance));
    RepeatedWeight(e', Makes(e, key, stance));
  }

  /** Replacing one item moves a side by the difference of the two items' shares. */
  lemma SideReplaced(usable: seq<Evidence>, i: nat, e': Evidence, key: string, stance: Stance)
    requires i < |usable|
    ensures TotalWeight(Bearing(usable[i := e'], key, stance)) - Share(e', key, stance)
         == TotalWeight(Bearing(usable, key, stance)) - Share(usable[i], key, stance)
  {
    var rest := usable[..i] + usable[i + 1..];
    WithoutOne(usable, i);
    WithoutOne(usable[i := e'], i);
    assert usable[i := e'][..i] + usable[i := e'][i + 1..] == rest;
    SideOneMore(usable, rest, usable[i], key, stance);
    SideOneMore(usable[i := e'], rest, e', key, stance);
  }

  lemma SameSide(usable: seq<Evidence>, i: nat, e': Evidence, key: string, stance: Stance)
    requires i < |usable| && Better(e', usable[i]) && Makes(usable[i], key, stance) == 0
    ensures TotalWeight(Bearing(usable[i := e'], key, stance)) == TotalWeight(Bearing(usable, key, stance))
  {
    SideReplaced(usable, i, e', key, stance);
  }

  /** Raising the quality of an item that does not oppose a hypothesis never lowers its score, and
      raising that of an item that does not refute a claim never lowers the claim's posterior. */
  lemma BetterQualityHelps(usable: seq<Evidence>, i: nat, e': Evidence, asOf: Instant, limit: int)
    requires i < |usable| && Better(e', usable[i]) && limit >= 0
    ensures forall h :: ValidHypothesis(h) && Makes(usable[i], h.claimKey, Opposite(h.stance)) == 0 ==>
              JudgementOf(h, usable, asOf, limit).belief.score
              <= JudgementOf(h, usable[i := e'], asOf, limit).belief.score
    ensures forall key, prior, threshold :: UnitScore(prior) && Makes(usable[i], key, Refutes) == 0 ==>
              Assess(usable, key, prior, threshold).posterior
              <= Assess(usable[i := e'], key, prior, threshold).posterior
  {
    forall h | ValidHypothesis(h) && Makes(usable[i], h.claimKey, Opposite(h.stance)) == 0
      ensures JudgementOf(h, usable, asOf, limit).belief.score
           <= JudgementOf(h, usable[i := e'], asOf, limit).belief.score
    {
      BetterBacking(h, usable, i, e');
    }
    forall key, prior, threshold | UnitScore(prior) && Makes(usable[i], key, Refutes) == 0
      ensures Assess(usable, key, prior, threshold).posterior
           <= Assess(usable[i := e'], key, prior, threshold).posterior
    {
      BetterSupport(usable, i, e', key, prior, threshold);
    }
  }

  lemma BetterBacking(h: Hypothesis, usable: seq<Evidence>, i: nat, e': Evidence)
    requires i < |usable| && Better(e', usable[i])
    requires ValidHypothesis(h) && Makes(usable[i], h.claimKey, Opposite(h.stance)) == 0
    ensures ScoreOf(h, usable) <= ScoreOf(h, usable[i := e'])
  {
    SameSide(usable, i, e', h.claimKey, Opposite(h.stance));
    SideReplaced(usable, i, e', h.claimKey, h.stance);
    BetterSharesMore(e', usable[i], h.claimKey, h.stance);
    ScoreRises(h.prior, Pro(usable, h), Con(usable, h), Pro(usable[i := e'], h) - Pro(usable, h));
  }

  lemma MoreSupportLeavesMore(prior: real, s: real, c: real, more: real)
    requires UnitScore(prior) && s >= 0.0 && c >= 0.0 && more >= 0.0
    ensures Posterior(prior, DriftScore(s, c)) <= Posterior(prior, DriftScore(s + more, c))
  {
    DriftScoreUnit(s, c);
    DriftScoreUnit(s + more, c);
    if s + c > 0.0 {
      DriftScoreFalls(s, c, more);
    }
    PosteriorFalls(prior, DriftScore(s + more, c), DriftScore(s, c));
  }

  lemma BetterSupport(usable: seq<Evidence>, i: nat, e': Evidence, key: string, prior: real, threshold: real)
    requires i < |usable| && Better(e', usable[i]) && UnitScore(prior) && Makes(usable[i], key, Refutes) == 0
    ensures Assess(usable, key, prior, threshold).posterior <= Assess(usable[i := e'], key, prior, threshold).posterior
  {
    var usable' := usable[i := e'];
    SameSide(usable, i, e', key, Refutes);
    SideReplaced(usable, i, e', key, Supports);
    BetterSharesMore(e', usable[i], key, Supports);
    AssessmentByWeight(usable, key, prior, threshold);
    AssessmentByWeight(usable', key, prior, threshold);
    MoreSupportLeavesMore(prior, Support(usable, key), Counter(usable, key),
                          Support(usable', key) - Support(usable, key));
  }
}
