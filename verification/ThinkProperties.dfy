/** What THINK promises about every admitted result and every set of hypotheses. */
module ThinkProperties {
  import opened Ordering
  import opened Contracts
  import opened CanonicalText
  import opened Sense
  import opened SenseProperties
  import opened Think
  import opened BoundaryProperties
  import opened Scoring

  // ---------------------------------------------------------------- who bears on a claim

  lemma {:induction false} BearingIds(items: seq<Evidence>, key: string, stance: Stance)
    ensures Map(Bearing(items, key, stance), IdOf) == IdsOn(items, key, stance)
  {
    if items != [] {
      var front, last := items[..|items| - 1], items[|items| - 1];
      BearingIds(front, key, stance);
      var n := Makes(last, key, stance);
      MapConcat(Bearing(front, key, stance), Repeat(last, n), IdOf);
      assert Map(Repeat(last, n), IdOf) == Repeat(last.id, n);
    }
  }

  lemma {:induction false} BearingComesFrom(items: seq<Evidence>, key: string, stance: Stance)
    ensures forall i :: 0 <= i < |Bearing(items, key, stance)| ==>
              Bearing(items, key, stance)[i] in items
              && Assertion(key, stance) in Bearing(items, key, stance)[i].assertions
  {
    if items != [] {
      var front, last := items[..|items| - 1], items[|items| - 1];
      BearingComesFrom(front, key, stance);
      assert items == front + [last];
      assert Makes(last, key, stance) > 0 ==> Assertion(key, stance) in last.assertions;
    }
  }

  // ---------------------------------------------------------------- constructors never refuse

  lemma SidesDisjoint(items: seq<Evidence>, key: string, i: nat, j: nat)
    requires AllValid(items) && NoRepeats(Map(items, IdOf))
    requires i < |IdsOn(items, key, Supports)| && j < |IdsOn(items, key, Refutes)|
    ensures IdsOn(items, key, Supports)[i] != IdsOn(items, key, Refutes)[j]
  {
    var pro, con := Bearing(items, key, Supports), Bearing(items, key, Refutes);
    BearingIds(items, key, Supports);
    BearingIds(items, key, Refutes);
    BearingComesFrom(items, key, Supports);
    BearingComesFrom(items, key, Refutes);
    if pro[i].id == con[j].id {
      var m :| 0 <= m < |items| && items[m] == pro[i];
      var n :| 0 <= n < |items| && items[n] == con[j];
      SameIdSameItem(items, m, n);
      TwoStancesRepeatKey(items[m].assertions, key);
    }
  }

  lemma SameIdSameItem(items: seq<Evidence>, m: nat, n: nat)
    requires NoRepeats(Map(items, IdOf)) && m < |items| && n < |items| && items[m].id == items[n].id
    ensures m == n
  {
  }

  lemma TwoStancesRepeatKey(assertions: seq<Assertion>, key: string)
    requires Assertion(key, Supports) in assertions && Assertion(key, Refutes) in assertions
    ensures !DistinctKeys(assertions)
  {
  }

  lemma SortedSidesDisjoint(xs: seq<string>, ys: seq<string>)
    requires forall i, j :: 0 <= i < |xs| && 0 <= j < |ys| ==> xs[i] != ys[j]
    ensures var us, vs := SortBy(xs, TextKey), SortBy(ys, TextKey);
            forall i, j :: 0 <= i < |us| && 0 <= j < |vs| ==> us[i] != vs[j]
  {
    var us, vs := SortBy(xs, TextKey), SortBy(ys, TextKey);
    forall i, j | 0 <= i < |us| && 0 <= j < |vs|
      ensures us[i] != vs[j]
    {
      SortKeepsMembers(xs, TextKey, us[i]);
      SortKeepsMembers(ys, TextKey, vs[j]);
      assert us[i] in us && vs[j] in vs;
    }
  }

  lemma BeliefIdsValid(items: seq<Evidence>, key: string, stance: Stance)
    requires AllValid(items) && NoRepeats(Map(items, IdOf))
    ensures var pro := SortBy(Map(Bearing(items, key, stance), IdOf), TextKey);
            var con := SortBy(Map(Bearing(items, key, Opposite(stance)), IdOf), TextKey);
            && IdTuple(pro) && IdTuple(con)
            && forall i, j :: 0 <= i < |pro| && 0 <= j < |con| ==> pro[i] != con[j]
  {
    var pro, con := IdsOn(items, key, stance), IdsOn(items, key, Opposite(stance));
    BearingIds(items, key, stance);
    BearingIds(items, key, Opposite(stance));
    IdsOnDistinct(items, key, stance);
    IdsOnDistinct(items, key, Opposite(stance));
    SortBySorts(pro, TextKey);
    SortBySorts(con, TextKey);
    IdTuplePermuted(pro, SortBy(pro, TextKey));
    IdTuplePermuted(con, SortBy(con, TextKey));
    forall i, j | 0 <= i < |pro| && 0 <= j < |con|
      ensures pro[i] != con[j]
    {
      if stance == Supports {
        SidesDisjoint(items, key, i, j);
      } else {
        SidesDisjoint(items, key, j, i);
      }
    }
    SortedSidesDisjoint(pro, con);
  }

  /** No belief, scenario or judgement constructor can refuse what THINK forms. */
  lemma JudgementConstructible(h: Hypothesis, usable: seq<Evidence>, asOf: Instant, limit: int)
    requires limit >= 0 && ValidHypothesis(h) && AllValid(usable) && NoRepeats(Map(usable, IdOf))
    ensures Constructible(JudgementOf(h, usable, asOf, limit))
  {
    BeliefIdsValid(usable, h.claimKey, h.stance);
    ScoreIsRounded(h.prior, TotalWeight(Bearing(usable, h.claimKey, h.stance)),
                   TotalWeight(Bearing(usable, h.claimKey, Opposite(h.stance))));
  }

  lemma RebuiltUsable(r: SenseResult)
    requires Accepts(r)
    ensures AllValid(Rebuilt(r).usable) && NoRepeats(Map(Rebuilt(r).usable, IdOf))
  {
    var items := Represented(r);
    SenseConserves(items, r.asOf, r.limit);
    AllValidPermuted(items, Represented(Rebuilt(r)));
    AllValidPrefix(Rebuilt(r));
    UsableIdsUnique(items, r.asOf, r.limit);
  }

  lemma HypothesesSorted(hs: seq<Hypothesis>)
    requires AcceptableHypotheses(hs)
    ensures AcceptableHypotheses(SortBy(hs, HypothesisKey))
    ensures multiset(SortBy(hs, HypothesisKey)) == multiset(hs)
  {
    var sorted := SortBy(hs, HypothesisKey);
    SortBySorts(hs, HypothesisKey);
    MapOfPermutation(hs, sorted, HypothesisId);
    NoRepeatsPermuted(Map(hs, HypothesisId), Map(sorted, HypothesisId));
    forall i | 0 <= i < |sorted|
      ensures ValidHypothesis(sorted[i])
    {
      assert sorted[i] in multiset(hs);
      var k :| 0 <= k < |hs| && hs[k] == sorted[i];
    }
  }

  lemma AllJudgementsConstructible(hs: seq<Hypothesis>, usable: seq<Evidence>, asOf: Instant, limit: int)
    requires limit >= 0 && AcceptableHypotheses(hs) && AllValid(usable) && NoRepeats(Map(usable, IdOf))
    ensures AllConstructible(JudgementsOf(hs, usable, asOf, limit))
  {
    forall i | 0 <= i < |hs|
      ensures Constructible(JudgementOf(hs[i], usable, asOf, limit))
    {
      JudgementConstructible(hs[i], usable, asOf, limit);
    }
  }

  /** THINK is total: it raises only on malformed hypotheses, refuses exactly what SENSE cannot
      produce, and otherwise judges every hypothesis. */
  lemma ThinkIsTotal(hs: seq<Hypothesis>, r: SenseResult)
    ensures Conclude(hs, r).Raised? <==> !AcceptableHypotheses(hs)
    ensures AcceptableHypotheses(hs) ==>
              (Conclude(hs, r).value.admitted <==> r.limit >= 0 && Genuine(r))
    ensures AcceptableHypotheses(hs) && Conclude(hs, r).value.admitted ==>
              |Conclude(hs, r).value.judgements| == |hs|
  {
    AcceptsExactlyGenuine(r);
    if AcceptableHypotheses(hs) && Accepts(r) {
      HypothesesSorted(hs);
      RebuiltUsable(r);
      AllJudgementsConstructible(SortBy(hs, HypothesisKey), Rebuilt(r).usable, r.asOf, r.limit);
      assert |multiset(SortBy(hs, HypothesisKey))| == |multiset(hs)|;
    }
  }

  // ---------------------------------------------------------------- validity horizon

  lemma HorizonCovers(contributors: seq<Evidence>, asOf: Instant, limit: int)
    requires limit >= 0 && forall i :: 0 <= i < |contributors| ==> asOf <= contributors[i].observedTime + limit
    ensures asOf <= ValidUntil(contributors, asOf, limit)
  {
  }

  lemma ContributorIsFresh(items: seq<Evidence>, asOf: Instant, limit: int, key: string, stance: Stance, e: Evidence)
    requires e in Bearing(Admit(items, asOf, limit).usable, key, stance)
    ensures asOf <= e.observedTime + limit
  {
    BearingComesFrom(Admit(items, asOf, limit).usable, key, stance);
    UsableMember(items, asOf, limit, e);
  }

  /** A belief never expires before it is formed, saturated or not. */
  lemma HorizonNotBeforeAsOf(h: Hypothesis, r: SenseResult)
    requires Accepts(r)
    ensures r.asOf <= JudgementOf(h, Rebuilt(r).usable, r.asOf, r.limit).belief.validUntil
  {
    var usable := Rebuilt(r).usable;
    var pro, con := Bearing(usable, h.claimKey, h.stance), Bearing(usable, h.claimKey, Opposite(h.stance));
    var all := pro + con;
    forall i | 0 <= i < |all|
      ensures r.asOf <= all[i].observedTime + r.limit
    {
      if i < |pro| {
        assert all[i] in pro;
        ContributorIsFresh(Represented(r), r.asOf, r.limit, h.claimKey, h.stance, all[i]);
      } else {
        assert all[i] in con;
        ContributorIsFresh(Represented(r), r.asOf, r.limit, h.claimKey, Opposite(h.stance), all[i]);
      }
    }
    HorizonCovers(all, r.asOf, r.limit);
  }

  /** The belief expires with its earliest contributor, unless time itself ends first. */
  lemma ExpiresWithEarliest(h: Hypothesis, usable: seq<Evidence>, asOf: Instant, limit: int)
    requires limit >= 0
    ensures var all := Bearing(usable, h.claimKey, h.stance) + Bearing(usable, h.claimKey, Opposite(h.stance));
            var until := JudgementOf(h, usable, asOf, limit).belief.validUntil;
      && (forall i :: 0 <= i < |all| ==> until <= all[i].observedTime + limit)
      && (all != [] && until != MaxInstant ==> exists i :: 0 <= i < |all| && until == all[i].observedTime + limit)
      && (all == [] ==> until == asOf)
  {
  }

  /** The ids a belief cites are exactly those of the usable items that take the hypothesis's
      stance on its claim, and the counter-evidence exactly those that take the opposite one. */
  lemma BeliefCitesExactly(h: Hypothesis, usable: seq<Evidence>, asOf: Instant, limit: int, id: string)
    requires limit >= 0
    ensures var b := JudgementOf(h, usable, asOf, limit).belief;
      && (id in b.evidenceIds <==> Takes(usable, id, h.claimKey, h.stance))
      && (id in b.counterEvidenceIds <==> Takes(usable, id, h.claimKey, Opposite(h.stance)))
  {
    var pro, con := IdsOn(usable, h.claimKey, h.stance), IdsOn(usable, h.claimKey, Opposite(h.stance));
    BearingIds(usable, h.claimKey, h.stance);
    BearingIds(usable, h.claimKey, Opposite(h.stance));
    IdsOnMembers(usable, h.claimKey, h.stance);
    IdsOnMembers(usable, h.claimKey, Opposite(h.stance));
    SortKeepsMembers(pro, TextKey, id);
    SortKeepsMembers(con, TextKey, id);
  }

  // ---------------------------------------------------------------- competing hypotheses

  function Pro(items: seq<Evidence>, h: Hypothesis): real {
    TotalWeight(Bearing(items, h.claimKey, h.stance))
  }

  function Con(items: seq<Evidence>, h: Hypothesis): real {
    TotalWeight(Bearing(items, h.claimKey, Opposite(h.stance)))
  }

  function ScoreOf(h: Hypothesis, items: seq<Evidence>): real {
    Score(h.prior, Pro(items, h), Con(items, h))
  }

  /** Opposing hypotheses on one claim with complementary priors score to exactly one in sum,
      whatever the evidence. */
  lemma OpponentsShareOne(h: Hypothesis, g: Hypothesis, usable: seq<Evidence>, asOf: Instant, limit: int)
    requires limit >= 0 && ValidHypothesis(h)
    requires h.claimKey == g.claimKey && g.stance == Opposite(h.stance) && g.prior == 1.0 - h.prior
    ensures JudgementOf(h, usable, asOf, limit).belief.score
          + JudgementOf(g, usable, asOf, limit).belief.score == 1.0
  {
    ScoresReflect(h.prior, Pro(usable, h), Con(usable, h));
  }

  /** Nothing bears on the claim. */
  predicate Silent(h: Hypothesis, usable: seq<Evidence>) {
    Bearing(usable, h.claimKey, Supports) == [] && Bearing(usable, h.claimKey, Refutes) == []
  }

  /** With no bearing evidence the belief expires at once and its score is the prior exactly when
      the prior has at most twelve decimals. */
  lemma SilenceReturnsPrior(h: Hypothesis, usable: seq<Evidence>, asOf: Instant, limit: int)
    requires limit >= 0 && ValidHypothesis(h) && Silent(h, usable)
    ensures var b := JudgementOf(h, usable, asOf, limit).belief;
      && (b.score == h.prior <==> TwelveDecimals(h.prior))
      && -0.000_000_000_000_5 <= b.score - h.prior <= 0.000_000_000_000_5
      && b.validUntil == asOf && b.evidenceIds == [] && b.counterEvidenceIds == []
  {
    ScoreWithoutEvidence(h.prior);
  }

  // ---------------------------------------------------------------- adding evidence

  /** What one item adds to a side. */
  function Share(e: Evidence, key: string, stance: Stance): (w: real)
    ensures w >= 0.0
    ensures Makes(e, key, stance) == 0 ==> w == 0.0
  {
    TotalWeight(Repeat(e, Makes(e, key, stance)))
  }

  function Shares(items: seq<Evidence>, key: string, stance: Stance): real {
    if items == [] then 0.0
    else Shares(items[..|items| - 1], key, stance) + Share(items[|items| - 1], key, stance)
  }

  lemma {:induction false} TotalIsShares(items: seq<Evidence>, key: string, stance: Stance)
    ensures TotalWeight(Bearing(items, key, stance)) == Shares(items, key, stance)
  {
    if items != [] {
      var front, last := items[..|items| - 1], items[|items| - 1];
      TotalIsShares(front, key, stance);
      TotalAppend(Bearing(front, key, stance), Repeat(last, Makes(last, key, stance)));
    }
  }

  lemma SharesAppend(items: seq<Evidence>, e: Evidence, key: string, stance: Stance)
    ensures Shares(items + [e], key, stance) == Shares(items, key, stance) + Share(e, key, stance)
  {
  }

  lemma {:induction false} SharesConcat(xs: seq<Evidence>, ys: seq<Evidence>, key: string, stance: Stance)
    ensures Shares(xs + ys, key, stance) == Shares(xs, key, stance) + Shares(ys, key, stance)
  {
    if ys == [] {
      assert xs + ys == xs;
    } else {
      var front, last := ys[..|ys| - 1], ys[|ys| - 1];
      SharesConcat(xs, front, key, stance);
      assert xs + ys == (xs + front) + [last];
      SharesAppend(xs + front, last, key, stance);
    }
  }

  lemma SharesWithout(items: seq<Evidence>, i: nat, key: string, stance: Stance)
    requires i < |items|
    ensures Shares(items, key, stance)
         == Shares(items[..i] + items[i + 1..], key, stance) + Share(items[i], key, stance)
  {
    assert items == (items[..i] + [items[i]]) + items[i + 1..];
    SharesConcat(items[..i] + [items[i]], items[i + 1..], key, stance);
    SharesAppend(items[..i], items[i], key, stance);
    SharesConcat(items[..i], items[i + 1..], key, stance);
  }

  lemma MoveToEnd(xs: seq<Evidence>, ys: seq<Evidence>) returns (i: nat)
    requires multiset(xs) == multiset(ys) && xs != []
    ensures i < |ys| && ys[i] == xs[|xs| - 1]
    ensures multiset(xs[..|xs| - 1]) == multiset(ys[..i] + ys[i + 1..])
  {
    var n := |xs| - 1;
    WithoutOne(xs, n);
    assert xs[..n] + xs[n + 1..] == xs[..n];
    assert xs[n] in multiset(ys);
    i :| 0 <= i < |ys| && ys[i] == xs[n];
    WithoutOne(ys, i);
  }

  /** The weight on a side depends only on which items there are. */
  lemma {:induction false} SharesPermuted(xs: seq<Evidence>, ys: seq<Evidence>, key: string, stance: Stance)
    requires multiset(xs) == multiset(ys)
    ensures Shares(xs, key, stance) == Shares(ys, key, stance)
  {
    if xs == [] {
      assert |multiset(ys)| == 0;
    } else {
      var i := MoveToEnd(xs, ys);
      SharesPermuted(xs[..|xs| - 1], ys[..i] + ys[i + 1..], key, stance);
      SharesWithout(ys, i, key, stance);
    }
  }

  /** The same items, and one more. */
  ghost predicate OneMore(more: seq<Evidence>, items: seq<Evidence>, e: Evidence) {
    multiset(more) == multiset(items) + multiset{e}
  }

  lemma SharesOneMore(more: seq<Evidence>, items: seq<Evidence>, e: Evidence, key: string, stance: Stance)
    requires OneMore(more, items, e)
    ensures Shares(more, key, stance) == Shares(items, key, stance) + Share(e, key, stance)
  {
    SharesPermuted(more, items + [e], key, stance);
    SharesAppend(items, e, key, stance);
  }

  lemma SideOneMore(more: seq<Evidence>, items: seq<Evidence>, e: Evidence, key: string, stance: Stance)
    requires OneMore(more, items, e)
    ensures TotalWeight(Bearing(more, key, stance))
         == TotalWeight(Bearing(items, key, stance)) + Share(e, key, stance)
  {
    TotalIsShares(more, key, stance);
    TotalIsShares(items, key, stance);
    SharesOneMore(more, items, e, key, stance);
  }

  predicate Counters(e: Evidence, h: Hypothesis) {
    Makes(e, h.claimKey, Opposite(h.stance)) > 0
  }

  predicate Backs(e: Evidence, h: Hypothesis) {
    Makes(e, h.claimKey, h.stance) > 0
  }

  lemma SidesOneMore(h: Hypothesis, more: seq<Evidence>, items: seq<Evidence>, e: Evidence)
    requires OneMore(more, items, e)
    ensures Pro(more, h) == Pro(items, h) + Share(e, h.claimKey, h.stance)
    ensures Con(more, h) == Con(items, h) + Share(e, h.claimKey, Opposite(h.stance))
  {
    SideOneMore(more, items, e, h.claimKey, h.stance);
    SideOneMore(more, items, e, h.claimKey, Opposite(h.stance));
  }

  lemma ScoreOneMore(h: Hypothesis, more: seq<Evidence>, items: seq<Evidence>, e: Evidence)
    requires ValidHypothesis(h) && OneMore(more, items, e)
    ensures !Counters(e, h) ==> ScoreOf(h, items) <= ScoreOf(h, more)
    ensures !Backs(e, h) ==> ScoreOf(h, more) <= ScoreOf(h, items)
  {
    var p, c := Share(e, h.claimKey, h.stance), Share(e, h.claimKey, Opposite(h.stance));
    SidesOneMore(h, more, items, e);
    ScoreRises(h.prior, Pro(items, h), Con(items, h), p);
    ScoreFalls(h.prior, Pro(items, h), Con(items, h), c);
  }

  lemma OneMoreOccurrence(more: seq<Evidence>, items: seq<Evidence>, e: Evidence, id: string)
    requires OneMore(more, items, e)
    ensures Occurrences(more, id) == Occurrences(items, id) + if id == e.id then 1 else 0
  {
    MapOfPermutation(more, items + [e], IdOf);
    MapAppend(items, e, IdOf);
  }

  lemma IdOccurs(items: seq<Evidence>, x: Evidence)
    requires x in items
    ensures Occurrences(items, x.id) > 0
  {
  }

  /** An item under a new id leaves the verdict on every other item alone. */
  lemma JudgeOneMore(more: seq<Evidence>, items: seq<Evidence>, e: Evidence, asOf: Instant, limit: int, x: Evidence)
    requires OneMore(more, items, e) && Occurrences(items, e.id) == 0 && x in items
    ensures x != e && JudgeAmong(x, more, asOf, limit) == JudgeAmong(x, items, asOf, limit)
  {
    OneMoreOccurrence(more, items, e, x.id);
    IdOccurs(items, x);
  }

  lemma CountOneMore(more: seq<Evidence>, items: seq<Evidence>, e: Evidence, asOf: Instant, limit: int, x: Evidence)
    requires OneMore(more, items, e) && Occurrences(items, e.id) == 0
    ensures multiset(UsableOf(more, more, asOf, limit))[x]
         == multiset(UsableOf(items, items, asOf, limit))[x]
          + if x == e && JudgeAmong(e, more, asOf, limit) == Usable then 1 else 0
  {
    UsableCount(more, more, asOf, limit, x);
    UsableCount(items, items, asOf, limit, x);
    if x in items {
      JudgeOneMore(more, items, e, asOf, limit, x);
    }
  }

  lemma UnsortedOneMore(more: seq<Evidence>, items: seq<Evidence>, e: Evidence, asOf: Instant, limit: int)
    requires OneMore(more, items, e) && Occurrences(items, e.id) == 0
    ensures multiset(UsableOf(more, more, asOf, limit))
         == multiset(UsableOf(items, items, asOf, limit))
          + if JudgeAmong(e, more, asOf, limit) == Usable then multiset{e} else multiset{}
  {
    var us, us' := UsableOf(items, items, asOf, limit), UsableOf(more, more, asOf, limit);
    var gained := if JudgeAmong(e, more, asOf, limit) == Usable then multiset{e} else multiset{};
    forall x
      ensures multiset(us')[x] == multiset(us)[x] + gained[x]
    {
      CountOneMore(more, items, e, asOf, limit, x);
    }
  }

  /** An item under a new id changes what is usable by itself at most. */
  lemma UsableOneMore(more: seq<Evidence>, items: seq<Evidence>, e: Evidence, asOf: Instant, limit: int)
    requires OneMore(more, items, e) && Occurrences(items, e.id) == 0
    ensures var us, us' := Admit(items, asOf, limit).usable, Admit(more, asOf, limit).usable;
            if JudgeAmong(e, more, asOf, limit) == Usable then OneMore(us', us, e)
            else multiset(us') == multiset(us)
  {
    var us, us' := UsableOf(items, items, asOf, limit), UsableOf(more, more, asOf, limit);
    SortBySorts(us, OrderKey);
    SortBySorts(us', OrderKey);
    UnsortedOneMore(more, items, e, asOf, limit);
  }

  lemma ScorePermuted(h: Hypothesis, xs: seq<Evidence>, ys: seq<Evidence>)
    requires multiset(xs) == multiset(ys)
    ensures ScoreOf(h, xs) == ScoreOf(h, ys)
  {
    forall st
      ensures TotalWeight(Bearing(xs, h.claimKey, st)) == TotalWeight(Bearing(ys, h.claimKey, st))
    {
      TotalIsShares(xs, h.claimKey, st);
      TotalIsShares(ys, h.claimKey, st);
      SharesPermuted(xs, ys, h.claimKey, st);
    }
  }

  /** Evidence offered under a new id never lowers a hypothesis it does not counter and never
      raises one it does not back, whatever else was offered and whether or not it is admitted. */
  lemma EvidencePullsItsOwnWay(h: Hypothesis, items: seq<Evidence>, more: seq<Evidence>, e: Evidence,
                               asOf: Instant, limit: int)
    requires ValidHypothesis(h) && limit >= 0
    requires OneMore(more, items, e) && Occurrences(items, e.id) == 0
    ensures var before := JudgementOf(h, Admit(items, asOf, limit).usable, asOf, limit).belief.score;
            var after := JudgementOf(h, Admit(more, asOf, limit).usable, asOf, limit).belief.score;
            && (!Counters(e, h) ==> before <= after)
            && (!Backs(e, h) ==> after <= before)
  {
    var us, us' := Admit(items, asOf, limit).usable, Admit(more, asOf, limit).usable;
    UsableOneMore(more, items, e, asOf, limit);
    if JudgeAmong(e, more, asOf, limit) == Usable {
      ScoreOneMore(h, us', us, e);
    } else {
      ScorePermuted(h, us', us);
    }
  }

  /** The new id matters: an id already in use takes every item that bears it, backing items
      included, out of the usable set. */
  lemma ReusedIdRemoves(items: seq<Evidence>, more: seq<Evidence>, e: Evidence, asOf: Instant, limit: int, x: Evidence)
    requires OneMore(more, items, e) && Occurrences(items, e.id) > 0 && x.id == e.id
    ensures x !in Admit(more, asOf, limit).usable
  {
    OneMoreOccurrence(more, items, e, e.id);
    UsableMember(more, asOf, limit, x);
  }

  // ---------------------------------------------------------------- the order of everything

  lemma CanonicalFront(xs: seq<Evidence>, ys: seq<Evidence>)
    requires CanonicalAll(xs) == CanonicalAll(ys) && xs != []
    ensures |ys| == |xs| && Canonical(xs[|xs| - 1]) == Canonical(ys[|xs| - 1])
    ensures CanonicalAll(xs[..|xs| - 1]) == CanonicalAll(ys[..|xs| - 1])
  {
  }

  lemma CanonicalRepeat(a: Evidence, b: Evidence, key: string, stance: Stance)
    requires Canonical(a) == Canonical(b)
    ensures CanonicalAll(Repeat(a, Makes(a, key, stance))) == CanonicalAll(Repeat(b, Makes(b, key, stance)))
  {
    CanonicalMakes(a, b);
  }

  lemma BearingMore(items: seq<Evidence>, key: string, stance: Stance)
    requires items != []
    ensures var front, last := items[..|items| - 1], items[|items| - 1];
            CanonicalAll(Bearing(items, key, stance)) ==
              CanonicalAll(Bearing(front, key, stance)) + CanonicalAll(Repeat(last, Makes(last, key, stance)))
  {
    var front, last := items[..|items| - 1], items[|items| - 1];
    MapConcat(Bearing(front, key, stance), Repeat(last, Makes(last, key, stance)), Canonical);
  }

  lemma {:induction false} CanonicalBearing(xs: seq<Evidence>, ys: seq<Evidence>, key: string, stance: Stance)
    requires CanonicalAll(xs) == CanonicalAll(ys)
    ensures CanonicalAll(Bearing(xs, key, stance)) == CanonicalAll(Bearing(ys, key, stance))
  {
    if xs == [] {
      assert |ys| == |CanonicalAll(ys)| == 0;
    } else {
      var n := |xs| - 1;
      CanonicalFront(xs, ys);
      CanonicalBearing(xs[..n], ys[..n], key, stance);
      CanonicalRepeat(xs[n], ys[n], key, stance);
      BearingMore(xs, key, stance);
      BearingMore(ys, key, stance);
    }
  }

  lemma {:induction false} CanonicalTotal(xs: seq<Evidence>, ys: seq<Evidence>)
    requires CanonicalAll(xs) == CanonicalAll(ys)
    ensures TotalWeight(xs) == TotalWeight(ys)
  {
    if xs == [] {
      assert |ys| == |CanonicalAll(ys)| == 0;
    } else {
      CanonicalFront(xs, ys);
      CanonicalTotal(xs[..|xs| - 1], ys[..|xs| - 1]);
    }
  }

  lemma {:induction false} CanonicalEarliest(xs: seq<Evidence>, ys: seq<Evidence>)
    requires CanonicalAll(xs) == CanonicalAll(ys) && xs != []
    ensures ys != [] && Earliest(xs) == Earliest(ys)
  {
  }

  /** A judgement depends on the canonical evidence only. */
  lemma CanonicalJudgement(h: Hypothesis, xs: seq<Evidence>, ys: seq<Evidence>, asOf: Instant, limit: int)
    requires limit >= 0 && CanonicalAll(xs) == CanonicalAll(ys)
    ensures JudgementOf(h, xs, asOf, limit) == JudgementOf(h, ys, asOf, limit)
  {
    var p, q := Bearing(xs, h.claimKey, h.stance), Bearing(ys, h.claimKey, h.stance);
    var p', q' := Bearing(xs, h.claimKey, Opposite(h.stance)), Bearing(ys, h.claimKey, Opposite(h.stance));
    CanonicalBearing(xs, ys, h.claimKey, h.stance);
    CanonicalBearing(xs, ys, h.claimKey, Opposite(h.stance));
    CanonicalTotal(p, q);
    CanonicalTotal(p', q');
    MapIdsCanonical(p, q);
    MapIdsCanonical(p', q');
    MapConcat(p, p', Canonical);
    MapConcat(q, q', Canonical);
    if p + p' != [] {
      CanonicalEarliest(p + p', q + q');
    }
  }

  lemma SameIdSameHypothesis(hs: seq<Hypothesis>, i: nat, h: Hypothesis)
    requires NoRepeats(Map(hs, HypothesisId)) && i < |hs| && h in hs && Codes(h.id) == Codes(hs[i].id)
    ensures hs[i] == h
  {
    var k :| 0 <= k < |hs| && hs[k] == h;
    CodesInjective(h.id, hs[i].id);
    assert Map(hs, HypothesisId)[k] == Map(hs, HypothesisId)[i];
  }

  /** Hypotheses with distinct ids have one order. */
  lemma HypothesesForgetOrder(hs: seq<Hypothesis>, gs: seq<Hypothesis>)
    requires AcceptableHypotheses(hs) && multiset(hs) == multiset(gs)
    ensures SortBy(hs, HypothesisKey) == SortBy(gs, HypothesisKey)
  {
    var a, b := SortBy(hs, HypothesisKey), SortBy(gs, HypothesisKey);
    HypothesesSorted(hs);
    SortBySorts(gs, HypothesisKey);
    SortForgetsOrder(hs, gs, HypothesisKey);
    SameKeysSameOrder(a, b);
  }

  lemma SameKeysSameOrder(a: seq<Hypothesis>, b: seq<Hypothesis>)
    requires NoRepeats(Map(a, HypothesisId)) && multiset(a) == multiset(b)
    requires Map(a, HypothesisKey) == Map(b, HypothesisKey)
    ensures a == b
  {
    assert |a| == |Map(a, HypothesisKey)| == |Map(b, HypothesisKey)| == |b|;
    forall i | 0 <= i < |a|
      ensures a[i] == b[i]
    {
      assert b[i] in multiset(a);
      assert Map(a, HypothesisKey)[i] == Map(b, HypothesisKey)[i];
      SameIdSameHypothesis(a, i, b[i]);
    }
  }

  lemma AcceptableForgetsOrder(hs: seq<Hypothesis>, gs: seq<Hypothesis>)
    requires multiset(hs) == multiset(gs) && AcceptableHypotheses(hs)
    ensures AcceptableHypotheses(gs)
  {
    MapOfPermutation(hs, gs, HypothesisId);
    NoRepeatsPermuted(Map(hs, HypothesisId), Map(gs, HypothesisId));
    forall i | 0 <= i < |gs|
      ensures ValidHypothesis(gs[i])
    {
      assert gs[i] in multiset(hs);
      var k :| 0 <= k < |hs| && hs[k] == gs[i];
    }
  }

  lemma JudgementsEqual(hs: seq<Hypothesis>, xs: seq<Evidence>, ys: seq<Evidence>, asOf: Instant, limit: int)
    requires limit >= 0 && CanonicalAll(xs) == CanonicalAll(ys)
    ensures JudgementsOf(hs, xs, asOf, limit) == JudgementsOf(hs, ys, asOf, limit)
  {
    forall i | 0 <= i < |hs|
      ensures JudgementOf(hs[i], xs, asOf, limit) == JudgementOf(hs[i], ys, asOf, limit)
    {
      CanonicalJudgement(hs[i], xs, ys, asOf, limit);
    }
  }

  lemma RebuiltCanonically(r: SenseResult)
    requires Accepts(r)
    ensures CanonicalAll(Rebuilt(r).usable) == CanonicalAll(r.usable)
  {
  }

  /** The conclusion is the same value for every order of the hypotheses and for every result with
      the same canonical value. */
  lemma ThinkForgetsOrder(hs: seq<Hypothesis>, gs: seq<Hypothesis>, r: SenseResult, s: SenseResult)
    requires multiset(hs) == multiset(gs) && CanonicalResult(r) == CanonicalResult(s)
    ensures Conclude(hs, r) == Conclude(gs, s)
  {
    if AcceptableHypotheses(hs) || AcceptableHypotheses(gs) {
      if AcceptableHypotheses(hs) {
        AcceptableForgetsOrder(hs, gs);
      } else {
        AcceptableForgetsOrder(gs, hs);
      }
      HypothesesForgetOrder(hs, gs);
      AcceptsCanonically(r, s);
      if Accepts(r) {
        RebuiltCanonically(r);
        RebuiltCanonically(s);
        JudgementsEqual(SortBy(hs, HypothesisKey), Rebuilt(r).usable, Rebuilt(s).usable, r.asOf, r.limit);
      }
    }
  }

  lemma AcceptsCanonically(r: SenseResult, s: SenseResult)
    requires CanonicalResult(r) == CanonicalResult(s)
    ensures Accepts(r) <==> Accepts(s)
  {
    AcceptsExactlyGenuine(r);
    AcceptsExactlyGenuine(s);
    if Genuine(r) {
      var items :| AllValid(items) && IsAdmissionOf(r, items);
      assert IsAdmissionOf(s, items);
    }
    if Genuine(s) {
      var items :| AllValid(items) && IsAdmissionOf(s, items);
      assert IsAdmissionOf(r, items);
    }
  }

  /** From raw evidence to conclusions, in any order of both. */
  lemma PipelineForgetsOrder(hs: seq<Hypothesis>, gs: seq<Hypothesis>, xs: seq<Evidence>, ys: seq<Evidence>,
                             asOf: Instant, limit: int)
    requires multiset(hs) == multiset(gs) && multiset(xs) == multiset(ys)
    ensures Conclude(hs, Admit(xs, asOf, limit)) == Conclude(gs, Admit(ys, asOf, limit))
  {
    SenseForgetsOrder(xs, ys, asOf, limit);
    ThinkForgetsOrder(hs, gs, Admit(xs, asOf, limit), Admit(ys, asOf, limit));
  }

  // ---------------------------------------------------------------- the future

  lemma GenuineConclusion(hs: seq<Hypothesis>, items: seq<Evidence>, asOf: Instant, limit: int)
    requires AllValid(items) && limit >= 0 && AcceptableHypotheses(hs)
    ensures Conclude(hs, Admit(items, asOf, limit))
         == Returned(ThinkResult(true, JudgementsOf(SortBy(hs, HypothesisKey),
                                                    Admit(items, asOf, limit).usable, asOf, limit), []))
  {
    var r := Admit(items, asOf, limit);
    GenuineOutputPasses(items, asOf, limit);
    ThinkIsTotal(hs, r);
    RebuiltCanonically(r);
    JudgementsEqual(SortBy(hs, HypothesisKey), Rebuilt(r).usable, r.usable, asOf, limit);
  }

  /** Evidence from the future, under an id of its own, changes no judgement. */
  lemma FutureCannotSway(hs: seq<Hypothesis>, before: seq<Evidence>, e: Evidence, after: seq<Evidence>,
                         asOf: Instant, limit: int)
    requires AllValid(before + after) && ValidEvidence(e) && limit >= 0 && AcceptableHypotheses(hs)
    requires e.observedTime > asOf && forall x :: x in before + after ==> x.id != e.id
    ensures Conclude(hs, Admit(before + [e] + after, asOf, limit))
         == Conclude(hs, Admit(before + after, asOf, limit))
  {
    FutureEvidenceChangesNothing(before, e, after, asOf, limit);
    ValidWithOneMore(before, e, after);
    GenuineConclusion(hs, before + after, asOf, limit);
    GenuineConclusion(hs, before + [e] + after, asOf, limit);
  }

  lemma ValidWithOneMore(before: seq<Evidence>, e: Evidence, after: seq<Evidence>)
    requires AllValid(before + after) && ValidEvidence(e)
    ensures AllValid(before + [e] + after)
  {
    var all, all' := before + after, before + [e] + after;
    forall i | 0 <= i < |all'|
      ensures ValidEvidence(all'[i])
    {
      if i < |before| {
        assert all'[i] == all[i];
      } else if i > |before| {
        assert all'[i] == all[i - 1];
      }
    }
  }
}
