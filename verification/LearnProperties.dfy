/** What LEARN promises: drift only lowers confidence, transitions are backed by evidence known
    in time, and a retirement is exactly reversible. */
module LearnProperties {
  import opened Fractions
  import opened Ordering
  import opened Contracts
  import opened Sense
  import opened SenseProperties
  import opened Think
  import opened BoundaryProperties
  import opened ThinkProperties
  import opened Learn

  // ---------------------------------------------------------------- the two boundaries

  /** Every id list of a group is written in ascending order. */
  predicate GroupsAscending(r: SenseResult) {
    WithSortedGroups(r) == r
  }

  lemma SortTwice(g: Group)
    ensures SortedGroup(SortedGroup(g)) == SortedGroup(g)
  {
    SortBySorts(g.supporting, TextKey);
    SortBySorts(g.refuting, TextKey);
    SortedIsFixpoint(SortBy(g.supporting, TextKey), TextKey);
    SortedIsFixpoint(SortBy(g.refuting, TextKey), TextKey);
  }

  lemma AdmissionAscending(items: seq<Evidence>, asOf: Instant, limit: int)
    ensures GroupsAscending(Admit(items, asOf, limit))
  {
    var r := Admit(items, asOf, limit);
    var keys := SortedSet(Claims(r.usable));
    forall i | 0 <= i < |r.contradictions|
      ensures SortedGroup(r.contradictions[i]) == r.contradictions[i]
    {
      var g := r.contradictions[i];
      GroupsOnMembers(r.usable, keys, g);
      SortTwice(Group(g.claimKey, IdsOn(r.usable, g.claimKey, Supports), IdsOn(r.usable, g.claimKey, Refutes)));
    }
    assert Map(r.contradictions, SortedGroup) == r.contradictions;
  }

  lemma LearnComparesSorted(r: SenseResult)
    ensures SenseState(Rebuilt(r)) == SenseState(r)
       <==> CanonicalResult(Rebuilt(r)) == CanonicalResult(WithSortedGroups(r))
  {
    AdmissionAscending(Represented(r), r.asOf, r.limit);
  }

  lemma ReadableIfSortedAccepted(r: SenseResult)
    requires Accepts(WithSortedGroups(r))
    ensures Readable(r)
  {
  }

  /** LEARN accepts exactly the results THINK accepts once their group ids are sorted. */
  lemma LearnAcceptsUpToGroupOrder(r: SenseResult)
    ensures LearnAccepts(r) <==> Accepts(WithSortedGroups(r))
  {
    var s := WithSortedGroups(r);
    assert Rebuilt(s) == Rebuilt(r);
    LearnComparesSorted(r);
    if LearnAccepts(r) {
      assert IsAdmissionOf(s, Represented(r));
      AcceptsExactlyGenuine(s);
    }
    if Accepts(s) {
      ReadableIfSortedAccepted(r);
    }
  }

  /** The two boundaries agree exactly on results whose group ids are in ascending order. */
  lemma ThinkIsStricter(r: SenseResult)
    ensures Accepts(r) <==> LearnAccepts(r) && GroupsAscending(r)
  {
    LearnAcceptsUpToGroupOrder(r);
    if Accepts(r) {
      AdmissionAscending(Represented(r), r.asOf, r.limit);
      assert r.contradictions == Rebuilt(r).contradictions;
    }
  }

  // ---------------------------------------------------------------- where they differ

  function Sample(id: string, at: Instant, stance: Stance): Evidence {
    Evidence(id, "s", at, at, at, Verified, "c", [Assertion("k", stance)])
  }

  const Samples := [Sample("a", 1, Supports), Sample("b", 2, Supports), Sample("c", 3, Refutes)]

  lemma NamesDiffer()
    ensures "a" != "b" && "a" != "c" && "b" != "c"
  {
  }

  lemma SampleIds()
    ensures Map(Samples, IdOf) == ["a", "b", "c"]
  {
  }

  lemma SampleOccursOnce(i: nat)
    requires i < 3
    ensures Occurrences(Samples, Samples[i].id) == 1
  {
    SampleIds();
    NamesDiffer();
    var ids := ["a", "b", "c"];
    assert multiset(ids) == multiset{"a", "b", "c"};
    assert Samples[i].id == ids[i];
  }

  lemma SampleAdmissible(i: nat)
    requires i < 3
    ensures JudgeAmong(Samples[i], Samples, 3, 9) == Usable
  {
    SampleOccursOnce(i);
  }

  lemma SampleUsable(i: nat)
    requires i < 3
    ensures Samples[i] in Admit(Samples, 3, 9).usable
  {
    SampleAdmissible(i);
    assert Samples[i] in Samples;
    UsableMember(Samples, 3, 9, Samples[i]);
  }

  lemma SamplesValid()
    ensures AllValid(Samples)
  {
  }

  lemma SamplesConflict() returns (g: Group)
    ensures g in Contradictions(Admit(Samples, 3, 9).usable)
    ensures |g.supporting| >= 2
  {
    var us := Admit(Samples, 3, 9).usable;
    SampleUsable(0);
    SampleUsable(1);
    SampleUsable(2);
    assert Takes(us, "a", "k", Supports) && Takes(us, "b", "k", Supports) && Takes(us, "c", "k", Refutes);
    ContradictionsComplete(us, "k");
    g :| g in Contradictions(us) && g.claimKey == "k";
    NamesDiffer();
    TwoMembers(g.supporting, "a", "b");
  }

  lemma TwoMembers(xs: seq<string>, x: string, y: string)
    requires x in xs && y in xs && x != y
    ensures |xs| >= 2
  {
  }

  function Backwards(g: Group): Group
    requires |g.supporting| >= 2
  {
    var n := |g.supporting|;
    g.(supporting := g.supporting[1..] + [g.supporting[0]])
  }

  lemma RotatedSortsAlike(ids: seq<string>)
    requires |ids| >= 2 && IdTuple(ids) && SortBy(ids, TextKey) == ids
    ensures SortBy(ids[1..] + [ids[0]], TextKey) == ids && ids[1..] + [ids[0]] != ids
  {
    var turned := ids[1..] + [ids[0]];
    assert ids == [ids[0]] + ids[1..];
    assert multiset(turned) == multiset(ids);
    SortForgetsOrder(ids, turned, TextKey);
    var sorted := SortBy(turned, TextKey);
    assert |ids| == |Map(ids, TextKey)| == |Map(sorted, TextKey)| == |sorted|;
    forall i | 0 <= i < |ids|
      ensures ids[i] == sorted[i]
    {
      assert Map(ids, TextKey)[i] == Map(sorted, TextKey)[i];
      CodesInjective(ids[i], sorted[i]);
    }
    assert turned[0] == ids[1] != ids[0];
  }

  /** One group of a genuine result written down in another order: THINK refuses it, LEARN does
      not. */
  lemma RotatedGroupSplitsThem(r: SenseResult, n: nat) returns (r': SenseResult)
    requires Accepts(r) && n < |r.contradictions| && |r.contradictions[n].supporting| >= 2
    ensures r' == r.(contradictions := r.contradictions[n := Backwards(r.contradictions[n])])
    ensures LearnAccepts(r') && !Accepts(r')
  {
    var g := r.contradictions[n];
    r' := r.(contradictions := r.contradictions[n := Backwards(g)]);
    ThinkIsStricter(r);
    assert Map(r.contradictions, SortedGroup)[n] == g;
    assert ValidGroup(g);
    RotatedSortsAlike(g.supporting);
    assert Map(r'.contradictions, SortedGroup) == r.contradictions;
    LearnAcceptsUpToGroupOrder(r');
    ThinkIsStricter(r');
    assert Map(r'.contradictions, SortedGroup)[n] != r'.contradictions[n];
  }

  lemma GroupAt(r: SenseResult, g: Group) returns (n: nat)
    requires g in r.contradictions
    ensures n < |r.contradictions| && r.contradictions[n] == g
  {
    n :| 0 <= n < |r.contradictions| && r.contradictions[n] == g;
  }

  /** Such a result exists. */
  lemma BoundariesDiffer() returns (r: SenseResult)
    ensures LearnAccepts(r) && !Accepts(r)
  {
    SamplesValid();
    GenuineOutputPasses(Samples, 3, 9);
    var g := SamplesConflict();
    var n := GroupAt(Admit(Samples, 3, 9), g);
    r := RotatedGroupSplitsThem(Admit(Samples, 3, 9), n);
  }

  // ---------------------------------------------------------------- drift arithmetic

  lemma DriftScoreUnit(s: real, c: real)
    requires s >= 0.0 && c >= 0.0
    ensures 0.0 <= DriftScore(s, c) <= 1.0
  {
  }

  lemma DriftScoreRises(s: real, c: real, more: real)
    requires s >= 0.0 && c >= 0.0 && more >= 0.0 && s + c > 0.0
    ensures DriftScore(s, c) <= DriftScore(s, c + more)
  {
    assert c * more <= (s + c) * more;
    assert c * (s + (c + more)) <= (c + more) * (s + c);
    CrossDivide(c, s + c, c + more, s + (c + more));
  }

  lemma DriftScoreFalls(s: real, c: real, more: real)
    requires s >= 0.0 && c >= 0.0 && more >= 0.0 && s + c > 0.0
    ensures DriftScore(s + more, c) <= DriftScore(s, c)
  {
    assert c * (s + c) <= c * ((s + more) + c);
    CrossDivide(c, (s + more) + c, c, s + c);
  }

  lemma PosteriorIs(prior: real, score: real)
    requires 0.0 <= prior <= 1.0 && 0.0 <= score <= 1.0
    ensures Posterior(prior, score) == prior * (1.0 - score)
    ensures 0.0 <= Posterior(prior, score) <= prior
  {
  }

  lemma PosteriorFalls(prior: real, lower: real, higher: real)
    requires 0.0 <= prior <= 1.0 && 0.0 <= lower <= higher <= 1.0
    ensures Posterior(prior, higher) <= Posterior(prior, lower)
  {
    PosteriorIs(prior, lower);
    PosteriorIs(prior, higher);
    assert prior * (1.0 - higher) <= prior * (1.0 - lower);
  }

  predicate Bears(usable: seq<Evidence>, key: string) {
    IdsOn(usable, key, Supports) != [] || IdsOn(usable, key, Refutes) != []
  }

  lemma {:induction false} WeightMeansItems(items: seq<Evidence>)
    ensures TotalWeight(items) > 0.0 <==> items != []
  {
  }

  lemma BearsByWeight(usable: seq<Evidence>, key: string)
    ensures Bears(usable, key) <==> Support(usable, key) + Counter(usable, key) > 0.0
  {
    BearingIds(usable, key, Supports);
    BearingIds(usable, key, Refutes);
    WeightMeansItems(Bearing(usable, key, Supports));
    WeightMeansItems(Bearing(usable, key, Refutes));
  }

  /** Drift never raises confidence, and without bearing evidence it changes nothing and never
      abstains. */
  lemma DriftOnlyLowers(usable: seq<Evidence>, key: string, prior: real, threshold: real)
    requires UnitScore(prior)
    ensures var a := Assess(usable, key, prior, threshold);
      && 0.0 <= a.score <= 1.0 && 0.0 <= a.posterior <= prior
      && a.posterior == prior * (1.0 - a.score)
      && (!Bears(usable, key) ==> a.score == 0.0 && a.posterior == prior && !a.abstain)
  {
    var a := Assess(usable, key, prior, threshold);
    DriftScoreUnit(Support(usable, key), Counter(usable, key));
    PosteriorIs(prior, a.score);
  }

  /** The ids an assessment reports are exactly those of the usable items that take each side. */
  lemma AssessmentCitesExactly(usable: seq<Evidence>, key: string, prior: real, threshold: real, id: string)
    ensures var a := Assess(usable, key, prior, threshold);
      && (id in a.supporting <==> Takes(usable, id, key, Supports))
      && (id in a.refuting <==> Takes(usable, id, key, Refutes))
  {
    IdsOnMembers(usable, key, Supports);
    IdsOnMembers(usable, key, Refutes);
    SortKeepsMembers(IdsOn(usable, key, Supports), TextKey, id);
    SortKeepsMembers(IdsOn(usable, key, Refutes), TextKey, id);
  }

  lemma AssessmentByWeight(usable: seq<Evidence>, key: string, prior: real, threshold: real)
    requires UnitScore(prior)
    ensures var a := Assess(usable, key, prior, threshold);
      && a.score == DriftScore(Support(usable, key), Counter(usable, key))
      && a.posterior == Posterior(prior, a.score)
      && (a.abstain <==> Bears(usable, key) && a.posterior <= threshold)
  {
    BearsByWeight(usable, key);
  }

  // ---------------------------------------------------------------- one more item

  lemma SidesMore(more: seq<Evidence>, items: seq<Evidence>, e: Evidence, key: string)
    requires OneMore(more, items, e)
    ensures Support(more, key) == Support(items, key) + Share(e, key, Supports)
    ensures Counter(more, key) == Counter(items, key) + Share(e, key, Refutes)
  {
    SideOneMore(more, items, e, key, Supports);
    SideOneMore(more, items, e, key, Refutes);
  }

  lemma RefutationLowers(more: seq<Evidence>, items: seq<Evidence>, e: Evidence, key: string, prior: real,
                         threshold: real)
    requires UnitScore(prior) && OneMore(more, items, e) && Makes(e, key, Supports) == 0
    ensures var a, b := Assess(items, key, prior, threshold), Assess(more, key, prior, threshold);
      && b.posterior <= a.posterior && (a.abstain ==> b.abstain)
  {
    var s, c, w := Support(items, key), Counter(items, key), Share(e, key, Refutes);
    SidesMore(more, items, e, key);
    AssessmentByWeight(items, key, prior, threshold);
    AssessmentByWeight(more, key, prior, threshold);
    BearsByWeight(items, key);
    BearsByWeight(more, key);
    DriftScoreUnit(s, c);
    DriftScoreUnit(s, c + w);
    if s + c > 0.0 {
      DriftScoreRises(s, c, w);
    }
    PosteriorFalls(prior, DriftScore(s, c), DriftScore(s, c + w));
  }

  lemma SupportRaises(more: seq<Evidence>, items: seq<Evidence>, e: Evidence, key: string, prior: real, threshold: real)
    requires UnitScore(prior) && OneMore(more, items, e) && Makes(e, key, Refutes) == 0
    ensures Assess(items, key, prior, threshold).posterior <= Assess(more, key, prior, threshold).posterior
  {
    var s, c, w := Support(items, key), Counter(items, key), Share(e, key, Supports);
    SidesMore(more, items, e, key);
    AssessmentByWeight(items, key, prior, threshold);
    AssessmentByWeight(more, key, prior, threshold);
    DriftScoreUnit(s, c);
    DriftScoreUnit(s + w, c);
    if s + c > 0.0 {
      DriftScoreFalls(s, c, w);
    }
    PosteriorFalls(prior, DriftScore(s + w, c), DriftScore(s, c));
  }

  lemma AssessPermuted(xs: seq<Evidence>, ys: seq<Evidence>, key: string, prior: real, threshold: real)
    requires UnitScore(prior) && multiset(xs) == multiset(ys)
    ensures var a, b := Assess(xs, key, prior, threshold), Assess(ys, key, prior, threshold);
            a.posterior == b.posterior && a.abstain == b.abstain && a.score == b.score
  {
    forall st
      ensures TotalWeight(Bearing(xs, key, st)) == TotalWeight(Bearing(ys, key, st))
    {
      TotalIsShares(xs, key, st);
      TotalIsShares(ys, key, st);
      SharesPermuted(xs, ys, key, st);
    }
    AssessmentByWeight(xs, key, prior, threshold);
    AssessmentByWeight(ys, key, prior, threshold);
    BearsByWeight(xs, key);
    BearsByWeight(ys, key);
  }

  /** `evaluate_drift` on the evidence that SENSE admits from a list of items. */
  ghost function DriftOn(d: DriftInputs, items: seq<Evidence>, asOf: Instant, limit: int): DriftResult {
    Drift(d.(evidence := Admit(items, asOf, limit)))
  }

  lemma AcceptsAdmission(items: seq<Evidence>, asOf: Instant, limit: int)
    requires AllValid(items) && limit >= 0
    ensures LearnAccepts(Admit(items, asOf, limit))
  {
    GenuineOutputPasses(items, asOf, limit);
    ThinkIsStricter(Admit(items, asOf, limit));
  }

  lemma ValidWithoutOne(items: seq<Evidence>, more: seq<Evidence>, e: Evidence)
    requires OneMore(more, items, e) && AllValid(more)
    ensures AllValid(items)
  {
    forall i | 0 <= i < |items|
      ensures ValidEvidence(items[i])
    {
      assert items[i] in multiset(more);
    }
  }

  /** The other checks do not look at the evidence. */
  lemma GivenAlike(d: DriftInputs, d': DriftInputs, sound: bool)
    requires d' == d.(evidence := d'.evidence)
    ensures BindGiven(d, sound) == BindGiven(d', sound)
  {
  }

  lemma BindsAccepted(d: DriftInputs)
    requires LearnAccepts(d.evidence)
    ensures BindDrift(d) == BindGiven(d, d.evidence.asOf == d.asOf)
  {
  }

  lemma BoundIsAssessed(d: DriftInputs)
    ensures Drift(d).accepted <==> BindDrift(d).Bind?
    ensures Drift(d).reasons == if BindDrift(d).Bind? then [] else [BindDrift(d).reason]
    ensures Drift(d).assessment == if BindDrift(d).Bind? then AssessInputs(d) else NoAssessment
  {
  }

  lemma BoundIsUnit(d: DriftInputs)
    requires BindDrift(d).Bind?
    ensures UnitScore(d.prior)
  {
  }

  /** Whatever valid items SENSE admits from, acceptance depends on the other inputs alone, and an
      accepted assessment is that of the admitted items. */
  lemma DriftOnAdmission(d: DriftInputs, items: seq<Evidence>, other: seq<Evidence>, asOf: Instant, limit: int)
    requires AllValid(items) && AllValid(other) && limit >= 0
    ensures var a, b := DriftOn(d, items, asOf, limit), DriftOn(d, other, asOf, limit);
            && a.accepted == b.accepted && a.reasons == b.reasons && (a.accepted ==> UnitScore(d.prior))
            && (!a.accepted ==> a.assessment == b.assessment == NoAssessment)
            && (a.accepted ==>
                  a.assessment == Assess(Admit(items, asOf, limit).usable, d.claimKey, d.prior, d.threshold))
  {
    AcceptsAdmission(items, asOf, limit);
    AcceptsAdmission(other, asOf, limit);
    var x, y := d.(evidence := Admit(items, asOf, limit)), d.(evidence := Admit(other, asOf, limit));
    BindsAccepted(x);
    BindsAccepted(y);
    GivenAlike(x, y, asOf == d.asOf);
    BoundIsAssessed(x);
    BoundIsAssessed(y);
    if BindDrift(x).Bind? {
      BoundIsUnit(x);
    }
  }

  lemma AssessmentMoves(items: seq<Evidence>, more: seq<Evidence>, e: Evidence, asOf: Instant, limit: int,
                        key: string, prior: real, threshold: real)
    requires UnitScore(prior) && OneMore(more, items, e) && Occurrences(items, e.id) == 0
    ensures var a := Assess(Admit(items, asOf, limit).usable, key, prior, threshold);
            var b := Assess(Admit(more, asOf, limit).usable, key, prior, threshold);
            && (Makes(e, key, Supports) == 0 ==> b.posterior <= a.posterior && (a.abstain ==> b.abstain))
            && (Makes(e, key, Refutes) == 0 ==> a.posterior <= b.posterior)
  {
    var us, us' := Admit(items, asOf, limit).usable, Admit(more, asOf, limit).usable;
    UsableOneMore(more, items, e, asOf, limit);
    if JudgeAmong(e, more, asOf, limit) == Usable {
      if Makes(e, key, Supports) == 0 {
        RefutationLowers(us', us, e, key, prior, threshold);
      }
      if Makes(e, key, Refutes) == 0 {
        SupportRaises(us', us, e, key, prior, threshold);
      }
    } else {
      AssessPermuted(us', us, key, prior, threshold);
    }
  }

  /** Through SENSE: a valid item under a new id decides nothing about acceptance; if it does not
      support the claim it never raises the posterior and never ends an abstention, and if it does
      not refute it it never lowers the posterior. */
  lemma DriftPullsItsOwnWay(d: DriftInputs, items: seq<Evidence>, more: seq<Evidence>, e: Evidence, asOf: Instant,
                            limit: int)
    requires AllValid(more) && limit >= 0 && OneMore(more, items, e) && Occurrences(items, e.id) == 0
    ensures var a, b := DriftOn(d, items, asOf, limit), DriftOn(d, more, asOf, limit);
            var x, y := a.assessment, b.assessment;
            && a.accepted == b.accepted && a.reasons == b.reasons
            && (Makes(e, d.claimKey, Supports) == 0 ==> y.posterior <= x.posterior && (x.abstain ==> y.abstain))
            && (Makes(e, d.claimKey, Refutes) == 0 ==> x.posterior <= y.posterior)
  {
    ValidWithoutOne(items, more, e);
    DriftOnAdmission(d, items, more, asOf, limit);
    DriftOnAdmission(d, more, items, asOf, limit);
    if DriftOn(d, items, asOf, limit).accepted {
      AssessmentMoves(items, more, e, asOf, limit, d.claimKey, d.prior, d.threshold);
    }
  }

  lemma FirstSupport(more: seq<Evidence>, items: seq<Evidence>, e: Evidence, key: string, prior: real, threshold: real)
    requires UnitScore(prior) && OneMore(more, items, e) && !Bears(items, key)
    requires Makes(e, key, Refutes) == 0 && Makes(e, key, Supports) > 0
    ensures Assess(more, key, prior, threshold).abstain <==> prior <= threshold
  {
    SidesMore(more, items, e, key);
    BearsByWeight(items, key);
    BearsByWeight(more, key);
    WeightMeansItems(Repeat(e, Makes(e, key, Supports)));
    AssessmentByWeight(more, key, prior, threshold);
    assert DriftScore(Support(more, key), 0.0) == 0.0;
  }

  lemma SupportStartsAbstention(more: seq<Evidence>, items: seq<Evidence>, e: Evidence, key: string, prior: real,
                                threshold: real)
    requires UnitScore(prior) && OneMore(more, items, e)
    requires Makes(e, key, Refutes) == 0 && Makes(e, key, Supports) > 0
    ensures !Assess(items, key, prior, threshold).abstain && Assess(more, key, prior, threshold).abstain <==>
              !Bears(items, key) && prior <= threshold
  {
    AssessmentByWeight(items, key, prior, threshold);
    AssessmentByWeight(more, key, prior, threshold);
    if Bears(items, key) {
      SupportRaises(more, items, e, key, prior, threshold);
    } else {
      FirstSupport(more, items, e, key, prior, threshold);
    }
  }

  lemma AdmittedSupportStarts(items: seq<Evidence>, more: seq<Evidence>, e: Evidence, asOf: Instant, limit: int,
                              key: string, prior: real, threshold: real)
    requires UnitScore(prior) && OneMore(more, items, e) && Occurrences(items, e.id) == 0
    requires Makes(e, key, Refutes) == 0 && Makes(e, key, Supports) > 0
    ensures var a := Assess(Admit(items, asOf, limit).usable, key, prior, threshold);
            var b := Assess(Admit(more, asOf, limit).usable, key, prior, threshold);
            !a.abstain && b.abstain <==>
              && JudgeAmong(e, more, asOf, limit) == Usable
              && !Bears(Admit(items, asOf, limit).usable, key) && prior <= threshold
  {
    var us, us' := Admit(items, asOf, limit).usable, Admit(more, asOf, limit).usable;
    UsableOneMore(more, items, e, asOf, limit);
    if JudgeAmong(e, more, asOf, limit) == Usable {
      SupportStartsAbstention(us', us, e, key, prior, threshold);
    } else {
      AssessPermuted(us', us, key, prior, threshold);
    }
  }

  /** Support can start an abstention, and exactly then: a supporting item turns a result that did
      not abstain into one that does exactly when the inputs are accepted, the item is admitted,
      nothing bore on the claim before and the prior is already at or below the threshold. */
  lemma FirstSupportAbstains(d: DriftInputs, items: seq<Evidence>, more: seq<Evidence>, e: Evidence, asOf: Instant,
                             limit: int)
    requires AllValid(more) && limit >= 0 && OneMore(more, items, e) && Occurrences(items, e.id) == 0
    requires Makes(e, d.claimKey, Refutes) == 0 && Makes(e, d.claimKey, Supports) > 0
    ensures var a, b := DriftOn(d, items, asOf, limit), DriftOn(d, more, asOf, limit);
            !a.assessment.abstain && b.assessment.abstain <==>
              && b.accepted && JudgeAmong(e, more, asOf, limit) == Usable
              && !Bears(Admit(items, asOf, limit).usable, d.claimKey) && d.prior <= d.threshold
  {
    ValidWithoutOne(items, more, e);
    DriftOnAdmission(d, items, more, asOf, limit);
    DriftOnAdmission(d, more, items, asOf, limit);
    if DriftOn(d, items, asOf, limit).accepted {
      AdmittedSupportStarts(items, more, e, asOf, limit, d.claimKey, d.prior, d.threshold);
    }
  }

  /** Evidence from the future, under an id of its own, changes neither acceptance nor the
      assessment. */
  lemma FutureCannotDrift(d: DriftInputs, before: seq<Evidence>, e: Evidence, after: seq<Evidence>, asOf: Instant,
                          limit: int)
    requires AllValid(before + after) && ValidEvidence(e) && limit >= 0
    requires e.observedTime > asOf && forall x :: x in before + after ==> x.id != e.id
    ensures var a, b := DriftOn(d, before + after, asOf, limit), DriftOn(d, before + [e] + after, asOf, limit);
            a.accepted == b.accepted && a.reasons == b.reasons && a.assessment == b.assessment
  {
    ValidWithOneMore(before, e, after);
    DriftOnAdmission(d, before + after, before + [e] + after, asOf, limit);
    DriftOnAdmission(d, before + [e] + after, before + after, asOf, limit);
    FutureEvidenceUnusable(before, e, after, asOf, limit);
  }
}
