/** The life of a research model: what an accepted retirement or reinstatement proves about the
    evidence nested inside it. */
module Lifecycle {
  import opened Options
  import opened Contracts
  import opened Sense
  import opened Think
  import opened BoundaryProperties
  import opened ThinkProperties
  import opened Learn
  import opened LearnProperties
  import opened Comparing

  // ---------------------------------------------------------------- value integrity

  ghost predicate SoundDrift(r: DriftResult) {
    r.accepted && DriftReconciles(r)
  }

  predicate SoundComparison(r: ComparisonResult) {
    r.accepted && ComparisonReconciles(r)
  }

  ghost predicate SoundRetirement(r: RetirementResult) {
    r.accepted && RetirementReconciles(r)
  }

  /** A result passes as accepted exactly when it is what its evaluator returns for the inputs it
      carries: nothing about it can be altered on its own. */
  lemma SoundDriftIsReproduced(r: DriftResult)
    ensures SoundDrift(r) <==> r.inputs.Some? && r.accepted && r == Drift(r.inputs.value)
  {
  }

  lemma SoundComparisonIsReproduced(r: ComparisonResult)
    ensures SoundComparison(r) <==> r.inputs.Some? && r.accepted && r == Compare(r.inputs.value)
  {
  }

  lemma SoundRetirementIsReproduced(r: RetirementResult)
    ensures SoundRetirement(r) <==> r.inputs.Some? && r.accepted && r == Retire(r.inputs.value)
  {
  }

  // ---------------------------------------------------------------- what accepted evidence rests on

  ghost predicate RestsOn(d: DriftInputs, e: Evidence) {
    && e in d.evidence.usable && e.observedTime <= d.asOf <= e.observedTime + d.evidence.limit
    && (Assertion(d.claimKey, Supports) in e.assertions || Assertion(d.claimKey, Refutes) in e.assertions)
  }

  lemma LearnAcceptedIsFresh(r: SenseResult, e: Evidence)
    requires LearnAccepts(r) && e in r.usable
    ensures e.observedTime <= r.asOf <= e.observedTime + r.limit
  {
    LearnAcceptsUpToGroupOrder(r);
    AcceptedIsFresh(WithSortedGroups(r), e);
  }

  lemma BearsMeansItem(usable: seq<Evidence>, key: string, stance: Stance) returns (e: Evidence)
    requires IdsOn(usable, key, stance) != []
    ensures e in usable && Assertion(key, stance) in e.assertions
  {
    BearingIds(usable, key, stance);
    BearingComesFrom(usable, key, stance);
    e := Bearing(usable, key, stance)[0];
  }

  /** An abstention rests on at least one admitted item on the claim, known and fresh at the
      instant of the assessment, of a model registered by then. */
  lemma AbstentionRestsOnEvidence(r: DriftResult)
    requires SoundDrift(r) && r.assessment.abstain
    ensures var d := r.inputs.value;
      && d.model.registeredAt <= d.asOf
      && r.assessment.posterior <= d.threshold
      && exists e :: RestsOn(d, e)
  {
    var d := r.inputs.value;
    var usable := d.evidence.usable;
    var stance := if IdsOn(usable, d.claimKey, Supports) != [] then Supports else Refutes;
    var e := BearsMeansItem(usable, d.claimKey, stance);
    LearnAcceptedIsFresh(d.evidence, e);
    assert RestsOn(d, e);
  }

  // ---------------------------------------------------------------- retirement

  /** The instant at which the evidence for a ground was known. */
  function KnownAt(t: RetirementInputs, g: Ground): Instant {
    match g
    case DriftAbstention =>
      if t.drift.Some? && t.drift.value.inputs.Some? then t.drift.value.inputs.value.asOf else 0
    case InferiorComparison =>
      if t.comparison.Some? && t.comparison.value.inputs.Some? then t.comparison.value.inputs.value.asOf else 0
  }

  /** What must be true for a ground to stand. */
  ghost predicate Stands(t: RetirementInputs, g: Ground) {
    match g
    case DriftAbstention =>
      && t.drift.Some? && SoundDrift(t.drift.value) && t.drift.value.assessment.abstain
      && t.drift.value.inputs.value.model == t.model
    case InferiorComparison =>
      && t.comparison.Some? && SoundComparison(t.comparison.value)
      && var c := t.comparison.value.inputs.value;
         && c.champion == t.model && Comparable(c)
         && c.challengerProof.summary.value.net > c.championProof.summary.value.net
  }

  lemma EveryGroundStands(r: RetirementResult, g: Ground)
    requires SoundRetirement(r) && g in r.record.value.grounds
    ensures Stands(r.inputs.value, g)
    ensures r.inputs.value.model.registeredAt <= KnownAt(r.inputs.value, g) <= r.record.value.retiredAt
    ensures g == InferiorComparison ==>
              var c := r.inputs.value.comparison.value.inputs.value;
              && c.championProof.summary.value.asOf <= KnownAt(r.inputs.value, g)
              && c.challengerProof.summary.value.asOf <= KnownAt(r.inputs.value, g)
  {
    var t := r.inputs.value;
    match g
    case DriftAbstention =>
      assert DriftGrounds(t.drift, t.asOf);
    case InferiorComparison =>
      assert ComparisonGrounds(t.comparison, t.asOf);
      SoundComparisonIsKnown(t.comparison.value);
  }

  /** A sound comparison is what its evaluator returns, so its inputs are comparable and it prefers
      the side that nets more. */
  lemma SoundComparisonIsKnown(r: ComparisonResult)
    requires SoundComparison(r)
    ensures r.inputs.Some? && Comparable(r.inputs.value)
    ensures var c := r.inputs.value;
            r.preference == Some(PreferChallenger) <==>
              c.challengerProof.summary.value.net > c.championProof.summary.value.net
  {
    SoundComparisonIsReproduced(r);
    ComparesExactly(r.inputs.value);
    PrefersLargerNet(r.inputs.value);
  }

  /** A retirement is accepted exactly when an active, valid model is named by sound evidence and
      some ground known by then stands. */
  lemma RetiresExactly(t: RetirementInputs)
    ensures Retire(t).accepted <==>
      && ValidModel(t.model) && Identifier(t.retirementId) && t.model.role != Retired
      && AcceptedDrift(t.drift) && AcceptedComparison(t.comparison)
      && DriftNames(t.drift, t.model) && ComparisonNames(t.comparison, t.model)
      && exists g :: Stands(t, g) && KnownAt(t, g) <= t.asOf
  {
    if BindRetirement(t).Bind? {
      var g := GroundsOf(t)[0];
      EveryGroundStands(Retire(t), g);
      assert Stands(t, g) && KnownAt(t, g) <= t.asOf;
    }
    if AcceptedDrift(t.drift) && AcceptedComparison(t.comparison) {
      if g :| Stands(t, g) && KnownAt(t, g) <= t.asOf {
        StandingGroundIsListed(t, g);
      }
    }
  }

  lemma StandingGroundIsListed(t: RetirementInputs, g: Ground)
    requires Stands(t, g) && KnownAt(t, g) <= t.asOf
    ensures GroundsOf(t) != []
  {
    match g
    case DriftAbstention =>
      assert DriftGrounds(t.drift, t.asOf);
    case InferiorComparison =>
      SoundComparisonIsKnown(t.comparison.value);
      assert ComparisonGrounds(t.comparison, t.asOf);
  }

  lemma OnlyDriftLeft(t: RetirementInputs)
    requires GroundsOf(t) != [] && InferiorComparison !in GroundsOf(t)
    ensures GroundsOf(t) == [DriftAbstention]
  {
  }

  /** A challenger is only ever retired for drift: comparisons name champions. */
  lemma ChallengerOnlyDrifts(r: RetirementResult)
    requires SoundRetirement(r) && r.inputs.value.model.role == Challenger
    ensures r.record.value.grounds == [DriftAbstention]
  {
    var t := r.inputs.value;
    if InferiorComparison in r.record.value.grounds {
      EveryGroundStands(r, InferiorComparison);
      assert false;
    }
    OnlyDriftLeft(t);
  }

  // ---------------------------------------------------------------- reinstatement

  lemma RetirementWasActive(r: RetirementResult)
    requires SoundRetirement(r)
    ensures r.record.value.previousRole == r.inputs.value.model.role != Retired
    ensures r.record.value.modelId == r.inputs.value.model.id
    ensures r.record.value.grounds != []
  {
  }

  /** A reinstatement is accepted exactly for a sound retirement, a reversal id and a later
      instant: every retirement is reversible at every later instant. */
  lemma ReinstatesExactly(t: ReinstatementInputs)
    ensures Reinstate(t).accepted <==>
      && SoundRetirement(t.retirement) && Identifier(t.reversalId)
      && t.asOf > t.retirement.record.value.retiredAt
  {
  }

  /** The whole chain behind an accepted reinstatement: the role restored is the one held before
      the retirement and never RETIRED, the retirement it reverses is the one it carries, and some
      ground was known between the registration and the retirement, before the reinstatement. */
  lemma ReinstatementIsCausal(t: ReinstatementInputs)
    requires Reinstate(t).accepted
    ensures var z, r := Reinstate(t).record.value, t.retirement;
      && z.restoredRole == r.inputs.value.model.role != Retired
      && z.modelId == r.inputs.value.model.id && z.retirementId == r.inputs.value.retirementId
      && exists g :: g in r.record.value.grounds && Stands(r.inputs.value, g)
           && r.inputs.value.model.registeredAt <= KnownAt(r.inputs.value, g)
                <= r.record.value.retiredAt < z.reinstatedAt
  {
    var r := t.retirement;
    RetirementWasActive(r);
    var g := r.record.value.grounds[0];
    EveryGroundStands(r, g);
  }

  /** Retiring and reinstating returns exactly the record one started with, and while it is retired
      no evidence whatsoever can retire it again. */
  lemma RetirementRoundTrip(t: RetirementInputs, reversalId: string, asOf: Instant, again: RetirementInputs)
    requires Retire(t).accepted && Identifier(reversalId) && asOf > t.asOf
    requires again.model == t.model.(role := Retired) && Identifier(again.retirementId)
    ensures var z := Reinstate(ReinstatementInputs(Retire(t), reversalId, asOf));
            z.accepted && again.model.(role := z.record.value.restoredRole) == t.model
    ensures Retire(again) == RetirementRefusal(ModelAlreadyRetired)
  {
  }
}
