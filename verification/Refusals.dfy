/** In which order LEARN's evaluators refuse, and what a refusal carries. */
module Refusals {
  import opened Options
  import opened Contracts
  import opened Learn
  import opened Comparing
  import opened Lifecycle

  /** One phase of an evaluator: whether it passes, and the reason it refuses with. */
  datatype Phase<R> = Phase(passes: bool, reason: R)

  /** The reason reported is that of the first phase, from the `j`th on, that fails; none is when all
      pass. */
  predicate ReportsFrom<R(==)>(phases: seq<Phase<R>>, reasons: seq<R>, j: nat)
    requires j <= |phases|
    decreases |phases| - j
  {
    if j == |phases| then reasons == []
    else if phases[j].passes then ReportsFrom(phases, reasons, j + 1)
    else reasons == [phases[j].reason]
  }

  predicate Reports<R(==)>(phases: seq<Phase<R>>, reasons: seq<R>) {
    ReportsFrom(phases, reasons, 0)
  }

  /** Model, scores, evidence, knowability. */
  function DriftPhases(d: DriftInputs, sound: bool): seq<Phase<DriftFailure>> {
    [Phase(d.model.id != "" && d.model.proposalId != "", InvalidDriftModel),
     Phase(d.claimKey != "" && 0.0 <= d.prior <= 1.0 && 0.0 <= d.threshold <= 1.0, InvalidDriftInput),
     Phase(sound, InvalidSense),
     Phase(d.model.registeredAt <= d.asOf, UnknowableModel)]
  }

  lemma DriftRefusesInOrder(d: DriftInputs)
    ensures Reports(DriftPhases(d, LearnAccepts(d.evidence) && d.evidence.asOf == d.asOf), Drift(d).reasons)
  {
    GivenReports(d, LearnAccepts(d.evidence) && d.evidence.asOf == d.asOf);
  }

  lemma GivenReports(d: DriftInputs, sound: bool)
    ensures Reports(DriftPhases(d, sound), if BindGiven(d, sound).Bind? then [] else [BindGiven(d, sound).reason])
  {
    var phases, bound := DriftPhases(d, sound), BindGiven(d, sound);
    var reasons := if bound.Bind? then [] else [bound.reason];
    assert ReportsFrom(phases, reasons, 4) <==> reasons == [];
    assert ReportsFrom(phases, reasons, 2) <==> if !phases[2].passes then reasons == [InvalidSense]
      else ReportsFrom(phases, reasons, 3);
  }

  predicate Summarised(p: ProveResult) {
    p.summary.Some? && Accounted(p.summary.value)
  }

  predicate Grades(p: ProveResult, m: ModelRecord) {
    p.summary.Some? && p.summary.value.proposalId == m.proposalId
  }

  predicate KnownBy(m: ModelRecord, p: ProveResult, asOf: Instant) {
    m.registeredAt <= asOf && p.summary.Some? && p.summary.value.asOf <= asOf
  }

  /** Models, integrity, status and shape of the proofs, what they grade, roles, identities and, last,
      knowability: a proof of another proposal is reported as such, whatever is still unknown. */
  function ComparisonPhases(c: ComparisonInputs): seq<Phase<ComparisonFailure>> {
    [Phase(c.champion.id != "" && c.champion.proposalId != "" && c.challenger.id != "" && c.challenger.proposalId != "",
           InvalidComparisonModel),
     Phase(c.championProof.intact && c.challengerProof.intact, InvalidProof),
     Phase(c.championProof.proven && c.challengerProof.proven, ProofNotProven),
     Phase(Summarised(c.championProof) && Summarised(c.challengerProof), InvalidProof),
     Phase(Grades(c.championProof, c.champion) && Grades(c.challengerProof, c.challenger), ProofModelMismatch),
     Phase(c.champion.role == Champion && c.challenger.role == Challenger, RoleMismatch),
     Phase(c.champion.id != c.challenger.id && c.champion.proposalId != c.challenger.proposalId, SelfComparison),
     Phase(KnownBy(c.champion, c.championProof, c.asOf) && KnownBy(c.challenger, c.challengerProof, c.asOf),
           UnknowableEvidence)]
  }

  lemma ComparisonRefusesInOrder(c: ComparisonInputs)
    ensures Reports(ComparisonPhases(c), Compare(c).reasons)
  {
    var phases, reasons := ComparisonPhases(c), Compare(c).reasons;
    assert ReportsFrom(phases, reasons, 8) <==> reasons == [];
    assert ReportsFrom(phases, reasons, 6) <==> if !phases[6].passes then reasons == [SelfComparison]
      else ReportsFrom(phases, reasons, 7);
    assert ReportsFrom(phases, reasons, 4) <==> if !phases[4].passes then reasons == [ProofModelMismatch]
      else ReportsFrom(phases, reasons, 5);
    assert ReportsFrom(phases, reasons, 2) <==> if !phases[2].passes then reasons == [ProofNotProven]
      else ReportsFrom(phases, reasons, 3);
  }

  /** Model, identifier, then that it is not retired already, whatever evidence comes with it; the
      evidence, whom it names, and a ground known in time. */
  ghost function RetirementPhases(t: RetirementInputs): seq<Phase<TransitionFailure>> {
    [Phase(t.model.id != "" && t.model.proposalId != "", InvalidTransitionModel),
     Phase(t.retirementId != "", InvalidTransitionInput),
     Phase(t.model.role != Retired, ModelAlreadyRetired),
     Phase(t.drift.Some? ==> SoundDrift(t.drift.value), InvalidDrift),
     Phase(t.comparison.Some? ==> SoundComparison(t.comparison.value), InvalidComparison),
     Phase(DriftNames(t.drift, t.model) && ComparisonNames(t.comparison, t.model), EvidenceModelMismatch),
     Phase(GroundsOf(t) != [], InsufficientEvidence)]
  }

  lemma RetirementRefusesInOrder(t: RetirementInputs)
    ensures Reports(RetirementPhases(t), Retire(t).reasons)
  {
    var phases, reasons := RetirementPhases(t), Retire(t).reasons;
    assert ReportsFrom(phases, reasons, 7) <==> reasons == [];
    assert ReportsFrom(phases, reasons, 5) <==> if !phases[5].passes then reasons == [EvidenceModelMismatch]
      else ReportsFrom(phases, reasons, 6);
    assert ReportsFrom(phases, reasons, 3) <==> if !phases[3].passes then reasons == [InvalidDrift]
      else ReportsFrom(phases, reasons, 4);
    assert ReportsFrom(phases, reasons, 1) <==> if !phases[1].passes then reasons == [InvalidTransitionInput]
      else ReportsFrom(phases, reasons, 2);
  }

  /** A ground is listed exactly when the evidence for it was known by then and says so. */
  lemma GroundsExactly(t: RetirementInputs)
    ensures DriftAbstention in GroundsOf(t) <==>
              && t.drift.Some? && t.drift.value.inputs.Some? && t.drift.value.assessment.abstain
              && t.drift.value.inputs.value.asOf <= t.asOf
    ensures InferiorComparison in GroundsOf(t) <==>
              && t.comparison.Some? && t.comparison.value.inputs.Some?
              && t.comparison.value.preference == Some(PreferChallenger)
              && t.comparison.value.inputs.value.asOf <= t.asOf
    ensures |GroundsOf(t)| == (if DriftAbstention in GroundsOf(t) then 1 else 0)
                              + if InferiorComparison in GroundsOf(t) then 1 else 0
    ensures |GroundsOf(t)| == 2 ==> GroundsOf(t) == [DriftAbstention, InferiorComparison]
  {
  }

  lemma ReinstatementRefusesInOrder(t: ReinstatementInputs)
    ensures var z := Reinstate(t);
      && (z.reasons == [InvalidRetirement] <==> !SoundRetirement(t.retirement))
      && (z.reasons == [InvalidTransitionInput] <==> SoundRetirement(t.retirement) && t.reversalId == "")
      && (z.reasons == [RetirementNotPrior] <==>
            SoundRetirement(t.retirement) && t.reversalId != "" && t.asOf <= t.retirement.record.value.retiredAt)
      && (z.accepted <==> z.reasons == [])
  {
  }

  /** What passes as a refusal carries one reason and nothing else: no inputs, no scores, no ids, no
      preference and no record. */
  lemma RefusalsAreBare()
    ensures forall r: DriftResult :: !r.accepted && DriftReconciles(r) <==>
              exists why :: r == DriftResult(false, [why], None, Assessment(0.0, 0.0, false, [], []))
    ensures forall r: ComparisonResult :: !r.accepted && ComparisonReconciles(r) <==>
              exists why :: r == ComparisonResult(false, [why], None, None, None, None)
    ensures forall r: RetirementResult :: !r.accepted && RetirementReconciles(r) <==>
              exists why :: r == RetirementResult(false, [why], None, None)
  {
    forall r: DriftResult | !r.accepted && DriftReconciles(r)
      ensures exists why :: r == DriftResult(false, [why], None, Assessment(0.0, 0.0, false, [], []))
    {
      assert r == DriftResult(false, [r.reasons[0]], None, Assessment(0.0, 0.0, false, [], []));
    }
    forall r: ComparisonResult | !r.accepted && ComparisonReconciles(r)
      ensures exists why :: r == ComparisonResult(false, [why], None, None, None, None)
    {
      assert r == ComparisonResult(false, [r.reasons[0]], None, None, None, None);
    }
    forall r: RetirementResult | !r.accepted && RetirementReconciles(r)
      ensures exists why :: r == RetirementResult(false, [why], None, None)
    {
      assert r == RetirementResult(false, [r.reasons[0]], None, None);
    }
  }
}
