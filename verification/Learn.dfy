/** LEARN: drift, champion against challenger, and reversible retirement.

    Every evaluator binds its inputs in fixed phases and returns either an accepted result or a
    refusal with the first reason that applies. */
module Learn {
  import opened Options
  import opened Ordering
  import opened Contracts
  import opened Sense
  import opened SenseProperties
  import opened Think

  /** The outcome of binding inputs: the value bound, or the reason of the refusal. */
  datatype Bound<+T, +R> = Bind(value: T) | Refuse(reason: R)

  datatype ModelRole = Champion | Challenger | Retired

  datatype ModelRecord = ModelRecord(id: string, proposalId: string, role: ModelRole, registeredAt: Instant)

  predicate ValidModel(m: ModelRecord) {
    Identifier(m.id) && Identifier(m.proposalId)
  }

  // ---------------------------------------------------------------- the SENSE boundary

  function SortedGroup(g: Group): Group {
    Group(g.claimKey, SortBy(g.supporting, TextKey), SortBy(g.refuting, TextKey))
  }

  /** The ids of every contradiction group in ascending order. */
  function WithSortedGroups(r: SenseResult): SenseResult {
    r.(contradictions := Map(r.contradictions, SortedGroup))
  }

  /** `_sense_state`. */
  function SenseState(r: SenseResult): SenseResult {
    CanonicalResult(WithSortedGroups(r))
  }

  predicate Readable(r: SenseResult) {
    && r.limit >= 0 && AllValid(Represented(r))
    && forall i :: 0 <= i < |r.contradictions| ==> Identifier(r.contradictions[i].claimKey)
  }

  /** `_require_sense` does not refuse, the instants aside. */
  ghost predicate LearnAccepts(r: SenseResult) {
    Readable(r) && SenseState(Rebuilt(r)) == SenseState(r)
  }

  // ---------------------------------------------------------------- drift

  datatype DriftFailure = InvalidDriftInput | InvalidDriftModel | InvalidSense | UnknowableModel

  datatype DriftInputs = DriftInputs(
    model: ModelRecord, evidence: SenseResult, claimKey: string, prior: real, threshold: real, asOf: Instant)

  datatype Assessment = Assessment(
    score: real, posterior: real, abstain: bool, supporting: seq<string>, refuting: seq<string>)

  datatype DriftResult = DriftResult(
    accepted: bool, reasons: seq<DriftFailure>, inputs: Option<DriftInputs>, assessment: Assessment)

  const NoAssessment := Assessment(0.0, 0.0, false, [], [])

  function DriftRefusal(reason: DriftFailure): DriftResult {
    DriftResult(false, [reason], None, NoAssessment)
  }

  /** `_bind_drift`, given whether its evidence is sound. */
  function BindGiven(d: DriftInputs, sound: bool): Bound<Instant, DriftFailure> {
    if !ValidModel(d.model) then Refuse(InvalidDriftModel)
    else if !Identifier(d.claimKey) || !UnitScore(d.prior) || !UnitScore(d.threshold) then Refuse(InvalidDriftInput)
    else if !sound then Refuse(InvalidSense)
    else if d.model.registeredAt > d.asOf then Refuse(UnknowableModel)
    else Bind(d.asOf)
  }

  /** `_bind_drift`: the instant bound, or the first reason to refuse. */
  ghost function BindDrift(d: DriftInputs): Bound<Instant, DriftFailure> {
    BindGiven(d, LearnAccepts(d.evidence) && d.evidence.asOf == d.asOf)
  }

  function DriftScore(support: real, counter: real): real
    requires support >= 0.0 && counter >= 0.0
  {
    if support + counter > 0.0 then counter / (support + counter) else 0.0
  }

  function Posterior(prior: real, score: real): real {
    if score == 0.0 then prior
    else
      var lowered := prior * (1.0 - score);
      var low := if lowered < prior then lowered else prior;
      if 0.0 >= low then 0.0 else low
  }

  function Assessed(prior: real, threshold: real, support: real, counter: real,
                    supporting: seq<string>, refuting: seq<string>): Assessment
    requires support >= 0.0 && counter >= 0.0
  {
    var bearing := supporting != [] || refuting != [];
    var score := if bearing then DriftScore(support, counter) else 0.0;
    var posterior := if bearing then Posterior(prior, score) else prior;
    Assessment(score, posterior, bearing && posterior <= threshold,
               SortBy(supporting, TextKey), SortBy(refuting, TextKey))
  }

  function Support(usable: seq<Evidence>, key: string): (w: real)
    ensures w >= 0.0
  {
    TotalWeight(Bearing(usable, key, Supports))
  }

  function Counter(usable: seq<Evidence>, key: string): (w: real)
    ensures w >= 0.0
  {
    TotalWeight(Bearing(usable, key, Refutes))
  }

  /** `_assess`, for any usable evidence. */
  function Assess(usable: seq<Evidence>, key: string, prior: real, threshold: real): Assessment {
    Assessed(prior, threshold, Support(usable, key), Counter(usable, key),
             IdsOn(usable, key, Supports), IdsOn(usable, key, Refutes))
  }

  function AssessInputs(d: DriftInputs): Assessment {
    Assess(d.evidence.usable, d.claimKey, d.prior, d.threshold)
  }

  /** `evaluate_drift`. */
  ghost function Drift(d: DriftInputs): DriftResult {
    match BindDrift(d)
    case Refuse(reason) => DriftRefusal(reason)
    case Bind(_) => DriftResult(true, [], Some(d), AssessInputs(d))
  }

  /** `DriftResult._state` does not raise: the stored values are those of the bound inputs. */
  ghost predicate DriftReconciles(r: DriftResult) {
    && (r.accepted <==> r.reasons == [])
    && if !r.accepted then |r.reasons| == 1 && r.inputs == None && r.assessment == NoAssessment
       else r.inputs.Some? && BindDrift(r.inputs.value).Bind? && r.assessment == AssessInputs(r.inputs.value)
  }

  // ---------------------------------------------------------------- comparison

  datatype ComparisonFailure =
    | InvalidComparisonInput | InvalidComparisonModel | InvalidProof | ProofNotProven
    | ProofModelMismatch | RoleMismatch | SelfComparison | UnknowableEvidence

  datatype ProofSummary = ProofSummary(
    proposalId: string, proposalIdentity: string, inputIdentity: string, checksum: string, asOf: Instant,
    expected: int, graded: int, abstentions: int, gross: real, costs: real, net: real, delay: int)

  /** A proof as its consumers see it: whether it re-proves itself, whether it was accepted, and
      the record it carries. */
  datatype ProveResult = ProveResult(intact: bool, proven: bool, summary: Option<ProofSummary>)

  predicate ValidSummary(s: ProofSummary) {
    && Identifier(s.proposalId) && Identifier(s.proposalIdentity)
    && Identifier(s.inputIdentity) && Identifier(s.checksum)
    && s.expected >= 0 && s.graded >= 0 && s.abstentions >= 0 && s.graded + s.abstentions == s.expected
    && s.costs >= 0.0 && s.net == s.gross - s.costs && s.delay >= 0
    && (s.graded == 0 ==> s.gross == 0.0 && s.costs == 0.0 && s.delay == 0)
  }

  predicate Summarisable(p: ProveResult) {
    p.summary.Some? && ValidSummary(p.summary.value)
  }

  datatype ComparisonInputs = ComparisonInputs(
    champion: ModelRecord, challenger: ModelRecord, championProof: ProveResult, challengerProof: ProveResult,
    asOf: Instant)

  datatype Preference = PreferChampion | PreferChallenger | Inconclusive

  datatype ComparisonResult = ComparisonResult(
    accepted: bool, reasons: seq<ComparisonFailure>, inputs: Option<ComparisonInputs>,
    preference: Option<Preference>, championProof: Option<ProofSummary>, challengerProof: Option<ProofSummary>)

  function ComparisonRefusal(reason: ComparisonFailure): ComparisonResult {
    ComparisonResult(false, [reason], None, None, None, None)
  }

  datatype Proofs = Proofs(champion: ProofSummary, challenger: ProofSummary)

  /** `_bind_comparison`. */
  function BindComparison(c: ComparisonInputs): Bound<Proofs, ComparisonFailure> {
    if !ValidModel(c.champion) || !ValidModel(c.challenger) then Refuse(InvalidComparisonModel)
    else if !c.championProof.intact || !c.challengerProof.intact then Refuse(InvalidProof)
    else if !c.championProof.proven || !c.challengerProof.proven then Refuse(ProofNotProven)
    else if !Summarisable(c.championProof) || !Summarisable(c.challengerProof) then Refuse(InvalidProof)
    else
      var champion, challenger := c.championProof.summary.value, c.challengerProof.summary.value;
      if champion.proposalId != c.champion.proposalId || challenger.proposalId != c.challenger.proposalId
      then Refuse(ProofModelMismatch)
      else if c.champion.role != Champion || c.challenger.role != Challenger then Refuse(RoleMismatch)
      else if c.champion.id == c.challenger.id || c.champion.proposalId == c.challenger.proposalId
      then Refuse(SelfComparison)
      else if c.champion.registeredAt > c.asOf || c.challenger.registeredAt > c.asOf
           || champion.asOf > c.asOf || challenger.asOf > c.asOf then Refuse(UnknowableEvidence)
      else Bind(Proofs(champion, challenger))
  }

  /** `_prefer`. */
  function Prefer(p: Proofs): Preference {
    if p.challenger.net > p.champion.net then PreferChallenger
    else if p.champion.net > p.challenger.net then PreferChampion
    else Inconclusive
  }

  /** `evaluate_comparison`. */
  function Compare(c: ComparisonInputs): ComparisonResult {
    match BindComparison(c)
    case Refuse(reason) => ComparisonRefusal(reason)
    case Bind(p) => ComparisonResult(true, [], Some(c), Some(Prefer(p)), Some(p.champion), Some(p.challenger))
  }

  /** `ComparisonResult._state` does not raise. */
  predicate ComparisonReconciles(r: ComparisonResult) {
    && (r.accepted <==> r.reasons == [])
    && if !r.accepted
       then |r.reasons| == 1 && r.inputs == None && r.preference == None
            && r.championProof == None && r.challengerProof == None
       else r.inputs.Some? && match BindComparison(r.inputs.value)
              case Refuse(_) => false
              case Bind(p) => r.preference == Some(Prefer(p)) && r.championProof == Some(p.champion)
                              && r.challengerProof == Some(p.challenger)
  }

  // ---------------------------------------------------------------- transitions

  datatype TransitionFailure =
    | InvalidTransitionInput | InvalidTransitionModel | ModelAlreadyRetired | InvalidDrift
    | InvalidComparison | EvidenceModelMismatch | InsufficientEvidence | InvalidRetirement
    | RetirementNotPrior

  datatype Ground = DriftAbstention | InferiorComparison

  datatype RetirementInputs = RetirementInputs(
    model: ModelRecord, drift: Option<DriftResult>, comparison: Option<ComparisonResult>,
    retirementId: string, asOf: Instant)

  datatype Retirement = Retirement(modelId: string, previousRole: ModelRole, grounds: seq<Ground>,
                                   retirementId: string, retiredAt: Instant)

  datatype RetirementResult = RetirementResult(
    accepted: bool, reasons: seq<TransitionFailure>, inputs: Option<RetirementInputs>, record: Option<Retirement>)

  ghost predicate AcceptedDrift(d: Option<DriftResult>) {
    d.Some? ==> d.value.accepted && DriftReconciles(d.value)
  }

  predicate AcceptedComparison(c: Option<ComparisonResult>) {
    c.Some? ==> c.value.accepted && ComparisonReconciles(c.value)
  }

  /** `_require_accepted` on a nested drift result: an accepted one has bound inputs. */
  predicate DriftNames(d: Option<DriftResult>, m: ModelRecord) {
    d.Some? ==> d.value.inputs.Some? && d.value.inputs.value.model == m
  }

  predicate ComparisonNames(c: Option<ComparisonResult>, m: ModelRecord) {
    c.Some? ==> c.value.inputs.Some? && c.value.inputs.value.champion == m
  }

  predicate DriftGrounds(d: Option<DriftResult>, asOf: Instant) {
    d.Some? && d.value.inputs.Some? && d.value.inputs.value.asOf <= asOf && d.value.assessment.abstain
  }

  predicate ComparisonGrounds(c: Option<ComparisonResult>, asOf: Instant) {
    c.Some? && c.value.inputs.Some? && c.value.inputs.value.asOf <= asOf
    && c.value.preference == Some(PreferChallenger)
  }

  /** In the order of their names. */
  function GroundsOf(t: RetirementInputs): seq<Ground> {
    (if DriftGrounds(t.drift, t.asOf) then [DriftAbstention] else [])
    + if ComparisonGrounds(t.comparison, t.asOf) then [InferiorComparison] else []
  }

  /** The last phases of `_bind_retirement`: the evidence names the model, and some ground stands. */
  function BindGrounds(t: RetirementInputs): Bound<seq<Ground>, TransitionFailure> {
    if !DriftNames(t.drift, t.model) || !ComparisonNames(t.comparison, t.model) then Refuse(EvidenceModelMismatch)
    else if GroundsOf(t) == [] then Refuse(InsufficientEvidence)
    else Bind(GroundsOf(t))
  }

  /** `_bind_retirement`: the grounds, or the first reason to refuse. */
  ghost function BindRetirement(t: RetirementInputs): Bound<seq<Ground>, TransitionFailure> {
    if !ValidModel(t.model) then Refuse(InvalidTransitionModel)
    else if !Identifier(t.retirementId) then Refuse(InvalidTransitionInput)
    else if t.model.role == Retired then Refuse(ModelAlreadyRetired)
    else if !AcceptedDrift(t.drift) then Refuse(InvalidDrift)
    else if !AcceptedComparison(t.comparison) then Refuse(InvalidComparison)
    else BindGrounds(t)
  }

  function RetirementRefusal(reason: TransitionFailure): RetirementResult {
    RetirementResult(false, [reason], None, None)
  }

  function Recorded(t: RetirementInputs, grounds: seq<Ground>): Retirement {
    Retirement(t.model.id, t.model.role, grounds, t.retirementId, t.asOf)
  }

  /** `evaluate_retirement`. */
  ghost function Retire(t: RetirementInputs): RetirementResult {
    match BindRetirement(t)
    case Refuse(reason) => RetirementRefusal(reason)
    case Bind(grounds) => RetirementResult(true, [], Some(t), Some(Recorded(t, grounds)))
  }

  /** `RetirementResult._state` does not raise. */
  ghost predicate RetirementReconciles(r: RetirementResult) {
    && (r.accepted <==> r.reasons == [])
    && if !r.accepted then |r.reasons| == 1 && r.inputs == None && r.record == None
       else r.inputs.Some? && match BindRetirement(r.inputs.value)
              case Refuse(_) => false
              case Bind(grounds) => r.record == Some(Recorded(r.inputs.value, grounds))
  }

  datatype ReinstatementInputs = ReinstatementInputs(retirement: RetirementResult, reversalId: string, asOf: Instant)

  datatype Reinstatement = Reinstatement(modelId: string, restoredRole: ModelRole, retirementId: string,
                                         reversalId: string, reinstatedAt: Instant)

  datatype ReinstatementResult = ReinstatementResult(
    accepted: bool, reasons: seq<TransitionFailure>, inputs: Option<ReinstatementInputs>, record: Option<Reinstatement>)

  /** `_bind_reinstatement`: the role to restore, or the first reason to refuse. */
  ghost function BindReinstatement(t: ReinstatementInputs): Bound<ModelRole, TransitionFailure> {
    if !t.retirement.accepted || !RetirementReconciles(t.retirement) then Refuse(InvalidRetirement)
    else if !Identifier(t.reversalId) then Refuse(InvalidTransitionInput)
    else if t.asOf <= t.retirement.record.value.retiredAt then Refuse(RetirementNotPrior)
    else if t.retirement.record.value.previousRole == Retired then Refuse(InvalidRetirement)
    else Bind(t.retirement.record.value.previousRole)
  }

  function ReinstatementRefusal(reason: TransitionFailure): ReinstatementResult {
    ReinstatementResult(false, [reason], None, None)
  }

  function Restored(t: ReinstatementInputs, record: Retirement, role: ModelRole): Reinstatement {
    Reinstatement(record.modelId, role, record.retirementId, t.reversalId, t.asOf)
  }

  /** `evaluate_reinstatement`. */
  ghost function Reinstate(t: ReinstatementInputs): ReinstatementResult {
    match BindReinstatement(t)
    case Refuse(reason) => ReinstatementRefusal(reason)
    case Bind(role) => ReinstatementResult(true, [], Some(t), Some(Restored(t, t.retirement.record.value, role)))
  }

  // ---------------------------------------------------------------- the evaluators' loops

  /** How often an assertion occurs among the first `j`, and what one more step makes of it. */
  function Told(assertions: seq<Assertion>, j: nat, a: Assertion): nat
    requires j <= |assertions|
  {
    multiset(assertions[..j])[a]
  }

  lemma ToldStep(assertions: seq<Assertion>, j: nat, a: Assertion)
    requires j < |assertions|
    ensures Told(assertions, j + 1, a) == Told(assertions, j, a) + if assertions[j] == a then 1 else 0
  {
    assert assertions[..j + 1] == assertions[..j] + [assertions[j]];
  }

  lemma OneMoreWeight(e: Evidence, n: nat)
    ensures TotalWeight(Repeat(e, n + 1)) == TotalWeight(Repeat(e, n)) + Weight(e.quality)
    ensures Repeat(e.id, n + 1) == Repeat(e.id, n) + [e.id]
  {
    assert Repeat(e, n + 1)[..n] == Repeat(e, n);
  }

  /** The inner loop of `_assess`: one item's assertions on the claim. */
  method AssessItem(item: Evidence, key: string, s0: real, c0: real, supporting0: seq<string>, refuting0: seq<string>)
    returns (s: real, c: real, supporting: seq<string>, refuting: seq<string>)
    ensures s == s0 + TotalWeight(Repeat(item, Makes(item, key, Supports)))
    ensures c == c0 + TotalWeight(Repeat(item, Makes(item, key, Refutes)))
    ensures supporting == supporting0 + Repeat(item.id, Makes(item, key, Supports))
    ensures refuting == refuting0 + Repeat(item.id, Makes(item, key, Refutes))
  {
    s, c, supporting, refuting := s0, c0, supporting0, refuting0;
    ghost var pro, con := Assertion(key, Supports), Assertion(key, Refutes);
    ghost var m, n := 0, 0;
    var j := 0;
    while j < |item.assertions|
      invariant 0 <= j <= |item.assertions|
      invariant m == Told(item.assertions, j, pro) && n == Told(item.assertions, j, con)
      invariant s == s0 + TotalWeight(Repeat(item, m)) && supporting == supporting0 + Repeat(item.id, m)
      invariant c == c0 + TotalWeight(Repeat(item, n)) && refuting == refuting0 + Repeat(item.id, n)
    {
      var a := item.assertions[j];
      ToldStep(item.assertions, j, pro);
      ToldStep(item.assertions, j, con);
      if a.claimKey == key {
        if a.stance == Refutes {
          OneMoreWeight(item, n);
          c := c + Weight(item.quality);
          refuting := refuting + [item.id];
          n := n + 1;
        } else {
          OneMoreWeight(item, m);
          s := s + Weight(item.quality);
          supporting := supporting + [item.id];
          m := m + 1;
        }
      }
      j := j + 1;
    }
    assert item.assertions[..j] == item.assertions;
  }

  lemma SideStep(items: seq<Evidence>, i: nat, key: string, stance: Stance)
    requires i < |items|
    ensures TotalWeight(Bearing(items[..i + 1], key, stance))
         == TotalWeight(Bearing(items[..i], key, stance)) + TotalWeight(Repeat(items[i], Makes(items[i], key, stance)))
    ensures IdsOn(items[..i + 1], key, stance)
         == IdsOn(items[..i], key, stance) + Repeat(items[i].id, Makes(items[i], key, stance))
  {
    assert items[..i + 1][..i] == items[..i];
    TotalAppend(Bearing(items[..i], key, stance), Repeat(items[i], Makes(items[i], key, stance)));
  }

  /** `_assess`. */
  method AssessDrift(d: DriftInputs) returns (a: Assessment)
    ensures a == AssessInputs(d)
  {
    var usable := d.evidence.usable;
    var supporting: seq<string>, refuting: seq<string> := [], [];
    var support, counter := 0.0, 0.0;
    var i := 0;
    while i < |usable|
      invariant 0 <= i <= |usable|
      invariant support == Support(usable[..i], d.claimKey) && counter == Counter(usable[..i], d.claimKey)
      invariant supporting == IdsOn(usable[..i], d.claimKey, Supports)
      invariant refuting == IdsOn(usable[..i], d.claimKey, Refutes)
    {
      SideStep(usable, i, d.claimKey, Supports);
      SideStep(usable, i, d.claimKey, Refutes);
      support, counter, supporting, refuting :=
        AssessItem(usable[i], d.claimKey, support, counter, supporting, refuting);
      i := i + 1;
    }
    assert usable[..i] == usable;
    a := Assessed(d.prior, d.threshold, support, counter, supporting, refuting);
  }

  /** The loop of `_sense_state` over the contradiction groups. */
  method SortGroups(groups: seq<Group>) returns (sorted: seq<Group>)
    ensures sorted == Map(groups, SortedGroup)
  {
    sorted := [];
    var i := 0;
    while i < |groups|
      invariant 0 <= i <= |groups| && sorted == Map(groups[..i], SortedGroup)
    {
      assert groups[..i + 1] == groups[..i] + [groups[i]];
      sorted := sorted + [SortedGroup(groups[i])];
      i := i + 1;
    }
    assert groups[..i] == groups;
  }

  /** `_require_sense`. */
  method RequireSense(r: SenseResult, asOf: Instant) returns (ok: bool)
    ensures ok <==> LearnAccepts(r) && r.asOf == asOf
  {
    if !Readable(r) {
      return false;
    }
    var mine := SortGroups(r.contradictions);
    var canonical := EvaluateSense(Represented(r), r.asOf, r.limit);
    var theirs := SortGroups(canonical.value.contradictions);
    ok := CanonicalResult(canonical.value.(contradictions := theirs))
          == CanonicalResult(r.(contradictions := mine)) && r.asOf == asOf;
  }

  /** `_bind_drift`. */
  method BindDriftInputs(d: DriftInputs) returns (b: Bound<Instant, DriftFailure>)
    ensures b == BindDrift(d)
  {
    if !ValidModel(d.model) {
      return Refuse(InvalidDriftModel);
    }
    if !Identifier(d.claimKey) || !UnitScore(d.prior) || !UnitScore(d.threshold) {
      return Refuse(InvalidDriftInput);
    }
    var ok := RequireSense(d.evidence, d.asOf);
    if !ok {
      return Refuse(InvalidSense);
    }
    if d.model.registeredAt > d.asOf {
      return Refuse(UnknowableModel);
    }
    return Bind(d.asOf);
  }

  /** `evaluate_drift`. */
  method EvaluateDrift(d: DriftInputs) returns (r: DriftResult)
    ensures r == Drift(d)
  {
    var b := BindDriftInputs(d);
    if b.Refuse? {
      return DriftRefusal(b.reason);
    }
    var a := AssessDrift(d);
    return DriftResult(true, [], Some(d), a);
  }

  /** `_require_accepted` on a drift result: the whole assessment is redone. */
  method RequireDrift(d: Option<DriftResult>) returns (ok: bool)
    ensures ok == AcceptedDrift(d)
  {
    if d == None {
      return true;
    }
    var r := d.value;
    if !r.accepted || r.reasons != [] || r.inputs == None {
      return false;
    }
    var b := BindDriftInputs(r.inputs.value);
    var a := AssessDrift(r.inputs.value);
    return b.Bind? && a == r.assessment;
  }

  /** The grounds, appended one kind of evidence after the other. */
  method CollectGrounds(t: RetirementInputs) returns (b: Bound<seq<Ground>, TransitionFailure>)
    requires t.drift.Some? ==> t.drift.value.inputs.Some?
    requires t.comparison.Some? ==> t.comparison.value.inputs.Some?
    ensures b == BindGrounds(t)
  {
    var grounds: seq<Ground> := [];
    if t.drift.Some? {
      if t.drift.value.inputs.value.model != t.model {
        return Refuse(EvidenceModelMismatch);
      }
      if t.drift.value.inputs.value.asOf <= t.asOf && t.drift.value.assessment.abstain {
        grounds := grounds + [DriftAbstention];
      }
    }
    assert grounds == if DriftGrounds(t.drift, t.asOf) then [DriftAbstention] else [];
    if t.comparison.Some? {
      if t.comparison.value.inputs.value.champion != t.model {
        return Refuse(EvidenceModelMismatch);
      }
      if t.comparison.value.inputs.value.asOf <= t.asOf && t.comparison.value.preference == Some(PreferChallenger) {
        grounds := grounds + [InferiorComparison];
      }
    }
    assert grounds == GroundsOf(t);
    if grounds == [] {
      return Refuse(InsufficientEvidence);
    }
    return Bind(grounds);
  }

  /** `_bind_retirement`. */
  method BindRetirementInputs(t: RetirementInputs) returns (b: Bound<seq<Ground>, TransitionFailure>)
    ensures b == BindRetirement(t)
  {
    if !ValidModel(t.model) {
      return Refuse(InvalidTransitionModel);
    }
    if !Identifier(t.retirementId) {
      return Refuse(InvalidTransitionInput);
    }
    if t.model.role == Retired {
      return Refuse(ModelAlreadyRetired);
    }
    var sound := RequireDrift(t.drift);
    if !sound {
      return Refuse(InvalidDrift);
    }
    if !AcceptedComparison(t.comparison) {
      return Refuse(InvalidComparison);
    }
    b := CollectGrounds(t);
  }

  /** `evaluate_retirement`. */
  method EvaluateRetirement(t: RetirementInputs) returns (r: RetirementResult)
    ensures r == Retire(t)
  {
    var b := BindRetirementInputs(t);
    if b.Refuse? {
      return RetirementRefusal(b.reason);
    }
    return RetirementResult(true, [], Some(t), Some(Recorded(t, b.value)));
  }

  /** `_require_accepted` on a retirement: the whole retirement is bound again. */
  method RequireRetirement(r: RetirementResult) returns (ok: bool)
    ensures ok == (r.accepted && RetirementReconciles(r))
  {
    if !r.accepted || r.reasons != [] || r.inputs == None {
      return false;
    }
    var b := BindRetirementInputs(r.inputs.value);
    return b.Bind? && r.record == Some(Recorded(r.inputs.value, b.value));
  }

  /** `evaluate_reinstatement`. */
  method EvaluateReinstatement(t: ReinstatementInputs) returns (r: ReinstatementResult)
    ensures r == Reinstate(t)
  {
    var sound := RequireRetirement(t.retirement);
    if !sound {
      return ReinstatementRefusal(InvalidRetirement);
    }
    if !Identifier(t.reversalId) {
      return ReinstatementRefusal(InvalidTransitionInput);
    }
    var record := t.retirement.record.value;
    if t.asOf <= record.retiredAt {
      return ReinstatementRefusal(RetirementNotPrior);
    }
    if record.previousRole == Retired {
      return ReinstatementRefusal(InvalidRetirement);
    }
    return ReinstatementResult(true, [], Some(t), Some(Restored(t, record, record.previousRole)));
  }
}
