/** THINK: one bounded belief and one falsifiable scenario per hypothesis, formed from admitted
    evidence only. */
module Think {
  import opened Ordering
  import opened Contracts
  import opened Sense
  import opened SenseProperties

  datatype Judgement = Judgement(
    hypothesisId: string, claimKey: string, stance: Stance, belief: Belief, scenario: Scenario)

  datatype ThinkFailure = InvalidSenseResult

  datatype ThinkResult = ThinkResult(admitted: bool, judgements: seq<Judgement>, reasons: seq<ThinkFailure>)

  // ---------------------------------------------------------------- the SENSE boundary

  predicate ValidGroup(g: Group) {
    Identifier(g.claimKey) && IdTuple(g.supporting) && IdTuple(g.refuting)
  }

  /** Every field of a result re-proved, before any of it is compared. */
  predicate WellFormedSense(r: SenseResult) {
    && r.limit >= 0 && AllValid(Represented(r))
    && forall i :: 0 <= i < |r.contradictions| ==> ValidGroup(r.contradictions[i])
  }

  /** The admission SENSE would reach from the evidence a result contains. */
  ghost function Rebuilt(r: SenseResult): SenseResult {
    Admit(Represented(r), r.asOf, r.limit)
  }

  /** `_canonical_admission` does not refuse. */
  ghost predicate Accepts(r: SenseResult) {
    WellFormedSense(r) && CanonicalResult(Rebuilt(r)) == CanonicalResult(r)
  }

  // ---------------------------------------------------------------- scoring

  function Weight(q: Quality): (w: real)
    ensures 0.0 < w <= 1.0
  {
    match q
    case Verified => 1.0
    case ObservedOnly => 0.6
    case Unknown => 0.3
  }

  function Opposite(st: Stance): Stance {
    if st == Supports then Refutes else Supports
  }

  /** The items that take `stance` on `key`, once for every assertion that does. */
  function Bearing(items: seq<Evidence>, key: string, stance: Stance): seq<Evidence> {
    if items == [] then []
    else
      var last := items[|items| - 1];
      Bearing(items[..|items| - 1], key, stance) + Repeat(last, Makes(last, key, stance))
  }

  function TotalWeight(items: seq<Evidence>): (w: real)
    ensures w >= 0.0
  {
    if items == [] then 0.0
    else TotalWeight(items[..|items| - 1]) + Weight(items[|items| - 1].quality)
  }

  lemma {:induction false} TotalAppend(xs: seq<Evidence>, ys: seq<Evidence>)
    ensures TotalWeight(xs + ys) == TotalWeight(xs) + TotalWeight(ys)
  {
    if ys == [] {
      assert xs + ys == xs;
    } else {
      var n := |xs + ys| - 1;
      assert (xs + ys)[..n] == xs + ys[..|ys| - 1] && (xs + ys)[n] == ys[|ys| - 1];
      TotalAppend(xs, ys[..|ys| - 1]);
    }
  }

  /** Round to the nearest integer, ties to even. */
  function HalfEven(x: real): int {
    var low := x.Floor;
    var part := x - low as real;
    if part < 0.5 || (part == 0.5 && low % 2 == 0) then low else low + 1
  }

  const Scale := 1_000_000_000_000

  /** `round(x, 12)`. */
  function Round12(x: real): real {
    HalfEven(x * Scale as real) as real / Scale as real
  }

  function Clamp(x: real): real {
    var low := if 0.0 >= x then 0.0 else x;
    if 1.0 <= low then 1.0 else low
  }

  function RawScore(prior: real, support: real, counter: real): real
    requires support >= 0.0 && counter >= 0.0
  {
    (prior + support) / (1.0 + support + counter)
  }

  function Score(prior: real, support: real, counter: real): real
    requires support >= 0.0 && counter >= 0.0
  {
    Clamp(Round12(RawScore(prior, support, counter)))
  }

  function Earliest(items: seq<Evidence>): (t: Instant)
    requires items != []
    ensures forall i :: 0 <= i < |items| ==> t <= items[i].observedTime
    ensures exists i :: 0 <= i < |items| && t == items[i].observedTime
  {
    if |items| == 1 then items[0].observedTime
    else
      var rest := Earliest(items[1..]);
      if items[0].observedTime <= rest then items[0].observedTime else rest
  }

  /** `_horizon`: saturates at the last representable instant. */
  function Horizon(base: Instant, limit: int): Instant
    requires limit >= 0
  {
    if base + limit <= MaxInstant then base + limit else MaxInstant
  }

  function ValidUntil(contributors: seq<Evidence>, asOf: Instant, limit: int): Instant
    requires limit >= 0
  {
    if contributors == [] then asOf else Horizon(Earliest(contributors), limit)
  }

  function Formed(h: Hypothesis, supporting: seq<Evidence>, countering: seq<Evidence>,
                  support: real, counter: real, asOf: Instant, limit: int): Judgement
    requires limit >= 0 && support >= 0.0 && counter >= 0.0
  {
    var score := Score(h.prior, support, counter);
    var belief := Belief(h.claimKey, score, SortBy(Map(supporting, IdOf), TextKey),
                         SortBy(Map(countering, IdOf), TextKey),
                         ValidUntil(supporting + countering, asOf, limit));
    Judgement(h.id, h.claimKey, h.stance, belief, Scenario(h.id, h.thesis, score, h.conditions))
  }

  /** `_judge`. */
  function JudgementOf(h: Hypothesis, usable: seq<Evidence>, asOf: Instant, limit: int): Judgement
    requires limit >= 0
  {
    var supporting := Bearing(usable, h.claimKey, h.stance);
    var countering := Bearing(usable, h.claimKey, Opposite(h.stance));
    Formed(h, supporting, countering, TotalWeight(supporting), TotalWeight(countering), asOf, limit)
  }

  /** What the constructors of the belief, the scenario and the judgement insist on. */
  predicate Constructible(j: Judgement) {
    Identifier(j.hypothesisId) && Identifier(j.claimKey) && ValidBelief(j.belief) && ValidScenario(j.scenario)
  }

  predicate AllConstructible(js: seq<Judgement>) {
    forall i :: 0 <= i < |js| ==> Constructible(js[i])
  }

  function JudgementsOf(hs: seq<Hypothesis>, usable: seq<Evidence>, asOf: Instant, limit: int): (js: seq<Judgement>)
    requires limit >= 0
    ensures |js| == |hs| && forall i :: 0 <= i < |hs| ==> js[i] == JudgementOf(hs[i], usable, asOf, limit)
  {
    seq(|hs|, i requires 0 <= i < |hs| => JudgementOf(hs[i], usable, asOf, limit))
  }

  function HypothesisId(h: Hypothesis): string {
    h.id
  }

  function HypothesisKey(h: Hypothesis): Key {
    Codes(h.id)
  }

  predicate AcceptableHypotheses(hs: seq<Hypothesis>) {
    && (forall i :: 0 <= i < |hs| ==> ValidHypothesis(hs[i]))
    && NoRepeats(Map(hs, HypothesisId))
  }

  const Refusal := ThinkResult(false, [], [InvalidSenseResult])

  /** What `evaluate_think` returns, or that it raises. */
  ghost function Conclude(hs: seq<Hypothesis>, r: SenseResult): Outcome<ThinkResult> {
    if !AcceptableHypotheses(hs) then Raised
    else if !Accepts(r) then Returned(Refusal)
    else
      var js := JudgementsOf(SortBy(hs, HypothesisKey), Rebuilt(r).usable, r.asOf, r.limit);
      if AllConstructible(js) then Returned(ThinkResult(true, js, [])) else Raised
  }

  // ---------------------------------------------------------------- the evaluator's loops

  /** `_weight`. */
  method SumWeights(items: seq<Evidence>) returns (total: real)
    ensures total == TotalWeight(items)
  {
    total := 0.0;
    var i := 0;
    while i < |items|
      invariant 0 <= i <= |items|
      invariant total == TotalWeight(items[..i])
    {
      assert items[..i + 1][..i] == items[..i];
      total := total + Weight(items[i].quality);
      i := i + 1;
    }
    assert items[..i] == items;
  }

  /** The inner loop of `_judge`: one item is appended once for every assertion on the claim. */
  method FileItem(h: Hypothesis, item: Evidence, supporting0: seq<Evidence>, countering0: seq<Evidence>)
    returns (supporting: seq<Evidence>, countering: seq<Evidence>)
    ensures supporting == supporting0 + Repeat(item, Makes(item, h.claimKey, h.stance))
    ensures countering == countering0 + Repeat(item, Makes(item, h.claimKey, Opposite(h.stance)))
  {
    supporting, countering := supporting0, countering0;
    ghost var pro, con := Assertion(h.claimKey, h.stance), Assertion(h.claimKey, Opposite(h.stance));
    var j := 0;
    while j < |item.assertions|
      invariant 0 <= j <= |item.assertions|
      invariant supporting == supporting0 + Repeat(item, multiset(item.assertions[..j])[pro])
      invariant countering == countering0 + Repeat(item, multiset(item.assertions[..j])[con])
    {
      var a := item.assertions[j];
      assert item.assertions[..j + 1] == item.assertions[..j] + [a];
      if a.claimKey == h.claimKey {
        if a.stance == h.stance {
          RepeatOneMore(item, multiset(item.assertions[..j])[pro]);
          supporting := supporting + [item];
        } else {
          RepeatOneMore(item, multiset(item.assertions[..j])[con]);
          countering := countering + [item];
        }
      }
      j := j + 1;
    }
    assert item.assertions[..j] == item.assertions;
  }

  /** `_judge`, up to the constructors. */
  method JudgeHypothesis(h: Hypothesis, usable: seq<Evidence>, asOf: Instant, limit: int) returns (j: Judgement)
    requires limit >= 0
    ensures j == JudgementOf(h, usable, asOf, limit)
  {
    var supporting: seq<Evidence>, countering: seq<Evidence> := [], [];
    var i := 0;
    while i < |usable|
      invariant 0 <= i <= |usable|
      invariant supporting == Bearing(usable[..i], h.claimKey, h.stance)
      invariant countering == Bearing(usable[..i], h.claimKey, Opposite(h.stance))
    {
      assert usable[..i + 1][..i] == usable[..i];
      supporting, countering := FileItem(h, usable[i], supporting, countering);
      i := i + 1;
    }
    assert usable[..i] == usable;
    var support := SumWeights(supporting);
    var counter := SumWeights(countering);
    j := Formed(h, supporting, countering, support, counter, asOf, limit);
  }

  /** `_canonical_admission`. */
  method Readmit(r: SenseResult) returns (usable: Outcome<seq<Evidence>>)
    ensures usable == if Accepts(r) then Returned(Rebuilt(r).usable) else Raised
  {
    if !WellFormedSense(r) {
      return Raised;
    }
    var canonical := EvaluateSense(Represented(r), r.asOf, r.limit);
    if CanonicalResult(canonical.value) != CanonicalResult(r) {
      return Raised;
    }
    return Returned(canonical.value.usable);
  }

  /** One judgement per hypothesis, in their order, until a constructor refuses. */
  method JudgeAll(hs: seq<Hypothesis>, usable: seq<Evidence>, asOf: Instant, limit: int)
    returns (judgements: Outcome<seq<Judgement>>)
    requires limit >= 0
    ensures var js := JudgementsOf(hs, usable, asOf, limit);
            judgements == if AllConstructible(js) then Returned(js) else Raised
  {
    ghost var all := JudgementsOf(hs, usable, asOf, limit);
    var made: seq<Judgement> := [];
    var i := 0;
    while i < |hs|
      invariant 0 <= i <= |hs| && made == all[..i] && AllConstructible(all[..i])
    {
      var j := JudgeHypothesis(hs[i], usable, asOf, limit);
      assert j == all[i];
      if !Constructible(j) {
        return Raised;
      }
      made := made + [j];
      assert all[..i + 1] == all[..i] + [j];
      i := i + 1;
    }
    assert all[..i] == all;
    return Returned(made);
  }

  /** `evaluate_think`. */
  method EvaluateThink(hs: seq<Hypothesis>, r: SenseResult) returns (result: Outcome<ThinkResult>)
    ensures result == Conclude(hs, r)
  {
    if !AcceptableHypotheses(hs) {
      return Raised;
    }
    var usable := Readmit(r);
    if usable.Raised? {
      return Returned(Refusal);
    }
    var judgements := JudgeAll(SortBy(hs, HypothesisKey), usable.value, r.asOf, r.limit);
    if judgements.Raised? {
      return Raised;
    }
    return Returned(ThinkResult(true, judgements.value, []));
  }
}
