/** The vocabulary of the research brain and the rules its constructors enforce. */
module Contracts {
  import opened Ordering

  /** Microseconds since 0001-01-01T00:00:00 UTC.  Every timestamp is compared as a UTC
      instant, so a timezone spelling carries no information. */
  const MaxInstant: int := 3_652_059 * 86_400_000_000 - 1

  type Instant = t: int | 0 <= t <= MaxInstant witness 0

  datatype Quality = Verified | ObservedOnly | Unknown

  datatype Stance = Supports | Refutes

  datatype Assertion = Assertion(claimKey: string, stance: Stance)

  datatype Evidence = Evidence(
    id: string, source: string,
    eventTime: Instant, availableTime: Instant, observedTime: Instant,
    quality: Quality, checksum: string, assertions: seq<Assertion>)

  predicate Identifier(s: string) {
    s != ""
  }

  predicate DistinctKeys(assertions: seq<Assertion>) {
    forall i, j :: 0 <= i < j < |assertions| ==> assertions[i].claimKey != assertions[j].claimKey
  }

  predicate ValidEvidence(e: Evidence) {
    && Identifier(e.id) && Identifier(e.source) && Identifier(e.checksum)
    && e.eventTime <= e.availableTime <= e.observedTime
    && (forall i :: 0 <= i < |e.assertions| ==> Identifier(e.assertions[i].claimKey))
    && DistinctKeys(e.assertions)
  }

  predicate AllValid(items: seq<Evidence>) {
    forall i :: 0 <= i < |items| ==> ValidEvidence(items[i])
  }

  /** Distinct, non-empty ids. */
  predicate IdTuple(ids: seq<string>) {
    && (forall i :: 0 <= i < |ids| ==> Identifier(ids[i]))
    && NoRepeats(ids)
  }

  predicate UnitScore(x: real) {
    0.0 <= x <= 1.0
  }

  datatype Condition = Condition(id: string, claimKey: string, triggerStance: Stance)

  function ConditionIds(cs: seq<Condition>): (ids: seq<string>)
    ensures |ids| == |cs| && forall i :: 0 <= i < |cs| ==> ids[i] == cs[i].id
  {
    seq(|cs|, i requires 0 <= i < |cs| => cs[i].id)
  }

  predicate ValidConditions(cs: seq<Condition>) {
    && cs != []
    && (forall i :: 0 <= i < |cs| ==> Identifier(cs[i].id) && Identifier(cs[i].claimKey))
    && IdTuple(ConditionIds(cs))
  }

  datatype Hypothesis = Hypothesis(
    id: string, claimKey: string, stance: Stance, thesis: string, prior: real,
    conditions: seq<Condition>)

  predicate ValidHypothesis(h: Hypothesis) {
    && Identifier(h.id) && Identifier(h.claimKey) && Identifier(h.thesis)
    && UnitScore(h.prior)
    && ValidConditions(h.conditions)
  }

  datatype Belief = Belief(
    claim: string, score: real, evidenceIds: seq<string>, counterEvidenceIds: seq<string>,
    validUntil: Instant)

  /** What the Belief constructor insists on. */
  predicate ValidBelief(b: Belief) {
    && Identifier(b.claim) && UnitScore(b.score)
    && IdTuple(b.evidenceIds) && IdTuple(b.counterEvidenceIds)
    && (forall i, j :: 0 <= i < |b.evidenceIds| && 0 <= j < |b.counterEvidenceIds| ==>
          b.evidenceIds[i] != b.counterEvidenceIds[j])
  }

  datatype Scenario = Scenario(
    id: string, thesis: string, plausibility: real, conditions: seq<Condition>)

  /** What the Scenario constructor insists on. */
  predicate ValidScenario(s: Scenario) {
    && Identifier(s.id) && Identifier(s.thesis) && UnitScore(s.plausibility)
    && ValidConditions(s.conditions)
  }

  /** A call that raises a ValueError, or the value it returns. */
  datatype Outcome<+T> = Raised | Returned(value: T)
}
