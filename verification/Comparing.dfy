/** When a champion and a challenger may be compared, which side a comparison prefers, and when a drift
    assessment is accepted. */
module Comparing {
  import opened Options
  import opened Contracts
  import opened Learn

  /** The counts exhaust the expected outcomes, the return is net of the costs, and nothing graded
      means nothing earned, spent or waited for. */
  predicate Accounted(s: ProofSummary) {
    && s.proposalId != "" && s.proposalIdentity != "" && s.inputIdentity != "" && s.checksum != ""
    && s.graded >= 0 && s.abstentions >= 0 && s.expected == s.graded + s.abstentions
    && s.costs >= 0.0 && s.gross == s.net + s.costs && s.delay >= 0
    && (s.graded == 0 ==> s.gross == 0.0 && s.costs == 0.0 && s.delay == 0)
  }

  /** A model and a proof that grades its proposal, both known by an instant. */
  predicate Graded(m: ModelRecord, p: ProveResult, asOf: Instant) {
    && m.id != "" && m.proposalId != "" && m.registeredAt <= asOf
    && p.intact && p.proven && p.summary.Some? && Accounted(p.summary.value)
    && p.summary.value.proposalId == m.proposalId && p.summary.value.asOf <= asOf
  }

  predicate Comparable(c: ComparisonInputs) {
    && Graded(c.champion, c.championProof, c.asOf) && Graded(c.challenger, c.challengerProof, c.asOf)
    && c.champion.role == Champion && c.challenger.role == Challenger
    && c.champion.id != c.challenger.id && c.champion.proposalId != c.challenger.proposalId
  }

  /** A comparison is accepted exactly for a champion and a challenger, two models with two proposals,
      each known by then and graded by an intact, accepted proof that was known by then too. */
  lemma ComparesExactly(c: ComparisonInputs)
    ensures Compare(c).accepted <==> Comparable(c)
  {
  }

  /** It carries the two proofs and prefers the side that nets more, neither exactly on a tie. */
  lemma PrefersLargerNet(c: ComparisonInputs)
    requires Compare(c).accepted
    ensures var r, a, b := Compare(c), c.championProof.summary.value, c.challengerProof.summary.value;
      && r.inputs == Some(c) && r.championProof == Some(a) && r.challengerProof == Some(b) && r.reasons == []
      && (r.preference == Some(PreferChampion) <==> a.net > b.net)
      && (r.preference == Some(PreferChallenger) <==> b.net > a.net)
      && (r.preference == Some(Inconclusive) <==> a.net == b.net)
  {
  }

  /** A drift assessment is accepted exactly for a well-formed model known by then, scores in range
      and evidence that LEARN accepts for that very instant. */
  lemma DriftAcceptedExactly(d: DriftInputs)
    ensures Drift(d).accepted <==>
      && d.model.id != "" && d.model.proposalId != "" && d.model.registeredAt <= d.asOf
      && d.claimKey != "" && 0.0 <= d.prior <= 1.0 && 0.0 <= d.threshold <= 1.0
      && LearnAccepts(d.evidence) && d.evidence.asOf == d.asOf
  {
  }
}
