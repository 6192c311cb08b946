/** The constructors of the brain's records, by what they admit: counted rather than compared pair by
    pair. */
module ContractLaws {
  import opened Ordering
  import opened Contracts

  /** A list has no repeats exactly when it has as many elements as its set. */
  lemma {:induction false} NoRepeatsCounts<T>(xs: seq<T>)
    ensures NoRepeats(xs) <==> |set x | x in xs| == |xs|
    ensures |set x | x in xs| <= |xs|
  {
    if xs != [] {
      var n := |xs| - 1;
      var front, last := xs[..n], xs[n];
      NoRepeatsCounts(front);
      assert xs == front + [last];
      var fs, all := set x | x in front, set x | x in xs;
      assert all == fs + {last};
      if last in front {
        var i :| 0 <= i < n && front[i] == last;
        assert xs[i] == xs[n];
        assert all == fs;
      } else {
        assert |all| == |fs| + 1;
        if NoRepeats(front) {
          forall i, j | 0 <= i < j < |xs|
            ensures xs[i] != xs[j]
          {
            if j == n {
              assert front[i] in front;
            } else {
              assert front[i] != front[j];
            }
          }
        }
      }
      if NoRepeats(xs) {
        forall i, j | 0 <= i < j < n
          ensures front[i] != front[j]
        {
          assert xs[i] != xs[j];
        }
      }
    }
  }

  function KeysMade(assertions: seq<Assertion>): (keys: seq<string>)
    ensures |keys| == |assertions| && forall i :: 0 <= i < |assertions| ==> keys[i] == assertions[i].claimKey
  {
    seq(|assertions|, i requires 0 <= i < |assertions| => assertions[i].claimKey)
  }

  lemma DistinctIsNoRepeats(assertions: seq<Assertion>)
    ensures DistinctKeys(assertions) <==> NoRepeats(KeysMade(assertions))
  {
  }

  /** An item of evidence is admitted exactly with a name, a source and a checksum, times in the order
      of what they date, and as many named claims as assertions. */
  lemma EvidenceExactly(e: Evidence)
    ensures ValidEvidence(e) <==>
      && e.id != "" && e.source != "" && e.checksum != ""
      && e.eventTime <= e.availableTime && e.availableTime <= e.observedTime
      && "" !in KeysMade(e.assertions) && |set k | k in KeysMade(e.assertions)| == |e.assertions|
  {
    DistinctIsNoRepeats(e.assertions);
    NoRepeatsCounts(KeysMade(e.assertions));
    assert forall i :: 0 <= i < |e.assertions| ==> e.assertions[i].claimKey in KeysMade(e.assertions);
  }

  lemma IdsExactly(ids: seq<string>)
    ensures IdTuple(ids) <==> "" !in ids && |set x | x in ids| == |ids|
  {
    NoRepeatsCounts(ids);
    assert forall i :: 0 <= i < |ids| ==> ids[i] in ids;
  }

  lemma ConditionsExactly(cs: seq<Condition>)
    ensures ValidConditions(cs) <==>
      && |cs| > 0 && (forall c :: c in cs ==> c.id != "" && c.claimKey != "")
      && |set x | x in ConditionIds(cs)| == |cs|
  {
    IdsExactly(ConditionIds(cs));
    assert forall i :: 0 <= i < |cs| ==> cs[i] in cs;
    if forall c :: c in cs ==> c.id != "" && c.claimKey != "" {
      assert "" !in ConditionIds(cs);
    }
  }

  /** A hypothesis is admitted exactly with a name, a claim, a thesis, a prior in the unit interval and
      at least one condition, all of them named, on a claim, and no name twice. */
  lemma HypothesisExactly(h: Hypothesis)
    ensures ValidHypothesis(h) <==>
      && h.id != "" && h.claimKey != "" && h.thesis != "" && 0.0 <= h.prior && h.prior <= 1.0
      && |h.conditions| > 0 && (forall c :: c in h.conditions ==> c.id != "" && c.claimKey != "")
      && |set x | x in ConditionIds(h.conditions)| == |h.conditions|
  {
    ConditionsExactly(h.conditions);
  }

  /** A scenario is admitted exactly with a name, a thesis, a plausibility in the unit interval and the
      conditions of a hypothesis. */
  lemma ScenarioExactly(s: Scenario)
    ensures ValidScenario(s) <==>
      && s.id != "" && s.thesis != "" && 0.0 <= s.plausibility && s.plausibility <= 1.0
      && |s.conditions| > 0 && (forall c :: c in s.conditions ==> c.id != "" && c.claimKey != "")
      && |set x | x in ConditionIds(s.conditions)| == |s.conditions|
  {
    ConditionsExactly(s.conditions);
  }

  /** The last instant is the last microsecond of the year 9999. */
  lemma LastInstant()
    ensures MaxInstant + 1 == (9999 * 365 + 9999 / 4 - 9999 / 100 + 9999 / 400) * 24 * 60 * 60 * 1_000_000
  {
  }

  /** A belief is admitted exactly on a claim, with a score in the unit interval and named items of
      which none occurs twice, on one side or on both. */
  lemma BeliefExactly(b: Belief)
    ensures ValidBelief(b) <==>
      && b.claim != "" && 0.0 <= b.score && b.score <= 1.0
      && "" !in b.evidenceIds + b.counterEvidenceIds
      && |set x | x in b.evidenceIds + b.counterEvidenceIds| == |b.evidenceIds| + |b.counterEvidenceIds|
  {
    var pro, con := b.evidenceIds, b.counterEvidenceIds;
    IdsExactly(pro);
    IdsExactly(con);
    NoRepeatsCounts(pro + con);
    SplitNoRepeats(pro, con);
    assert "" in pro + con <==> "" in pro || "" in con;
  }

  lemma SplitNoRepeats(xs: seq<string>, ys: seq<string>)
    ensures NoRepeats(xs + ys) <==>
      NoRepeats(xs) && NoRepeats(ys) && forall i, j :: 0 <= i < |xs| && 0 <= j < |ys| ==> xs[i] != ys[j]
  {
    var zs := xs + ys;
    if NoRepeats(zs) {
      forall i, j | 0 <= i < |xs| && 0 <= j < |ys|
        ensures xs[i] != ys[j]
      {
        assert zs[i] != zs[|xs| + j];
      }
      forall i, j | 0 <= i < j < |xs|
        ensures xs[i] != xs[j]
      {
        assert zs[i] != zs[j];
      }
      forall i, j | 0 <= i < j < |ys|
        ensures ys[i] != ys[j]
      {
        assert zs[|xs| + i] != zs[|xs| + j];
      }
    }
  }
}
