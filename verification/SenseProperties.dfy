/** What SENSE promises about every input: nothing is lost or invented, the order of the input
    does not matter, its own output is a fixpoint, and the future cannot leak in. */
module SenseProperties {
  import opened Ordering
  import opened Contracts
  import opened CanonicalText
  import opened Sense

  function EvidenceOf(r: Rejected): Evidence {
    r.evidence
  }

  /** Everything a result represents. */
  function Represented(r: SenseResult): seq<Evidence> {
    r.usable + Map(r.rejected, EvidenceOf)
  }

  function CanonicalRejected(r: Rejected): Rejected {
    r.(evidence := Canonical(r.evidence))
  }

  /** The value the checksum of a result is taken of. */
  function CanonicalResult(r: SenseResult): SenseResult {
    r.(usable := Map(r.usable, Canonical), rejected := Map(r.rejected, CanonicalRejected))
  }

  // ---------------------------------------------------------------- who is usable

  lemma {:induction false} UsableCount(items: seq<Evidence>, all: seq<Evidence>, asOf: Instant, limit: int, e: Evidence)
    ensures multiset(UsableOf(items, all, asOf, limit))[e]
         == if JudgeAmong(e, all, asOf, limit) == Usable then multiset(items)[e] else 0
  {
    if items != [] {
      var front, last := items[..|items| - 1], items[|items| - 1];
      assert items == front + [last];
      UsableCount(front, all, asOf, limit, e);
    }
  }

  lemma {:induction false} RejectedCount(items: seq<Evidence>, all: seq<Evidence>, asOf: Instant, limit: int,
                                         r: Rejected)
    ensures multiset(RejectedOf(items, all, asOf, limit))[r]
         == if JudgeAmong(r.evidence, all, asOf, limit) == Failed(r.reason)
            then multiset(items)[r.evidence] else 0
  {
    if items != [] {
      var front, last := items[..|items| - 1], items[|items| - 1];
      assert items == front + [last];
      RejectedCount(front, all, asOf, limit, r);
    }
  }

  lemma MapAppend<T, U>(xs: seq<T>, x: T, f: T -> U)
    ensures Map(xs + [x], f) == Map(xs, f) + [f(x)]
  {
  }

  lemma {:induction false} SplitConserves(items: seq<Evidence>, all: seq<Evidence>, asOf: Instant, limit: int)
    ensures multiset(UsableOf(items, all, asOf, limit))
          + multiset(Map(RejectedOf(items, all, asOf, limit), EvidenceOf)) == multiset(items)
  {
    if items != [] {
      var front, last := items[..|items| - 1], items[|items| - 1];
      SplitConserves(front, all, asOf, limit);
      var us, rs := UsableOf(front, all, asOf, limit), RejectedOf(front, all, asOf, limit);
      var v := JudgeAmong(last, all, asOf, limit);
      assert multiset(items) == multiset(front) + multiset{last} by {
        assert items == front + [last];
      }
      if v == Usable {
        assert UsableOf(items, all, asOf, limit) == us + [last];
        assert RejectedOf(items, all, asOf, limit) == rs;
      } else {
        assert UsableOf(items, all, asOf, limit) == us;
        assert RejectedOf(items, all, asOf, limit) == rs + [Rejected(last, v.reason)];
        MapAppend(rs, Rejected(last, v.reason), EvidenceOf);
      }
    }
  }

  /** No item is lost, invented or repeated by the split. */
  lemma SenseConserves(items: seq<Evidence>, asOf: Instant, limit: int)
    ensures multiset(Represented(Admit(items, asOf, limit))) == multiset(items)
  {
    var us, rs := UsableOf(items, items, asOf, limit), RejectedOf(items, items, asOf, limit);
    SplitConserves(items, items, asOf, limit);
    SortBySorts(us, OrderKey);
    SortBySorts(rs, RejectKey);
    MapOfPermutation(SortBy(rs, RejectKey), rs, EvidenceOf);
  }

  lemma SortKeepsMembers<T>(xs: seq<T>, key: T -> Key, x: T)
    ensures x in SortBy(xs, key) <==> x in xs
  {
    SortBySorts(xs, key);
    assert x in SortBy(xs, key) <==> x in multiset(SortBy(xs, key));
  }

  lemma UsableMember(items: seq<Evidence>, asOf: Instant, limit: int, e: Evidence)
    ensures e in Admit(items, asOf, limit).usable <==> e in items && JudgeAmong(e, items, asOf, limit) == Usable
  {
    var us := UsableOf(items, items, asOf, limit);
    SortKeepsMembers(us, OrderKey, e);
    UsableCount(items, items, asOf, limit, e);
    assert e in us <==> multiset(us)[e] > 0;
    assert e in items <==> multiset(items)[e] > 0;
  }

  lemma RejectedMember(items: seq<Evidence>, asOf: Instant, limit: int, r: Rejected)
    ensures r in Admit(items, asOf, limit).rejected <==>
              r.evidence in items && JudgeAmong(r.evidence, items, asOf, limit) == Failed(r.reason)
  {
    var rs := RejectedOf(items, items, asOf, limit);
    SortKeepsMembers(rs, RejectKey, r);
    RejectedCount(items, items, asOf, limit, r);
    assert r in rs <==> multiset(rs)[r] > 0;
    assert r.evidence in items <==> multiset(items)[r.evidence] > 0;
  }

  /** Knowable at `asOf`, fresh, and the only item under its id. */
  predicate Admissible(e: Evidence, items: seq<Evidence>, asOf: Instant, limit: int) {
    && e in items && Occurrences(items, e.id) <= 1
    && e.eventTime <= asOf && e.availableTime <= asOf && e.observedTime <= asOf
    && asOf - e.observedTime <= limit
  }

  /** Exactly the admissible items are usable; each rejection carries the first reason that
      applies. */
  lemma SenseAdmits(items: seq<Evidence>, asOf: Instant, limit: int)
    ensures var r := Admit(items, asOf, limit);
      && (forall e :: e in r.usable <==> Admissible(e, items, asOf, limit))
      && (forall x :: x in r.rejected <==>
            x.evidence in items && JudgeAmong(x.evidence, items, asOf, limit) == Failed(x.reason))
  {
    var r := Admit(items, asOf, limit);
    forall e
      ensures e in r.usable <==> Admissible(e, items, asOf, limit)
    {
      UsableMember(items, asOf, limit, e);
    }
    forall x
      ensures x in r.rejected <==>
                x.evidence in items && JudgeAmong(x.evidence, items, asOf, limit) == Failed(x.reason)
    {
      RejectedMember(items, asOf, limit, x);
    }
  }

  /** At which point of its life `as_of` finds an item with ordered timestamps. */
  predicate ReasonFits(e: Evidence, asOf: Instant, limit: int, reason: Failure) {
    match reason
    case DuplicateEvidenceId => false
    case EventTimeAfterAsOf => asOf < e.eventTime
    case AvailableTimeAfterAsOf => e.eventTime <= asOf < e.availableTime
    case ObservedTimeAfterAsOf => e.availableTime <= asOf < e.observedTime
    case StaleBeyondFreshnessLimit => e.observedTime <= asOf && e.observedTime + limit < asOf
  }

  lemma JudgedByInterval(e: Evidence, asOf: Instant, limit: int, duplicated: bool, reason: Failure)
    requires e.eventTime <= e.availableTime <= e.observedTime
    ensures Judge(e, asOf, limit, duplicated) == Failed(reason) <==>
              if duplicated then reason == DuplicateEvidenceId else ReasonFits(e, asOf, limit, reason)
  {
  }

  /** For an item with ordered timestamps the reasons are exclusive: each says at which of its
      instants the item stops being knowable, or that only its age or its id excludes it. */
  lemma ReasonsPartition(items: seq<Evidence>, asOf: Instant, limit: int, x: Rejected)
    requires ValidEvidence(x.evidence) && x.evidence in items
    ensures x in Admit(items, asOf, limit).rejected <==>
              if Occurrences(items, x.evidence.id) > 1 then x.reason == DuplicateEvidenceId
              else ReasonFits(x.evidence, asOf, limit, x.reason)
  {
    RejectedMember(items, asOf, limit, x);
    JudgedByInterval(x.evidence, asOf, limit, Occurrences(items, x.evidence.id) > 1, x.reason);
  }

  lemma RepeatedIdCounts(items: seq<Evidence>, i: nat, j: nat)
    requires i < j < |items| && items[i].id == items[j].id
    ensures Occurrences(items, items[i].id) >= 2
  {
    TwiceInMultiset(Map(items, IdOf), i, j);
  }

  lemma MapConcat<T, U>(xs: seq<T>, ys: seq<T>, f: T -> U)
    ensures Map(xs + ys, f) == Map(xs, f) + Map(ys, f)
  {
  }

  lemma UsableIdsOccur(items: seq<Evidence>, asOf: Instant, limit: int, id: string)
    ensures Occurrences(Admit(items, asOf, limit).usable, id) <= Occurrences(items, id)
  {
    var r := Admit(items, asOf, limit);
    var us, rs := r.usable, Map(r.rejected, EvidenceOf);
    SenseConserves(items, asOf, limit);
    MapOfPermutation(us + rs, items, IdOf);
    MapConcat(us, rs, IdOf);
  }

  /** Usable ids are unique. */
  lemma UsableIdsUnique(items: seq<Evidence>, asOf: Instant, limit: int)
    ensures NoRepeats(Map(Admit(items, asOf, limit).usable, IdOf))
  {
    var us := Admit(items, asOf, limit).usable;
    forall i, j | 0 <= i < j < |us|
      ensures us[i].id != us[j].id
    {
      if us[i].id == us[j].id {
        RepeatedIdCounts(us, i, j);
        UsableIdsOccur(items, asOf, limit, us[i].id);
        UsableMember(items, asOf, limit, us[i]);
        assert false;
      }
    }
  }

  // ---------------------------------------------------------------- the order of the input

  lemma JudgeForgetsOrder(xs: seq<Evidence>, ys: seq<Evidence>, e: Evidence, asOf: Instant, limit: int)
    requires multiset(xs) == multiset(ys)
    ensures JudgeAmong(e, xs, asOf, limit) == JudgeAmong(e, ys, asOf, limit)
  {
    MapOfPermutation(xs, ys, IdOf);
  }

  lemma SplitForgetsOrder(xs: seq<Evidence>, ys: seq<Evidence>, asOf: Instant, limit: int)
    requires multiset(xs) == multiset(ys)
    ensures multiset(UsableOf(xs, xs, asOf, limit)) == multiset(UsableOf(ys, ys, asOf, limit))
    ensures multiset(RejectedOf(xs, xs, asOf, limit)) == multiset(RejectedOf(ys, ys, asOf, limit))
  {
    forall e
      ensures multiset(UsableOf(xs, xs, asOf, limit))[e] == multiset(UsableOf(ys, ys, asOf, limit))[e]
    {
      UsableCount(xs, xs, asOf, limit, e);
      UsableCount(ys, ys, asOf, limit, e);
      JudgeForgetsOrder(xs, ys, e, asOf, limit);
    }
    forall r
      ensures multiset(RejectedOf(xs, xs, asOf, limit))[r] == multiset(RejectedOf(ys, ys, asOf, limit))[r]
    {
      RejectedCount(xs, xs, asOf, limit, r);
      RejectedCount(ys, ys, asOf, limit, r);
      JudgeForgetsOrder(xs, ys, r.evidence, asOf, limit);
    }
  }

  lemma EqualKeysCanonical(xs: seq<Evidence>, ys: seq<Evidence>)
    requires Map(xs, OrderKey) == Map(ys, OrderKey)
    ensures Map(xs, Canonical) == Map(ys, Canonical)
  {
    assert |xs| == |ys|;
    forall i | 0 <= i < |xs|
      ensures Canonical(xs[i]) == Canonical(ys[i])
    {
      assert Map(xs, OrderKey)[i] == Map(ys, OrderKey)[i];
      TiesAreCanonicallyEqual(xs[i], ys[i]);
    }
  }

  lemma FailureTextInjective(a: Failure, b: Failure)
    requires FailureText(a) == FailureText(b)
    ensures a == b
  {
  }

  lemma EqualRejectKeysCanonical(xs: seq<Rejected>, ys: seq<Rejected>)
    requires Map(xs, RejectKey) == Map(ys, RejectKey)
    ensures Map(xs, CanonicalRejected) == Map(ys, CanonicalRejected)
  {
    assert |xs| == |ys|;
    forall i | 0 <= i < |xs|
      ensures CanonicalRejected(xs[i]) == CanonicalRejected(ys[i])
    {
      assert Map(xs, RejectKey)[i] == Map(ys, RejectKey)[i];
      var x, y := Codes(FailureText(xs[i].reason)), Codes(FailureText(ys[i].reason));
      OrderKeyDecodes(xs[i].evidence, x, ys[i].evidence, y);
      CodesInjective(FailureText(xs[i].reason), FailureText(ys[i].reason));
      FailureTextInjective(xs[i].reason, ys[i].reason);
    }
  }

  /** What an item asserts does not depend on how its assertions are written down. */
  lemma CanonicalMakes(a: Evidence, b: Evidence)
    requires Canonical(a) == Canonical(b)
    ensures a.id == b.id && multiset(a.assertions) == multiset(b.assertions)
    ensures a.quality == b.quality && a.observedTime == b.observedTime
  {
    SortBySorts(a.assertions, AssertionKey);
    SortBySorts(b.assertions, AssertionKey);
  }

  lemma {:induction false} CanonicalIdsOn(xs: seq<Evidence>, ys: seq<Evidence>, key: string, stance: Stance)
    requires Map(xs, Canonical) == Map(ys, Canonical)
    ensures IdsOn(xs, key, stance) == IdsOn(ys, key, stance)
  {
    assert |xs| == |Map(xs, Canonical)| == |Map(ys, Canonical)| == |ys|;
    if xs != [] {
      var n := |xs| - 1;
      assert Map(xs, Canonical)[n] == Map(ys, Canonical)[n];
      CanonicalMakes(xs[n], ys[n]);
      assert Map(xs[..n], Canonical) == Map(xs, Canonical)[..n];
      assert Map(ys[..n], Canonical) == Map(ys, Canonical)[..n];
      CanonicalIdsOn(xs[..n], ys[..n], key, stance);
    }
  }

  lemma CanonicalClaims(xs: seq<Evidence>, ys: seq<Evidence>)
    requires Map(xs, Canonical) == Map(ys, Canonical)
    ensures Claims(xs) <= Claims(ys)
  {
    forall k | k in Claims(xs)
      ensures k in Claims(ys)
    {
      var e, a :| e in xs && a in e.assertions && a.claimKey == k;
      var i :| 0 <= i < |xs| && xs[i] == e;
      assert Map(xs, Canonical)[i] == Map(ys, Canonical)[i];
      CanonicalMakes(xs[i], ys[i]);
      assert a in multiset(ys[i].assertions);
      assert ys[i] in ys && a in ys[i].assertions;
    }
  }

  lemma {:induction false} CanonicalGroups(xs: seq<Evidence>, ys: seq<Evidence>, keys: seq<string>)
    requires Map(xs, Canonical) == Map(ys, Canonical)
    ensures GroupsOn(xs, keys) == GroupsOn(ys, keys)
  {
    if keys != [] {
      var last := keys[|keys| - 1];
      CanonicalGroups(xs, ys, keys[..|keys| - 1]);
      CanonicalIdsOn(xs, ys, last, Supports);
      CanonicalIdsOn(xs, ys, last, Refutes);
    }
  }

  lemma CanonicalContradictions(xs: seq<Evidence>, ys: seq<Evidence>)
    requires Map(xs, Canonical) == Map(ys, Canonical)
    ensures Contradictions(xs) == Contradictions(ys)
  {
    assert Claims(xs) == Claims(ys) by {
      CanonicalClaims(xs, ys);
      CanonicalClaims(ys, xs);
    }
    var keys := SortedSet(Claims(xs));
    assert GroupsOn(xs, keys) == GroupsOn(ys, keys) by {
      CanonicalGroups(xs, ys, keys);
    }
  }

  /** Any permutation of the input gives the same canonical result. */
  lemma SenseForgetsOrder(xs: seq<Evidence>, ys: seq<Evidence>, asOf: Instant, limit: int)
    requires multiset(xs) == multiset(ys)
    ensures CanonicalResult(Admit(xs, asOf, limit)) == CanonicalResult(Admit(ys, asOf, limit))
  {
    SplitForgetsOrder(xs, ys, asOf, limit);
    SortForgetsOrder(UsableOf(xs, xs, asOf, limit), UsableOf(ys, ys, asOf, limit), OrderKey);
    SortForgetsOrder(RejectedOf(xs, xs, asOf, limit), RejectedOf(ys, ys, asOf, limit), RejectKey);
    EqualKeysCanonical(Admit(xs, asOf, limit).usable, Admit(ys, asOf, limit).usable);
    EqualRejectKeysCanonical(Admit(xs, asOf, limit).rejected, Admit(ys, asOf, limit).rejected);
    CanonicalContradictions(Admit(xs, asOf, limit).usable, Admit(ys, asOf, limit).usable);
  }

  /** Reading a genuine result back in reproduces it. */
  lemma SenseIsFixpoint(items: seq<Evidence>, asOf: Instant, limit: int)
    ensures var r := Admit(items, asOf, limit);
            CanonicalResult(Admit(Represented(r), asOf, limit)) == CanonicalResult(r)
  {
    SenseConserves(items, asOf, limit);
    SenseForgetsOrder(Represented(Admit(items, asOf, limit)), items, asOf, limit);
  }

  // ---------------------------------------------------------------- contradictions are complete

  ghost predicate Takes(items: seq<Evidence>, id: string, key: string, stance: Stance) {
    exists e :: e in items && e.id == id && Assertion(key, stance) in e.assertions
  }

  lemma {:induction false} IdsOnMembers(items: seq<Evidence>, key: string, stance: Stance)
    ensures forall id :: id in IdsOn(items, key, stance) <==> Takes(items, id, key, stance)
  {
    if items != [] {
      var front, last := items[..|items| - 1], items[|items| - 1];
      assert items == front + [last];
      IdsOnMembers(front, key, stance);
      assert Makes(last, key, stance) > 0 <==> Assertion(key, stance) in last.assertions;
      forall id
        ensures id in IdsOn(items, key, stance) <==> Takes(items, id, key, stance)
      {
        assert id in Repeat(last.id, Makes(last, key, stance)) <==>
                 id == last.id && Makes(last, key, stance) > 0 by {
          if Makes(last, key, stance) > 0 {
            assert Repeat(last.id, Makes(last, key, stance))[0] == last.id;
          }
        }
        assert Takes(items, id, key, stance) <==>
                 Takes(front, id, key, stance) || (last.id == id && Assertion(key, stance) in last.assertions);
      }
    }
  }

  lemma {:induction false} GroupsOnMembers(items: seq<Evidence>, keys: seq<string>, g: Group)
    ensures g in GroupsOn(items, keys) <==>
              g.claimKey in keys && Contested(items, g.claimKey) && g == GroupOn(items, g.claimKey)
  {
    if keys != [] {
      var front, last := keys[..|keys| - 1], keys[|keys| - 1];
      assert keys == front + [last];
      GroupsOnMembers(items, front, g);
    }
  }

  /** A claim key is reported exactly when usable items take both stances on it, and its group
      names every id on each side and no other. */
  lemma ContradictionsComplete(items: seq<Evidence>, key: string)
    ensures (exists g :: g in Contradictions(items) && g.claimKey == key) <==>
              (exists a :: Takes(items, a, key, Supports)) && (exists b :: Takes(items, b, key, Refutes))
    ensures forall g :: g in Contradictions(items) && g.claimKey == key ==>
              && (forall id :: id in g.supporting <==> Takes(items, id, key, Supports))
              && (forall id :: id in g.refuting <==> Takes(items, id, key, Refutes))
  {
    var keys := SortedSet(Claims(items));
    IdsOnMembers(items, key, Supports);
    IdsOnMembers(items, key, Refutes);
    var mine := GroupOn(items, key);
    GroupsOnMembers(items, keys, mine);
    forall id
      ensures id in mine.supporting <==> Takes(items, id, key, Supports)
      ensures id in mine.refuting <==> Takes(items, id, key, Refutes)
    {
      SortKeepsMembers(IdsOn(items, key, Supports), TextKey, id);
      SortKeepsMembers(IdsOn(items, key, Refutes), TextKey, id);
    }
    forall g | g in Contradictions(items) && g.claimKey == key
      ensures g == mine
    {
      GroupsOnMembers(items, keys, g);
    }
    if exists a :: Takes(items, a, key, Supports) {
      var a :| Takes(items, a, key, Supports);
      var e :| e in items && e.id == a && Assertion(key, Supports) in e.assertions;
      assert key in Claims(items);
    }
    assert Contested(items, key) <==>
             (exists a :: Takes(items, a, key, Supports)) && (exists b :: Takes(items, b, key, Refutes)) by {
      NonEmptyHasMember(IdsOn(items, key, Supports));
      NonEmptyHasMember(IdsOn(items, key, Refutes));
    }
  }

  lemma NonEmptyHasMember<T>(xs: seq<T>)
    ensures xs != [] <==> exists x :: x in xs
  {
    if xs != [] {
      assert xs[0] in xs;
    }
  }

  // ---------------------------------------------------------------- the future, and freshness

  lemma {:induction false} UsableAppend(xs: seq<Evidence>, ys: seq<Evidence>, all: seq<Evidence>, asOf: Instant,
                                        limit: int)
    ensures UsableOf(xs + ys, all, asOf, limit) == UsableOf(xs, all, asOf, limit) + UsableOf(ys, all, asOf, limit)
  {
    if ys == [] {
      assert xs + ys == xs;
    } else {
      var n := |xs + ys| - 1;
      assert (xs + ys)[..n] == xs + ys[..|ys| - 1] && (xs + ys)[n] == ys[|ys| - 1];
      UsableAppend(xs, ys[..|ys| - 1], all, asOf, limit);
    }
  }

  lemma {:induction false} UsableCongruent(items: seq<Evidence>, all: seq<Evidence>, all': seq<Evidence>,
                                           asOf: Instant, limit: int)
    requires forall e :: e in items ==> Occurrences(all, e.id) == Occurrences(all', e.id)
    ensures UsableOf(items, all, asOf, limit) == UsableOf(items, all', asOf, limit)
  {
    if items != [] {
      assert items == items[..|items| - 1] + [items[|items| - 1]];
      UsableCongruent(items[..|items| - 1], all, all', asOf, limit);
    }
  }

  lemma FreshIdCounts(before: seq<Evidence>, e: Evidence, after: seq<Evidence>, id: string)
    requires id != e.id
    ensures Occurrences(before + [e] + after, id) == Occurrences(before + after, id)
  {
    assert Map(before + [e] + after, IdOf) == Map(before, IdOf) + [e.id] + Map(after, IdOf);
    assert Map(before + after, IdOf) == Map(before, IdOf) + Map(after, IdOf);
  }

  lemma FutureUnusableAlone(e: Evidence, all: seq<Evidence>, asOf: Instant, limit: int)
    requires e.observedTime > asOf
    ensures UsableOf([e], all, asOf, limit) == []
  {
  }

  lemma InsertFuture(before: seq<Evidence>, e: Evidence, after: seq<Evidence>, all: seq<Evidence>, asOf: Instant,
                     limit: int)
    requires e.observedTime > asOf
    ensures UsableOf(before + [e] + after, all, asOf, limit) == UsableOf(before + after, all, asOf, limit)
  {
    UsableAppend(before, after, all, asOf, limit);
    UsableAppend(before + [e], after, all, asOf, limit);
    UsableAppend(before, [e], all, asOf, limit);
    FutureUnusableAlone(e, all, asOf, limit);
  }

  lemma FutureEvidenceUnusable(before: seq<Evidence>, e: Evidence, after: seq<Evidence>, asOf: Instant, limit: int)
    requires e.observedTime > asOf
    requires forall x :: x in before + after ==> x.id != e.id
    ensures var all, all' := before + after, before + [e] + after;
            UsableOf(all', all', asOf, limit) == UsableOf(all, all, asOf, limit)
  {
    var all, all' := before + after, before + [e] + after;
    InsertFuture(before, e, after, all', asOf, limit);
    forall x | x in all
      ensures Occurrences(all, x.id) == Occurrences(all', x.id)
    {
      FreshIdCounts(before, e, after, x.id);
    }
    UsableCongruent(all, all, all', asOf, limit);
  }

  /** Evidence observed after `as_of`, under an id of its own, changes neither what is usable nor
      which contradictions are reported, wherever it stands in the input. */
  lemma FutureEvidenceChangesNothing(before: seq<Evidence>, e: Evidence, after: seq<Evidence>, asOf: Instant,
                                     limit: int)
    requires e.observedTime > asOf
    requires forall x :: x in before + after ==> x.id != e.id
    ensures var r, r' := Admit(before + after, asOf, limit), Admit(before + [e] + after, asOf, limit);
            r'.usable == r.usable && r'.contradictions == r.contradictions
  {
    FutureEvidenceUnusable(before, e, after, asOf, limit);
  }

  lemma LargerLimitCounts(items: seq<Evidence>, asOf: Instant, small: int, large: int, e: Evidence)
    requires small <= large
    ensures multiset(UsableOf(items, items, asOf, small))[e] <= multiset(UsableOf(items, items, asOf, large))[e]
  {
    UsableCount(items, items, asOf, small, e);
    UsableCount(items, items, asOf, large, e);
  }

  lemma GainedWasStale(items: seq<Evidence>, asOf: Instant, small: int, large: int, e: Evidence)
    requires small <= large
    requires e in Admit(items, asOf, large).usable && e !in Admit(items, asOf, small).usable
    ensures Rejected(e, StaleBeyondFreshnessLimit) in Admit(items, asOf, small).rejected
  {
    UsableMember(items, asOf, small, e);
    UsableMember(items, asOf, large, e);
    RejectedMember(items, asOf, small, Rejected(e, StaleBeyondFreshnessLimit));
  }

  /** A larger freshness limit only enlarges the usable set, and whatever it gains had been
      rejected as stale. */
  lemma LargerLimitOnlyGains(items: seq<Evidence>, asOf: Instant, small: int, large: int)
    requires small <= large
    ensures var r, r' := Admit(items, asOf, small), Admit(items, asOf, large);
      && multiset(r.usable) <= multiset(r'.usable)
      && (forall e :: e in r'.usable && e !in r.usable ==>
            Rejected(e, StaleBeyondFreshnessLimit) in r.rejected)
  {
    var us, us' := UsableOf(items, items, asOf, small), UsableOf(items, items, asOf, large);
    SortBySorts(us, OrderKey);
    SortBySorts(us', OrderKey);
    forall e
      ensures multiset(us)[e] <= multiset(us')[e]
    {
      LargerLimitCounts(items, asOf, small, large, e);
    }
    var r, r' := Admit(items, asOf, small), Admit(items, asOf, large);
    forall e | e in r'.usable && e !in r.usable
      ensures Rejected(e, StaleBeyondFreshnessLimit) in r.rejected
    {
      GainedWasStale(items, asOf, small, large, e);
    }
  }
}
