/** The admission check of THINK accepts exactly what SENSE can produce. */
module BoundaryProperties {
  import opened Ordering
  import opened Contracts
  import opened CanonicalText
  import opened Sense
  import opened SenseProperties
  import opened Think

  // ---------------------------------------------------------------- SENSE on canonical items

  lemma CanonicalIdempotent(e: Evidence)
    ensures Canonical(Canonical(e)) == Canonical(e)
  {
    SortBySorts(e.assertions, AssertionKey);
    SortedIsFixpoint(SortBy(e.assertions, AssertionKey), AssertionKey);
  }

  function CanonicalAll(xs: seq<Evidence>): (ys: seq<Evidence>)
    ensures |ys| == |xs|
  {
    Map(xs, Canonical)
  }

  lemma CanonicalAllIdempotent(xs: seq<Evidence>)
    ensures CanonicalAll(CanonicalAll(xs)) == CanonicalAll(xs)
  {
    forall i | 0 <= i < |xs|
      ensures CanonicalAll(CanonicalAll(xs))[i] == CanonicalAll(xs)[i]
    {
      CanonicalIdempotent(xs[i]);
    }
  }

  lemma {:induction false} UsableOfCanonical(items: seq<Evidence>, all: seq<Evidence>, asOf: Instant, limit: int)
    ensures UsableOf(CanonicalAll(items), CanonicalAll(all), asOf, limit)
         == CanonicalAll(UsableOf(items, all, asOf, limit))
  {
    if items != [] {
      var n := |items| - 1;
      UsableOfCanonical(items[..n], all, asOf, limit);
      assert CanonicalAll(items)[..n] == CanonicalAll(items[..n]);
      JudgeCanonical(items[n], all, asOf, limit);
      var us := UsableOf(items[..n], all, asOf, limit);
      MapAppend(us, items[n], Canonical);
    }
  }

  lemma JudgeCanonical(e: Evidence, all: seq<Evidence>, asOf: Instant, limit: int)
    ensures JudgeAmong(Canonical(e), CanonicalAll(all), asOf, limit) == JudgeAmong(e, all, asOf, limit)
  {
    assert Map(CanonicalAll(all), IdOf) == Map(all, IdOf);
  }

  lemma {:induction false} RejectedOfCanonical(items: seq<Evidence>, all: seq<Evidence>, asOf: Instant, limit: int)
    ensures RejectedOf(CanonicalAll(items), CanonicalAll(all), asOf, limit)
         == Map(RejectedOf(items, all, asOf, limit), CanonicalRejected)
  {
    if items != [] {
      var n := |items| - 1;
      RejectedOfCanonical(items[..n], all, asOf, limit);
      assert CanonicalAll(items)[..n] == CanonicalAll(items[..n]);
      JudgeCanonical(items[n], all, asOf, limit);
      var v := JudgeAmong(items[n], all, asOf, limit);
      if v.Failed? {
        MapAppend(RejectedOf(items[..n], all, asOf, limit), Rejected(items[n], v.reason), CanonicalRejected);
      }
    }
  }

  lemma {:induction false} InsertCommutes<T>(x: T, xs: seq<T>, f: T -> T, key: T -> Key)
    requires key(f(x)) == key(x) && forall i :: 0 <= i < |xs| ==> key(f(xs[i])) == key(xs[i])
    ensures Insert(f(x), Map(xs, f), key) == Map(Insert(x, xs, key), f)
  {
    if xs == [] || Le(key(x), key(xs[0])) {
      assert Map([x] + xs, f) == [f(x)] + Map(xs, f);
    } else {
      InsertCommutes(x, xs[1..], f, key);
      assert Map(xs, f)[1..] == Map(xs[1..], f);
      assert Map([xs[0]] + Insert(x, xs[1..], key), f) == [f(xs[0])] + Map(Insert(x, xs[1..], key), f);
    }
  }

  /** A change that leaves the keys alone can be made before or after sorting. */
  lemma {:induction false} SortCommutes<T>(xs: seq<T>, f: T -> T, key: T -> Key)
    requires forall i :: 0 <= i < |xs| ==> key(f(xs[i])) == key(xs[i])
    ensures SortBy(Map(xs, f), key) == Map(SortBy(xs, key), f)
  {
    if xs != [] {
      SortCommutes(xs[1..], f, key);
      assert Map(xs, f)[1..] == Map(xs[1..], f);
      var rest := SortBy(xs[1..], key);
      SortBySorts(xs[1..], key);
      forall i | 0 <= i < |rest|
        ensures key(f(rest[i])) == key(rest[i])
      {
        assert rest[i] in multiset(rest);
        var k :| 0 <= k < |xs[1..]| && xs[1..][k] == rest[i];
        assert xs[k + 1] == rest[i];
      }
      InsertCommutes(xs[0], rest, f, key);
    }
  }

  lemma OrderKeyCanonical(e: Evidence)
    ensures OrderKey(Canonical(e)) == OrderKey(e)
  {
    CanonicalIdempotent(e);
    TiesAreCanonicallyEqual(Canonical(e), e);
  }

  lemma RejectKeyCanonical(r: Rejected)
    ensures RejectKey(CanonicalRejected(r)) == RejectKey(r)
  {
    CanonicalIdempotent(r.evidence);
  }

  /** Writing the assertions of the input in another order changes nothing canonical. */
  lemma SenseOfCanonical(items: seq<Evidence>, asOf: Instant, limit: int)
    ensures CanonicalResult(Admit(CanonicalAll(items), asOf, limit)) == CanonicalResult(Admit(items, asOf, limit))
  {
    var us, rs := UsableOf(items, items, asOf, limit), RejectedOf(items, items, asOf, limit);
    UsableOfCanonical(items, items, asOf, limit);
    RejectedOfCanonical(items, items, asOf, limit);
    forall i | 0 <= i < |us|
      ensures OrderKey(Canonical(us[i])) == OrderKey(us[i])
    {
      OrderKeyCanonical(us[i]);
    }
    SortCommutes(us, Canonical, OrderKey);
    forall i | 0 <= i < |rs|
      ensures RejectKey(CanonicalRejected(rs[i])) == RejectKey(rs[i])
    {
      RejectKeyCanonical(rs[i]);
    }
    SortCommutes(rs, CanonicalRejected, RejectKey);
    var usable, rejected := SortBy(us, OrderKey), SortBy(rs, RejectKey);
    CanonicalAllIdempotent(usable);
    CanonicalContradictions(CanonicalAll(usable), usable);
    CanonicalRejectedIdempotent(rejected);
  }

  lemma CanonicalRejectedIdempotent(rs: seq<Rejected>)
    ensures Map(Map(rs, CanonicalRejected), CanonicalRejected) == Map(rs, CanonicalRejected)
  {
    forall i | 0 <= i < |rs|
      ensures CanonicalRejected(CanonicalRejected(rs[i])) == CanonicalRejected(rs[i])
    {
      CanonicalIdempotent(rs[i].evidence);
    }
  }

  /** Canonically, SENSE sees only the multiset of canonical items. */
  lemma SenseSeesCanonicalItems(xs: seq<Evidence>, ys: seq<Evidence>, asOf: Instant, limit: int)
    requires multiset(CanonicalAll(xs)) == multiset(CanonicalAll(ys))
    ensures CanonicalResult(Admit(xs, asOf, limit)) == CanonicalResult(Admit(ys, asOf, limit))
  {
    SenseOfCanonical(xs, asOf, limit);
    SenseOfCanonical(ys, asOf, limit);
    SenseForgetsOrder(CanonicalAll(xs), CanonicalAll(ys), asOf, limit);
  }

  // ---------------------------------------------------------------- validity is canonical

  function KeyOf(a: Assertion): string {
    a.claimKey
  }

  lemma NoRepeatsPermuted<T>(xs: seq<T>, ys: seq<T>)
    requires multiset(xs) == multiset(ys) && NoRepeats(xs)
    ensures NoRepeats(ys)
  {
    forall i, j | 0 <= i < j < |ys|
      ensures ys[i] != ys[j]
    {
      if ys[i] == ys[j] {
        TwiceInMultiset(ys, i, j);
        AtMostOnce(xs, ys[i]);
        assert false;
      }
    }
  }

  lemma {:induction false} AtMostOnce<T>(xs: seq<T>, x: T)
    requires NoRepeats(xs)
    ensures multiset(xs)[x] <= 1
  {
    if xs != [] {
      assert xs == [xs[0]] + xs[1..];
      AtMostOnce(xs[1..], x);
      assert forall k :: 0 <= k < |xs[1..]| ==> xs[1..][k] == xs[k + 1] != xs[0];
    }
  }

  lemma DistinctKeysPermuted(xs: seq<Assertion>, ys: seq<Assertion>)
    requires multiset(xs) == multiset(ys) && DistinctKeys(xs)
    ensures DistinctKeys(ys)
  {
    MapOfPermutation(xs, ys, KeyOf);
    NoRepeatsPermuted(Map(xs, KeyOf), Map(ys, KeyOf));
    forall i, j | 0 <= i < j < |ys|
      ensures ys[i].claimKey != ys[j].claimKey
    {
      assert Map(ys, KeyOf)[i] != Map(ys, KeyOf)[j];
    }
  }

  lemma ValidityIsCanonical(a: Evidence, b: Evidence)
    requires Canonical(a) == Canonical(b) && ValidEvidence(a)
    ensures ValidEvidence(b)
  {
    CanonicalMakes(a, b);
    DistinctKeysPermuted(a.assertions, b.assertions);
    forall i | 0 <= i < |b.assertions|
      ensures Identifier(b.assertions[i].claimKey)
    {
      assert b.assertions[i] in multiset(a.assertions);
      var k :| 0 <= k < |a.assertions| && a.assertions[k] == b.assertions[i];
    }
  }

  lemma AllValidPermuted(xs: seq<Evidence>, ys: seq<Evidence>)
    requires multiset(xs) == multiset(ys) && AllValid(xs)
    ensures AllValid(ys)
  {
    forall i | 0 <= i < |ys|
      ensures ValidEvidence(ys[i])
    {
      assert ys[i] in multiset(xs);
      var k :| 0 <= k < |xs| && xs[k] == ys[i];
    }
  }

  lemma AllValidCanonical(xs: seq<Evidence>, ys: seq<Evidence>)
    requires CanonicalAll(xs) == CanonicalAll(ys) && AllValid(xs)
    ensures AllValid(ys)
  {
    assert |xs| == |ys|;
    forall i | 0 <= i < |ys|
      ensures ValidEvidence(ys[i])
    {
      assert CanonicalAll(xs)[i] == CanonicalAll(ys)[i];
      ValidityIsCanonical(xs[i], ys[i]);
    }
  }

  lemma RepresentedCanonical(r: SenseResult, s: SenseResult)
    requires CanonicalResult(r) == CanonicalResult(s)
    ensures CanonicalAll(Represented(r)) == CanonicalAll(Represented(s))
  {
  }

  // ---------------------------------------------------------------- genuine groups are valid

  lemma MakesAtMostOnce(e: Evidence, key: string, stance: Stance)
    requires DistinctKeys(e.assertions)
    ensures Makes(e, key, stance) <= 1
  {
    AtMostOnce(e.assertions, Assertion(key, stance));
  }

  lemma {:induction false} IdsOnDistinct(items: seq<Evidence>, key: string, stance: Stance)
    requires AllValid(items) && NoRepeats(Map(items, IdOf))
    ensures IdTuple(IdsOn(items, key, stance))
    ensures forall k :: 0 <= k < |IdsOn(items, key, stance)| ==> IdsOn(items, key, stance)[k] in Map(items, IdOf)
  {
    if items != [] {
      var n := |items| - 1;
      var front, last := items[..n], items[n];
      assert Map(items, IdOf) == Map(front, IdOf) + [last.id];
      IdsOnDistinct(front, key, stance);
      MakesAtMostOnce(last, key, stance);
      assert last.id !in Map(front, IdOf);
    }
  }

  lemma IdTuplePermuted(xs: seq<string>, ys: seq<string>)
    requires multiset(xs) == multiset(ys) && IdTuple(xs)
    ensures IdTuple(ys)
  {
    NoRepeatsPermuted(xs, ys);
    forall i | 0 <= i < |ys|
      ensures Identifier(ys[i])
    {
      assert ys[i] in multiset(xs);
      var k :| 0 <= k < |xs| && xs[k] == ys[i];
    }
  }

  lemma GroupOnValid(items: seq<Evidence>, key: string)
    requires AllValid(items) && NoRepeats(Map(items, IdOf)) && Identifier(key)
    ensures ValidGroup(GroupOn(items, key))
  {
    IdsOnDistinct(items, key, Supports);
    IdsOnDistinct(items, key, Refutes);
    SortBySorts(IdsOn(items, key, Supports), TextKey);
    SortBySorts(IdsOn(items, key, Refutes), TextKey);
    IdTuplePermuted(IdsOn(items, key, Supports), GroupOn(items, key).supporting);
    IdTuplePermuted(IdsOn(items, key, Refutes), GroupOn(items, key).refuting);
  }

  lemma ContradictionsValid(items: seq<Evidence>)
    requires AllValid(items) && NoRepeats(Map(items, IdOf))
    ensures forall i :: 0 <= i < |Contradictions(items)| ==> ValidGroup(Contradictions(items)[i])
  {
    var groups, keys := Contradictions(items), SortedSet(Claims(items));
    forall i | 0 <= i < |groups|
      ensures ValidGroup(groups[i])
    {
      var key := groups[i].claimKey;
      GroupsOnMembers(items, keys, groups[i]);
      assert key in Claims(items);
      var e, a :| e in items && a in e.assertions && a.claimKey == key;
      assert ValidEvidence(e) && Identifier(a.claimKey);
      GroupOnValid(items, key);
    }
  }

  // ---------------------------------------------------------------- the boundary theorem

  /** A value SENSE produces, up to canonical equality. */
  ghost predicate Genuine(r: SenseResult) {
    exists items :: AllValid(items) && IsAdmissionOf(r, items)
  }

  ghost predicate IsAdmissionOf(r: SenseResult, items: seq<Evidence>) {
    CanonicalResult(Admit(items, r.asOf, r.limit)) == CanonicalResult(r)
  }

  lemma GenuineIsWellFormed(r: SenseResult, items: seq<Evidence>)
    requires r.limit >= 0 && AllValid(items) && IsAdmissionOf(r, items)
    ensures WellFormedSense(r)
  {
    var s := Admit(items, r.asOf, r.limit);
    SenseConserves(items, r.asOf, r.limit);
    AllValidPermuted(items, Represented(s));
    RepresentedCanonical(s, r);
    AllValidCanonical(Represented(s), Represented(r));
    UsableIdsUnique(items, r.asOf, r.limit);
    AllValidPrefix(s);
    ContradictionsValid(s.usable);
    assert s.contradictions == r.contradictions;
  }

  lemma AllValidPrefix(s: SenseResult)
    requires AllValid(Represented(s))
    ensures AllValid(s.usable)
  {
    forall i | 0 <= i < |s.usable|
      ensures ValidEvidence(s.usable[i])
    {
      assert Represented(s)[i] == s.usable[i];
    }
  }

  lemma GenuineIsRebuilt(r: SenseResult, items: seq<Evidence>)
    requires IsAdmissionOf(r, items)
    ensures CanonicalResult(Rebuilt(r)) == CanonicalResult(r)
  {
    var s := Admit(items, r.asOf, r.limit);
    SenseConserves(items, r.asOf, r.limit);
    MapOfPermutation(Represented(s), items, Canonical);
    RepresentedCanonical(s, r);
    SenseSeesCanonicalItems(Represented(r), items, r.asOf, r.limit);
  }

  /** Sound and complete: THINK accepts a result exactly when SENSE can produce it. */
  lemma AcceptsExactlyGenuine(r: SenseResult)
    ensures Accepts(r) <==> r.limit >= 0 && Genuine(r)
  {
    if Accepts(r) {
      assert IsAdmissionOf(r, Represented(r));
    }
    if r.limit >= 0 && Genuine(r) {
      var items :| AllValid(items) && IsAdmissionOf(r, items);
      GenuineIsWellFormed(r, items);
      GenuineIsRebuilt(r, items);
    }
  }

  /** In particular every genuine output passes. */
  lemma GenuineOutputPasses(items: seq<Evidence>, asOf: Instant, limit: int)
    requires AllValid(items) && limit >= 0
    ensures Accepts(Admit(items, asOf, limit))
  {
    var r := Admit(items, asOf, limit);
    assert IsAdmissionOf(r, items);
    AcceptsExactlyGenuine(r);
  }

  lemma MapIdsCanonical(xs: seq<Evidence>, ys: seq<Evidence>)
    requires CanonicalAll(xs) == CanonicalAll(ys)
    ensures Map(xs, IdOf) == Map(ys, IdOf)
  {
  }

  lemma AdmittedIsFresh(items: seq<Evidence>, asOf: Instant, limit: int, e: Evidence)
    requires e in Admit(items, asOf, limit).usable
    ensures e.observedTime <= asOf <= e.observedTime + limit
  {
    UsableMember(items, asOf, limit, e);
  }

  lemma CanonicalMember(us: seq<Evidence>, e: Evidence) returns (x: Evidence)
    requires e in CanonicalAll(us)
    ensures x in us && Canonical(x) == e && x.observedTime == e.observedTime
  {
    var i :| 0 <= i < |us| && CanonicalAll(us)[i] == e;
    x := us[i];
  }

  lemma RebuiltIsFresh(items: seq<Evidence>, asOf: Instant, limit: int, e: Evidence)
    requires e in CanonicalAll(Admit(items, asOf, limit).usable)
    ensures e.observedTime <= asOf <= e.observedTime + limit
  {
    var x := CanonicalMember(Admit(items, asOf, limit).usable, e);
    AdmittedIsFresh(items, asOf, limit, x);
  }

  lemma AcceptedIsFresh(r: SenseResult, e: Evidence)
    requires Accepts(r) && e in r.usable
    ensures e.observedTime <= r.asOf <= e.observedTime + r.limit
  {
    var i :| 0 <= i < |r.usable| && r.usable[i] == e;
    assert CanonicalAll(r.usable)[i] == Canonical(e);
    RebuiltIsFresh(Represented(r), r.asOf, r.limit, Canonical(e));
  }

  lemma AcceptedIdsUnique(r: SenseResult)
    requires Accepts(r)
    ensures NoRepeats(Map(r.usable, IdOf))
  {
    UsableIdsUnique(Represented(r), r.asOf, r.limit);
    MapIdsCanonical(Rebuilt(r).usable, r.usable);
  }

  lemma AcceptedGroups(s: SenseResult, r: SenseResult)
    requires CanonicalResult(s) == CanonicalResult(r) && s.contradictions == Contradictions(s.usable)
    ensures r.contradictions == Contradictions(r.usable)
  {
    CanonicalContradictions(s.usable, r.usable);
  }

  /** Whatever is accepted has unique usable ids, only knowable and fresh usable items, and the
      complete contradictions of those items. */
  lemma AcceptedInherits(r: SenseResult)
    requires Accepts(r)
    ensures NoRepeats(Map(r.usable, IdOf))
    ensures forall e :: e in r.usable ==> e.observedTime <= r.asOf <= e.observedTime + r.limit
    ensures r.contradictions == Contradictions(r.usable)
  {
    AcceptedIdsUnique(r);
    AcceptedGroups(Rebuilt(r), r);
    forall e | e in r.usable
      ensures e.observedTime <= r.asOf <= e.observedTime + r.limit
    {
      AcceptedIsFresh(r, e);
    }
  }
}
