/** SENSE: point-in-time admission of evidence. */
module Sense {
  import opened Ordering
  import opened Contracts
  import opened CanonicalText

  datatype Failure =
    | DuplicateEvidenceId | EventTimeAfterAsOf | AvailableTimeAfterAsOf
    | ObservedTimeAfterAsOf | StaleBeyondFreshnessLimit

  datatype Rejected = Rejected(evidence: Evidence, reason: Failure)

  datatype Group = Group(claimKey: string, supporting: seq<string>, refuting: seq<string>)

  /** `limit` is the freshness limit in microseconds. */
  datatype SenseResult = SenseResult(
    asOf: Instant, limit: int, usable: seq<Evidence>, rejected: seq<Rejected>,
    contradictions: seq<Group>)

  datatype Verdict = Usable | Failed(reason: Failure)

  /** `_rejection`: the first reason that applies. */
  function Judge(e: Evidence, asOf: Instant, limit: int, duplicated: bool): Verdict {
    if duplicated then Failed(DuplicateEvidenceId)
    else if e.eventTime > asOf then Failed(EventTimeAfterAsOf)
    else if e.availableTime > asOf then Failed(AvailableTimeAfterAsOf)
    else if e.observedTime > asOf then Failed(ObservedTimeAfterAsOf)
    else if asOf - e.observedTime > limit then Failed(StaleBeyondFreshnessLimit)
    else Usable
  }

  function IdOf(e: Evidence): string {
    e.id
  }

  /** How often an id occurs among the items. */
  function Occurrences(items: seq<Evidence>, id: string): nat {
    multiset(Map(items, IdOf))[id]
  }

  function JudgeAmong(e: Evidence, all: seq<Evidence>, asOf: Instant, limit: int): Verdict {
    Judge(e, asOf, limit, Occurrences(all, e.id) > 1)
  }

  function UsableOf(items: seq<Evidence>, all: seq<Evidence>, asOf: Instant, limit: int): seq<Evidence> {
    if items == [] then []
    else
      var last := items[|items| - 1];
      UsableOf(items[..|items| - 1], all, asOf, limit)
      + if JudgeAmong(last, all, asOf, limit) == Usable then [last] else []
  }

  function RejectedOf(items: seq<Evidence>, all: seq<Evidence>, asOf: Instant, limit: int): seq<Rejected> {
    if items == [] then []
    else
      var last := items[|items| - 1];
      var v := JudgeAmong(last, all, asOf, limit);
      RejectedOf(items[..|items| - 1], all, asOf, limit)
      + if v.Failed? then [Rejected(last, v.reason)] else []
  }

  function FailureText(f: Failure): string {
    match f
    case DuplicateEvidenceId => "DUPLICATE_EVIDENCE_ID"
    case EventTimeAfterAsOf => "EVENT_TIME_AFTER_AS_OF"
    case AvailableTimeAfterAsOf => "AVAILABLE_TIME_AFTER_AS_OF"
    case ObservedTimeAfterAsOf => "OBSERVED_TIME_AFTER_AS_OF"
    case StaleBeyondFreshnessLimit => "STALE_BEYOND_FRESHNESS_LIMIT"
  }

  function RejectKey(r: Rejected): Key {
    OrderKeyThen(r.evidence, Codes(FailureText(r.reason)))
  }

  // ---------------------------------------------------------------- contradictions

  function Repeat<T>(x: T, n: nat): (r: seq<T>)
    ensures |r| == n && forall i :: 0 <= i < n ==> r[i] == x
  {
    seq(n, i => x)
  }

  /** How often one item makes one assertion; at most once when its keys are distinct. */
  function Makes(e: Evidence, key: string, stance: Stance): nat {
    multiset(e.assertions)[Assertion(key, stance)]
  }

  /** The ids of the items that take `stance` on `key`, in the order of the items. */
  function IdsOn(items: seq<Evidence>, key: string, stance: Stance): seq<string> {
    if items == [] then []
    else
      var last := items[|items| - 1];
      IdsOn(items[..|items| - 1], key, stance) + Repeat(last.id, Makes(last, key, stance))
  }

  /** Every claim key some item asserts. */
  function Claims(items: seq<Evidence>): set<string> {
    set e, a | e in items && a in e.assertions :: a.claimKey
  }

  predicate Contested(items: seq<Evidence>, key: string) {
    IdsOn(items, key, Supports) != [] && IdsOn(items, key, Refutes) != []
  }

  function GroupOn(items: seq<Evidence>, key: string): Group {
    Group(key, SortBy(IdsOn(items, key, Supports), TextKey), SortBy(IdsOn(items, key, Refutes), TextKey))
  }

  function GroupsOn(items: seq<Evidence>, keys: seq<string>): seq<Group> {
    if keys == [] then []
    else
      var last := keys[|keys| - 1];
      GroupsOn(items, keys[..|keys| - 1]) + if Contested(items, last) then [GroupOn(items, last)] else []
  }

  /** One group for every contested claim key, in the order of the keys. */
  ghost function Contradictions(items: seq<Evidence>): seq<Group> {
    GroupsOn(items, SortedSet(Claims(items)))
  }

  /** What `evaluate_sense` returns for a non-negative limit. */
  ghost function Admit(items: seq<Evidence>, asOf: Instant, limit: int): SenseResult {
    var usable := SortBy(UsableOf(items, items, asOf, limit), OrderKey);
    var rejected := SortBy(RejectedOf(items, items, asOf, limit), RejectKey);
    SenseResult(asOf, limit, usable, rejected, Contradictions(usable))
  }

  // ---------------------------------------------------------------- the evaluator's loops

  datatype Sides = Sides(supporting: seq<string>, refuting: seq<string>)

  function SideOf(byKey: map<string, Sides>, key: string, stance: Stance): seq<string> {
    if key !in byKey then []
    else match stance
      case Supports => byKey[key].supporting
      case Refutes => byKey[key].refuting
  }

  /** `stances.setdefault(stance, []).append(id)` under `by_key.setdefault(key, {})`. */
  function File(byKey: map<string, Sides>, a: Assertion, id: string): map<string, Sides> {
    var sides := if a.claimKey in byKey then byKey[a.claimKey] else Sides([], []);
    byKey[a.claimKey := match a.stance
                        case Supports => sides.(supporting := sides.supporting + [id])
                        case Refutes => sides.(refuting := sides.refuting + [id])]
  }

  /** The dictionary and its insertion order hold exactly these claim keys. */
  ghost predicate KeysFiled(byKey: map<string, Sides>, order: seq<string>, keys: set<string>) {
    && NoRepeats(order)
    && (forall k :: k in order <==> k in byKey)
    && byKey.Keys == keys
  }

  /** Each side lists what the items say, then the first assertions of one item more. */
  ghost predicate SidesFiled(byKey: map<string, Sides>, items: seq<Evidence>,
                             id: string, assertions: seq<Assertion>) {
    forall k, st :: SideOf(byKey, k, st)
                    == IdsOn(items, k, st) + Repeat(id, multiset(assertions)[Assertion(k, st)])
  }

  function KeysOf(assertions: seq<Assertion>): set<string> {
    set a | a in assertions :: a.claimKey
  }

  lemma FileSide(byKey: map<string, Sides>, a: Assertion, id: string, k: string, st: Stance)
    ensures SideOf(File(byKey, a, id), k, st)
         == SideOf(byKey, k, st) + if a == Assertion(k, st) then [id] else []
  {
  }

  lemma RepeatOneMore<T>(x: T, n: nat)
    ensures Repeat(x, n + 1) == Repeat(x, n) + [x]
  {
  }

  lemma RepeatAppend(id: string, before: seq<Assertion>, a: Assertion, x: Assertion)
    ensures Repeat(id, multiset(before + [a])[x]) == Repeat(id, multiset(before)[x]) + if a == x then [id] else []
  {
  }

  lemma FileOneSide(byKey: map<string, Sides>, items: seq<Evidence>, e: Evidence, j: nat)
    requires j < |e.assertions| && SidesFiled(byKey, items, e.id, e.assertions[..j])
    ensures SidesFiled(File(byKey, e.assertions[j], e.id), items, e.id, e.assertions[..j + 1])
  {
    var a, before, after := e.assertions[j], e.assertions[..j], e.assertions[..j + 1];
    assert after == before + [a];
    var filed := File(byKey, a, e.id);
    forall k, st
      ensures SideOf(filed, k, st) == IdsOn(items, k, st) + Repeat(e.id, multiset(after)[Assertion(k, st)])
    {
      FileSide(byKey, a, e.id, k, st);
      RepeatAppend(e.id, before, a, Assertion(k, st));
      assert SideOf(byKey, k, st) == IdsOn(items, k, st) + Repeat(e.id, multiset(before)[Assertion(k, st)]);
    }
  }

  function OrderWith(byKey: map<string, Sides>, order: seq<string>, key: string): seq<string> {
    if key in byKey then order else order + [key]
  }

  lemma FileOneKey(byKey: map<string, Sides>, order: seq<string>, keys: set<string>, e: Evidence, j: nat)
    requires j < |e.assertions| && KeysFiled(byKey, order, keys + KeysOf(e.assertions[..j]))
    ensures var a := e.assertions[j];
            KeysFiled(File(byKey, a, e.id), OrderWith(byKey, order, a.claimKey),
                      keys + KeysOf(e.assertions[..j + 1]))
  {
  }

  lemma FileItem(byKey: map<string, Sides>, items: seq<Evidence>, i: nat)
    requires i < |items| && SidesFiled(byKey, items[..i], items[i].id, items[i].assertions)
    ensures SidesFiled(byKey, items[..i + 1], "", [])
  {
    var more := items[..i + 1];
    assert more[..i] == items[..i] && more[i] == items[i];
    forall k, st
      ensures SideOf(byKey, k, st) == IdsOn(more, k, st)
    {
      assert IdsOn(more, k, st) == IdsOn(items[..i], k, st) + Repeat(items[i].id, Makes(items[i], k, st));
    }
  }

  lemma ClaimsGrow(items: seq<Evidence>, i: nat)
    requires i < |items|
    ensures Claims(items[..i + 1]) == Claims(items[..i]) + KeysOf(items[i].assertions)
  {
  }

  /** The inner loop: one item's assertions into the dictionary. */
  method FileAssertions(items: seq<Evidence>, i: nat, byKey0: map<string, Sides>, order0: seq<string>)
    returns (byKey: map<string, Sides>, order: seq<string>)
    requires i < |items|
    requires KeysFiled(byKey0, order0, Claims(items[..i])) && SidesFiled(byKey0, items[..i], "", [])
    ensures KeysFiled(byKey, order, Claims(items[..i + 1])) && SidesFiled(byKey, items[..i + 1], "", [])
  {
    byKey, order := byKey0, order0;
    var e := items[i];
    var j := 0;
    assert SidesFiled(byKey, items[..i], e.id, e.assertions[..0]);
    while j < |e.assertions|
      invariant 0 <= j <= |e.assertions|
      invariant KeysFiled(byKey, order, Claims(items[..i]) + KeysOf(e.assertions[..j]))
      invariant SidesFiled(byKey, items[..i], e.id, e.assertions[..j])
    {
      var a := e.assertions[j];
      FileOneSide(byKey, items[..i], e, j);
      FileOneKey(byKey, order, Claims(items[..i]), e, j);
      order := OrderWith(byKey, order, a.claimKey);
      byKey := File(byKey, a, e.id);
      j := j + 1;
    }
    assert e.assertions[..j] == e.assertions;
    FileItem(byKey, items, i);
    ClaimsGrow(items, i);
  }

  /** The loop over the sorted keys: both sides must be present. */
  method CollectGroups(usable: seq<Evidence>, byKey: map<string, Sides>, keys: seq<string>)
    returns (groups: seq<Group>)
    requires SidesFiled(byKey, usable, "", []) && (forall k :: k in keys ==> k in byKey)
    ensures groups == GroupsOn(usable, keys)
  {
    groups := [];
    var n := 0;
    while n < |keys|
      invariant 0 <= n <= |keys|
      invariant groups == GroupsOn(usable, keys[..n])
    {
      var key := keys[n];
      assert keys[..n + 1][..n] == keys[..n];
      assert SideOf(byKey, key, Supports) == IdsOn(usable, key, Supports);
      assert SideOf(byKey, key, Refutes) == IdsOn(usable, key, Refutes);
      if byKey[key].supporting != [] && byKey[key].refuting != [] {
        groups := groups + [Group(key, SortBy(byKey[key].supporting, TextKey),
                                  SortBy(byKey[key].refuting, TextKey))];
      }
      n := n + 1;
    }
    assert keys[..n] == keys;
  }

  /** `_contradictions`. */
  method FindContradictions(usable: seq<Evidence>) returns (groups: seq<Group>)
    ensures groups == Contradictions(usable)
  {
    var byKey: map<string, Sides> := map[];
    var order: seq<string> := [];
    var i := 0;
    while i < |usable|
      invariant 0 <= i <= |usable|
      invariant KeysFiled(byKey, order, Claims(usable[..i]))
      invariant SidesFiled(byKey, usable[..i], "", [])
    {
      byKey, order := FileAssertions(usable, i, byKey, order);
      i := i + 1;
    }
    assert usable[..i] == usable;
    SortedOrderIsSortedSet(order, Claims(usable));
    groups := CollectGroups(usable, byKey, SortBy(order, TextKey));
  }

  /** `evaluate_sense`: raises on a negative limit, else splits, sorts and groups. */
  method EvaluateSense(items: seq<Evidence>, asOf: Instant, limit: int) returns (r: Outcome<SenseResult>)
    ensures r == if limit < 0 then Raised else Returned(Admit(items, asOf, limit))
  {
    if limit < 0 {
      return Raised;
    }
    var usable: seq<Evidence> := [];
    var rejected: seq<Rejected> := [];
    var i := 0;
    while i < |items|
      invariant 0 <= i <= |items|
      invariant usable == UsableOf(items[..i], items, asOf, limit)
      invariant rejected == RejectedOf(items[..i], items, asOf, limit)
    {
      assert items[..i + 1][..i] == items[..i];
      var v := Judge(items[i], asOf, limit, Occurrences(items, items[i].id) > 1);
      if v == Usable {
        usable := usable + [items[i]];
      } else {
        rejected := rejected + [Rejected(items[i], v.reason)];
      }
      i := i + 1;
    }
    assert items[..i] == items;
    usable := SortBy(usable, OrderKey);
    rejected := SortBy(rejected, RejectKey);
    var groups := FindContradictions(usable);
    r := Returned(SenseResult(asOf, limit, usable, rejected, groups));
  }
}
