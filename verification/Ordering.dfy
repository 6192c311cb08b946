/** A total order on integer sequences, and stable sorting by a key.

    Every ordering in the brain is a Python tuple or text comparison.  Such a key is written
    here as one integer sequence: numbers as they are, texts as their character codes, and a
    `Separator` below every code wherever a text ends, so that the lexicographic order of the
    sequences is the order of the tuples. */
module Ordering {

  type Key = seq<int>

  const Separator := -1

  function Codes(s: string): (k: Key)
    ensures |k| == |s| && forall i :: 0 <= i < |s| ==> k[i] == s[i] as int
  {
    seq(|s|, i requires 0 <= i < |s| => s[i] as int)
  }

  lemma CodesInjective(s: string, t: string)
    requires Codes(s) == Codes(t)
    ensures s == t
  {
  }

  predicate Le(a: Key, b: Key) {
    if a == [] then true
    else if b == [] then false
    else a[0] < b[0] || (a[0] == b[0] && Le(a[1..], b[1..]))
  }

  lemma LeTotal(a: Key, b: Key)
    ensures Le(a, b) || Le(b, a)
  {
  }

  lemma {:induction false} LeAntisymmetric(a: Key, b: Key)
    requires Le(a, b) && Le(b, a)
    ensures a == b
  {
    if a != [] {
      LeAntisymmetric(a[1..], b[1..]);
      assert a == [a[0]] + a[1..] && b == [b[0]] + b[1..];
    }
  }

  lemma {:induction false} LeTransitive(a: Key, b: Key, c: Key)
    requires Le(a, b) && Le(b, c)
    ensures Le(a, c)
  {
    if a != [] && a[0] == b[0] && b[0] == c[0] {
      LeTransitive(a[1..], b[1..], c[1..]);
    }
  }

  /** A text and what follows it can be told apart at the separator. */
  lemma {:induction false} SplitAtSeparator(a: Key, x: Key, b: Key, y: Key)
    requires forall i :: 0 <= i < |a| ==> a[i] >= 0
    requires forall i :: 0 <= i < |b| ==> b[i] >= 0
    requires a + [Separator] + x == b + [Separator] + y
    ensures a == b && x == y
  {
    var s, t := a + [Separator] + x, b + [Separator] + y;
    assert s[0] == t[0];
    assert s[1..] == t[1..];
    if a == [] || b == [] {
      assert x == s[1..] && y == t[1..];
    } else {
      assert s[1..] == a[1..] + [Separator] + x && t[1..] == b[1..] + [Separator] + y;
      SplitAtSeparator(a[1..], x, b[1..], y);
      assert a == [a[0]] + a[1..] && b == [b[0]] + b[1..];
    }
  }

  // ---------------------------------------------------------------- sorting

  predicate Sorted(ks: seq<Key>) {
    forall i, j :: 0 <= i < j < |ks| ==> Le(ks[i], ks[j])
  }

  function Map<T, U>(xs: seq<T>, f: T -> U): (ys: seq<U>)
    ensures |ys| == |xs| && forall i :: 0 <= i < |xs| ==> ys[i] == f(xs[i])
  {
    seq(|xs|, i requires 0 <= i < |xs| => f(xs[i]))
  }

  function Insert<T>(x: T, xs: seq<T>, key: T -> Key): seq<T> {
    if xs == [] || Le(key(x), key(xs[0])) then [x] + xs
    else [xs[0]] + Insert(x, xs[1..], key)
  }

  /** A stable sort by `key`. */
  function SortBy<T>(xs: seq<T>, key: T -> Key): seq<T> {
    if xs == [] then [] else Insert(xs[0], SortBy(xs[1..], key), key)
  }

  /** An item that goes to the front leaves the list sorted. */
  lemma FrontSorted<T>(x: T, xs: seq<T>, key: T -> Key)
    requires Sorted(Map(xs, key)) && forall j :: 0 <= j < |xs| ==> Le(key(x), key(xs[j]))
    ensures Sorted(Map([x] + xs, key))
  {
    var ys := [x] + xs;
    forall i, j | 0 <= i < j < |ys|
      ensures Le(Map(ys, key)[i], Map(ys, key)[j])
    {
      if i > 0 {
        assert Le(Map(xs, key)[i - 1], Map(xs, key)[j - 1]);
      }
    }
  }

  lemma HeadBelowAll<T>(xs: seq<T>, key: T -> Key, x: T)
    requires xs != [] && Sorted(Map(xs, key)) && Le(key(x), key(xs[0]))
    ensures forall j :: 0 <= j < |xs| ==> Le(key(x), key(xs[j]))
  {
    forall j | 0 <= j < |xs|
      ensures Le(key(x), key(xs[j]))
    {
      if j > 0 {
        assert Le(Map(xs, key)[0], Map(xs, key)[j]);
        LeTransitive(key(x), key(xs[0]), key(xs[j]));
      }
    }
  }

  lemma HeadBelowInserted<T>(x: T, xs: seq<T>, key: T -> Key, zs: seq<T>)
    requires xs != [] && Sorted(Map(xs, key)) && Le(key(xs[0]), key(x))
    requires multiset(zs) == multiset{x} + multiset(xs[1..])
    ensures forall j :: 0 <= j < |zs| ==> Le(key(xs[0]), key(zs[j]))
  {
    forall j | 0 <= j < |zs|
      ensures Le(key(xs[0]), key(zs[j]))
    {
      assert zs[j] in multiset(zs);
      if zs[j] != x {
        var m :| 0 <= m < |xs[1..]| && xs[1..][m] == zs[j];
        assert Le(Map(xs, key)[0], Map(xs, key)[m + 1]);
      }
    }
  }

  lemma RestSorted<T>(xs: seq<T>, key: T -> Key)
    requires xs != [] && Sorted(Map(xs, key))
    ensures Sorted(Map(xs[1..], key))
  {
    forall i, j | 0 <= i < j < |xs[1..]|
      ensures Le(Map(xs[1..], key)[i], Map(xs[1..], key)[j])
    {
      assert Le(Map(xs, key)[i + 1], Map(xs, key)[j + 1]);
    }
  }

  lemma {:induction false} InsertSorted<T>(x: T, xs: seq<T>, key: T -> Key)
    requires Sorted(Map(xs, key))
    ensures Sorted(Map(Insert(x, xs, key), key))
    ensures multiset(Insert(x, xs, key)) == multiset{x} + multiset(xs)
  {
    if xs == [] {
    } else if Le(key(x), key(xs[0])) {
      HeadBelowAll(xs, key, x);
      FrontSorted(x, xs, key);
    } else {
      var zs := Insert(x, xs[1..], key);
      RestSorted(xs, key);
      InsertSorted(x, xs[1..], key);
      LeTotal(key(x), key(xs[0]));
      HeadBelowInserted(x, xs, key, zs);
      FrontSorted(xs[0], zs, key);
      assert xs == [xs[0]] + xs[1..];
    }
  }

  lemma {:induction false} SortBySorts<T>(xs: seq<T>, key: T -> Key)
    ensures Sorted(Map(SortBy(xs, key), key))
    ensures multiset(SortBy(xs, key)) == multiset(xs)
  {
    if xs != [] {
      SortBySorts(xs[1..], key);
      InsertSorted(xs[0], SortBy(xs[1..], key), key);
      assert xs == [xs[0]] + xs[1..];
    }
  }

  lemma {:induction false} SortedIsFixpoint<T>(xs: seq<T>, key: T -> Key)
    requires Sorted(Map(xs, key))
    ensures SortBy(xs, key) == xs
  {
    if xs != [] {
      RestSorted(xs, key);
      SortedIsFixpoint(xs[1..], key);
      if |xs| > 1 {
        assert Le(Map(xs, key)[0], Map(xs, key)[1]);
      }
    }
  }

  // ---------------------------------------------------------------- uniqueness

  /** There is one sorted arrangement of a multiset of keys. */
  lemma {:induction false} SortedUnique(ks: seq<Key>, ls: seq<Key>)
    requires Sorted(ks) && Sorted(ls) && multiset(ks) == multiset(ls)
    ensures ks == ls
  {
    if ks == [] {
      assert multiset(ls) == multiset{};
      assert |ls| == 0;
    } else {
      assert ks[0] in multiset(ls) && |ls| == |multiset(ls)| == |multiset(ks)| == |ks|;
      assert ls[0] in multiset(ks);
      HeadIsLeast(ks, ls[0]);
      HeadIsLeast(ls, ks[0]);
      LeAntisymmetric(ks[0], ls[0]);
      TailMultiset(ks);
      TailMultiset(ls);
      SortedTail(ks);
      SortedTail(ls);
      SortedUnique(ks[1..], ls[1..]);
      assert ks == [ks[0]] + ks[1..] && ls == [ls[0]] + ls[1..];
    }
  }

  lemma SortedTail(ks: seq<Key>)
    requires Sorted(ks) && ks != []
    ensures Sorted(ks[1..])
  {
  }

  lemma HeadIsLeast(ks: seq<Key>, k: Key)
    requires Sorted(ks) && k in ks
    ensures Le(ks[0], k)
  {
    var i :| 0 <= i < |ks| && ks[i] == k;
    if i == 0 {
      LeTotal(k, k);
    }
  }

  lemma WithoutOne<T>(xs: seq<T>, i: nat)
    requires i < |xs|
    ensures multiset(xs[..i] + xs[i + 1..]) == multiset(xs) - multiset{xs[i]}
    ensures multiset(xs) == multiset{xs[i]} + multiset(xs[..i] + xs[i + 1..])
  {
    assert xs == xs[..i] + [xs[i]] + xs[i + 1..];
  }

  lemma MapWithoutOne<T, U>(xs: seq<T>, i: nat, f: T -> U)
    requires i < |xs|
    ensures multiset(Map(xs, f)) == multiset{f(xs[i])} + multiset(Map(xs[..i] + xs[i + 1..], f))
  {
    WithoutOne(Map(xs, f), i);
    assert Map(xs, f)[..i] + Map(xs, f)[i + 1..] == Map(xs[..i] + xs[i + 1..], f);
  }

  lemma TailMultiset<T>(xs: seq<T>)
    requires xs != []
    ensures multiset(xs[1..]) == multiset(xs) - multiset{xs[0]}
    ensures multiset(xs) == multiset{xs[0]} + multiset(xs[1..])
  {
    assert xs == [xs[0]] + xs[1..];
  }

  lemma DropFromPermutation<T, U>(ys: seq<T>, x: T, f: T -> U) returns (rest: seq<T>)
    requires x in multiset(ys)
    ensures multiset(rest) == multiset(ys) - multiset{x} && |rest| < |ys|
    ensures multiset(Map(ys, f)) == multiset{f(x)} + multiset(Map(rest, f))
  {
    var i :| 0 <= i < |ys| && ys[i] == x;
    rest := ys[..i] + ys[i + 1..];
    WithoutOne(ys, i);
    MapWithoutOne(ys, i, f);
  }

  /** Permuting the items permutes their images. */
  lemma {:induction false} MapOfPermutation<T, U>(xs: seq<T>, ys: seq<T>, f: T -> U)
    requires multiset(xs) == multiset(ys)
    ensures multiset(Map(xs, f)) == multiset(Map(ys, f))
  {
    if xs == [] {
      assert |multiset(ys)| == 0 && ys == [];
    } else {
      TailMultiset(xs);
      var rest := DropFromPermutation(ys, xs[0], f);
      MapOfPermutation(xs[1..], rest, f);
      TailMultiset(Map(xs, f));
      assert Map(xs, f)[1..] == Map(xs[1..], f);
    }
  }

  /** Sorting forgets the order of the input, up to items with equal keys. */
  lemma SortForgetsOrder<T>(xs: seq<T>, ys: seq<T>, key: T -> Key)
    requires multiset(xs) == multiset(ys)
    ensures Map(SortBy(xs, key), key) == Map(SortBy(ys, key), key)
  {
    SortBySorts(xs, key);
    SortBySorts(ys, key);
    MapOfPermutation(SortBy(xs, key), SortBy(ys, key), key);
    SortedUnique(Map(SortBy(xs, key), key), Map(SortBy(ys, key), key));
  }

  // ---------------------------------------------------------------- sorted sets of texts

  function TextKey(s: string): Key {
    Codes(s)
  }

  predicate StrictlySorted(ss: seq<string>) {
    forall i, j :: 0 <= i < j < |ss| ==> Le(Codes(ss[i]), Codes(ss[j])) && ss[i] != ss[j]
  }

  ghost predicate Least(x: string, s: set<string>) {
    x in s && forall y :: y in s ==> Le(Codes(x), Codes(y))
  }

  lemma {:induction false} LeastExists(s: set<string>) returns (x: string)
    requires s != {}
    ensures Least(x, s)
  {
    var y :| y in s;
    LeTotal(Codes(y), Codes(y));
    if s == {y} {
      x := y;
    } else {
      var z := LeastExists(s - {y});
      LeTotal(Codes(y), Codes(z));
      x := if Le(Codes(y), Codes(z)) then y else z;
      forall u | u in s
        ensures Le(Codes(x), Codes(u))
      {
        if u != y && x == y {
          LeTransitive(Codes(y), Codes(z), Codes(u));
        }
      }
    }
  }

  /** `sorted` of a set of texts, or of the keys of a dictionary. */
  ghost function SortedSet(s: set<string>): (r: seq<string>)
    ensures StrictlySorted(r) && (forall x :: x in r <==> x in s)
  {
    if s == {} then []
    else
      assert exists x :: Least(x, s) by { var x := LeastExists(s); }
      var x :| Least(x, s);
      [x] + SortedSet(s - {x})
  }

  /** A strictly sorted list is the sorted set of its elements. */
  lemma StrictlySortedIsSortedSet(r: seq<string>, s: set<string>)
    requires StrictlySorted(r) && (forall x :: x in r <==> x in s)
    ensures r == SortedSet(s)
  {
    var t := SortedSet(s);
    NoRepeatsMultiset(r, s);
    NoRepeatsMultiset(t, s);
    MapOfPermutation(r, t, TextKey);
    SortedUnique(Map(r, TextKey), Map(t, TextKey));
    forall i | 0 <= i < |r|
      ensures r[i] == t[i]
    {
      assert Map(r, TextKey)[i] == Map(t, TextKey)[i];
      CodesInjective(r[i], t[i]);
    }
  }

  predicate NoRepeats<T(==)>(r: seq<T>) {
    forall i, j :: 0 <= i < j < |r| ==> r[i] != r[j]
  }

  lemma {:induction false} NoRepeatsMultiset<T>(r: seq<T>, s: set<T>)
    requires NoRepeats(r) && (forall x :: x in r <==> x in s)
    ensures multiset(r) == multiset(s)
  {
    if r == [] {
      assert s == {};
    } else {
      assert r == [r[0]] + r[1..];
      forall x
        ensures x in r[1..] <==> x in s - {r[0]}
      {
        if x in r[1..] {
          var i :| 0 <= i < |r[1..]| && r[1..][i] == x;
          assert r[i + 1] == x && r[0] != r[i + 1];
        }
      }
      NoRepeatsMultiset(r[1..], s - {r[0]});
      assert multiset(s) == multiset(s - {r[0]}) + multiset{r[0]};
    }
  }

  lemma SortedOrderIsSortedSet(order: seq<string>, s: set<string>)
    requires NoRepeats(order) && (forall k :: k in order <==> k in s)
    ensures SortBy(order, TextKey) == SortedSet(s)
    ensures forall k :: k in SortBy(order, TextKey) <==> k in order
  {
    var r := SortBy(order, TextKey);
    SortBySorts(order, TextKey);
    NoRepeatsMultiset(order, s);
    assert forall k :: k in r <==> k in multiset(r);
    forall i, j | 0 <= i < j < |r|
      ensures Le(Codes(r[i]), Codes(r[j])) && r[i] != r[j]
    {
      assert Le(Map(r, TextKey)[i], Map(r, TextKey)[j]);
      if r[i] == r[j] {
        TwiceInMultiset(r, i, j);
      }
    }
    StrictlySortedIsSortedSet(r, s);
  }

  lemma TwiceInMultiset<T>(r: seq<T>, i: nat, j: nat)
    requires i < j < |r| && r[i] == r[j]
    ensures multiset(r)[r[i]] >= 2
  {
    assert r == r[..i] + [r[i]] + r[i + 1..j] + [r[j]] + r[j + 1..];
  }
}
