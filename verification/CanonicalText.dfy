/** The canonical text that breaks ties between evidence items, and the fact that it can be
    read back: two items with the same text are the same item up to the order in which their
    assertions were written down. */
module CanonicalText {
  import opened Ordering
  import opened Contracts

  // Each `...Then` function writes one piece of text in front of what follows it.

  /** Only the quote and the backslash are escaped; the numeric escapes JSON gives to control
      and non-ASCII characters are left out. */
  function CharThen(c: char, rest: string): string {
    if c == '"' || c == '\\' then ['\\', c] + rest else [c] + rest
  }

  function EscapeThen(s: string, rest: string): string {
    if s == "" then ['"'] + rest else CharThen(s[0], EscapeThen(s[1..], rest))
  }

  function QuoteThen(s: string, rest: string): string {
    ['"'] + EscapeThen(s, rest)
  }

  lemma StripPrefix(p: string, x: string, y: string)
    requires p + x == p + y
    ensures x == y
  {
    assert x == (p + x)[|p|..] && y == (p + y)[|p|..];
  }

  lemma CharDecodes(c: char, x: string, d: char, y: string)
    requires CharThen(c, x) == CharThen(d, y)
    ensures c == d && x == y
  {
    var left, right := CharThen(c, x), CharThen(d, y);
    assert left[0] == right[0];
    if left[0] == '\\' {
      assert left[1] == right[1];
      StripPrefix(['\\', c], x, y);
    } else {
      StripPrefix([c], x, y);
    }
  }

  lemma {:induction false} EscapeDecodes(s: string, x: string, t: string, y: string)
    requires EscapeThen(s, x) == EscapeThen(t, y)
    ensures s == t && x == y
  {
    assert EscapeThen(s, x)[0] == EscapeThen(t, y)[0];
    if s == "" || t == "" {
      StripPrefix(['"'], x, y);
    } else {
      var u, v := EscapeThen(s[1..], x), EscapeThen(t[1..], y);
      CharDecodes(s[0], u, t[0], v);
      EscapeDecodes(s[1..], x, t[1..], y);
      assert s == [s[0]] + s[1..] && t == [t[0]] + t[1..];
    }
  }

  lemma QuoteDecodes(s: string, x: string, t: string, y: string)
    requires QuoteThen(s, x) == QuoteThen(t, y)
    ensures s == t && x == y
  {
    StripPrefix(['"'], EscapeThen(s, x), EscapeThen(t, y));
    EscapeDecodes(s, x, t, y);
  }

  function StanceText(st: Stance): string {
    match st
    case Supports => "SUPPORTS"
    case Refutes => "REFUTES"
  }

  lemma StanceTextInjective(a: Stance, b: Stance)
    requires StanceText(a) == StanceText(b)
    ensures a == b
  {
  }

  function QualityText(q: Quality): string {
    match q
    case Verified => "VERIFIED"
    case ObservedOnly => "OBSERVED_ONLY"
    case Unknown => "UNKNOWN"
  }

  lemma QualityTextInjective(a: Quality, b: Quality)
    requires QualityText(a) == QualityText(b)
    ensures a == b
  {
  }

  const ClaimField := "{\"claim_key\":"
  const StanceField := ",\"stance\":"

  function AssertionThen(a: Assertion, rest: string): string {
    ClaimField + QuoteThen(a.claimKey, StanceField + QuoteThen(StanceText(a.stance), "}" + rest))
  }

  lemma AssertionDecodes(a: Assertion, x: string, b: Assertion, y: string)
    requires AssertionThen(a, x) == AssertionThen(b, y)
    ensures a == b && x == y
  {
    var a2, b2 := QuoteThen(StanceText(a.stance), "}" + x), QuoteThen(StanceText(b.stance), "}" + y);
    StripPrefix(ClaimField, QuoteThen(a.claimKey, StanceField + a2), QuoteThen(b.claimKey, StanceField + b2));
    QuoteDecodes(a.claimKey, StanceField + a2, b.claimKey, StanceField + b2);
    StripPrefix(StanceField, a2, b2);
    QuoteDecodes(StanceText(a.stance), "}" + x, StanceText(b.stance), "}" + y);
    StripPrefix("}", x, y);
    StanceTextInjective(a.stance, b.stance);
  }

  /** The items after the first, each with its comma, and the closing bracket. */
  function ItemsThen(xs: seq<Assertion>, rest: string): string {
    if xs == [] then [']'] + rest else [','] + AssertionThen(xs[0], ItemsThen(xs[1..], rest))
  }

  lemma {:induction false} ItemsDecode(xs: seq<Assertion>, x: string, ys: seq<Assertion>, y: string)
    requires ItemsThen(xs, x) == ItemsThen(ys, y)
    ensures xs == ys && x == y
  {
    assert ItemsThen(xs, x)[0] == ItemsThen(ys, y)[0];
    if xs == [] || ys == [] {
      StripPrefix([']'], x, y);
    } else {
      var u, v := ItemsThen(xs[1..], x), ItemsThen(ys[1..], y);
      StripPrefix([','], AssertionThen(xs[0], u), AssertionThen(ys[0], v));
      AssertionDecodes(xs[0], u, ys[0], v);
      ItemsDecode(xs[1..], x, ys[1..], y);
      assert xs == [xs[0]] + xs[1..] && ys == [ys[0]] + ys[1..];
    }
  }

  function ListThen(xs: seq<Assertion>, rest: string): string {
    if xs == [] then ['[', ']'] + rest else ['['] + AssertionThen(xs[0], ItemsThen(xs[1..], rest))
  }

  lemma ListDecodes(xs: seq<Assertion>, x: string, ys: seq<Assertion>, y: string)
    requires ListThen(xs, x) == ListThen(ys, y)
    ensures xs == ys && x == y
  {
    assert ListThen(xs, x)[1] == ListThen(ys, y)[1];
    assert ClaimField[0] == '{';
    if xs == [] || ys == [] {
      StripPrefix(['[', ']'], x, y);
    } else {
      var u, v := ItemsThen(xs[1..], x), ItemsThen(ys[1..], y);
      StripPrefix(['['], AssertionThen(xs[0], u), AssertionThen(ys[0], v));
      AssertionDecodes(xs[0], u, ys[0], v);
      ItemsDecode(xs[1..], x, ys[1..], y);
      assert xs == [xs[0]] + xs[1..] && ys == [ys[0]] + ys[1..];
    }
  }

  // ---------------------------------------------------------------- canonical evidence

  /** `(claim_key, stance)` as a sort key. */
  function AssertionKey(a: Assertion): Key {
    Codes(a.claimKey) + ([Separator] + Codes(StanceText(a.stance)))
  }

  /** The canonical form of an item: its assertions sorted. */
  function Canonical(e: Evidence): Evidence {
    e.(assertions := SortBy(e.assertions, AssertionKey))
  }

  /** The fields of the canonical text that are not compared before it, in the order in which
      a JSON object with sorted keys holds them. */
  function ContentText(e: Evidence): string {
    ListThen(Canonical(e).assertions,
      QuoteThen(e.checksum, QuoteThen(QualityText(e.quality), QuoteThen(e.source, ""))))
  }

  /** One text component of a tuple, in front of the components after it. */
  function TextThen(s: string, rest: Key): Key {
    Codes(s) + [Separator] + rest
  }

  lemma TextDecodes(s: string, x: Key, t: string, y: Key)
    requires TextThen(s, x) == TextThen(t, y)
    ensures s == t && x == y
  {
    SplitAtSeparator(Codes(s), x, Codes(t), y);
    CodesInjective(s, t);
  }

  function OrderKeyThen(e: Evidence, rest: Key): Key {
    [e.eventTime, e.availableTime, e.observedTime] + TextThen(e.id, TextThen(ContentText(e), rest))
  }

  /** `_order_key`: the three instants, the id, the canonical text. */
  function OrderKey(e: Evidence): Key {
    OrderKeyThen(e, [])
  }

  lemma ContentDecodes(a: Evidence, b: Evidence)
    requires ContentText(a) == ContentText(b)
    ensures Canonical(a).assertions == Canonical(b).assertions
    ensures a.checksum == b.checksum && a.quality == b.quality && a.source == b.source
  {
    var a3, b3 := QuoteThen(a.source, ""), QuoteThen(b.source, "");
    var a2, b2 := QuoteThen(QualityText(a.quality), a3), QuoteThen(QualityText(b.quality), b3);
    ListDecodes(Canonical(a).assertions, QuoteThen(a.checksum, a2),
                Canonical(b).assertions, QuoteThen(b.checksum, b2));
    QuoteDecodes(a.checksum, a2, b.checksum, b2);
    QuoteDecodes(QualityText(a.quality), a3, QualityText(b.quality), b3);
    QualityTextInjective(a.quality, b.quality);
    QuoteDecodes(a.source, "", b.source, "");
  }

  lemma OrderKeyDecodes(a: Evidence, x: Key, b: Evidence, y: Key)
    requires OrderKeyThen(a, x) == OrderKeyThen(b, y)
    ensures Canonical(a) == Canonical(b) && x == y
  {
    var u, v := TextThen(ContentText(a), x), TextThen(ContentText(b), y);
    var k, l := OrderKeyThen(a, x), OrderKeyThen(b, y);
    assert k[0] == l[0] && k[1] == l[1] && k[2] == l[2];
    assert k[3..] == TextThen(a.id, u) && l[3..] == TextThen(b.id, v);
    TextDecodes(a.id, u, b.id, v);
    TextDecodes(ContentText(a), x, ContentText(b), y);
    ContentDecodes(a, b);
  }

  /** The content-derived order is total up to canonical equality: items tie exactly when
      they are canonically the same. */
  lemma TiesAreCanonicallyEqual(a: Evidence, b: Evidence)
    ensures OrderKey(a) == OrderKey(b) <==> Canonical(a) == Canonical(b)
  {
    if OrderKey(a) == OrderKey(b) {
      OrderKeyDecodes(a, [], b, []);
    }
  }
}
