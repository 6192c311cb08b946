/** The rules of an edit list, written out: paths by their components, contents by their lines, sizes by
    their bytes, and what a bound state says of each path. */
module EditLaws {
  import opened Options
  import opened Ordering
  import opened AutopilotPolicy
  import opened FullFile
  import opened EditRules

  // ---------------------------------------------------------------- bytes

  /** The bytes of one character in UTF-8. */
  function Width(c: char): nat {
    if c as int >= 65_536 then 4 else if c as int >= 2_048 then 3 else if c as int >= 128 then 2 else 1
  }

  lemma WidthOfOne(c: char)
    ensures Utf8Length([c]) == Width(c)
  {
    assert [c][..0] == "";
  }

  /** Lengths add up. */
  lemma {:induction false} LengthsAdd(s: string, t: string)
    ensures Utf8Length(s + t) == Utf8Length(s) + Utf8Length(t)
  {
    if t == "" {
      assert s + t == s;
    } else {
      assert (s + t)[..|s + t| - 1] == s + t[..|t| - 1];
      LengthsAdd(s, t[..|t| - 1]);
    }
  }

  function Together(edits: seq<Edit>): string {
    if edits == [] then "" else Together(edits[..|edits| - 1]) + edits[|edits| - 1].content
  }

  lemma {:induction false} TotalIsOfAll(edits: seq<Edit>)
    ensures TotalBytes(edits) == Utf8Length(Together(edits))
  {
    if edits != [] {
      TotalIsOfAll(edits[..|edits| - 1]);
      LengthsAdd(Together(edits[..|edits| - 1]), edits[|edits| - 1].content);
    }
  }

  // ---------------------------------------------------------------- paths

  predicate Slashless(parts: seq<string>) {
    forall i :: 0 <= i < |parts| ==> '/' !in parts[i]
  }

  lemma RawLetter(s: string)
    requires s != "" && s[0] != '/'
    ensures RawParts(s) == [[s[0]] + RawParts(s[1..])[0]] + RawParts(s[1..])[1..]
  {
  }

  lemma {:induction false} RawAfter(head: string, tail: string)
    requires '/' !in head
    ensures RawParts(head + "/" + tail) == [head] + RawParts(tail) && RawParts(head) == [head]
  {
    if head == "" {
      assert head + "/" + tail == "/" + tail;
    } else {
      RawAfter(head[1..], tail);
      assert (head + "/" + tail)[1..] == head[1..] + "/" + tail && head == [head[0]] + head[1..];
      RawLetter(head + "/" + tail);
      RawLetter(head);
    }
  }

  lemma {:induction false} RawOfJoined(parts: seq<string>)
    requires parts != [] && Slashless(parts)
    ensures RawParts(JoinParts(parts)) == parts
  {
    RawAfter(parts[0], if |parts| > 1 then JoinParts(parts[1..]) else "");
    if |parts| > 1 {
      RawOfJoined(parts[1..]);
      assert parts == [parts[0]] + parts[1..];
    } else {
      assert parts == [parts[0]];
    }
  }

  lemma JoinLetter(c: char, parts: seq<string>)
    requires parts != []
    ensures JoinParts([[c] + parts[0]] + parts[1..]) == [c] + JoinParts(parts)
  {
    if |parts| > 1 {
      assert ([[c] + parts[0]] + parts[1..])[1..] == parts[1..];
    }
  }

  /** Splitting at the slashes and joining again gives the path back. */
  lemma {:induction false} JoinedRaw(s: string)
    ensures JoinParts(RawParts(s)) == s && Slashless(RawParts(s))
  {
    if s != "" {
      JoinedRaw(s[1..]);
      assert s == [s[0]] + s[1..];
      if s[0] == '/' {
        assert ([""] + RawParts(s[1..]))[1..] == RawParts(s[1..]);
      } else {
        JoinLetter(s[0], RawParts(s[1..]));
      }
    }
  }

  predicate PlainComponent(part: string) {
    '/' !in part && part != "" && part != "." && part != ".." && part != ".git" && part != ".autopilot"
  }

  /** A path is accepted exactly when it is a non-empty row of plain components, at most 240 bytes of
      composed text without backslashes and control characters. */
  lemma PathsExactly(u: Unicode, s: string)
    ensures RepoPath(u, s) <==>
      && (exists parts: seq<string> :: parts != [] && s == JoinParts(parts)
                                       && forall i :: 0 <= i < |parts| ==> PlainComponent(parts[i]))
      && Utf8Length(s) <= 240 && u.composed(s) && forall c :: c in s ==> c != '\\' && !u.other(c)
  {
    JoinedRaw(s);
    if RepoPath(u, s) {
      var parts := RawParts(s);
      forall i | 0 <= i < |parts|
        ensures PlainComponent(parts[i])
      {
        assert !ForbiddenPart(parts[i]);
      }
    }
    if parts: seq<string> :| parts != [] && s == JoinParts(parts)
                             && forall i :: 0 <= i < |parts| ==> PlainComponent(parts[i]) {
      RawOfJoined(parts);
      assert forall i :: 0 <= i < |parts| ==> !ForbiddenPart(parts[i]);
      assert s == "" ==> RawParts(s) == [""] && ForbiddenPart("");
    }
    assert forall i :: 0 <= i < |s| ==> s[i] in s;
  }

  // ---------------------------------------------------------------- contents

  /** A character an edit may write: a line feed, a tab, or no control character at all. */
  predicate Writable(u: Unicode, c: char) {
    c == '\n' || c == '\t' || (32 <= c as int != 127 && c as int != 0xfeff && !u.other(c))
  }

  predicate OneFinalNewline(s: string) {
    s != "" && s[|s| - 1] == '\n' && !(|s| >= 2 && s[|s| - 2] == '\n')
  }

  /** A content is accepted exactly when all of it may be written and it ends in exactly one newline.
      (The delete character is of the category Other; it is refused by name too.) */
  lemma ContentsExactly(u: Unicode, s: string)
    ensures TextContent(u, s) <==> OneFinalNewline(s) && forall c :: c in s ==> Writable(u, c)
  {
    if TextContent(u, s) {
      forall c | c in s
        ensures Writable(u, c)
      {
        var i :| 0 <= i < |s| && s[i] == c;
      }
    }
    assert forall i :: 0 <= i < |s| ==> s[i] in s;
  }

  // ---------------------------------------------------------------- the list

  predicate Ascending(edits: seq<Edit>) {
    forall i, j :: 0 <= i < j < |edits| ==>
      edits[i].path != edits[j].path && Le(Codes(edits[i].path), Codes(edits[j].path))
  }

  lemma AscendingIsSorted(edits: seq<Edit>)
    ensures StrictlySorted(PathsOf(edits)) <==> Ascending(edits)
  {
    if StrictlySorted(PathsOf(edits)) {
      forall i, j | 0 <= i < j < |edits|
        ensures edits[i].path != edits[j].path && Le(Codes(edits[i].path), Codes(edits[j].path))
      {
        assert PathsOf(edits)[i] != PathsOf(edits)[j];
      }
    }
  }

  predicate Formed(u: Unicode, e: Edit) {
    && RepoPath(u, e.path) && TextContent(u, e.content)
    && (e.op == Create ==> e.before == None) && (e.op == Modify ==> e.before.Some?)
  }

  lemma FormedIsValid(u: Unicode, e: Edit)
    ensures ValidEdit(u, e) <==> Formed(u, e)
  {
  }

  lemma EachFormed(u: Unicode, edits: seq<Edit>)
    ensures (forall i :: 0 <= i < |edits| ==> ValidEdit(u, edits[i])) <==> forall e :: e in edits ==> Formed(u, e)
  {
    forall e
      ensures ValidEdit(u, e) <==> Formed(u, e)
    {
      FormedIsValid(u, e);
    }
    assert forall i :: 0 <= i < |edits| ==> edits[i] in edits;
  }

  /** A list is accepted exactly when it has one to eighty edits, each with an accepted path and content
      and a preimage exactly if it modifies, on ascending paths, with 400000 bytes at most in all. */
  lemma AcceptedExactly(u: Unicode, edits: seq<Edit>)
    ensures Acceptable(u, edits) <==>
      && 1 <= |edits| <= 80 && Ascending(edits) && Utf8Length(Together(edits)) <= 400_000
      && forall e :: e in edits ==> Formed(u, e)
  {
    TotalIsOfAll(edits);
    EachFormed(u, edits);
    AscendingIsSorted(edits);
  }

  // ---------------------------------------------------------------- the bound state

  lemma {:induction false} DirectoryOfJoined(front: string, leaf: string)
    requires '/' !in leaf
    ensures Directory(front + "/" + leaf) == front + "/" && Directory(leaf) == ""
  {
    var path := front + "/" + leaf;
    if leaf == "" {
      assert path == front + "/";
    } else {
      assert path[..|path| - 1] == front + "/" + leaf[..|leaf| - 1];
      DirectoryOfJoined(front, leaf[..|leaf| - 1]);
    }
  }

  /** The parent of a path is what stands before its last slash, a dot without one. */
  lemma ParentsAre(front: string, leaf: string)
    requires '/' !in leaf
    ensures ParentOf(front + "/" + leaf) == front && ParentOf(leaf) == "."
  {
    DirectoryOfJoined(front, leaf);
    assert (front + "/")[..|front|] == front;
  }

  /** A list is bound to a state exactly when the policy allows every path and each edit either creates
      an unlisted path in a listed directory, or modifies a listed file away from the very content the
      state lists. */
  lemma BoundExactly(state: State, allowYellow: bool, goals: seq<string>, edits: seq<Edit>)
    ensures BoundTo(state, allowYellow, goals, edits) <==>
      forall e :: e in edits ==>
        && Allowed(allowYellow, e.path, goals)
        && (e.op == Create ==> e.path !in state.files && ParentOf(e.path) in state.directories)
        && (e.op == Modify ==> e.path in state.files && e.before == Some(state.files[e.path])
                               && e.content != state.files[e.path])
  {
    DeniedExactly(allowYellow, PathsOf(edits), goals);
    assert forall i :: 0 <= i < |edits| ==> edits[i] in edits && PathsOf(edits)[i] == edits[i].path;
    if BoundTo(state, allowYellow, goals, edits) {
      forall e | e in edits
        ensures Allowed(allowYellow, e.path, goals) && BoundEdit(state, e)
      {
        var i :| 0 <= i < |edits| && edits[i] == e;
        assert PathsOf(edits)[i] in PathsOf(edits);
      }
    }
  }

  // ---------------------------------------------------------------- temporary names

  /** The number a row of decimal digits stands for. */
  function NumberOf(s: string): int {
    if s == "" then 0 else 10 * NumberOf(s[..|s| - 1]) + (s[|s| - 1] as int - 48)
  }

  predicate Decimal(s: string) {
    s != "" && (forall c :: c in s ==> '0' <= c <= '9') && (|s| > 1 ==> s[0] != '0')
  }

  /** Numbers are written in decimal, without leading zeros. */
  lemma {:induction false} DigitsAreDecimal(n: nat)
    ensures Decimal(Digits(n)) && NumberOf(Digits(n)) == n
  {
    if n < 10 {
      assert [('0' as int + n) as char][..0] == "";
    } else {
      DigitsAreDecimal(n / 10);
      var front, last := Digits(n / 10), [('0' as int + n % 10) as char];
      assert (front + last)[..|front + last| - 1] == front && (front + last)[|front + last| - 1] == last[0];
      assert front == ['0'] ==> NumberOf(front) == 0;
    }
  }

  function Attempt(pid: nat, counter: nat): string {
    ".autopilot-" + Digits(pid) + "-" + Digits(counter) + ".tmp"
  }

  lemma NoSlashJoined(a: string, b: string)
    requires '/' !in a && '/' !in b
    ensures '/' !in a + b
  {
  }

  lemma AttemptHasNoSlash(pid: nat, counter: nat)
    ensures '/' !in Attempt(pid, counter)
  {
    DigitsAreDecimal(pid);
    DigitsAreDecimal(counter);
    var a := ".autopilot-" + Digits(pid);
    var b := a + "-";
    var c := b + Digits(counter);
    NoSlashJoined(".autopilot-", Digits(pid));
    NoSlashJoined(a, "-");
    NoSlashJoined(b, Digits(counter));
    NoSlashJoined(c, ".tmp");
  }

  lemma NamedInDirectory(path: string, pid: nat, counter: nat)
    ensures TemporaryName(path, pid, counter) == Directory(path) + Attempt(pid, counter)
  {
  }

  /** A temporary stands beside its target, under a name of the process and the attempt. */
  lemma TemporaryIsBeside(front: string, leaf: string, pid: nat, counter: nat)
    requires '/' !in leaf
    ensures TemporaryName(front + "/" + leaf, pid, counter) == front + "/" + Attempt(pid, counter)
    ensures ParentOf(TemporaryName(front + "/" + leaf, pid, counter)) == ParentOf(front + "/" + leaf) == front
  {
    NamedInDirectory(front + "/" + leaf, pid, counter);
    DirectoryOfJoined(front, leaf);
    AttemptHasNoSlash(pid, counter);
    ParentsAre(front, Attempt(pid, counter));
    ParentsAre(front, leaf);
  }

  /** No two attempts share a name. */
  lemma AttemptsDiffer(path: string, pid: nat, m: nat, n: nat)
    requires TemporaryName(path, pid, m) == TemporaryName(path, pid, n)
    ensures m == n
  {
    var head := Directory(path) + ".autopilot-" + Digits(pid) + "-";
    MiddleIs(head, Digits(m), Digits(n), ".tmp");
    DigitsAreDecimal(m);
    DigitsAreDecimal(n);
  }

  lemma MiddleIs(head: string, a: string, b: string, tail: string)
    requires head + a + tail == head + b + tail
    ensures a == b
  {
    var s := head + a + tail;
    assert |a| == |b|;
    assert s[|head|..|head| + |a|] == a && s[|head|..|head| + |b|] == b;
  }
}
