/** Two bound edit lists that preflight refuses: one creates a file that exists but is not listed by
    the state it is bound to, as an ignored file is not, and one modifies a listed file that is not
    plain text. */
module EditExamples {
  import opened Options
  import opened AutopilotPolicy
  import opened FullFile
  import opened Materialize
  import opened EditRules
  import opened PathExamples

  const Plain := Unicode(c => false, s => true)

  const Created := [Edit(Create, Target, None, "a\n")]
  const Modified := [Edit(Modify, Beside, Some("a\r\n"), "a\n")]

  /** The state of a checkout that lists `docs/b` alone. */
  const Listed := State(map[Beside := "a\r\n"], {"docs"})
  const Carriage := Entry(1, "a\r\n", true, false)
  const Ignored := Entry(2, "z\n", true, true)

  lemma ListedIsLive(files: Files)
    requires Beside in files && files[Beside] == Carriage
    ensures StateIsLive(Listed, files)
  {
    assert Above("docs", Beside);
    forall d, p | p in Listed.files && Above(d, p)
      ensures d == "docs"
    {
      assert p[|d|] == '/' && p[..|d|] == d;
      assert |d| == 4;
    }
  }

  // ---------------------------------------------------------------- the edits are valid

  lemma PartsLetter(s: string, head: string, rest: seq<string>)
    requires s != "" && s[0] != '/' && RawParts(s[1..]) == [head] + rest
    ensures RawParts(s) == [[s[0]] + head] + rest
  {
    assert ([head] + rest)[1..] == rest;
  }

  lemma {:induction false} RawPartsJoined(head: string, tail: string)
    requires forall i :: 0 <= i < |head| ==> head[i] != '/'
    ensures RawParts(head + "/" + tail) == [head] + RawParts(tail) && RawParts(head) == [head]
  {
    if head == "" {
      assert head + "/" + tail == "/" + tail;
    } else {
      RawPartsJoined(head[1..], tail);
      assert (head + "/" + tail)[1..] == head[1..] + "/" + tail;
      assert head == [head[0]] + head[1..];
      PartsLetter(head + "/" + tail, head[1..], RawParts(tail));
      PartsLetter(head, head[1..], []);
    }
  }

  lemma {:induction false} Utf8Bound(s: string)
    ensures Utf8Length(s) <= 4 * |s|
  {
    if s != "" {
      Utf8Bound(s[..|s| - 1]);
    }
  }

  lemma TwoRawParts(head: string, tail: string, path: string)
    requires path == head + "/" + tail && '/' !in head && '/' !in tail
    ensures RawParts(path) == [head, tail]
  {
    RawPartsJoined(head, tail);
    RawPartsJoined(tail, "");
  }

  lemma DocsRawParts(path: string)
    requires path == Target || path == Beside
    ensures RawParts(path) == ["docs", [path[5]]]
  {
    TwoRawParts("docs", [path[5]], path);
  }

  lemma NotForbidden(part: string)
    requires part != "" && part[0] != '.'
    ensures !ForbiddenPart(part)
  {
  }

  lemma DocsIsRepoPath(path: string)
    requires path == Target || path == Beside
    ensures RepoPath(Plain, path)
  {
    DocsRawParts(path);
    NotForbidden("docs");
    NotForbidden([path[5]]);
    Utf8Bound(path);
  }

  lemma OneAcceptable(e: Edit)
    requires (e.path == Target || e.path == Beside) && e.content == "a\n" && (e.op == Create <==> e.before == None)
    ensures Acceptable(Plain, [e])
  {
    DocsIsRepoPath(e.path);
    assert TextContent(Plain, "a\n");
    Utf8Bound("a\n");
    assert [e][..0] == [];
    assert TotalBytes([e]) == Utf8Length("a\n");
  }

  lemma OneBound(e: Edit)
    requires (e.path == Target || e.path == Beside) && BoundEdit(Listed, e)
    ensures BoundTo(Listed, false, [], [e])
  {
    DocsAllowed(e.path);
    assert PathsOf([e]) == [e.path];
    DeniedExactly(false, [e.path], []);
  }

  lemma CreatedBound()
    ensures BoundTo(Listed, false, [], Created)
  {
    assert Target[..5] == "docs/" && Directory("docs/") == "docs/";
    assert ParentOf(Target) == "docs";
    OneBound(Created[0]);
  }

  lemma ModifiedBound()
    ensures BoundTo(Listed, false, [], Modified)
  {
    assert "a\r\n"[1] != "a\n"[1];
    OneBound(Modified[0]);
  }

  // ---------------------------------------------------------------- and preflight refuses them

  /** Accepted, bound to a live state, and refused: the path it creates holds an ignored file. */
  lemma CreationMayNotBeReady()
    ensures var files: Files := map[Beside := Carriage, Target := Ignored];
            && Acceptable(Plain, Created) && BoundTo(Listed, false, [], Created) && StateIsLive(Listed, files)
            && !Ready(files, Created)
  {
    var files: Files := map[Beside := Carriage, Target := Ignored];
    OneAcceptable(Created[0]);
    CreatedBound();
    ListedIsLive(files);
    assert !FitsContents(ContentsOf(files), Created[0]);
  }

  /** Accepted, bound to a live state, creating nothing, and refused: the file it modifies has a
      carriage return, which the state may list and preflight may not read. */
  lemma ModificationMayNotBeReady()
    ensures var files: Files := map[Beside := Carriage];
            && Acceptable(Plain, Modified) && BoundTo(Listed, false, [], Modified) && StateIsLive(Listed, files)
            && CreatesNothingTaken(files, Modified) && !Ready(files, Modified)
  {
    OneAcceptable(Modified[0]);
    ModifiedBound();
    ListedIsLive(map[Beside := Carriage]);
    assert Modified[0].path in map[Beside := Carriage];
  }
}
