/** Which edit lists are accepted, and what acceptance buys: a bound list fits the files it was
    bound to, and it fits them once. */
module EditRules {
  import opened Options
  import opened Ordering
  import opened AutopilotPolicy
  import opened FullFile
  import opened Materialize

  const MaxEditBytes := 400_000
  const MaxFiles := 80
  const MaxPathBytes := 240

  /** The Unicode tables: the characters of the category Other, and the texts in composed form. */
  datatype Unicode = Unicode(other: char -> bool, composed: string -> bool)

  function Utf8Length(s: string): nat {
    if s == "" then 0
    else
      var n := s[|s| - 1] as int;
      Utf8Length(s[..|s| - 1]) + if n < 0x80 then 1 else if n < 0x800 then 2 else if n < 0x1_0000 then 3 else 4
  }

  /** `split("/")`: empty components stay. */
  function RawParts(s: string): (parts: seq<string>)
    ensures parts != []
  {
    if s == "" then [""]
    else
      var rest := RawParts(s[1..]);
      if s[0] == '/' then [""] + rest else [[s[0]] + rest[0]] + rest[1..]
  }

  predicate ForbiddenPart(part: string) {
    part == "" || part == "." || part == ".." || part == ".git" || part == ".autopilot"
  }

  /** `_repo_path`. */
  predicate RepoPath(u: Unicode, s: string) {
    && s != "" && Utf8Length(s) <= MaxPathBytes && u.composed(s)
    && (forall i :: 0 <= i < |s| ==> s[i] != '\\' && !u.other(s[i]))
    && (forall i :: 0 <= i < |RawParts(s)| ==> !ForbiddenPart(RawParts(s)[i]))
  }

  /** `_text_content`. */
  predicate TextContent(u: Unicode, s: string) {
    && (forall i :: 0 <= i < |s| ==>
          && s[i] as int != 0xfeff && s[i] as int != 0 && s[i] != '\r' && s[i] as int != 0x7f
          && (s[i] as int < 32 || u.other(s[i]) ==> s[i] == '\n' || s[i] == '\t'))
    && |s| > 0 && s[|s| - 1] == '\n' && (|s| > 1 ==> s[|s| - 2] != '\n')
  }

  predicate ValidEdit(u: Unicode, e: Edit) {
    RepoPath(u, e.path) && TextContent(u, e.content) && (e.op == Create <==> e.before == None)
  }

  function TotalBytes(edits: seq<Edit>): nat {
    if edits == [] then 0
    else TotalBytes(edits[..|edits| - 1]) + Utf8Length(edits[|edits| - 1].content)
  }

  predicate Acceptable(u: Unicode, edits: seq<Edit>) {
    && 1 <= |edits| <= MaxFiles
    && (forall i :: 0 <= i < |edits| ==> ValidEdit(u, edits[i]))
    && StrictlySorted(PathsOf(edits))
    && TotalBytes(edits) <= MaxEditBytes
  }

  /** The edit rules of `validate_edit_output`. */
  method ValidateEdits(u: Unicode, edits: seq<Edit>) returns (ok: bool)
    ensures ok <==> Acceptable(u, edits)
  {
    if !(1 <= |edits| <= MaxFiles) {
      return false;
    }
    var total := 0;
    var paths: seq<string> := [];
    var i := 0;
    while i < |edits|
      invariant 0 <= i <= |edits| && total == TotalBytes(edits[..i]) && paths == PathsOf(edits[..i])
      invariant forall k :: 0 <= k < i ==> ValidEdit(u, edits[k])
    {
      var e := edits[i];
      if !ValidEdit(u, e) {
        return false;
      }
      assert edits[..i + 1][..i] == edits[..i];
      total := total + Utf8Length(e.content);
      paths := paths + [e.path];
      i := i + 1;
    }
    assert edits[..i] == edits;
    ok := StrictlySorted(paths) && total <= MaxEditBytes;
  }

  /** Accepted paths are their own sorted set: unique, and in the one order there is. */
  lemma AcceptedPathsAreCanonical(u: Unicode, edits: seq<Edit>)
    requires Acceptable(u, edits)
    ensures PathsOf(edits) == SortedSet(set p | p in PathsOf(edits)) && NoRepeats(PathsOf(edits))
  {
    StrictlySortedIsSortedSet(PathsOf(edits), set p | p in PathsOf(edits));
  }

  // ---------------------------------------------------------------- the trusted state

  /** `files` are the allowed files with their digests, `directories` those that hold them. */
  datatype State = State(files: map<string, Content>, directories: set<string>)

  /** `PurePosixPath(path).parent`: a dot for a path without a slash. */
  function ParentOf(path: string): string {
    var d := Directory(path);
    if d == "" then "." else d[..|d| - 1]
  }

  predicate BoundEdit(state: State, e: Edit) {
    match e.op
    case Create => e.path !in state.files && ParentOf(e.path) in state.directories
    case Modify => e.path in state.files && e.before == Some(state.files[e.path]) && e.content != state.files[e.path]
  }

  predicate AllBound(state: State, edits: seq<Edit>) {
    forall i :: 0 <= i < |edits| ==> BoundEdit(state, edits[i])
  }

  predicate BoundTo(state: State, allowYellow: bool, goals: seq<string>, edits: seq<Edit>) {
    && AllAllowed(allowYellow, PathsOf(edits), goals)
    && AllBound(state, edits)
  }

  /** The loop of `validate_output_against_state`. */
  method ValidatePreimages(state: State, edits: seq<Edit>) returns (ok: bool)
    ensures ok <==> AllBound(state, edits)
  {
    var i := 0;
    while i < |edits|
      invariant 0 <= i <= |edits| && AllBound(state, edits[..i])
    {
      var e := edits[i];
      if e.op == Create {
        if e.path in state.files || ParentOf(e.path) !in state.directories {
          return false;
        }
      } else if e.path !in state.files || e.before != Some(state.files[e.path]) {
        return false;
      } else if e.content == state.files[e.path] {
        return false;
      }
      assert edits[..i + 1] == edits[..i] + [e];
      i := i + 1;
    }
    assert edits[..i] == edits;
    return true;
  }

  /** The policy and preimage rules of `validate_output_against_state`. */
  method ValidateAgainstState(state: State, allowYellow: bool, goals: seq<string>, edits: seq<Edit>) returns (ok: bool)
    ensures ok <==> BoundTo(state, allowYellow, goals, edits)
  {
    var denied := Denied(allowYellow, PathsOf(edits), goals);
    if denied != [] {
      return false;
    }
    ok := ValidatePreimages(state, edits);
  }

  /** A directory on the way to a path. */
  predicate Above(directory: string, path: string) {
    0 < |directory| < |path| && directory <= path && path[|directory|] == '/'
  }

  /** The state lists regular files of the checkout and exactly the directories that hold them.  It
      need not list every file, ignored ones are missing, and it does not ask for plain text. */
  ghost predicate StateIsLive(state: State, files: Files) {
    && (forall p :: p in state.files ==> p in files && files[p].regular && files[p].content == state.files[p])
    && (forall d :: d in state.directories <==> exists p :: p in state.files && Above(d, p))
  }

  predicate CreatesNothingTaken(files: Files, edits: seq<Edit>) {
    forall i :: 0 <= i < |edits| && edits[i].op == Create ==> edits[i].path !in files
  }

  predicate ModifiesOnlyPlain(files: Files, edits: seq<Edit>) {
    forall i :: 0 <= i < |edits| && edits[i].op == Modify ==>
      edits[i].path in files && files[edits[i].path].plain
  }

  /** A list bound to a live state passes preflight exactly when the paths it creates are free on
      disk and the files it modifies are plain text; the state alone cannot tell either. */
  lemma BoundIsReady(state: State, allowYellow: bool, goals: seq<string>, files: Files, edits: seq<Edit>)
    requires BoundTo(state, allowYellow, goals, edits) && StateIsLive(state, files)
    ensures Ready(files, edits) <==> CreatesNothingTaken(files, edits) && ModifiesOnlyPlain(files, edits)
  {
    if Ready(files, edits) {
      forall i | 0 <= i < |edits| && edits[i].op == Create
        ensures edits[i].path !in files
      {
        assert FitsContents(ContentsOf(files), edits[i]);
      }
      forall i | 0 <= i < |edits| && edits[i].op == Modify
        ensures edits[i].path in files && files[edits[i].path].plain
      {
        assert BoundEdit(state, edits[i]);
      }
    }
    if CreatesNothingTaken(files, edits) && ModifiesOnlyPlain(files, edits) {
      forall i | 0 <= i < |edits|
        ensures FitsContents(ContentsOf(files), edits[i])
        ensures edits[i].path in files ==> files[edits[i].path].Safe()
      {
        assert BoundEdit(state, edits[i]);
      }
    }
  }

  /** A bound list is applied at most once: nowhere in the files it leaves does any of its edits
      fit again, so preflight refuses a second run. */
  lemma BoundAppliesOnce(u: Unicode, state: State, allowYellow: bool, goals: seq<string>, files: Files, files': Files,
                         edits: seq<Edit>)
    requires Acceptable(u, edits) && BoundTo(state, allowYellow, goals, edits)
    requires ContentsOf(files') == Apply(ContentsOf(files), edits)
    ensures !Ready(files', edits)
    ensures forall i :: 0 <= i < |edits| ==> !FitsContents(ContentsOf(files'), edits[i])
  {
    AcceptedPathsAreCanonical(u, edits);
    forall i | 0 <= i < |edits|
      ensures !FitsContents(ContentsOf(files'), edits[i])
    {
      assert BoundEdit(state, edits[i]);
      AppliedNoLongerFits(ContentsOf(files), edits, i);
    }
  }

  /** What a run leaves, path by path: the first `k` targets hold their new content, the other
      targets and every other original file hold what they held, a created path was free before,
      and anything else on the disk is a leftover temporary. */
  lemma LeavesMeans(u: Unicode, orig: Files, files: Files, edits: seq<Edit>, k: nat, left: set<string>, pid: nat)
    requires Acceptable(u, edits) && Leaves(orig, files, edits, k, left, pid) && (k > 0 ==> Ready(orig, edits))
    ensures forall i :: 0 <= i < k ==>
              && edits[i].path in files && files[edits[i].path].content == edits[i].content
              && (edits[i].op == Create ==> edits[i].path !in orig)
    ensures forall p :: p in orig && p !in PathsOf(edits[..k]) ==> p in files && files[p].content == orig[p].content
    ensures forall p :: p in files ==> p in orig || p in left || p in PathsOf(edits[..k])
    ensures forall p :: p in left ==>
              && p !in orig
              && exists i, n :: 0 <= i < |edits| && 0 <= n < 100 && p == TemporaryName(edits[i].path, pid, n)
  {
    var kept, done := Without(files, left), edits[..k];
    AcceptedPathsAreCanonical(u, edits);
    assert forall i :: 0 <= i < k ==> PathsOf(done)[i] == PathsOf(edits)[i];
    ApplyMeans(ContentsOf(orig), done);
    forall i | 0 <= i < k
      ensures edits[i].path in kept && kept[edits[i].path].content == edits[i].content
      ensures edits[i].op == Create ==> edits[i].path !in orig
    {
      assert done[i] == edits[i] && FitsContents(ContentsOf(orig), edits[i]);
      assert edits[i].path in ContentsOf(kept);
    }
    forall p | p in orig && p !in PathsOf(done)
      ensures p in kept && kept[p].content == orig[p].content
    {
      assert p in ContentsOf(orig) && p in ContentsOf(kept);
    }
    forall p | p in files && p !in orig && p !in left
      ensures p in PathsOf(done)
    {
      assert p in kept && p in ContentsOf(kept);
    }
  }

  // ---------------------------------------------------------------- the transport

  datatype Transported = Refused | Ran(outcome: Outcome)

  /** A list that may be materialised. */
  predicate Bound(u: Unicode, state: State, allowYellow: bool, goals: seq<string>, edits: seq<Edit>) {
    Acceptable(u, edits) && BoundTo(state, allowYellow, goals, edits)
  }

  /** Validation and binding. */
  method Validate(u: Unicode, state: State, allowYellow: bool, goals: seq<string>, edits: seq<Edit>) returns (ok: bool)
    ensures ok <==> Bound(u, state, allowYellow, goals, edits)
  {
    ok := ValidateEdits(u, edits);
    if ok {
      ok := ValidateAgainstState(state, allowYellow, goals, edits);
    }
  }

  lemma BoundPathsDistinct(u: Unicode, state: State, allowYellow: bool, goals: seq<string>, edits: seq<Edit>)
    requires Bound(u, state, allowYellow, goals, edits)
    ensures NoRepeats(PathsOf(edits))
  {
    AcceptedPathsAreCanonical(u, edits);
  }

  lemma AllApplied(orig: Files, files: Files, edits: seq<Edit>, pid: nat)
    requires Leaves(orig, files, edits, |edits|, {}, pid)
    ensures ContentsOf(files) == Apply(ContentsOf(orig), edits)
  {
    assert edits[..|edits|] == edits;
    assert Without(files, {}) == files;
  }

  /** Validation, binding, and then the materialisation. */
  method Transport(u: Unicode, state: State, allowYellow: bool, goals: seq<string>, disk: Disk, pid: nat,
                   edits: seq<Edit>)
    returns (r: Transported, committed: nat, ghost left: set<string>)
    modifies disk
    ensures r == Refused <==> !Acceptable(u, edits) || !BoundTo(state, allowYellow, goals, edits)
    ensures r == Refused ==> disk.files == old(disk.files) && committed == 0
    ensures r != Refused ==> Leaves(old(disk.files), disk.files, edits, committed, left, pid)
    ensures r == Ran(Materialized) ==> ContentsOf(disk.files) == Apply(ContentsOf(old(disk.files)), edits)
    ensures committed > 0 ==> Ready(old(disk.files), edits)
  {
    left := {};
    var ok := Validate(u, state, allowYellow, goals, edits);
    if !ok {
      return Refused, 0, {};
    }
    BoundPathsDistinct(u, state, allowYellow, goals, edits);
    var outcome;
    outcome, committed, left := Materialize.Materialize(disk, pid, edits);
    if outcome == Materialized {
      AllApplied(old(disk.files), disk.files, edits, pid);
    }
    r := Ran(outcome);
  }
}
