/** What the path policy allows, written out: the names, the prefixes, the goal, and letter case. */
module PolicyLaws {
  import opened AutopilotPolicy

  /** The same letter, the first perhaps a capital. */
  predicate SameLetter(a: char, b: char) {
    a == b || ('A' <= a <= 'Z' && b as int - a as int == 32)
  }

  /** The name stands in the text at `i`, in whatever case. */
  predicate NameAt(s: string, name: string, i: nat) {
    i + |name| <= |s| && forall k :: 0 <= k < |name| ==> SameLetter(s[i + k], name[k])
  }

  const SecretNames := {".env", "atp.env", "secrets", "credentials", "id_rsa", "id_ed25519"}

  ghost predicate NamesSecret(s: string) {
    exists name, i: nat :: name in SecretNames && NameAt(s, name, i)
  }

  predicate NoCapitals(name: string) {
    forall k :: 0 <= k < |name| ==> !('A' <= name[k] <= 'Z')
  }

  lemma LoweredAt(s: string, name: string, i: nat)
    requires NoCapitals(name)
    ensures OccursAt(Lower(s), name, i) <==> NameAt(s, name, i)
  {
    if i + |name| <= |s| {
      var part := Lower(s)[i..i + |name|];
      assert forall k :: 0 <= k < |name| ==> part[k] == Lower(s)[i + k];
    }
  }

  lemma RedNamesAre(name: string)
    ensures name in SecretNames <==>
              exists j :: 0 <= j < |RedNames| && RedNames[j] == name
    ensures name in SecretNames ==> NoCapitals(name)
  {
    assert RedNames[0] == ".env" && RedNames[1] == "atp.env" && RedNames[2] == "secrets";
    assert RedNames[3] == "credentials" && RedNames[4] == "id_rsa" && RedNames[5] == "id_ed25519";
  }

  /** A text is secret exactly when one of the six names stands in it, in whatever case. */
  lemma SecretExactly(s: string)
    ensures Secret(s) <==> NamesSecret(s)
  {
    if Secret(s) {
      var j :| 0 <= j < |RedNames| && Contains(Lower(s), RedNames[j]);
      var i :| 0 <= i <= |Lower(s)| && OccursAt(Lower(s), RedNames[j], i);
      RedNamesAre(RedNames[j]);
      LoweredAt(s, RedNames[j], i);
    }
    if NamesSecret(s) {
      var name, i: nat :| name in SecretNames && NameAt(s, name, i);
      RedNamesAre(name);
      LoweredAt(s, name, i);
      var j :| 0 <= j < |RedNames| && RedNames[j] == name;
    }
  }

  // ---------------------------------------------------------------- prefixes and goals

  predicate Trading(s: string) {
    || "infra/systemd/" <= s || "src/atp/brokers/" <= s || "src/atp/execution/" <= s || "src/atp/live/" <= s
    || "src/atp/risk/" <= s || "src/atp/riskcontrol/" <= s || "src/atp/runtime/" <= s || "src/atp/services/" <= s
  }

  predicate Infrastructure(s: string) {
    "infra/" <= s || ".github/workflows/" <= s
  }

  predicate Research(s: string) {
    || "src/atp/autopilot/" <= s || "src/atp/brain/" <= s || "src/atp/research/" <= s || "tests/" <= s
    || "docs/" <= s || "frontend/" <= s || ".github/ISSUE_TEMPLATE/" <= s
  }

  lemma PrefixesAre(s: string)
    ensures StartsWithAny(s, RedPrefixes) <==> Trading(s)
    ensures StartsWithAny(s, YellowPrefixes) <==> Infrastructure(s)
    ensures StartsWithAny(s, GreenPrefixes) <==> Research(s)
  {
    RedAre(s);
    GreenAre(s);
    assert YellowPrefixes[0] == "infra/" && YellowPrefixes[1] == ".github/workflows/";
  }

  lemma RedAre(s: string)
    ensures StartsWithAny(s, RedPrefixes) <==> Trading(s)
  {
    assert RedPrefixes[0] == "infra/systemd/" && RedPrefixes[1] == "src/atp/brokers/";
    assert RedPrefixes[2] == "src/atp/execution/" && RedPrefixes[3] == "src/atp/live/";
    assert RedPrefixes[4] == "src/atp/risk/" && RedPrefixes[5] == "src/atp/riskcontrol/";
    assert RedPrefixes[6] == "src/atp/runtime/" && RedPrefixes[7] == "src/atp/services/";
  }

  lemma GreenAre(s: string)
    ensures StartsWithAny(s, GreenPrefixes) <==> Research(s)
  {
    assert GreenPrefixes[0] == "src/atp/autopilot/" && GreenPrefixes[1] == "src/atp/brain/";
    assert GreenPrefixes[2] == "src/atp/research/" && GreenPrefixes[3] == "tests/" && GreenPrefixes[4] == "docs/";
    assert GreenPrefixes[5] == "frontend/" && GreenPrefixes[6] == ".github/ISSUE_TEMPLATE/";
  }

  function Slashes(n: nat): string {
    seq(n, i => '/')
  }

  /** A goal names a path by the path itself, with slashes behind it or not, or by a beginning of it. */
  predicate Covers(goal: string, path: string) {
    goal <= path || exists n: nat :: n <= |goal| && goal == path + Slashes(n) && (path == "" || path[|path| - 1] != '/')
  }

  lemma {:induction false} TrailingSlashes(s: string) returns (n: nat)
    ensures n <= |s| && s == WithoutTrailingSlashes(s) + Slashes(n)
    ensures WithoutTrailingSlashes(s) == "" || WithoutTrailingSlashes(s)[|WithoutTrailingSlashes(s)| - 1] != '/'
  {
    if s != "" && s[|s| - 1] == '/' {
      var m := TrailingSlashes(s[..|s| - 1]);
      n := m + 1;
      assert Slashes(n) == Slashes(m) + "/" && s == s[..|s| - 1] + "/";
    } else {
      n := 0;
      assert s + Slashes(0) == s;
    }
  }

  lemma {:induction false} SlashesStripped(path: string, n: nat)
    requires path == "" || path[|path| - 1] != '/'
    ensures WithoutTrailingSlashes(path + Slashes(n)) == path
  {
    if n == 0 {
      assert path + Slashes(0) == path;
    } else {
      var s := path + Slashes(n);
      assert s[..|s| - 1] == path + Slashes(n - 1);
      SlashesStripped(path, n - 1);
    }
  }

  lemma GoalCovers(goal: string, path: string)
    ensures path == WithoutTrailingSlashes(goal) || goal <= path <==> Covers(goal, path)
  {
    if path == WithoutTrailingSlashes(goal) {
      var n := TrailingSlashes(goal);
    }
    if !(goal <= path) && Covers(goal, path) {
      var n: nat :| n <= |goal| && goal == path + Slashes(n);
      SlashesStripped(path, n);
    }
  }

  lemma InGoalExactly(path: string, goals: seq<string>)
    ensures InGoal(path, goals) <==> goals == [] || exists g :: g in goals && Covers(g, path)
  {
    if goals != [] && InGoal(path, goals) {
      var i :| 0 <= i < |goals| && (path == WithoutTrailingSlashes(goals[i]) || goals[i] <= path);
      GoalCovers(goals[i], path);
    }
    if g :| g in goals && Covers(g, path) {
      GoalCovers(g, path);
      var i :| 0 <= i < |goals| && goals[i] == g;
    }
  }

  /** The reason given, and the tier: the first rule that applies. */
  lemma ReasonExactly(allowYellow: bool, path: string, goals: seq<string>)
    ensures var n, d := Normalized(path), ClassifyPath(allowYellow, path, goals);
            var climbs, covered := ".." in Components(path), goals == [] || exists g :: g in goals && Covers(g, n);
            var open := !climbs && !NamesSecret(n) && !Trading(n);
      && (d.reason == EscapingPath <==> climbs)
      && (d.reason == SecretPath <==> !climbs && NamesSecret(n))
      && (d.reason == TradingAuthority <==> !climbs && !NamesSecret(n) && Trading(n))
      && (d.reason == OutsideGoal <==> open && !covered)
      && (d.reason == YellowEnabled <==> open && covered && Infrastructure(n) && allowYellow)
      && (d.reason == YellowDisabled <==> open && covered && Infrastructure(n) && !allowYellow)
      && (d.reason == ResearchPath <==> open && covered && !Infrastructure(n) && Research(n))
      && (d.tier == Green <==> d.reason == ResearchPath)
      && (d.tier == Yellow <==> d.reason == YellowEnabled || d.reason == YellowDisabled)
  {
    var n := Normalized(path);
    SecretExactly(n);
    PrefixesAre(n);
    InGoalExactly(n, goals);
  }

  /** The characters stripped from a path's ends. */
  lemma SpacesAre(c: char)
    ensures IsSpace(c) <==> c as int in {9, 10, 11, 12, 13, 28, 29, 30, 31, 32, 133, 160, 5760, 8192, 8193, 8194,
                                         8195, 8196, 8197, 8198, 8199, 8200, 8201, 8202, 8232, 8233, 8239, 8287, 12288}
  {
  }

  lemma {:induction false} LeftStripped(a: string, s: string, drop: char -> bool)
    requires forall c :: c in a ==> drop(c)
    ensures StripLeft(a + s, drop) == StripLeft(s, drop)
  {
    if a == "" {
      assert a + s == s;
    } else {
      assert (a + s)[1..] == a[1..] + s;
      LeftStripped(a[1..], s, drop);
    }
  }

  lemma {:induction false} RightStripped(s: string, b: string, drop: char -> bool)
    requires forall c :: c in b ==> drop(c)
    ensures StripRight(s + b, drop) == StripRight(s, drop)
  {
    if b == "" {
      assert s + b == s;
    } else {
      assert (s + b)[..|s + b| - 1] == s + b[..|b| - 1];
      RightStripped(s, b[..|b| - 1], drop);
    }
  }

  lemma {:induction false} AllStripped(b: string, drop: char -> bool)
    requires forall c :: c in b ==> drop(c)
    ensures StripLeft(b, drop) == ""
  {
    if b != "" {
      AllStripped(b[1..], drop);
    }
  }

  lemma {:induction false} LeftThenRight(s: string, b: string, drop: char -> bool)
    requires forall c :: c in b ==> drop(c)
    ensures StripRight(StripLeft(s + b, drop), drop) == StripRight(StripLeft(s, drop), drop)
  {
    if s == "" {
      assert s + b == b;
      AllStripped(b, drop);
    } else if drop(s[0]) {
      assert (s + b)[1..] == s[1..] + b;
      LeftThenRight(s[1..], b, drop);
    } else {
      RightStripped(s, b, drop);
    }
  }

  lemma NoSpaceInFront(a: string, path: string)
    requires (forall c :: c in a ==> c == '/') && path != "" && !IsSpace(path[0])
    ensures StripLeft(a + path, IsSpace) == a + path && StripLeft(path, IsSpace) == path
  {
    if a != "" {
      assert (a + path)[0] == a[0] && a[0] in a;
    } else {
      assert a + path == path;
    }
  }

  lemma {:induction false} RightOfFront(a: string, path: string)
    requires path != "" && !IsSpace(path[0])
    ensures StripRight(a + path, IsSpace) == a + StripRight(path, IsSpace)
  {
    if IsSpace(path[|path| - 1]) {
      assert (a + path)[..|a + path| - 1] == a + path[..|path| - 1];
      RightOfFront(a, path[..|path| - 1]);
    }
  }

  lemma SlashesGo(a: string, path: string)
    requires (forall c :: c in a ==> c == '/') && path != "" && !IsSpace(path[0])
    ensures StripLeft(StripRight(a + path, IsSpace), IsSlash) == StripLeft(StripRight(path, IsSpace), IsSlash)
  {
    RightOfFront(a, path);
    LeftStripped(a, StripRight(path, IsSpace), IsSlash);
  }

  lemma SpacesGo(before: string, path: string, after: string)
    requires (forall c :: c in before ==> IsSpace(c)) && (forall c :: c in after ==> IsSpace(c))
    ensures Components(before + path + after) == Components(path)
  {
    assert before + path + after == before + (path + after);
    LeftStripped(before, path + after, IsSpace);
    LeftThenRight(path, after, IsSpace);
  }

  lemma FrontSlashesGo(slashes: nat, path: string)
    requires path != "" && !IsSpace(path[0])
    ensures Components(Slashes(slashes) + path) == Components(path)
  {
    NoSpaceInFront(Slashes(slashes), path);
    SlashesGo(Slashes(slashes), path);
  }

  lemma DecidedByComponents(allowYellow: bool, path: string, other: string, goals: seq<string>)
    requires Components(path) == Components(other)
    ensures ClassifyPath(allowYellow, path, goals) == ClassifyPath(allowYellow, other, goals)
  {
  }

  /** Spaces around a path and slashes before it change no decision. */
  lemma PaddingChangesNothing(allowYellow: bool, before: string, slashes: nat, path: string, after: string,
                              goals: seq<string>)
    requires (forall c :: c in before ==> IsSpace(c)) && (forall c :: c in after ==> IsSpace(c))
    requires path != "" && !IsSpace(path[0])
    ensures ClassifyPath(allowYellow, before + (Slashes(slashes) + path) + after, goals)
         == ClassifyPath(allowYellow, path, goals)
  {
    SpacesGo(before, Slashes(slashes) + path, after);
    FrontSlashesGo(slashes, path);
    DecidedByComponents(allowYellow, before + (Slashes(slashes) + path) + after, path, goals);
  }

  /** The whole policy: a path is allowed exactly when it does not climb, names no secret, is no part
      of trading, is covered by the goal if there is one, and is research or, where enabled,
      infrastructure. */
  lemma AllowedExactly(allowYellow: bool, path: string, goals: seq<string>)
    ensures var n := Normalized(path);
            Allowed(allowYellow, path, goals) <==>
              && ".." !in Components(path) && !NamesSecret(n) && !Trading(n)
              && (goals == [] || exists g :: g in goals && Covers(g, n))
              && (if Infrastructure(n) then allowYellow else Research(n))
  {
    var n := Normalized(path);
    SecretExactly(n);
    PrefixesAre(n);
    InGoalExactly(n, goals);
  }
}
