/** The path policy of the development autopilot. */
module AutopilotPolicy {

  datatype Tier = Green | Yellow | Red

  datatype Verdict =
    | EscapingPath | SecretPath | TradingAuthority | OutsideGoal | YellowEnabled | YellowDisabled
    | ResearchPath | NotAllowlisted

  datatype Decision = Decision(allowed: bool, tier: Tier, reason: Verdict)

  const RedPrefixes := ["infra/systemd/", "src/atp/brokers/", "src/atp/execution/", "src/atp/live/",
                        "src/atp/risk/", "src/atp/riskcontrol/", "src/atp/runtime/", "src/atp/services/"]
  const RedNames := [".env", "atp.env", "secrets", "credentials", "id_rsa", "id_ed25519"]
  const YellowPrefixes := ["infra/", ".github/workflows/"]
  const GreenPrefixes := ["src/atp/autopilot/", "src/atp/brain/", "src/atp/research/", "tests/", "docs/",
                          "frontend/", ".github/ISSUE_TEMPLATE/"]

  // ---------------------------------------------------------------- text

  /** Python's whitespace. */
  predicate IsSpace(c: char) {
    var n := c as int;
    || 0x9 <= n <= 0xd || 0x1c <= n <= 0x20 || n == 0x85 || n == 0xa0 || n == 0x1680
    || 0x2000 <= n <= 0x200a || n == 0x2028 || n == 0x2029 || n == 0x202f || n == 0x205f || n == 0x3000
  }

  predicate IsSlash(c: char) {
    c == '/'
  }

  function StripLeft(s: string, drop: char -> bool): string {
    if s != "" && drop(s[0]) then StripLeft(s[1..], drop) else s
  }

  function StripRight(s: string, drop: char -> bool): string {
    if s != "" && drop(s[|s| - 1]) then StripRight(s[..|s| - 1], drop) else s
  }

  function Cut(s: string): (r: (string, string))
    ensures |r.1| < |s| || s == ""
  {
    if s == "" then ("", "")
    else if s[0] == '/' then ("", s[1..])
    else var (head, tail) := Cut(s[1..]); ([s[0]] + head, tail)
  }

  /** The components of a path: empty ones and single dots vanish. */
  function Parts(s: string): seq<string>
    decreases |s|
  {
    if s == "" then []
    else
      var (head, tail) := Cut(s);
      (if head == "" || head == "." then [] else [head]) + Parts(tail)
  }

  function JoinParts(parts: seq<string>): string {
    if parts == [] then ""
    else if |parts| == 1 then parts[0]
    else parts[0] + "/" + JoinParts(parts[1..])
  }

  function Components(path: string): seq<string> {
    Parts(StripLeft(StripRight(StripLeft(path, IsSpace), IsSpace), IsSlash))
  }

  /** `str(PurePosixPath(path.strip().lstrip("/")))`: never empty. */
  function Normalized(path: string): string {
    var parts := Components(path);
    if parts == [] then "." else JoinParts(parts)
  }

  function Lower(s: string): (r: string)
    ensures |r| == |s|
  {
    seq(|s|, i requires 0 <= i < |s| =>
      if 'A' <= s[i] <= 'Z' then (s[i] as int + 32) as char else s[i])
  }

  predicate OccursAt(s: string, t: string, i: nat) {
    i + |t| <= |s| && s[i..i + |t|] == t
  }

  predicate Contains(s: string, t: string) {
    exists i :: 0 <= i <= |s| && OccursAt(s, t, i)
  }

  predicate StartsWithAny(s: string, prefixes: seq<string>) {
    exists i :: 0 <= i < |prefixes| && prefixes[i] <= s
  }

  predicate Secret(s: string) {
    exists i :: 0 <= i < |RedNames| && Contains(Lower(s), RedNames[i])
  }

  function WithoutTrailingSlashes(s: string): string {
    StripRight(s, IsSlash)
  }

  predicate InGoal(path: string, goals: seq<string>) {
    goals == [] || exists i :: 0 <= i < |goals| && (path == WithoutTrailingSlashes(goals[i]) || goals[i] <= path)
  }

  // ---------------------------------------------------------------- classification

  /** `classify_path`: the first rule that applies. */
  function ClassifyPath(allowYellow: bool, path: string, goals: seq<string>): Decision {
    var normalized := Normalized(path);
    if ".." in Components(path) then Decision(false, Red, EscapingPath)
    else if Secret(normalized) then Decision(false, Red, SecretPath)
    else if StartsWithAny(normalized, RedPrefixes) then Decision(false, Red, TradingAuthority)
    else if !InGoal(normalized, goals) then Decision(false, Red, OutsideGoal)
    else if StartsWithAny(normalized, YellowPrefixes)
    then Decision(allowYellow, Yellow, if allowYellow then YellowEnabled else YellowDisabled)
    else if StartsWithAny(normalized, GreenPrefixes) then Decision(true, Green, ResearchPath)
    else Decision(false, Red, NotAllowlisted)
  }

  predicate Allowed(allowYellow: bool, path: string, goals: seq<string>) {
    ClassifyPath(allowYellow, path, goals).allowed
  }

  /** The texts that fail a test, in their order. */
  function Failing(xs: seq<string>, ok: string -> bool): seq<string> {
    if xs == [] then []
    else Failing(xs[..|xs| - 1], ok) + if ok(xs[|xs| - 1]) then [] else [xs[|xs| - 1]]
  }

  /** Exactly the failing texts are listed. */
  lemma {:induction false} FailingFails(xs: seq<string>, ok: string -> bool)
    ensures forall x :: x in Failing(xs, ok) <==> x in xs && !ok(x)
  {
    if xs != [] {
      FailingFails(xs[..|xs| - 1], ok);
      assert xs == xs[..|xs| - 1] + [xs[|xs| - 1]];
    }
  }

  function Allows(allowYellow: bool, goals: seq<string>): string -> bool {
    path => Allowed(allowYellow, path, goals)
  }

  /** The paths `authorize_files` denies. */
  function Denied(allowYellow: bool, paths: seq<string>, goals: seq<string>): seq<string> {
    Failing(paths, Allows(allowYellow, goals))
  }

  /** They are exactly the paths that are not allowed. */
  lemma DeniedExactly(allowYellow: bool, paths: seq<string>, goals: seq<string>)
    ensures forall p :: p in Denied(allowYellow, paths, goals) <==> p in paths && !Allowed(allowYellow, p, goals)
    ensures AllAllowed(allowYellow, paths, goals) <==> forall p :: p in paths ==> Allowed(allowYellow, p, goals)
  {
    FailingFails(paths, Allows(allowYellow, goals));
    var denied := Denied(allowYellow, paths, goals);
    if denied != [] {
      assert denied[0] in denied;
    }
  }

  predicate AllAllowed(allowYellow: bool, paths: seq<string>, goals: seq<string>) {
    Denied(allowYellow, paths, goals) == []
  }

  /** A goal's scope only narrows what the policy allows: no goal opens a path. */
  lemma GoalOnlyNarrows(allowYellow: bool, path: string, goals: seq<string>)
    ensures Allowed(allowYellow, path, goals)
       <==> Allowed(allowYellow, path, []) && InGoal(Normalized(path), goals)
  {
  }

  /** Without the yellow flag only allowlisted paths pass, and trading authority, secrets and
      escaping paths never do, flag or not. */
  lemma AllowedIsBounded(allowYellow: bool, path: string, goals: seq<string>)
    requires Allowed(allowYellow, path, goals)
    ensures !StartsWithAny(Normalized(path), RedPrefixes) && !Secret(Normalized(path)) && ".." !in Components(path)
    ensures StartsWithAny(Normalized(path), GreenPrefixes)
         || (allowYellow && StartsWithAny(Normalized(path), YellowPrefixes))
  {
  }

  lemma {:induction false} JoinedNotEmpty(parts: seq<string>)
    requires parts != [] && forall i :: 0 <= i < |parts| ==> parts[i] != ""
    ensures JoinParts(parts) != ""
  {
  }

  lemma {:induction false} PartsNotEmpty(s: string)
    ensures forall i :: 0 <= i < |Parts(s)| ==> Parts(s)[i] != ""
    decreases |s|
  {
    if s != "" {
      PartsNotEmpty(Cut(s).1);
    }
  }

  /** A component that `PurePosixPath` keeps as it is. */
  predicate PlainPart(part: string) {
    part != "" && part != "." && forall i :: 0 <= i < |part| ==> part[i] != '/'
  }

  lemma {:induction false} CutJoined(head: string, tail: string)
    requires forall i :: 0 <= i < |head| ==> head[i] != '/'
    ensures Cut(head + "/" + tail) == (head, tail) && Cut(head) == (head, "")
  {
    if head == "" {
      assert head + "/" + tail == "/" + tail;
    } else {
      CutJoined(head[1..], tail);
      assert (head + "/" + tail)[1..] == head[1..] + "/" + tail;
      assert head == [head[0]] + head[1..];
    }
  }

  /** Joining plain components and taking the path apart again gives them back. */
  lemma {:induction false} PartsOfJoined(parts: seq<string>)
    requires forall i :: 0 <= i < |parts| ==> PlainPart(parts[i])
    ensures Parts(JoinParts(parts)) == parts
  {
    if parts != [] {
      PartsOfJoined(parts[1..]);
      CutJoined(parts[0], JoinParts(parts[1..]));
      assert parts == [parts[0]] + parts[1..];
      if |parts| == 1 {
        assert Parts(parts[0]) == [parts[0]] + Parts("");
      }
    }
  }

  /** The guard against an empty path never fires: an empty path is the path `.`, which is not
      allowlisted. */
  lemma NormalizedNeverEmpty(path: string)
    ensures Normalized(path) != ""
    ensures Components(path) == [] ==> !Allowed(true, path, [])
  {
    PartsNotEmpty(StripLeft(StripRight(StripLeft(path, IsSpace), IsSpace), IsSlash));
    if Components(path) != [] {
      JoinedNotEmpty(Components(path));
    } else {
      assert Normalized(path) == ".";
    }
  }
}
