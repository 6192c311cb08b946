/** Two runs that complete with a denied file changed, because git does not report it by its name. */
module AutopilotExamples {
  import opened Options
  import opened AutopilotPolicy
  import opened AutopilotRuns
  import opened PathExamples

  const Commit: Tree := map["docs/b" := "x\n"]

  /** A builder that declares nothing and creates one file. */
  function Creation(path: string): Patch {
    Patch(true, map[path := Change(None, Some("y\n"))])
  }

  /** One iteration; the checks and the review find nothing wrong. */
  function Approving(path: string, status: (Tree, string) -> Option<string>): Setting {
    Setting(Allows(false, []), Repo(Commit, status), 1,
            (iteration: nat, feedback: seq<Finding>, tree: Tree) => Proposal([], Creation(path)),
            (iteration: nat, tree: Tree) => [],
            (iteration: nat, tree: Tree, checks: seq<CheckResult>) => Review(true, []))
  }

  function With(path: string): Tree {
    Commit[path := "y\n"]
  }

  lemma CreationKept(path: string)
    requires path !in Commit
    ensures Applies(Commit, Creation(path)) && Patched(Commit, Creation(path)) == With(path)
    ensures Dirty(Commit, With(path)) == {path} && Dirty(Commit, Commit) == {}
  {
  }

  lemma ListsOne(repo: Repo, tree: Tree, path: string)
    requires Dirty(repo.head, tree) == {path}
    ensures ChangedIn(repo, tree) == if Reported(repo, tree, path).Some? then [Reported(repo, tree, path).value] else []
  {
    ListedInAnyOrder(repo, tree, [path]);
    NamesAppend([], path, NameFor(repo, tree));
    assert [] + [path] == [path];
  }

  lemma StartsClean(repo: Repo)
    ensures Dirty(repo.head, repo.head) == {} && ChangedIn(repo, repo.head) == []
  {
    ListedInAnyOrder(repo, repo.head, []);
  }

  /** A creation reported under an allowed name, or not at all, completes the run. */
  lemma CreationCompletes(path: string, status: (Tree, string) -> Option<string>)
    requires path !in Commit
    requires AuthorisedIn(Allows(false, []), Repo(Commit, status), With(path))
    ensures var s := Approving(path, status);
            && RunOf(s, Commit).events == [RunCompleted(1, ChangedIn(s.repo, With(path)))]
            && RunOf(s, Commit).tree == With(path)
  {
    var s := Approving(path, status);
    CreationKept(path);
    assert TurnOf(s, 1, [], Commit) == Turn(RunCompleted(1, ChangedIn(s.repo, With(path))), With(path));
    assert TurnsOf(s)(1, [], Commit) == TurnOf(s, 1, [], Commit);
  }

  // ---------------------------------------------------------------- an ignored file

  /** git ignores `.env` and prints every other name as it is. */
  const Ignoring: (Tree, string) -> Option<string> := (tree: Tree, p: string) => if p == Dotenv then None else Some(p)

  /** A run from a clean tree completes, reports no change, and has created `.env`, which no goal and
      no flag allows. */
  lemma IgnoredFileSlips()
    ensures var s := Approving(Dotenv, Ignoring);
            && ChangedIn(s.repo, Commit) == [] && RunOf(s, Commit).events == [RunCompleted(1, [])]
            && Dotenv !in Commit && Dotenv in RunOf(s, Commit).tree && !s.allowed(Dotenv)
  {
    var s := Approving(Dotenv, Ignoring);
    DotenvDenied(false, []);
    StartsClean(s.repo);
    CreationKept(Dotenv);
    ListsOne(s.repo, With(Dotenv), Dotenv);
    CreationCompletes(Dotenv, Ignoring);
  }

  // ---------------------------------------------------------------- a name with an arrow

  /** git prints a name with spaces in quotes. */
  const Quoting: (Tree, string) -> Option<string> :=
    (tree: Tree, p: string) => Some(if ' ' in p then "\"" + p + "\"" else p)

  lemma ServiceIsReportedAsTarget()
    ensures NameIn("\"" + Service + "\"") == Target
  {
    var before, after := "\"infra/systemd/x", "docs/a\"";
    var rest := "-> " + after;
    assert Arrow[1..] + after == rest;
    forall i | 0 <= i <= |rest|
      ensures !OccursAt(rest, Arrow, i)
    {
      if i + |Arrow| <= |rest| {
        assert rest[i..i + |Arrow|][0] == rest[i] && rest[i..i + |Arrow|][1] == rest[i + 1];
      }
    }
    assert before + Arrow + after == "\"" + Service + "\"";
    AfterLastArrow(before, after);
    assert after[..|after| - 1] == Target;
  }

  lemma ServiceReported(tree: Tree)
    ensures Reported(Repo(Commit, Quoting), tree, Service) == Some(Target)
  {
    assert Service[15] == ' ';
    ServiceIsReportedAsTarget();
  }

  lemma TargetAuthorised(repo: Repo, tree: Tree)
    requires ChangedIn(repo, tree) == [Target]
    ensures AuthorisedIn(Allows(false, []), repo, tree)
  {
    DocsAllowed(Target);
  }

  /** A run from a clean tree completes, reports an allowed path it has not touched, and has created
      a service file, which no goal and no flag allows. */
  lemma ArrowNameSlips()
    ensures var s := Approving(Service, Quoting);
            && ChangedIn(s.repo, Commit) == [] && RunOf(s, Commit).events == [RunCompleted(1, [Target])]
            && Service !in Commit && Service in RunOf(s, Commit).tree && !s.allowed(Service)
  {
    var s := Approving(Service, Quoting);
    ServiceDenied(false, []);
    StartsClean(s.repo);
    CreationKept(Service);
    ServiceReported(With(Service));
    ListsOne(s.repo, With(Service), Service);
    TargetAuthorised(s.repo, With(Service));
    CreationCompletes(Service, Quoting);
  }
}
