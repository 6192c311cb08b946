/** The bounded builder, checks and review loop of the development autopilot: the report and the
    worktree it updates in place, tied turn by turn to AutopilotRuns. */
module Orchestrator {
  import opened AutopilotPolicy
  import opened AutopilotRuns
  import opened Ordering

  class RunReport {
    var status: Status
    var iteration: nat
    var changedFiles: seq<string>
    var findings: seq<Finding>
    var checks: seq<CheckResult>
    var policyReasons: seq<string>
    var events: seq<Event>

    constructor ()
      ensures status == Planned && iteration == 0 && events == [] && policyReasons == []
      ensures changedFiles == [] && findings == [] && checks == []
    {
      status, iteration, events, policyReasons := Planned, 0, [], [];
      changedFiles, findings, checks := [], [], [];
    }

    method Log(e: Event)
      modifies this`events
      ensures events == old(events) + [e]
    {
      events := events + [e];
    }
  }

  class DevelopmentAutopilot {
    const allowYellow: bool
    const repo: Repo
    var tree: Tree

    const builder: (nat, seq<Finding>, Tree) -> BuilderReply
    const verifier: (nat, Tree) -> seq<CheckResult>
    const reviewer: (nat, Tree, seq<CheckResult>) -> ReviewerReply

    constructor (allowYellow: bool, repo: Repo, tree: Tree,
                 builder: (nat, seq<Finding>, Tree) -> BuilderReply,
                 verifier: (nat, Tree) -> seq<CheckResult>,
                 reviewer: (nat, Tree, seq<CheckResult>) -> ReviewerReply)
      ensures this.repo == repo && this.tree == tree && this.allowYellow == allowYellow
      ensures this.builder == builder && this.verifier == verifier && this.reviewer == reviewer
    {
      this.allowYellow, this.repo, this.tree := allowYellow, repo, tree;
      this.builder, this.verifier, this.reviewer := builder, verifier, reviewer;
    }

    ghost function SettingFor(goal: Goal): Setting {
      Setting(Allows(allowYellow, goal.allowedPaths), repo, goal.maxIterations, builder, verifier, reviewer)
    }

    ghost function Changed(): seq<string>
      reads this`tree
    {
      ChangedIn(repo, tree)
    }

    /** The names git reports of the differing paths, in whatever order it lists them. */
    method ListNames() returns (names: seq<string>, ghost order: seq<string>)
      ensures NoRepeats(order) && forall p :: p in order <==> p in Dirty(repo.head, tree)
      ensures names == NamesOf(order, NameFor(repo, tree))
    {
      var all := Dirty(repo.head, tree);
      var todo := all;
      var name := NameFor(repo, tree);
      order, names := [], [];
      while todo != {}
        invariant todo <= all && NoRepeats(order)
        invariant forall p :: p in order <==> p in all - todo
        invariant names == NamesOf(order, name)
        decreases |todo|
      {
        var p :| p in todo;
        assert p !in order;
        NamesAppend(order, p, name);
        names := names + if name(p).Some? then [name(p).value] else [];
        todo := todo - {p};
        order := order + [p];
      }
    }

    /** `_changed_files`. */
    method ChangedFiles() returns (paths: seq<string>)
      ensures paths == Changed()
    {
      var names;
      ghost var order;
      names, order := ListNames();
      ListedInAnyOrder(repo, tree, order);
      paths := SortBy(names, TextKey);
    }

    /** The changed files and those the policy denies. */
    method Authorize(goals: seq<string>) returns (changed: seq<string>, denied: seq<string>)
      ensures changed == Changed() && denied == Denied(allowYellow, changed, goals)
    {
      changed := ChangedFiles();
      denied := Denied(allowYellow, changed, goals);
    }

    /** `_apply_patch`. */
    method ApplyPatch(patch: Patch) returns (ok: bool)
      modifies this`tree
      ensures ok == Applies(old(tree), patch)
      ensures tree == if ok then Patched(old(tree), patch) else old(tree)
    {
      ok := Applies(tree, patch);
      if ok {
        tree := Patched(tree, patch);
      }
    }

    /** `git apply -R` of the patch just applied. */
    method Undo(patch: Patch, ghost before: Tree)
      requires Applies(before, patch) && tree == Patched(before, patch)
      modifies this`tree
      ensures tree == before
    {
      ReverseUndoes(before, patch);
      var undone := ApplyPatch(Reversed(patch));
    }

    /** The tree, the checks and the review a completed run stands on. */
    ghost predicate Accepted(goal: Goal, report: RunReport)
      reads this`tree, report`iteration, report`checks, report`findings, report`changedFiles
    {
      && StandsOn(SettingFor(goal), report.iteration, tree, report.checks, report.findings)
      && report.changedFiles == Changed()
    }

    /** The review of a tree that passed its checks. */
    method ReviewTree(report: RunReport, iteration: nat) returns (e: Event, next: seq<Finding>)
      requires report.status != Completed
      modifies report`status, report`findings
      ensures e == ReviewedEvent(reviewer(iteration, tree, report.checks), iteration, report.changedFiles)
      ensures if Terminal(e) then report.status == StatusAfter(e)
              else next == FeedbackOf(e) && report.status != Completed
      ensures report.status == Completed ==>
                && reviewer(iteration, tree, report.checks) == Review(true, report.findings)
                && NoneBlocking(report.findings)
    {
      next := [];
      report.status := Reviewing;
      var review := reviewer(iteration, tree, report.checks);
      if review.NoReviewer? {
        report.status := BlockedAuth;
        e := ProviderUnavailable(false);
      } else {
        report.findings := review.findings;
        if review.approved && NoneBlocking(review.findings) {
          report.status := Completed;
          e := RunCompleted(iteration, report.changedFiles);
        } else {
          next := review.findings;
          e := ReviewRejected(iteration, review.findings);
        }
      }
    }

    /** The second half of an iteration, on a tree the policy has authorised. */
    method CheckAndReview(goal: Goal, report: RunReport, iteration: nat, actual: seq<string>)
      returns (e: Event, next: seq<Finding>)
      requires report.iteration == iteration
      modifies report
      ensures e == JudgedEvent(SettingFor(goal), iteration, tree, actual)
      ensures report.events == old(report.events) + [e] && report.iteration == iteration
      ensures report.changedFiles == actual
      ensures if Terminal(e) then report.status == StatusAfter(e)
              else next == FeedbackOf(e) && report.status != Completed
      ensures report.status == Completed ==>
                StandsOn(SettingFor(goal), iteration, tree, report.checks, report.findings)
    {
      report.changedFiles := actual;
      report.status := Verifying;
      report.checks := verifier(iteration, tree);
      if !AllPassed(report.checks) {
        next := FailedChecks(report.checks);
        e := ChecksFailed(iteration, report.checks);
      } else {
        e, next := ReviewTree(report, iteration);
      }
      report.Log(e);
    }

    /** A denied list of paths ends the run. */
    method Block(report: RunReport, denied: seq<string>) returns (e: Event)
      modifies report
      ensures e == PolicyBlock(denied) && report.events == old(report.events) + [e]
      ensures report.status == BlockedPolicy && report.iteration == old(report.iteration)
      ensures report.policyReasons == old(report.policyReasons) + denied
    {
      report.status := BlockedPolicy;
      report.policyReasons := report.policyReasons + denied;
      e := PolicyBlock(denied);
      report.Log(e);
    }

    /** The patch of an authorised proposal. */
    method TryPatch(goal: Goal, report: RunReport, iteration: nat, patch: Patch) returns (e: Event, next: seq<Finding>)
      requires report.iteration == iteration && report.status == Building
      modifies this`tree, report
      ensures Turn(e, tree) == PatchTurn(SettingFor(goal), iteration, patch, old(tree))
      ensures report.events == old(report.events) + [e]
      ensures if Terminal(e) then report.status == StatusAfter(e)
              else next == FeedbackOf(e) && report.status != Completed
      ensures report.status == Completed ==> Accepted(goal, report)
    {
      ghost var before := tree;
      var ok := ApplyPatch(patch);
      if !ok {
        e := PatchRejected(iteration);
        next := [Finding("P1", "Patch rejected", "")];
        report.Log(e);
        return;
      }
      var actual, denied;
      actual, denied := Authorize(goal.allowedPaths);
      if denied != [] {
        Undo(patch, before);
        next := [];
        e := Block(report, denied);
        return;
      }
      e, next := CheckAndReview(goal, report, iteration, actual);
    }

    /** One iteration of `run`: exactly the turn the oracles' answers call for.  The feedback is
        recorded in `asked` where the builder is called with it. */
    method Iterate(goal: Goal, report: RunReport, iteration: nat, feedback: seq<Finding>, asked0: seq<seq<Finding>>)
      returns (e: Event, next: seq<Finding>, asked: seq<seq<Finding>>)
      modifies this`tree, report
      ensures Turn(e, tree) == TurnOf(SettingFor(goal), iteration, feedback, old(tree))
      ensures report.events == old(report.events) + [e] && asked == asked0 + [feedback]
      ensures if Terminal(e) then report.status == StatusAfter(e)
              else next == FeedbackOf(e) && report.status != Completed
      ensures report.status == Completed ==> Accepted(goal, report)
    {
      next := [];
      report.iteration := iteration;
      report.status := Building;
      var proposal := builder(iteration, feedback, tree);
      asked := asked0 + [feedback];
      if proposal.NoBuilder? {
        report.status := BlockedAuth;
        e := ProviderUnavailable(true);
        report.Log(e);
        return;
      }
      var denied := Denied(allowYellow, proposal.declared, goal.allowedPaths);
      if denied != [] {
        e := Block(report, denied);
        return;
      }
      e, next := TryPatch(goal, report, iteration, proposal.patch);
    }

    /** One turn of the loop: the run ends as the history says, or is one turn further. */
    method TakeTurn(goal: Goal, report: RunReport, iteration: nat, feedback: seq<Finding>, asked0: seq<seq<Finding>>,
                    ghost whole: History)
      returns (over: bool, next: seq<Finding>, asked: seq<seq<Finding>>)
      requires iteration <= goal.maxIterations
      requires Ahead(SettingFor(goal), report.events, asked0, whole, iteration, feedback, tree)
      modifies this`tree, report
      ensures over ==> MakesUp(whole, report.events, asked, tree) && EndsWith(report.events, report.status)
      ensures !over ==> Ahead(SettingFor(goal), report.events, asked, whole, iteration + 1, next, tree)
      ensures !over ==> report.status != Completed
      ensures report.status == Completed ==> Accepted(goal, report)
    {
      ghost var events, before := report.events, tree;
      var e;
      e, next, asked := Iterate(goal, report, iteration, feedback, asked0);
      TurnTaken(SettingFor(goal), events, asked0, whole, iteration, feedback, before, e, tree);
      over := Terminal(e);
    }

    /** The iterations are used up. */
    method Exhaust(goal: Goal, report: RunReport, ghost feedback: seq<Finding>, asked: seq<seq<Finding>>,
                   ghost whole: History)
      requires Ahead(SettingFor(goal), report.events, asked, whole, goal.maxIterations + 1, feedback, tree)
      modifies report`status, report`events
      ensures MakesUp(whole, report.events, asked, tree) && EndsWith(report.events, report.status)
      ensures report.status == Failed
    {
      AllTaken(SettingFor(goal), report.events, asked, whole, feedback, tree);
      report.status := Failed;
      report.Log(IterationLimit(goal.maxIterations));
    }

    /** The loop of `run`: the whole history, event by event. */
    method Loop(goal: Goal, report: RunReport) returns (asked: seq<seq<Finding>>)
      requires report.events == [RunStarted] && report.status == Planned
      modifies this`tree, report
      ensures MakesUp(RunOf(SettingFor(goal), old(tree)), report.events, asked, tree)
      ensures EndsWith(report.events, report.status)
      ensures report.status == Completed ==> Accepted(goal, report)
    {
      ghost var whole := RunOf(SettingFor(goal), tree);
      asked := [];
      var feedback: seq<Finding> := [];
      var iteration := 1;
      NothingTaken(SettingFor(goal), tree);
      while iteration <= goal.maxIterations
        invariant 1 <= iteration <= goal.maxIterations + 1 && report.status != Completed
        invariant Ahead(SettingFor(goal), report.events, asked, whole, iteration, feedback, tree)
      {
        var over;
        over, feedback, asked := TakeTurn(goal, report, iteration, feedback, asked, whole);
        if over {
          return;
        }
        iteration := iteration + 1;
      }
      Exhaust(goal, report, feedback, asked, whole);
    }

    /** `run`: a dirty tree is refused untouched; from a clean one the run is exactly the history the
        oracles call for, its trace is well formed, every changed file git then reports is authorised, and
        a completed run stands on the tree, the checks and the review it reports. */
    method Run(goal: Goal) returns (report: RunReport, asked: seq<seq<Finding>>)
      requires ValidGoal(goal)
      modifies this`tree
      ensures fresh(report) && |asked| <= goal.maxIterations <= 10
      ensures old(Changed()) != [] ==>
                && report.status == BlockedPolicy && report.events == [PolicyBlock(old(Changed()))]
                && tree == old(tree) && asked == []
      ensures old(Changed()) == [] ==>
                var h := RunOf(SettingFor(goal), old(tree));
                && MakesUp(h, report.events, asked, tree)
                && Trace(report.events, report.status, asked, goal.maxIterations)
                && AuthorisedIn(Allows(allowYellow, goal.allowedPaths), repo, tree)
      ensures report.status == Completed ==> Accepted(goal, report)
    {
      report := new RunReport();
      var dirty := ChangedFiles();
      if dirty != [] {
        asked := [];
        report.status := BlockedPolicy;
        report.policyReasons := report.policyReasons + ["worktree must be clean before an unattended run"];
        report.Log(PolicyBlock(dirty));
        return;
      }
      CleanIsAuthorised(Allows(allowYellow, goal.allowedPaths), repo, tree);
      RunIsTrace(SettingFor(goal), tree);
      RunKeepsAuthorised(SettingFor(goal), tree);
      report.Log(RunStarted);
      asked := Loop(goal, report);
    }
  }

  /** The start and a history, as a run has logged, recorded and left them. */
  predicate MakesUp(h: History, events: seq<Event>, asked: seq<seq<Finding>>, tree: Tree) {
    events == [RunStarted] + h.events && asked == h.asked && tree == h.tree
  }

  predicate EndsWith(events: seq<Event>, status: Status) {
    events != [] && status == StatusAfter(events[|events| - 1])
  }

  /** What is logged so far and what is still to come make up the whole. */
  ghost predicate AheadBy(turns: Turns, limit: nat, events: seq<Event>, asked: seq<seq<Finding>>, whole: History,
                          iteration: nat, feedback: seq<Finding>, tree: Tree)
    requires iteration <= limit + 1
  {
    var rest := HistoryOf(turns, limit, iteration, feedback, tree);
    MakesUp(whole, events + rest.events, asked + rest.asked, rest.tree)
  }

  ghost predicate Ahead(s: Setting, events: seq<Event>, asked: seq<seq<Finding>>, whole: History, iteration: nat,
                        feedback: seq<Finding>, tree: Tree)
    requires iteration <= s.limit + 1
  {
    AheadBy(TurnsOf(s), s.limit, events, asked, whole, iteration, feedback, tree)
  }

  lemma NothingTaken(s: Setting, tree: Tree)
    ensures Ahead(s, [RunStarted], [], RunOf(s, tree), 1, [], tree)
  {
    assert [] + RunOf(s, tree).asked == RunOf(s, tree).asked;
  }

  lemma AllTaken(s: Setting, events: seq<Event>, asked: seq<seq<Finding>>, whole: History, feedback: seq<Finding>,
                 tree: Tree)
    requires Ahead(s, events, asked, whole, s.limit + 1, feedback, tree)
    ensures MakesUp(whole, events + [IterationLimit(s.limit)], asked, tree)
  {
    assert asked + [] == asked;
  }

  lemma TurnTakenBy(turns: Turns, limit: nat, events: seq<Event>, asked: seq<seq<Finding>>, whole: History,
                    iteration: nat, feedback: seq<Finding>, tree: Tree, t: Turn)
    requires iteration <= limit && turns(iteration, feedback, tree) == t
    requires AheadBy(turns, limit, events, asked, whole, iteration, feedback, tree)
    ensures Terminal(t.event) ==> MakesUp(whole, events + [t.event], asked + [feedback], t.tree)
    ensures !Terminal(t.event) ==>
              AheadBy(turns, limit, events + [t.event], asked + [feedback], whole, iteration + 1, FeedbackOf(t.event),
                      t.tree)
  {
    if !Terminal(t.event) {
      var rest := HistoryOf(turns, limit, iteration + 1, FeedbackOf(t.event), t.tree);
      assert events + ([t.event] + rest.events) == (events + [t.event]) + rest.events;
      assert asked + ([feedback] + rest.asked) == (asked + [feedback]) + rest.asked;
    }
  }

  lemma TurnsAre(s: Setting, iteration: nat, feedback: seq<Finding>, tree: Tree)
    ensures TurnsOf(s)(iteration, feedback, tree) == TurnOf(s, iteration, feedback, tree)
  {
  }

  lemma TurnTaken(s: Setting, events: seq<Event>, asked: seq<seq<Finding>>, whole: History, iteration: nat,
                  feedback: seq<Finding>, tree: Tree, e: Event, tree': Tree)
    requires iteration <= s.limit && Turn(e, tree') == TurnOf(s, iteration, feedback, tree)
    requires Ahead(s, events, asked, whole, iteration, feedback, tree)
    ensures Terminal(e) ==> MakesUp(whole, events + [e], asked + [feedback], tree')
    ensures !Terminal(e) ==> Ahead(s, events + [e], asked + [feedback], whole, iteration + 1, FeedbackOf(e), tree')
  {
    TurnsAre(s, iteration, feedback, tree);
    TurnTakenBy(TurnsOf(s), s.limit, events, asked, whole, iteration, feedback, tree, Turn(e, tree'));
  }
}
