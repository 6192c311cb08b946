/** What one turn of the autopilot's loop comes to, and what the next builder is told, in the answers of
    the models, git and the checks themselves. */
module AutopilotLaws {
  import opened Options
  import opened AutopilotPolicy
  import opened AutopilotRuns

  // ---------------------------------------------------------------- one turn

  /** The builder answers, and every file it declares is allowed. */
  predicate Declares(s: Setting, reply: BuilderReply) {
    reply.Proposal? && forall p :: p in reply.declared ==> s.allowed(p)
  }

  /** git takes the patch: it is readable, touches a file, and finds each one as it expects it. */
  predicate Taken(tree: Tree, patch: Patch) {
    && patch.clean && |patch.changes| > 0
    && forall p :: p in patch.changes ==>
         match patch.changes[p].before
         case None => p !in tree
         case Some(text) => p in tree && tree[p] == text
  }

  /** Every name git reports of the tree is allowed. */
  ghost predicate ReportsAllowed(s: Setting, tree: Tree) {
    forall p, n :: p in Dirty(s.repo.head, tree) && Reported(s.repo, tree, p) == Some(n) ==> s.allowed(n)
  }

  predicate Passes(checks: seq<CheckResult>) {
    forall c :: c in checks ==> c.passed
  }

  predicate Approves(reply: ReviewerReply) {
    reply.Review? && reply.approved && forall f :: f in reply.findings ==> f.severity != "P0" && f.severity != "P1"
  }

  lemma TakenApplies(tree: Tree, patch: Patch)
    ensures Taken(tree, patch) <==> Applies(tree, patch)
  {
    if Taken(tree, patch) {
      forall p | p in patch.changes
        ensures Lookup(tree, p) == patch.changes[p].before
      {
      }
    }
    if Applies(tree, patch) {
      forall p | p in patch.changes
        ensures match patch.changes[p].before
                case None => p !in tree
                case Some(text) => p in tree && tree[p] == text
      {
        assert Lookup(tree, p) == patch.changes[p].before;
      }
    }
  }

  lemma NoneFails(xs: seq<string>, ok: string -> bool)
    ensures Failing(xs, ok) == [] <==> forall x :: x in xs ==> ok(x)
  {
    FailingFails(xs, ok);
    if Failing(xs, ok) != [] {
      assert Failing(xs, ok)[0] in Failing(xs, ok);
    }
  }

  lemma ReportsAuthorised(s: Setting, tree: Tree)
    ensures ReportsAllowed(s, tree) <==> AuthorisedIn(s.allowed, s.repo, tree)
  {
    NoneFails(ChangedIn(s.repo, tree), s.allowed);
    forall n
      ensures n in ChangedIn(s.repo, tree) <==>
                exists p :: p in Dirty(s.repo.head, tree) && Reported(s.repo, tree, p) == Some(n)
    {
      ListsReports(s.repo, tree, n);
    }
  }

  lemma PassesAll(checks: seq<CheckResult>)
    ensures Passes(checks) <==> AllPassed(checks)
  {
    if Passes(checks) {
      assert forall i :: 0 <= i < |checks| ==> checks[i] in checks;
    }
  }

  lemma ApprovedCompletes(reply: ReviewerReply, iteration: nat, changed: seq<string>)
    ensures var e := ReviewedEvent(reply, iteration, changed);
            if reply.NoReviewer? then e == ProviderUnavailable(false)
            else if Approves(reply) then e == RunCompleted(iteration, changed)
            else e == ReviewRejected(iteration, reply.findings)
  {
    if reply.Review? && Approves(reply) {
      assert forall i :: 0 <= i < |reply.findings| ==> reply.findings[i] in reply.findings;
    }
  }

  lemma JudgedIs(s: Setting, iteration: nat, tree: Tree, changed: seq<string>)
    ensures var e, checks := JudgedEvent(s, iteration, tree, changed), s.verifier(iteration, tree);
            var review := s.reviewer(iteration, tree, checks);
            if !Passes(checks) then e == ChecksFailed(iteration, checks)
            else if review.NoReviewer? then e == ProviderUnavailable(false)
            else if Approves(review) then e == RunCompleted(iteration, changed)
            else e == ReviewRejected(iteration, review.findings)
  {
    PassesAll(s.verifier(iteration, tree));
    ApprovedCompletes(s.reviewer(iteration, tree, s.verifier(iteration, tree)), iteration, changed);
  }

  /** Which of its events a turn makes, and when the patch stays: it stays exactly when all it declares
      is allowed, git takes it, and all git then reports is allowed; it then completes the run exactly
      when every check passes and the review approves without a P0 or P1 finding. */
  lemma TurnExactly(s: Setting, iteration: nat, feedback: seq<Finding>, tree: Tree)
    ensures var t, reply := TurnOf(s, iteration, feedback, tree), s.builder(iteration, feedback, tree);
      && (reply.NoBuilder? ==> t == Turn(ProviderUnavailable(true), tree))
      && (reply.Proposal? && !Declares(s, reply) ==>
            && t.event.PolicyBlock? && t.tree == tree
            && forall p :: p in t.event.paths <==> p in reply.declared && !s.allowed(p))
      && (Declares(s, reply) && !Taken(tree, reply.patch) ==> t == Turn(PatchRejected(iteration), tree))
      && (Declares(s, reply) && Taken(tree, reply.patch) ==>
            var patched := Patched(tree, reply.patch);
            if !ReportsAllowed(s, patched) then
              && t.event.PolicyBlock? && t.tree == tree
              && forall n :: n in t.event.paths <==> n in ChangedIn(s.repo, patched) && !s.allowed(n)
            else t == Turn(JudgedEvent(s, iteration, patched, ChangedIn(s.repo, patched)), patched))
  {
    var reply := s.builder(iteration, feedback, tree);
    if reply.Proposal? {
      NoneFails(reply.declared, s.allowed);
      FailingFails(reply.declared, s.allowed);
      FailingFails(ChangedIn(s.repo, Patched(tree, reply.patch)), s.allowed);
      TakenApplies(tree, reply.patch);
      ReportsAuthorised(s, Patched(tree, reply.patch));
    }
  }

  lemma TurnCompletesExactly(s: Setting, iteration: nat, feedback: seq<Finding>, tree: Tree)
    ensures var reply := s.builder(iteration, feedback, tree);
            TurnOf(s, iteration, feedback, tree).event.RunCompleted? <==>
              && Declares(s, reply) && Taken(tree, reply.patch)
              && var patched := Patched(tree, reply.patch);
                 var checks := s.verifier(iteration, patched);
                 ReportsAllowed(s, patched) && Passes(checks) && Approves(s.reviewer(iteration, patched, checks))
  {
    TurnExactly(s, iteration, feedback, tree);
    var reply := s.builder(iteration, feedback, tree);
    if reply.Proposal? {
      var patched := Patched(tree, reply.patch);
      JudgedIs(s, iteration, patched, ChangedIn(s.repo, patched));
    }
  }

  // ---------------------------------------------------------------- what the next builder is told

  /** `told` speaks of the checks at `which`, the failed ones in their order and no others. */
  predicate TellsAt(checks: seq<CheckResult>, told: seq<Finding>, which: seq<nat>) {
    && |which| == |told|
    && (forall i, j :: 0 <= i < j < |which| ==> which[i] < which[j])
    && (forall k :: 0 <= k < |checks| ==> (k in which <==> !checks[k].passed))
    && (forall i :: 0 <= i < |which| ==>
          which[i] < |checks|
          && told[i] == Finding("P1", "Check failed: " + checks[which[i]].name, checks[which[i]].tail))
  }

  ghost predicate TellsFailures(checks: seq<CheckResult>, told: seq<Finding>) {
    exists which: seq<nat> :: TellsAt(checks, told, which)
  }

  /** One check more: nothing to tell if it passed, one finding more if it failed. */
  lemma OneMoreTold(checks: seq<CheckResult>, told: seq<Finding>, which: seq<nat>)
    requires checks != [] && TellsAt(checks[..|checks| - 1], told, which)
    ensures var n, last := |checks| - 1, checks[|checks| - 1];
      && (last.passed ==> TellsAt(checks, told, which))
      && (!last.passed ==>
            TellsAt(checks, told + [Finding("P1", "Check failed: " + last.name, last.tail)], which + [n]))
  {
    var n, front := |checks| - 1, checks[..|checks| - 1];
    assert forall k :: 0 <= k < n ==> front[k] == checks[k];
    assert forall i :: 0 <= i < |which| ==> which[i] != n;
    var more := which + [n];
    assert forall k :: k in more <==> k in which || k == n;
  }

  lemma {:induction false} FailedAreTold(checks: seq<CheckResult>) returns (which: seq<nat>)
    ensures TellsAt(checks, FailedChecks(checks), which)
  {
    if checks == [] {
      which := [];
    } else {
      var n := |checks| - 1;
      which := FailedAreTold(checks[..n]);
      OneMoreTold(checks, FailedChecks(checks[..n]), which);
      if !checks[n].passed {
        which := which + [n];
      }
    }
  }

  /** What an event leaves for the next builder: a finding for each failed check with its name and
      tail, in order and at least one; the findings of the review; or that the patch was rejected. */
  ghost predicate Tells(e: Event, told: seq<Finding>) {
    match e
    case ChecksFailed(_, checks) => TellsFailures(checks, told) && told != []
    case ReviewRejected(_, findings) => told == findings
    case PatchRejected(_) => |told| == 1 && told[0].severity == "P1" && told[0].title == "Patch rejected"
    case _ => false
  }

  lemma FailureTells(e: Event, iteration: nat)
    requires FailureOf(e, iteration)
    ensures Tells(e, FeedbackOf(e))
  {
    if e.ChecksFailed? {
      var which := FailedAreTold(e.checks);
      var k :| 0 <= k < |e.checks| && !e.checks[k].passed;
      assert k in which;
    }
  }

  /** Over a whole run: the first builder is told nothing, and every later one exactly what the failure
      before it says. */
  lemma BuilderIsToldTheFailure(s: Setting, tree: Tree, k: nat)
    requires s.limit >= 1 && k < |RunOf(s, tree).asked|
    ensures var h := RunOf(s, tree);
      && |h.asked| <= |h.events|
      && if k == 0 then h.asked[k] == [] else Tells(h.events[k - 1], h.asked[k])
  {
    var h := RunOf(s, tree);
    TurnsAreGood(s);
    HistoryShape(TurnsOf(s), s.limit, 1, [], tree);
    if k > 0 {
      assert FailureOf(h.events[k - 1], 1 + (k - 1));
      FailureTells(h.events[k - 1], k);
    }
  }

  // ---------------------------------------------------------------- how a run ends

  /** A completed run stands on exactly the checks of its tree, all passed, and on the review of them,
      which approves. */
  lemma StandsOnExactly(s: Setting, iteration: nat, tree: Tree, checks: seq<CheckResult>, findings: seq<Finding>)
    ensures StandsOn(s, iteration, tree, checks, findings) <==>
      && checks == s.verifier(iteration, tree) && Passes(checks)
      && var review := s.reviewer(iteration, tree, checks);
         review.Review? && Approves(review) && review.findings == findings
  {
    PassesAll(checks);
    var review := s.reviewer(iteration, tree, checks);
    if review.Review? && Approves(review) {
      assert forall i :: 0 <= i < |findings| ==> review.findings == findings ==> findings[i] in review.findings;
    }
  }

  /** The status a report ends with tells its last event. */
  lemma StatusTellsTheEnd(e: Event)
    requires Terminal(e)
    ensures StatusAfter(e) == Completed <==> e.RunCompleted?
    ensures StatusAfter(e) == BlockedPolicy <==> e.PolicyBlock?
    ensures StatusAfter(e) == BlockedAuth <==> e.ProviderUnavailable?
    ensures StatusAfter(e) == Failed <==> e.IterationLimit?
  {
  }
}
