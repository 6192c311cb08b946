/** What a run of the development autopilot is: the worktree, the oracles, one turn of the loop and
    the whole history of turns.

    The two models, the checks and git are oracles: arbitrary functions of the iteration and of
    the tree they are shown. */
module AutopilotRuns {
  import opened AutopilotPolicy
  import opened Options
  import opened Ordering

  // ---------------------------------------------------------------- the worktree

  type Tree = map<string, string>

  function Lookup(tree: Tree, path: string): Option<string> {
    if path in tree then Some(tree[path]) else None
  }

  /** What a patch does to one file; an absent side is a creation or a deletion. */
  datatype Change = Change(before: Option<string>, after: Option<string>)

  /** `clean` is what git says of the text itself: a readable patch without whitespace errors. */
  datatype Patch = Patch(clean: bool, changes: map<string, Change>)

  /** `git apply` accepts the patch. */
  predicate Applies(tree: Tree, patch: Patch) {
    && patch.clean && patch.changes != map[]
    && forall p :: p in patch.changes ==> Lookup(tree, p) == patch.changes[p].before
  }

  /** `git apply`, which changes all the files or none. */
  function Patched(tree: Tree, patch: Patch): Tree {
    map p | p in tree.Keys + patch.changes.Keys &&
            (if p in patch.changes then patch.changes[p].after.Some? else true)
      :: if p in patch.changes then patch.changes[p].after.value else tree[p]
  }

  function Reversed(patch: Patch): Patch {
    patch.(changes := map p | p in patch.changes :: Change(patch.changes[p].after, patch.changes[p].before))
  }

  lemma PatchedLookup(tree: Tree, patch: Patch, p: string)
    ensures Lookup(Patched(tree, patch), p) == if p in patch.changes then patch.changes[p].after else Lookup(tree, p)
  {
  }

  /** `git apply -R` undoes `git apply`. */
  lemma ReverseUndoes(tree: Tree, patch: Patch)
    requires Applies(tree, patch)
    ensures Applies(Patched(tree, patch), Reversed(patch))
    ensures Patched(Patched(tree, patch), Reversed(patch)) == tree
  {
    var there := Patched(tree, patch);
    var back := Patched(there, Reversed(patch));
    forall p
      ensures Lookup(back, p) == Lookup(tree, p)
    {
      if p in patch.changes {
        assert Lookup(tree, p) == patch.changes[p].before;
      }
    }
    forall p
      ensures p in back <==> p in tree
    {
      assert Lookup(back, p) == Lookup(tree, p);
    }
    forall p | p in tree
      ensures back[p] == tree[p]
    {
      assert Lookup(back, p) == Lookup(tree, p);
    }
  }

  // ---------------------------------------------------------------- what git reports

  /** The commit, and what `git status` prints for a path of a tree that differs from it: its name,
      perhaps in quotes, or nothing if it is ignored. */
  datatype Repo = Repo(head: Tree, status: (Tree, string) -> Option<string>)

  const Arrow := " -> "

  /** `rsplit(" -> ", 1)[1]`, or the whole text if there is no arrow. */
  function AfterArrow(text: string): string {
    if text == "" then ""
    else if Contains(text[1..], Arrow) then AfterArrow(text[1..])
    else if Arrow <= text then text[|Arrow|..]
    else text
  }

  /** It is the text after the last arrow. */
  lemma {:induction false} AfterLastArrow(before: string, after: string)
    requires !Contains(Arrow[1..] + after, Arrow)
    ensures AfterArrow(before + Arrow + after) == after
  {
    var text := before + Arrow + after;
    if before == "" {
      assert text[1..] == Arrow[1..] + after;
      assert text[..|Arrow|] == Arrow && text[|Arrow|..] == after;
    } else {
      assert text[1..] == before[1..] + Arrow + after;
      AfterLastArrow(before[1..], after);
      assert OccursAt(text[1..], Arrow, |before| - 1);
    }
  }

  function NameIn(text: string): string {
    StripLeft(StripRight(AfterArrow(text), c => c == '"'), c => c == '"')
  }

  /** The name `_changed_files` takes from the line of a path. */
  function Reported(repo: Repo, tree: Tree, p: string): Option<string> {
    match repo.status(tree, p)
    case None => None
    case Some(text) => if text == "" then None else Some(NameIn(text))
  }

  function NamesOf(paths: seq<string>, name: string -> Option<string>): seq<string> {
    if paths == [] then []
    else (match name(paths[0]) case None => [] case Some(n) => [n]) + NamesOf(paths[1..], name)
  }

  function NameFor(repo: Repo, tree: Tree): string -> Option<string> {
    p => Reported(repo, tree, p)
  }

  /** The paths that differ from the commit. */
  function Dirty(head: Tree, tree: Tree): set<string> {
    set p | p in head.Keys + tree.Keys && Lookup(head, p) != Lookup(tree, p)
  }

  /** `_changed_files`: the names reported of them, sorted. */
  ghost function ChangedIn(repo: Repo, tree: Tree): seq<string> {
    SortBy(NamesOf(SortedSet(Dirty(repo.head, tree)), NameFor(repo, tree)), TextKey)
  }

  /** The policy allows every reported name for the goal. */
  ghost predicate AuthorisedIn(allowed: string -> bool, repo: Repo, tree: Tree) {
    Failing(ChangedIn(repo, tree), allowed) == []
  }

  lemma CleanIsAuthorised(allowed: string -> bool, repo: Repo, tree: Tree)
    requires ChangedIn(repo, tree) == []
    ensures AuthorisedIn(allowed, repo, tree)
  {
  }

  lemma {:induction false} NamesConcat(xs: seq<string>, ys: seq<string>, name: string -> Option<string>)
    ensures NamesOf(xs + ys, name) == NamesOf(xs, name) + NamesOf(ys, name)
  {
    if xs == [] {
      assert [] + ys == ys;
    } else {
      assert (xs + ys)[1..] == xs[1..] + ys;
      NamesConcat(xs[1..], ys, name);
    }
  }

  lemma NamesAppend(xs: seq<string>, x: string, name: string -> Option<string>)
    ensures NamesOf(xs + [x], name) == NamesOf(xs, name) + if name(x).Some? then [name(x).value] else []
  {
    NamesConcat(xs, [x], name);
  }

  lemma NamesWithoutOne(xs: seq<string>, i: nat, name: string -> Option<string>)
    requires i < |xs|
    ensures multiset(NamesOf(xs, name))
         == multiset(NamesOf([xs[i]], name)) + multiset(NamesOf(xs[..i] + xs[i + 1..], name))
  {
    assert xs == xs[..i] + ([xs[i]] + xs[i + 1..]);
    NamesConcat(xs[..i], [xs[i]] + xs[i + 1..], name);
    NamesConcat([xs[i]], xs[i + 1..], name);
    NamesConcat(xs[..i], xs[i + 1..], name);
  }

  lemma NamesSwapFirst(xs: seq<string>, ys: seq<string>, i: nat, name: string -> Option<string>)
    requires xs != [] && i < |ys| && ys[i] == xs[0]
    requires multiset(NamesOf(xs[1..], name)) == multiset(NamesOf(ys[..i] + ys[i + 1..], name))
    ensures multiset(NamesOf(xs, name)) == multiset(NamesOf(ys, name))
  {
    NamesWithoutOne(ys, i, name);
    NamesWithoutOne(xs, 0, name);
    assert xs[..0] + xs[1..] == xs[1..];
  }

  lemma {:induction false} NamesPermuted(xs: seq<string>, ys: seq<string>, name: string -> Option<string>)
    requires multiset(xs) == multiset(ys)
    ensures multiset(NamesOf(xs, name)) == multiset(NamesOf(ys, name))
  {
    if xs == [] {
      assert |multiset(ys)| == 0 && ys == [];
    } else {
      assert xs[0] in multiset(ys);
      var i :| 0 <= i < |ys| && ys[i] == xs[0];
      TailMultiset(xs);
      WithoutOne(ys, i);
      NamesPermuted(xs[1..], ys[..i] + ys[i + 1..], name);
      NamesSwapFirst(xs, ys, i, name);
    }
  }

  /** The order in which git lists the paths does not matter. */
  lemma ListedInAnyOrder(repo: Repo, tree: Tree, order: seq<string>)
    requires NoRepeats(order) && forall p :: p in order <==> p in Dirty(repo.head, tree)
    ensures SortBy(NamesOf(order, NameFor(repo, tree)), TextKey) == ChangedIn(repo, tree)
  {
    var dirty := Dirty(repo.head, tree);
    NoRepeatsMultiset(order, dirty);
    NoRepeatsMultiset(SortedSet(dirty), dirty);
    NamesPermuted(order, SortedSet(dirty), NameFor(repo, tree));
    TextsSortAlike(NamesOf(order, NameFor(repo, tree)), NamesOf(SortedSet(dirty), NameFor(repo, tree)));
  }

  lemma TextsSortAlike(xs: seq<string>, ys: seq<string>)
    requires multiset(xs) == multiset(ys)
    ensures SortBy(xs, TextKey) == SortBy(ys, TextKey)
  {
    var a, b := SortBy(xs, TextKey), SortBy(ys, TextKey);
    SortForgetsOrder(xs, ys, TextKey);
    assert |Map(a, TextKey)| == |Map(b, TextKey)|;
    forall i | 0 <= i < |a|
      ensures a[i] == b[i]
    {
      assert Map(a, TextKey)[i] == Map(b, TextKey)[i];
      CodesInjective(a[i], b[i]);
    }
  }

  lemma {:induction false} NamesAreReports(paths: seq<string>, name: string -> Option<string>, n: string)
    ensures n in NamesOf(paths, name) <==> exists p :: p in paths && name(p) == Some(n)
  {
    if paths != [] {
      NamesAreReports(paths[1..], name, n);
      assert paths == [paths[0]] + paths[1..];
    }
  }

  /** The names listed are exactly those reported of differing paths. */
  lemma ListsReports(repo: Repo, tree: Tree, n: string)
    ensures n in ChangedIn(repo, tree) <==>
              exists p :: p in Dirty(repo.head, tree) && Reported(repo, tree, p) == Some(n)
  {
    var names := NamesOf(SortedSet(Dirty(repo.head, tree)), NameFor(repo, tree));
    SortBySorts(names, TextKey);
    assert n in ChangedIn(repo, tree) <==> n in multiset(names);
    NamesAreReports(SortedSet(Dirty(repo.head, tree)), NameFor(repo, tree), n);
    assert forall p :: NameFor(repo, tree)(p) == Reported(repo, tree, p);
  }

  // ---------------------------------------------------------------- the oracles

  datatype Finding = Finding(severity: string, title: string, detail: string)

  datatype CheckResult = CheckResult(name: string, passed: bool, tail: string)

  datatype BuilderReply = NoBuilder | Proposal(declared: seq<string>, patch: Patch)

  datatype ReviewerReply = NoReviewer | Review(approved: bool, findings: seq<Finding>)

  datatype Goal = Goal(allowedPaths: seq<string>, maxIterations: nat)

  predicate ValidGoal(g: Goal) {
    1 <= g.maxIterations <= 10
  }

  predicate AllPassed(checks: seq<CheckResult>) {
    forall i :: 0 <= i < |checks| ==> checks[i].passed
  }

  predicate Blocking(f: Finding) {
    f.severity == "P0" || f.severity == "P1"
  }

  predicate NoneBlocking(findings: seq<Finding>) {
    forall i :: 0 <= i < |findings| ==> !Blocking(findings[i])
  }

  // ---------------------------------------------------------------- the report and its trace

  datatype Status =
    Planned | Building | Verifying | Reviewing | Completed | BlockedAuth | BlockedPolicy | Failed

  datatype Event =
    | RunStarted
    | PatchRejected(iteration: nat)
    | ChecksFailed(iteration: nat, checks: seq<CheckResult>)
    | ReviewRejected(iteration: nat, findings: seq<Finding>)
    | PolicyBlock(paths: seq<string>)
    | ProviderUnavailable(builder: bool)
    | RunCompleted(iteration: nat, changed: seq<string>)
    | IterationLimit(limit: nat)

  predicate FailureOf(e: Event, iteration: nat) {
    match e
    case PatchRejected(n) => n == iteration
    case ChecksFailed(n, checks) => n == iteration && !AllPassed(checks)
    case ReviewRejected(n, _) => n == iteration
    case _ => false
  }

  function FailedChecks(checks: seq<CheckResult>): seq<Finding> {
    if checks == [] then []
    else
      var last := checks[|checks| - 1];
      FailedChecks(checks[..|checks| - 1])
      + if last.passed then [] else [Finding("P1", "Check failed: " + last.name, last.tail)]
  }

  /** What a failed iteration tells the next one. */
  function FeedbackOf(e: Event): seq<Finding> {
    match e
    case PatchRejected(_) => [Finding("P1", "Patch rejected", "")]
    case ChecksFailed(_, checks) => FailedChecks(checks)
    case ReviewRejected(_, findings) => findings
    case _ => []
  }

  /** The start, then one failure for each of the first iterations, in order. */
  predicate FailuresSoFar(events: seq<Event>) {
    events != [] && events[0] == RunStarted && forall k :: 1 <= k < |events| ==> FailureOf(events[k], k)
  }

  /** The builder of every iteration was told exactly what the failure before it left. */
  predicate ToldTheLastFailure(events: seq<Event>, asked: seq<seq<Finding>>) {
    |asked| <= |events| && forall k :: 0 <= k < |asked| ==> asked[k] == FeedbackOf(events[k])
  }

  /** How a run ends, by its last event. */
  predicate Ends(status: Status, last: Event, failures: nat, calls: nat, limit: nat) {
    match last
    case RunCompleted(n, _) => status == Completed && n == calls == failures + 1 <= limit
    case PolicyBlock(_) => status == BlockedPolicy && calls == failures + 1 <= limit
    case ProviderUnavailable(_) => status == BlockedAuth && calls == failures + 1 <= limit
    case IterationLimit(n) => status == Failed && calls == failures == limit == n
    case _ => false
  }

  /** The whole trace of a run that started from a clean tree. */
  predicate Trace(events: seq<Event>, status: Status, asked: seq<seq<Finding>>, limit: nat) {
    && |events| >= 2 && FailuresSoFar(events[..|events| - 1])
    && Ends(status, events[|events| - 1], |events| - 2, |asked|, limit)
    && ToldTheLastFailure(events[..|events| - 1], asked)
  }

  predicate Terminal(e: Event) {
    e.RunCompleted? || e.PolicyBlock? || e.ProviderUnavailable? || e.IterationLimit?
  }

  /** A trace ends once: only its last event is terminal, every event between the start and the end
      is the failure of its own iteration, and the status tells which end it was. */
  lemma TraceEndsOnce(events: seq<Event>, status: Status, asked: seq<seq<Finding>>, limit: nat)
    requires Trace(events, status, asked, limit)
    ensures forall k :: 0 <= k < |events| ==> (Terminal(events[k]) <==> k == |events| - 1)
    ensures forall k :: 1 <= k < |events| - 1 ==> FailureOf(events[k], k)
    ensures |asked| <= limit && |events| <= limit + 2
    ensures status == Completed <==> events[|events| - 1].RunCompleted?
    ensures status == Failed ==> |asked| == limit
  {
  }

  // ---------------------------------------------------------------- one turn

  /** Everything a run is given and never changes. */
  datatype Setting = Setting(
    allowed: string -> bool, repo: Repo, limit: nat,
    builder: (nat, seq<Finding>, Tree) -> BuilderReply,
    verifier: (nat, Tree) -> seq<CheckResult>,
    reviewer: (nat, Tree, seq<CheckResult>) -> ReviewerReply)

  /** An event, and the tree it leaves. */
  datatype Turn = Turn(event: Event, tree: Tree)

  /** What the review of a tree that passed its checks leads to. */
  function ReviewedEvent(reply: ReviewerReply, iteration: nat, changed: seq<string>): Event {
    match reply
    case NoReviewer => ProviderUnavailable(false)
    case Review(approved, findings) =>
      if approved && NoneBlocking(findings) then RunCompleted(iteration, changed)
      else ReviewRejected(iteration, findings)
  }

  /** The checks and the review of an authorised tree. */
  function JudgedEvent(s: Setting, iteration: nat, tree: Tree, changed: seq<string>): Event {
    var checks := s.verifier(iteration, tree);
    if !AllPassed(checks) then ChecksFailed(iteration, checks)
    else ReviewedEvent(s.reviewer(iteration, tree, checks), iteration, changed)
  }

  /** A patch whose declared files are authorised: rejected, taken back, or judged. */
  ghost function PatchTurn(s: Setting, iteration: nat, patch: Patch, tree: Tree): Turn {
    if !Applies(tree, patch) then Turn(PatchRejected(iteration), tree)
    else
      var patched := Patched(tree, patch);
      var changed := ChangedIn(s.repo, patched);
      var denied := Failing(changed, s.allowed);
      if denied != [] then Turn(PolicyBlock(denied), tree)
      else Turn(JudgedEvent(s, iteration, patched, changed), patched)
  }

  /** The one event the oracles' answers call for, in the order in which they are asked. */
  ghost function TurnOf(s: Setting, iteration: nat, feedback: seq<Finding>, tree: Tree): Turn {
    match s.builder(iteration, feedback, tree)
    case NoBuilder => Turn(ProviderUnavailable(true), tree)
    case Proposal(declared, patch) =>
      var denied := Failing(declared, s.allowed);
      if denied != [] then Turn(PolicyBlock(denied), tree) else PatchTurn(s, iteration, patch, tree)
  }

  /** What a completed run stands on: the checks and the approving review of this very tree. */
  predicate StandsOn(s: Setting, iteration: nat, tree: Tree, checks: seq<CheckResult>, findings: seq<Finding>) {
    && checks == s.verifier(iteration, tree) && AllPassed(checks)
    && s.reviewer(iteration, tree, checks) == Review(true, findings) && NoneBlocking(findings)
  }

  function StatusAfter(e: Event): Status {
    match e
    case RunCompleted(_, _) => Completed
    case PolicyBlock(_) => BlockedPolicy
    case ProviderUnavailable(_) => BlockedAuth
    case IterationLimit(_) => Failed
    case _ => Building
  }

  lemma TurnKinds(s: Setting, iteration: nat, feedback: seq<Finding>, tree: Tree)
    requires 1 <= iteration <= s.limit
    ensures GoodTurn(TurnOf(s, iteration, feedback, tree).event, iteration, s.limit)
  {
  }

  lemma TurnKeepsAuthorised(s: Setting, iteration: nat, feedback: seq<Finding>, tree: Tree)
    requires AuthorisedIn(s.allowed, s.repo, tree)
    ensures AuthorisedIn(s.allowed, s.repo, TurnOf(s, iteration, feedback, tree).tree)
  {
  }

  /** Where the paths of a policy block come from. */
  lemma BlockIsDenial(s: Setting, iteration: nat, feedback: seq<Finding>, tree: Tree) returns (paths: seq<string>)
    requires TurnOf(s, iteration, feedback, tree).event.PolicyBlock?
    ensures var t := TurnOf(s, iteration, feedback, tree);
            t.tree == tree && t.event.paths == Failing(paths, s.allowed) != []
  {
    var proposal := s.builder(iteration, feedback, tree);
    paths := if Failing(proposal.declared, s.allowed) != [] then proposal.declared
             else ChangedIn(s.repo, Patched(tree, proposal.patch));
  }

  /** A policy block names at least one path, only denied ones, and leaves the tree as the turn
      found it. */
  lemma BlockNamesDenied(s: Setting, iteration: nat, feedback: seq<Finding>, tree: Tree)
    requires TurnOf(s, iteration, feedback, tree).event.PolicyBlock?
    ensures var t := TurnOf(s, iteration, feedback, tree);
      t.tree == tree && t.event.paths != [] && forall p :: p in t.event.paths ==> !s.allowed(p)
  {
    var paths := BlockIsDenial(s, iteration, feedback, tree);
    FailingFails(paths, s.allowed);
  }

  // ---------------------------------------------------------------- the whole run

  /** The events after the start, what each builder call was told, and the tree at the end. */
  datatype History = History(events: seq<Event>, asked: seq<seq<Finding>>, tree: Tree)

  /** The turns of a run as a function of the iteration, the feedback and the tree. */
  type Turns = (nat, seq<Finding>, Tree) -> Turn

  ghost function TurnsOf(s: Setting): Turns {
    (iteration: nat, feedback: seq<Finding>, tree: Tree) => TurnOf(s, iteration, feedback, tree)
  }

  function HistoryOf(turns: Turns, limit: nat, iteration: nat, feedback: seq<Finding>, tree: Tree): History
    requires iteration <= limit + 1
    decreases limit + 1 - iteration
  {
    if iteration == limit + 1 then History([IterationLimit(limit)], [], tree)
    else
      var t := turns(iteration, feedback, tree);
      if Terminal(t.event) then History([t.event], [feedback], t.tree)
      else
        var rest := HistoryOf(turns, limit, iteration + 1, FeedbackOf(t.event), t.tree);
        History([t.event] + rest.events, [feedback] + rest.asked, rest.tree)
  }

  /** What a run from a clean tree makes. */
  ghost function RunOf(s: Setting, tree: Tree): History {
    HistoryOf(TurnsOf(s), s.limit, 1, [], tree)
  }

  /** A turn fails its own iteration or ends the run. */
  predicate GoodTurn(e: Event, iteration: nat, limit: nat) {
    && (!Terminal(e) ==> FailureOf(e, iteration))
    && (Terminal(e) ==> iteration > 0 && Ends(StatusAfter(e), e, iteration - 1, iteration, limit))
  }

  ghost predicate GoodTurns(turns: Turns, limit: nat) {
    forall n, f, t :: 1 <= n <= limit ==> GoodTurn(turns(n, f, t).event, n, limit)
  }

  /** Failures of the iterations from `from` on, then an end; each builder told the failure before. */
  predicate Shaped(h: History, from: nat, feedback: seq<Finding>, limit: nat)
    requires from > 0
  {
    && h.events != [] && |h.asked| <= |h.events|
    && (forall k :: 0 <= k < |h.events| - 1 ==> FailureOf(h.events[k], from + k))
    && (forall k :: 0 <= k < |h.asked| ==> h.asked[k] == if k == 0 then feedback else FeedbackOf(h.events[k - 1]))
    && var last := h.events[|h.events| - 1];
       Ends(StatusAfter(last), last, from - 1 + |h.events| - 1, from - 1 + |h.asked|, limit)
  }

  lemma ShapedMore(h: History, from: nat, feedback: seq<Finding>, limit: nat, e: Event, tree: Tree)
    requires from > 0 && FailureOf(e, from) && Shaped(h, from + 1, FeedbackOf(e), limit)
    ensures Shaped(History([e] + h.events, [feedback] + h.asked, tree), from, feedback, limit)
  {
    var more := [e] + h.events;
    assert forall k :: 0 <= k < |more| - 1 ==> FailureOf(more[k], from + k) by {
      forall k | 0 <= k < |more| - 1
        ensures FailureOf(more[k], from + k)
      {
        if k > 0 {
          assert FailureOf(h.events[k - 1], from + 1 + (k - 1));
        }
      }
    }
    assert more[|more| - 1] == h.events[|h.events| - 1];
  }

  lemma {:induction false} HistoryShape(turns: Turns, limit: nat, iteration: nat, feedback: seq<Finding>, tree: Tree)
    requires 1 <= iteration <= limit + 1 && GoodTurns(turns, limit)
    ensures Shaped(HistoryOf(turns, limit, iteration, feedback, tree), iteration, feedback, limit)
    decreases limit + 1 - iteration
  {
    if iteration <= limit {
      var t := turns(iteration, feedback, tree);
      assert GoodTurn(t.event, iteration, limit);
      if !Terminal(t.event) {
        HistoryShape(turns, limit, iteration + 1, FeedbackOf(t.event), t.tree);
        var rest := HistoryOf(turns, limit, iteration + 1, FeedbackOf(t.event), t.tree);
        ShapedMore(rest, iteration, feedback, limit, t.event, rest.tree);
      }
    }
  }

  lemma ShapedIsTrace(h: History, limit: nat)
    requires Shaped(h, 1, [], limit)
    ensures Trace([RunStarted] + h.events, StatusAfter(h.events[|h.events| - 1]), h.asked, limit)
  {
    var events := [RunStarted] + h.events;
    var front := events[..|events| - 1];
    forall k | 1 <= k < |front|
      ensures FailureOf(front[k], k)
    {
      assert front[k] == h.events[k - 1] && FailureOf(h.events[k - 1], 1 + (k - 1));
    }
    forall k | 0 <= k < |h.asked|
      ensures k < |front| && h.asked[k] == FeedbackOf(front[k])
    {
      assert k > 0 ==> front[k] == h.events[k - 1];
    }
    assert events[|events| - 1] == h.events[|h.events| - 1];
  }

  lemma TurnsAreGood(s: Setting)
    ensures GoodTurns(TurnsOf(s), s.limit)
  {
    forall n, f, t | 1 <= n <= s.limit
      ensures GoodTurn(TurnsOf(s)(n, f, t).event, n, s.limit)
    {
      TurnKinds(s, n, f, t);
    }
  }

  /** Every run makes a well-formed trace. */
  lemma RunIsTrace(s: Setting, tree: Tree)
    requires s.limit >= 1
    ensures var h := RunOf(s, tree);
      && h.events != [] && |h.asked| <= s.limit
      && Trace([RunStarted] + h.events, StatusAfter(h.events[|h.events| - 1]), h.asked, s.limit)
  {
    TurnsAreGood(s);
    HistoryShape(TurnsOf(s), s.limit, 1, [], tree);
    ShapedIsTrace(RunOf(s, tree), s.limit);
  }

  /** Turns keep a property of the tree. */
  ghost predicate Keeps(turns: Turns, ok: Tree -> bool) {
    forall n, f, t :: ok(t) ==> ok(turns(n, f, t).tree)
  }

  lemma {:induction false} HistoryKeeps(turns: Turns, limit: nat, iteration: nat, feedback: seq<Finding>, tree: Tree,
                                        ok: Tree -> bool)
    requires iteration <= limit + 1 && Keeps(turns, ok) && ok(tree)
    ensures ok(HistoryOf(turns, limit, iteration, feedback, tree).tree)
    decreases limit + 1 - iteration
  {
    if iteration <= limit {
      var t := turns(iteration, feedback, tree);
      assert ok(t.tree);
      if !Terminal(t.event) {
        HistoryKeeps(turns, limit, iteration + 1, FeedbackOf(t.event), t.tree, ok);
      }
    }
  }

  ghost function AuthorisedFor(s: Setting): Tree -> bool {
    tree => AuthorisedIn(s.allowed, s.repo, tree)
  }

  /** Whatever a run does and however it ends, the policy allows every changed file git then reports. */
  lemma RunKeepsAuthorised(s: Setting, tree: Tree)
    requires AuthorisedIn(s.allowed, s.repo, tree)
    ensures AuthorisedIn(s.allowed, s.repo, RunOf(s, tree).tree)
  {
    forall n, f, t | AuthorisedFor(s)(t)
      ensures AuthorisedFor(s)(TurnsOf(s)(n, f, t).tree)
    {
      TurnKeepsAuthorised(s, n, f, t);
    }
    HistoryKeeps(TurnsOf(s), s.limit, 1, [], tree, AuthorisedFor(s));
  }

  // ---------------------------------------------------------------- what a run changes

  /** A list of patches, applied in order. */
  function ApplyAll(tree: Tree, patches: seq<Patch>): Tree {
    if patches == [] then tree
    else Patched(ApplyAll(tree, patches[..|patches| - 1]), patches[|patches| - 1])
  }

  /** The patch a turn applies and does not take back. */
  ghost function KeptBy(s: Setting, iteration: nat, feedback: seq<Finding>, tree: Tree): seq<Patch> {
    match s.builder(iteration, feedback, tree)
    case NoBuilder => []
    case Proposal(declared, patch) =>
      if Failing(declared, s.allowed) == [] && Applies(tree, patch) &&
         AuthorisedIn(s.allowed, s.repo, Patched(tree, patch)) then [patch] else []
  }

  type Patches = (nat, seq<Finding>, Tree) -> seq<Patch>

  ghost function PatchesOf(s: Setting): Patches {
    (iteration: nat, feedback: seq<Finding>, tree: Tree) => KeptBy(s, iteration, feedback, tree)
  }

  /** The patches kept along a history, from an iteration on. */
  function KeptFrom(turns: Turns, kept: Patches, limit: nat, iteration: nat, feedback: seq<Finding>, tree: Tree)
    : seq<Patch>
    requires iteration <= limit + 1
    decreases limit + 1 - iteration
  {
    if iteration == limit + 1 then []
    else
      var t := turns(iteration, feedback, tree);
      kept(iteration, feedback, tree)
      + if Terminal(t.event) then [] else KeptFrom(turns, kept, limit, iteration + 1, FeedbackOf(t.event), t.tree)
  }

  /** The patches a run keeps. */
  ghost function KeptIn(s: Setting, tree: Tree): seq<Patch> {
    KeptFrom(TurnsOf(s), PatchesOf(s), s.limit, 1, [], tree)
  }

  /** Every tree on the way passes a check. */
  predicate Passes(ok: Tree -> bool, tree: Tree, patches: seq<Patch>) {
    patches == [] || (Passes(ok, tree, patches[..|patches| - 1]) && ok(ApplyAll(tree, patches)))
  }

  lemma TurnKeeps(s: Setting, iteration: nat, feedback: seq<Finding>, tree: Tree)
    ensures TurnOf(s, iteration, feedback, tree).tree == ApplyAll(tree, KeptBy(s, iteration, feedback, tree))
    ensures Passes(AuthorisedFor(s), tree, KeptBy(s, iteration, feedback, tree))
  {
    var kept := KeptBy(s, iteration, feedback, tree);
    if kept != [] {
      assert kept[..0] == [];
    }
  }

  lemma {:induction false} ApplyMore(tree: Tree, ps: seq<Patch>, qs: seq<Patch>)
    ensures ApplyAll(tree, ps + qs) == ApplyAll(ApplyAll(tree, ps), qs)
  {
    if qs == [] {
      assert ps + qs == ps;
    } else {
      assert (ps + qs)[..|ps + qs| - 1] == ps + qs[..|qs| - 1];
      ApplyMore(tree, ps, qs[..|qs| - 1]);
    }
  }

  lemma {:induction false} PassesMore(ok: Tree -> bool, tree: Tree, ps: seq<Patch>, qs: seq<Patch>)
    requires Passes(ok, tree, ps) && Passes(ok, ApplyAll(tree, ps), qs)
    ensures Passes(ok, tree, ps + qs)
  {
    if qs == [] {
      assert ps + qs == ps;
    } else {
      assert (ps + qs)[..|ps + qs| - 1] == ps + qs[..|qs| - 1];
      PassesMore(ok, tree, ps, qs[..|qs| - 1]);
      ApplyMore(tree, ps, qs);
    }
  }

  lemma {:induction false} PassesEach(ok: Tree -> bool, tree: Tree, patches: seq<Patch>, k: nat)
    requires Passes(ok, tree, patches) && k < |patches|
    ensures ok(ApplyAll(tree, patches[..k + 1]))
  {
    if k < |patches| - 1 {
      PassesEach(ok, tree, patches[..|patches| - 1], k);
      assert patches[..|patches| - 1][..k + 1] == patches[..k + 1];
    } else {
      assert patches[..k + 1] == patches;
    }
  }

  /** Every turn leaves what its kept patches make of the tree, and that passes the check. */
  ghost predicate Accounts(turns: Turns, kept: Patches, ok: Tree -> bool) {
    forall n, f, t :: turns(n, f, t).tree == ApplyAll(t, kept(n, f, t)) && Passes(ok, t, kept(n, f, t))
  }

  /** So does a whole history. */
  lemma {:induction false} HistoryAccounts(turns: Turns, kept: Patches, ok: Tree -> bool, limit: nat, iteration: nat,
                                           feedback: seq<Finding>, tree: Tree)
    requires iteration <= limit + 1 && Accounts(turns, kept, ok)
    ensures HistoryOf(turns, limit, iteration, feedback, tree).tree
         == ApplyAll(tree, KeptFrom(turns, kept, limit, iteration, feedback, tree))
    ensures Passes(ok, tree, KeptFrom(turns, kept, limit, iteration, feedback, tree))
    decreases limit + 1 - iteration
  {
    if iteration <= limit {
      var t, own := turns(iteration, feedback, tree), kept(iteration, feedback, tree);
      if Terminal(t.event) {
        assert own + [] == own;
      } else {
        HistoryAccounts(turns, kept, ok, limit, iteration + 1, FeedbackOf(t.event), t.tree);
        var rest := KeptFrom(turns, kept, limit, iteration + 1, FeedbackOf(t.event), t.tree);
        ApplyMore(tree, own, rest);
        PassesMore(ok, tree, own, rest);
      }
    }
  }

  lemma RunAccounts(s: Setting, tree: Tree)
    ensures RunOf(s, tree).tree == ApplyAll(tree, KeptIn(s, tree)) && Passes(AuthorisedFor(s), tree, KeptIn(s, tree))
  {
    forall n, f, t
      ensures TurnsOf(s)(n, f, t).tree == ApplyAll(t, PatchesOf(s)(n, f, t))
      ensures Passes(AuthorisedFor(s), t, PatchesOf(s)(n, f, t))
    {
      TurnKeeps(s, n, f, t);
    }
    HistoryAccounts(TurnsOf(s), PatchesOf(s), AuthorisedFor(s), s.limit, 1, [], tree);
  }

  /** The policy allows every path whose content differs, whether git reports it or not. */
  ghost predicate OnlyAllowed(s: Setting, start: Tree, tree: Tree) {
    forall p :: Lookup(start, p) != Lookup(tree, p) ==> s.allowed(p)
  }

  /** The check of the changed files sees no difference at a path, or nothing of it, or an allowed
      name instead of it. */
  ghost predicate Overlooked(s: Setting, tree: Tree, p: string) {
    || p !in Dirty(s.repo.head, tree)
    || Reported(s.repo, tree, p) == None
    || s.allowed(Reported(s.repo, tree, p).value)
  }

  predicate Writes(patches: seq<Patch>, k: int, p: string) {
    0 <= k < |patches| && p in patches[k].changes
  }

  /** The last of the patches to write a denied path leaves it changed and is overlooked. */
  ghost predicate Slips(s: Setting, start: Tree, patches: seq<Patch>, k: nat, p: string) {
    && Writes(patches, k, p) && (forall m :: k < m < |patches| ==> !Writes(patches, m, p))
    && !s.allowed(p) && patches[k].changes[p].after != Lookup(start, p)
    && Overlooked(s, ApplyAll(start, patches[..k + 1]), p)
  }

  ghost predicate NothingSlips(s: Setting, start: Tree, patches: seq<Patch>) {
    forall k, p :: !Slips(s, start, patches, k, p)
  }

  /** The last patch to write a path decides what it holds. */
  lemma {:induction false} LastWrite(start: Tree, patches: seq<Patch>, p: string) returns (k: int)
    ensures forall m :: k < m < |patches| ==> !Writes(patches, m, p)
    ensures if k < 0 then Lookup(ApplyAll(start, patches), p) == Lookup(start, p)
            else Writes(patches, k, p) && Lookup(ApplyAll(start, patches), p) == patches[k].changes[p].after
  {
    if patches == [] {
      return -1;
    }
    var n := |patches| - 1;
    PatchedLookup(ApplyAll(start, patches[..n]), patches[n], p);
    if p in patches[n].changes {
      return n;
    }
    k := LastWrite(start, patches[..n], p);
    forall m | k < m < |patches|
      ensures !Writes(patches, m, p)
    {
      assert m < n ==> !Writes(patches[..n], m, p);
    }
    assert k >= 0 ==> Writes(patches[..n], k, p);
  }

  /** What passes the check without being allowed was overlooked. */
  lemma PassedIsOverlooked(s: Setting, tree: Tree, p: string)
    requires AuthorisedIn(s.allowed, s.repo, tree)
    ensures Overlooked(s, tree, p)
  {
    if !Overlooked(s, tree, p) {
      var n := Reported(s.repo, tree, p).value;
      ListsReports(s.repo, tree, n);
      FailingFails(ChangedIn(s.repo, tree), s.allowed);
    }
  }

  lemma AllowedExactly(s: Setting, start: Tree, patches: seq<Patch>)
    requires Passes(AuthorisedFor(s), start, patches)
    ensures OnlyAllowed(s, start, ApplyAll(start, patches)) <==> NothingSlips(s, start, patches)
  {
    forall p
      ensures Lookup(start, p) != Lookup(ApplyAll(start, patches), p) && !s.allowed(p) <==>
              exists k :: Slips(s, start, patches, k, p)
    {
      var k := LastWrite(start, patches, p);
      if k >= 0 {
        PassesEach(AuthorisedFor(s), start, patches, k);
        PassedIsOverlooked(s, ApplyAll(start, patches[..k + 1]), p);
        assert Lookup(start, p) != Lookup(ApplyAll(start, patches), p) && !s.allowed(p) ==>
            Slips(s, start, patches, k, p);
      }
      forall m | Slips(s, start, patches, m, p)
        ensures m == k
      {
      }
    }
  }

  /** A run changes only files the policy allows exactly when nothing slips: when no denied path is
      left changed by a kept patch whose tree git reports without it. */
  lemma RunChangesAllowedExactly(s: Setting, start: Tree)
    ensures OnlyAllowed(s, start, RunOf(s, start).tree) <==> NothingSlips(s, start, KeptIn(s, start))
  {
    RunAccounts(s, start);
    AllowedExactly(s, start, KeptIn(s, start));
  }

  /** git reports every differing path under its own name. */
  ghost predicate ReportsAll(repo: Repo) {
    forall tree, p :: p in Dirty(repo.head, tree) ==> Reported(repo, tree, p) == Some(p)
  }

  /** In particular where git reports every path under its own name. */
  lemma ReportedRunChangesOnlyAllowed(s: Setting, start: Tree)
    requires ReportsAll(s.repo) && ChangedIn(s.repo, start) == []
    ensures OnlyAllowed(s, start, RunOf(s, start).tree)
  {
    var end := RunOf(s, start).tree;
    CleanIsAuthorised(s.allowed, s.repo, start);
    RunKeepsAuthorised(s, start);
    forall p | Lookup(start, p) != Lookup(end, p)
      ensures s.allowed(p)
    {
      if p in Dirty(s.repo.head, start) {
        ListsReports(s.repo, start, p);
      }
      PassedIsOverlooked(s, end, p);
    }
  }
}
