# Verification models for the trading platform

Dafny models of the parts of the platform that decide what may happen: the boundary around paper
execution, the evidence pipeline of the research brain, the two-phase file transport and the bounded
loop of the development autopilot, and the arithmetic of walk-forward validation.  Paths below are
relative to the repository.

## What is modelled

**Paper execution** (`src/atp/autonomous/engine.py`).  `PaperBoundary` gives the engine as a record and
each locked critical section as one function on it; `PaperEngine` is the class whose methods update
those fields in place, each proved equal to its function.  `PaperProtocol` interleaves the critical
sections: tasks with context variables, desk cycles, execution permits, calls asleep in
`Condition.wait` (which gives the whole lock away, so such a call is two steps), the reconfiguration
whose body keeps the lock, drift of the object graph and halts of the risk engine at any moment.
`PaperInvariant` proves the invariant every step keeps, `PaperRuns` what holds over whole runs,
`PaperLaws` what grants, starts, halts, windows and the queue come to in the fields themselves, and
`PaperExamples` gives two concrete runs that mark where the guarantees end.

**Research brain** (`src/atp/brain/`).  `Ordering` is the total order behind every Python sort and the
uniqueness of sorting; `CanonicalText` the canonical text that breaks ties and the fact that it can be
read back; `Contracts` the record validators, which `ContractLaws` restates by counting.  `Sense`, `Think` and `Learn` hold the evaluators: the
loops as methods, each tied to the function that specifies it.  `SenseProperties`,
`BoundaryProperties`, `Scoring`, `ThinkProperties`, `LearnProperties` and `Lifecycle` prove what they
promise, `Weighing` what quality counts for, `Comparing` when two models may be compared, and `Refusals`
in which order the evaluators refuse.  Instants are integers in microseconds, scores and weights are reals, and a canonical value
stands where the program takes a SHA-256 of one.

**Development autopilot** (`src/atp/autopilot/`).  `AutopilotPolicy` is the path policy, which
`PolicyLaws` writes out;
`AutopilotRuns` says what one turn of the builder, checks and review loop is and what a whole run is,
with the two models, the checks and what git reports as arbitrary oracles, and `Orchestrator` is the
loop itself, updating the report and the worktree in place; `AutopilotLaws` says what a turn comes to.  `FullFile` is a filesystem on which any
operation may fail, `Materialize` the five passes and the cleanup on it, and `EditRules` the validation
before them, written out in `EditLaws`.  `PathExamples`, `AutopilotExamples` and `EditExamples` are concrete inputs that mark where
the promises end.

**Validation arithmetic** (`src/atp/backtest/`).  `Metrics` has the single-pass drawdown and the returns,
`WorstPair` the curves on which that drawdown is the worst pair, `WalkForward` the windows and the
chained curve, `Compounding` the windows whose returns it compounds, `MonteCarlo` the bootstrap with its
draws as an arbitrary input.  `Fractions` and `Options` are shared helpers.

## Findings

Each is a place where a stated promise needs a condition; the condition is proved exact.

* `stop` and the other control calls return with no order in flight, not necessarily with the engine
  stopped.  They report RUNNING exactly when, between the call and its return, another start succeeded
  that no control call and no trip has ended, the boundary is sound and no halt is in force
  (`PaperRuns.ReturnsRunningExactly`; a run that does: `PaperExamples.StopMayReturnRunning`).
* The scheduler queue holds only work of the current epoch exactly as long as no epoch is invalidated
  while another scheduler is attached to the desk: `cancel_all` reaches only the attached one
  (`PaperRuns.QueueIsFresh`, `PaperExamples.StopMayStrandWork`).
* THINK's documentation says the score is the prior when no evidence bears on the claim
  (`src/atp/brain/think.py:22-24`); the code rounds to twelve decimals, so that holds exactly for priors
  of at most twelve decimals (`Scoring.ScoreWithoutEvidence`, `Scoring.ThirdIsNotReturned`).
* THINK and LEARN both promise an exact match with canonical admission.  LEARN sorts the ids of a
  contradiction group on both sides before comparing (`src/atp/brain/learn.py:417-434`), so it accepts
  results THINK refuses: they agree exactly on results whose group ids are ascending
  (`LearnProperties.ThinkIsStricter`, `LearnProperties.BoundariesDiffer`).
* Supporting evidence can make LEARN abstain: exactly when it is admitted, nothing bore on the claim
  before and the prior is already at or below the threshold (`LearnProperties.FirstSupportAbstains`).
* `max_drawdown` measures from the highest value so far, but a value below zero falls furthest against
  the lowest positive one.  It is the worst pair of a curve exactly when no value sinks deeper, in units
  of the least positive value before it, after two positive values have differed than one did before;
  in particular on every non-negative curve (`WorstPair.PassIsWorstExactly`,
  `Metrics.DrawdownIsQuadraticMaximum`; a curve where it is not: `Metrics.NegativeEquityUnderstates`).
* A walk-forward window that starts at zero is chained unscaled.  The chain compounds the windows'
  returns exactly when there is no such window; or the first non-empty one is, and the windows together
  neither gain nor lose; or the last such window ends where the windows before it had brought the chain,
  unless those after it lose everything (`Compounding.CompoundsExactly`; windows that do not:
  `WalkForward.ZeroStartBreaksCompounding`).
* `walk_forward_windows` with a negative step does not end once the first window fits
  (`WalkForward.NegativeStepNeverStops`), and `monte_carlo_trade_order` with trades and no runs divides
  by zero (`MonteCarlo.MonteCarloTradeOrder`).
* `docs/AUTOPILOT.md` promises that environment and credential paths cannot be authorised.  The loop
  checks the names git reports, and git omits ignored files while a name is cut at its last arrow, so a
  patch that creates an ignored `.env` is kept and the run can complete.  A run changes only files the
  policy allows exactly when no denied path is left changed by a patch that passed that check
  (`AutopilotRuns.RunChangesAllowedExactly`; runs in which one is: `AutopilotExamples.IgnoredFileSlips`,
  `AutopilotExamples.ArrowNameSlips`), and always where git reports every path under its own name
  (`AutopilotRuns.ReportedRunChangesOnlyAllowed`).
* A bound edit list can still fail preflight: exactly on a path it creates that exists without being
  listed, as ignored files do, or on a listed file it modifies that is not plain text, which the snapshot
  does not ask (`EditRules.BoundIsReady`; such lists: `EditExamples.CreationMayNotBeReady`,
  `EditExamples.ModificationMayNotBeReady`).
* The guard of `classify_path` against an empty path never fires (`AutopilotPolicy.NormalizedNeverEmpty`).

## Model

| member | source | states |
|---|---|---|
| `PaperEngine.PaperAutonomousEngine.constructor` | src/atp/autonomous/engine.py:111-175 | an engine is built only on safe wiring, DISABLED, at epoch 0, unbound, with nothing in flight, queued or active |
| `PaperEngine.PaperAutonomousEngine.InvalidateEpochLocked` | src/atp/autonomous/engine.py:340-345 | the epoch rises by one and the attached scheduler's queue is emptied; a detached one is left |
| `PaperEngine.PaperAutonomousEngine.TripBoundary` | src/atp/autonomous/engine.py:480-491 | the engine ends DISABLED and unbound, one epoch on |
| `PaperEngine.PaperAutonomousEngine.Arm` | src/atp/autonomous/engine.py:570-579 | a reported status means safe wiring, no kill and an intent other than DISABLED; a refusal leaves the intent, or trips on unsafe wiring |
| `PaperEngine.PaperAutonomousEngine.EnterDryRun` | src/atp/autonomous/engine.py:581-603 | a reported status means no kill and the intent DRY_RUN, except that a RUNNING engine keeps running |
| `PaperEngine.PaperAutonomousEngine.Start` | src/atp/autonomous/engine.py:605-633 | accepted exactly when ARMED, not killed, confirmed and safe; then RUNNING, bound to the current signature, one epoch on; a refusal changes nothing |
| `PaperEngine.PaperAutonomousEngine.StopEnter` | src/atp/autonomous/engine.py:642-650 | before the wait the intent is neither RUNNING nor DRY_RUN, and a RUNNING engine is unbound and one epoch on |
| `PaperEngine.PaperAutonomousEngine.DisarmEnter` | src/atp/autonomous/engine.py:652-661 | unless killed the engine is DISABLED, unbound and one epoch on before the wait |
| `PaperEngine.PaperAutonomousEngine.KillEnter` | src/atp/autonomous/engine.py:663-671 | before the wait the engine is killed, unbound, one epoch on and reports KILLED, its intent unchanged |
| `PaperEngine.PaperAutonomousEngine.ResetKillEnter` | src/atp/autonomous/engine.py:673-683 | either way DISABLED, unbound and one epoch on; without a refusal the kill is cleared |
| `PaperEngine.PaperAutonomousEngine.UpdateEnter` | src/atp/autonomous/engine.py:685-692 | before the wait the engine is neither RUNNING nor DRY_RUN, unbound and one epoch on |
| `PaperEngine.PaperAutonomousEngine.UpdateExit` | src/atp/autonomous/engine.py:694-699 | unsafe wiring after the body leaves the engine DISABLED and unbound |
| `PaperEngine.PaperAutonomousEngine.NewDayEnter` | src/atp/autonomous/engine.py:701-710 | accepted exactly for positive equity and a day after the recorded one; a refusal changes nothing; otherwise one epoch on with intent and binding kept |
| `PaperEngine.PaperAutonomousEngine.NewDayFinish` | src/atp/autonomous/engine.py:712-714 | the new day is recorded with its day-start equity, no halt, the kill switch and the epoch as they were |
| `PaperEngine.PaperAutonomousEngine.BeginStep` | src/atp/autonomous/engine.py:784-817 | a cycle is admitted only when none was active, and carries the epoch exactly when admitted RUNNING |
| `PaperEngine.PaperAutonomousEngine.BeginObserve` | src/atp/autonomous/engine.py:840-850 | an observation begins only DISABLED and idle |
| `PaperEngine.PaperAutonomousEngine.EndCycle` | src/atp/autonomous/engine.py:827-832 | a finished cycle frees the flag and nothing else |
| `PaperEngine.PaperAutonomousEngine.RequestPermit` | src/atp/autonomous/engine.py:353-379 | a grant means RUNNING inside a sound boundary, the current epoch and the cycle's own task, and counts one more in flight; otherwise the count stays |
| `PaperEngine.PaperAutonomousEngine.ReleasePermit` | src/atp/autonomous/engine.py:380-387 | one fewer in flight |
| `PaperEngine.PaperAutonomousEngine.Schedule` | src/atp/autonomous/engine.py:390-414 | a granted insertion is queued at the current epoch while RUNNING, for the cycle's own task |
| `PaperInvariant.StepKeepsInv` | src/atp/autonomous/engine.py:340-414 | every step keeps: one cycle at most, contexts and permits owned by it, the counter exact, an update body alone, a binding only while RUNNING and not killed |
| `PaperRuns.OwnershipInEveryReachableState` | src/atp/autonomous/engine.py:352-387 | in every reachable state every permit belongs to the task of the one active cycle, begun RUNNING, at its epoch |
| `PaperRuns.OrderNeedsUninterruptedRunning` | src/atp/autonomous/engine.py:352-414 | behind every grant stands a cycle of the asking task, admitted RUNNING, since when epoch, intent, binding and kill switch never moved |
| `PaperRuns.StaleCycleNeverOrders` | src/atp/autonomous/engine.py:340-387 | a cycle begun before a stop, disarm, kill, reset, reconfiguration or new day never orders again, whatever restart follows |
| `PaperRuns.WatchingCycleNeverOrders` | src/atp/autonomous/engine.py:817-850 | ARMED, DRY_RUN, HALTED, KILLED and observing cycles never order |
| `PaperRuns.ProceedsWithNothingInFlight` | src/atp/autonomous/engine.py:347-349 | every control call gets past its wait with no permit outstanding, all earlier ones released |
| `PaperRuns.UpdateBodyUndisturbed` | src/atp/autonomous/engine.py:685-699 | while a reconfiguration body runs nothing is granted, queued or begun and the mode stands still |
| `PaperRuns.ControlCallQuiets` | src/atp/autonomous/engine.py:642-699 | stop, disarm, kill, reset and reconfiguration leave nothing grantable |
| `PaperRuns.QuietWaitIsBounded` | src/atp/autonomous/engine.py:347-349 | until the next successful start each release lowers the in-flight count by one and nothing raises it, so the wait ends after exactly as many releases |
| `PaperRuns.RunningStep` | src/atp/autonomous/engine.py:474-714 | a step leaves the engine RUNNING and bound exactly when it is a successful start, or finds it so and neither is a control call nor trips |
| `PaperRuns.RunningExactly` | src/atp/autonomous/engine.py:605-699 | from a quiet moment on the engine is RUNNING and bound exactly when a later start has not been ended since |
| `PaperRuns.ReturnsRunningExactly` | src/atp/autonomous/engine.py:642-699 | a control call returns with nothing in flight, and reports RUNNING exactly when a start since the call has not been ended, the boundary is sound and nothing is halted |
| `PaperRuns.LatestStart` | src/atp/autonomous/engine.py:605-633 | a bound RUNNING engine has a latest successful start and has been RUNNING on its binding ever since |
| `PaperRuns.OrderMatchesLatestStart` | src/atp/autonomous/engine.py:416-478 | at every grant policy, limits, algorithm and scheduler are, field for field, those of the latest start, which was confirmed, connected and on healthy data, and its configuration names the policy's and the limits' three numbers |
| `PaperRuns.DriftDisablesBeforeTheOrder` | src/atp/autonomous/engine.py:474-491 | after any drift the next request gets nothing and leaves the engine DISABLED, unbound, on a new epoch |
| `PaperRuns.KilledUntilReset` | src/atp/autonomous/engine.py:501-513 | after a kill the status is KILLED until a reset is accepted |
| `PaperRuns.KillIsFinal` | src/atp/autonomous/engine.py:570-683 | an order after a kill is preceded by an accepted reset, then by leaving DISABLED, then by a confirmed start |
| `PaperRuns.QueueFreshStep` | src/atp/autonomous/engine.py:340-345 | a step keeps the queue fresh exactly when it does not strand work |
| `PaperRuns.QueueIsFresh` | src/atp/autonomous/engine.py:389-414 | every queued item was inserted at the current epoch with the intent RUNNING, up to the first step that strands work and not beyond it |
| `PaperLaws.LimitsAreProjected` | src/atp/policy.py:79-90 | limits pass exactly when they are those the policy projects to, every number positive and the risk per trade within the daily loss |
| `PaperLaws.VerdictMeans` | src/atp/autonomous/engine.py:352-414 | each verdict in the fields themselves: an order is granted exactly in a sound graph with the settings of the binding, RUNNING, at the cycle's epoch, to the cycle's own task |
| `PaperLaws.StartsExactly` | src/atp/autonomous/engine.py:605-733 | a start succeeds exactly from ARMED, not killed, confirmed, connected, on healthy data, in a sound graph, for the policy's three numbers |
| `PaperLaws.StatusMeans` | src/atp/autonomous/engine.py:501-513 | the kill switch outranks all, a broken boundary reads DISABLED, a halt hides the intent, otherwise the intent shows |
| `PaperLaws.BoundaryIsThatOfTheStart` | src/atp/autonomous/engine.py:416-478 | over runs: a RUNNING bound engine refuses for the boundary exactly when its graph is unsound or policy, limits, algorithm or scheduler differ from the latest start's |
| `PaperLaws.OrderRestsOnSoundGraph` | src/atp/autonomous/engine.py:352-478 | at every order and at the start behind it the graph is sound, and the confirmed numbers are still the policy's |
| `PaperLaws.IntentMovesExactly` | src/atp/autonomous/engine.py:474-850 | where every step moves the intent, from the fields before it |
| `PaperLaws.EpochMovesExactly` | src/atp/autonomous/engine.py:340-850 | the epoch rises by one exactly at the steps that switch the mode, kill, rebind or begin a new day |
| `PaperLaws.CallSleepsExactly` | src/atp/autonomous/engine.py:642-714 | which calls wait for orders in flight, and exactly when they sleep |
| `PaperLaws.CallWakesExactly` | src/atp/autonomous/engine.py:347-349 | a sleeping call wakes only with nothing in flight |
| `PaperLaws.NewDayExactly` | src/atp/autonomous/engine.py:701-714 | a new day is accepted exactly for positive equity and a day after the recorded one, and is recorded when it finishes |
| `PaperLaws.HaltLiftedOnlyByLaterDay` | src/atp/autonomous/engine.py:701-714 | over runs: a halt is lifted, and day and baseline move, only when a new day finishes that was later than the day recorded when it was called, for positive equity, with nothing in flight |
| `PaperLaws.DryRunEndsWithItsWindow` | src/atp/autonomous/engine.py:581-805 | over runs: the first cycle after the minutes asked for, at least one, ends a dry run, and no earlier one does |
| `PaperLaws.CycleBeginsExactly` | src/atp/autonomous/engine.py:784-817 | when a desk cycle is admitted, in which status, and with which epoch |
| `PaperLaws.ObservationBeginsExactly` | src/atp/autonomous/engine.py:840-850 | an observation begins exactly in an idle, DISABLED, sound engine |
| `PaperLaws.ChildInheritsAndIsRefused` | src/atp/autonomous/engine.py:353-371 | a task spawned in a cycle inherits its context and is granted nothing |
| `PaperLaws.ContextIsRestored` | src/atp/autonomous/engine.py:819-832 | the end of a cycle gives its task back the context it had before |
| `PaperLaws.QueuedWasScheduled` | src/atp/autonomous/engine.py:389-414 | whatever is queued was put there, with its quantity and epoch, by a granted insertion, and stayed since |
| `PaperExamples.StopMayReturnRunning` | src/atp/autonomous/engine.py:642-650 | a run in which `stop` returns with nothing in flight and the engine RUNNING |
| `PaperExamples.StopMayStrandWork` | src/atp/autonomous/engine.py:340-345 | a run in which `stop` leaves work of an old epoch in the queue |
| `Ordering.SortedUnique` | src/atp/brain/sense.py:188-189 | there is one sorted arrangement of a multiset of keys |
| `Ordering.SortBySorts` | src/atp/brain/sense.py:188-189 | sorting orders and only rearranges |
| `CanonicalText.OrderKeyDecodes` | src/atp/brain/sense.py:67-95 | an order key determines the item up to the order of its assertions |
| `CanonicalText.TiesAreCanonicallyEqual` | src/atp/brain/sense.py:89-95 | items tie in the content order exactly when they are canonically equal |
| `ContractLaws.EvidenceExactly` | src/atp/brain/contracts.py:146-186 | evidence is admitted exactly with name, source and checksum, ordered times and as many named claims as assertions |
| `ContractLaws.HypothesisExactly` | src/atp/brain/contracts.py:189-212 | a hypothesis is admitted exactly with name, claim, thesis, a prior in the unit interval and distinct named conditions |
| `ContractLaws.ScenarioExactly` | src/atp/brain/contracts.py:236-249 | a scenario is admitted exactly with name, thesis, a plausibility in the unit interval and the conditions of a hypothesis |
| `ContractLaws.BeliefExactly` | src/atp/brain/contracts.py:216-233 | a belief is admitted exactly with a score in the unit interval and no id twice, on one side or on both |
| `ContractLaws.LastInstant` | src/atp/brain/think.py:257-270 | time ends with the last microsecond of the year 9999 |
| `Sense.FindContradictions` | src/atp/brain/sense.py:147-160 | the two dictionary loops compute one group per contested key, in key order |
| `Sense.EvaluateSense` | src/atp/brain/sense.py:163-191 | raises on a negative limit, otherwise returns the sorted split and its contradictions |
| `SenseProperties.SenseConserves` | src/atp/brain/sense.py:179-191 | usable and rejected together are exactly the input, with multiplicity |
| `SenseProperties.SenseAdmits` | src/atp/brain/sense.py:126-144 | usable exactly when knowable, fresh and unique by id; rejected with the first reason that applies |
| `SenseProperties.ReasonsPartition` | src/atp/brain/sense.py:133-144 | for ordered timestamps each reason names one interval of `as_of`, and no two apply |
| `SenseProperties.UsableIdsUnique` | src/atp/brain/sense.py:179-187 | usable ids are unique |
| `SenseProperties.ContradictionsComplete` | src/atp/brain/sense.py:147-160 | a key is reported exactly when usable items take both stances on it, with every id of each side and no other |
| `SenseProperties.SenseForgetsOrder` | src/atp/brain/sense.py:163-191 | any permutation of the input gives the same canonical result |
| `SenseProperties.SenseIsFixpoint` | src/atp/brain/sense.py:163-191 | admission of what a result represents reproduces it canonically |
| `SenseProperties.FutureEvidenceChangesNothing` | src/atp/brain/sense.py:126-144 | later evidence under a new id changes neither usable nor contradictions |
| `SenseProperties.LargerLimitOnlyGains` | src/atp/brain/sense.py:142-143 | a larger limit only adds usable items, each of which was STALE before |
| `BoundaryProperties.SenseSeesCanonicalItems` | src/atp/brain/sense.py:75-86 | the canonical result depends only on the multiset of canonical items |
| `BoundaryProperties.AcceptsExactlyGenuine` | src/atp/brain/think.py:195-229 | THINK's boundary accepts a result exactly when SENSE can produce it from valid evidence |
| `BoundaryProperties.GenuineOutputPasses` | src/atp/brain/think.py:160-229 | every genuine SENSE output passes, every revalidation included |
| `BoundaryProperties.AcceptedInherits` | src/atp/brain/think.py:195-229 | whatever is accepted has unique usable ids, only fresh and knowable items and the full contradictions |
| `Think.SumWeights` | src/atp/brain/think.py:250-254 | the loop sums the quality weights |
| `Think.JudgeHypothesis` | src/atp/brain/think.py:273-304 | the nested loops of `_judge` form the judgement of the hypothesis |
| `Think.Readmit` | src/atp/brain/think.py:195-229 | refuses exactly what the boundary does not accept, else returns the rebuilt usable evidence |
| `Think.EvaluateThink` | src/atp/brain/think.py:307-328 | raises, refuses or judges every hypothesis in id order |
| `Scoring.ScoreIsRounded` | src/atp/brain/think.py:292 | the score lies in the unit interval and the clamp never acts |
| `Scoring.ScoresReflect` | src/atp/brain/think.py:18-24 | complementary priors and swapped weights give scores that sum to one, after rounding too |
| `Scoring.ScoreWithoutEvidence` | src/atp/brain/think.py:22-24 | without evidence the score is the prior exactly when the prior has at most twelve decimals |
| `Scoring.ThirdIsNotReturned` | src/atp/brain/think.py:22-24 | a prior of one third is not returned |
| `Scoring.HalfEvenIsNearest` | src/atp/brain/think.py:292 | rounding gives the nearest integer and the even one of two, and nothing else does |
| `ThinkProperties.ThinkIsTotal` | src/atp/brain/think.py:307-328 | raises only for malformed hypotheses, admits exactly genuine results, and then judges every hypothesis |
| `ThinkProperties.JudgementConstructible` | src/atp/brain/contracts.py:215-248 | no Belief, Scenario or Judgement constructor can refuse what THINK forms |
| `ThinkProperties.BeliefCitesExactly` | src/atp/brain/think.py:280-301 | evidence ids are exactly those of items taking the hypothesis's stance, counter ids those taking the opposite |
| `ThinkProperties.HorizonNotBeforeAsOf` | src/atp/brain/think.py:257-270 | a belief never expires before `as_of`, saturated or not |
| `ThinkProperties.ExpiresWithEarliest` | src/atp/brain/think.py:294-297 | a belief expires with its earliest contributor, at `as_of` without any |
| `ThinkProperties.OpponentsShareOne` | src/atp/brain/think.py:273-304 | opposing hypotheses with complementary priors score to exactly one in sum |
| `ThinkProperties.SilenceReturnsPrior` | src/atp/brain/think.py:22-24 | with no bearing evidence the belief cites nothing, expires at once and carries the rounded prior |
| `ThinkProperties.EvidencePullsItsOwnWay` | src/atp/brain/think.py:273-304 | evidence offered under a new id never lowers a hypothesis it does not counter nor raises one it does not back |
| `ThinkProperties.ReusedIdRemoves` | src/atp/brain/sense.py:133-134 | an id already in use takes every item bearing it out of the usable set |
| `ThinkProperties.ThinkForgetsOrder` | src/atp/brain/think.py:232-247 | the conclusion is the same for every order of hypotheses and every canonically equal result |
| `ThinkProperties.PipelineForgetsOrder` | src/atp/brain/think.py:276-277 | from raw evidence to conclusions, the order of either input is irrelevant |
| `ThinkProperties.FutureCannotSway` | src/atp/brain/think.py:307-328 | evidence from the future changes no conclusion |
| `Weighing.JudgementByTally` | src/atp/brain/think.py:273-304 | a judgement restates its hypothesis; its score, also its scenario's plausibility, is the rounded share of prior and backing in one unit and all the weight, 1, 0.6 or 0.3 a statement by quality |
| `Weighing.OneBackingItem` | src/atp/brain/think.py:273-320 | one backing item moves a prior p to (p+1)/2, (p+0.6)/1.6 or (p+0.3)/1.3 by its quality |
| `Weighing.AssessmentByTally` | src/atp/brain/learn.py:563-596 | the drift score is the refuting share of that weight, the posterior what it leaves of the prior, and it abstains exactly at or below the threshold with bearing evidence |
| `Weighing.BetterQualityHelps` | src/atp/brain/think.py:250-320 | raising an item's quality never lowers a hypothesis it does not oppose, nor the posterior of a claim it does not refute |
| `Learn.RequireSense` | src/atp/brain/learn.py:437-462 | LEARN's boundary check, with the as-of it demands |
| `Learn.AssessDrift` | src/atp/brain/learn.py:563-596 | the accumulating loops compute the assessment |
| `Learn.EvaluateDrift` | src/atp/brain/learn.py:599-619 | the accepted assessment or the first refusal |
| `Learn.EvaluateRetirement` | src/atp/brain/learn.py:895-915 | the recorded retirement or the first refusal |
| `Learn.EvaluateReinstatement` | src/atp/brain/learn.py:1010-1031 | the recorded reversal or the first refusal |
| `LearnProperties.LearnAcceptsUpToGroupOrder` | src/atp/brain/learn.py:417-462 | LEARN accepts exactly the results THINK accepts once group ids are sorted |
| `LearnProperties.ThinkIsStricter` | src/atp/brain/learn.py:417-462 | the two boundaries agree exactly on ascending group ids |
| `LearnProperties.BoundariesDiffer` | src/atp/brain/learn.py:417-462 | a result LEARN accepts and THINK refuses, built from three concrete items |
| `LearnProperties.DriftOnlyLowers` | src/atp/brain/learn.py:586-595 | the posterior lies between zero and the prior; without bearing evidence it is the prior and nothing abstains |
| `LearnProperties.AssessmentCitesExactly` | src/atp/brain/learn.py:576-585 | the reported ids are exactly those of the items on each side |
| `LearnProperties.DriftPullsItsOwnWay` | src/atp/brain/learn.py:563-619 | for results on what SENSE admits: one more item leaves acceptance alone; without support it never raises the posterior nor ends an abstention, without refutation it never lowers the posterior |
| `LearnProperties.FirstSupportAbstains` | src/atp/brain/learn.py:563-619 | a supporting item starts an abstention exactly when the inputs are accepted, it is admitted, nothing bore on the claim before and the prior is at or below the threshold |
| `LearnProperties.FutureCannotDrift` | src/atp/brain/learn.py:563-619 | evidence from the future changes neither the acceptance nor the assessment of a drift result |
| `Comparing.ComparesExactly` | src/atp/brain/learn.py:638-680 | a comparison is accepted exactly for a champion and a challenger, two models with two proposals, each known by then and graded by an intact, accepted, balanced proof known by then |
| `Comparing.PrefersLargerNet` | src/atp/brain/learn.py:733-739 | it prefers the side with the larger net return, and is inconclusive exactly on a tie |
| `Comparing.DriftAcceptedExactly` | src/atp/brain/learn.py:482-496 | a drift assessment is accepted exactly for a named model known by then, scores in range and evidence LEARN accepts for that instant |
| `Refusals.DriftRefusesInOrder` | src/atp/brain/learn.py:482-496 | a drift refusal names the first phase that fails: model, scores, evidence, knowability |
| `Refusals.ComparisonRefusesInOrder` | src/atp/brain/learn.py:638-680 | a comparison refusal names the first phase that fails; a proof of another proposal is reported before anything unknowable |
| `Refusals.RetirementRefusesInOrder` | src/atp/brain/learn.py:800-840 | a retirement refusal names the first phase that fails; an already retired model is reported whatever evidence comes with it |
| `Refusals.GroundsExactly` | src/atp/brain/learn.py:815-840 | a ground is listed exactly when its evidence was known by then and says so, in the order of the names |
| `Refusals.ReinstatementRefusesInOrder` | src/atp/brain/learn.py:930-947 | a reinstatement refusal names the first of three phases that fails |
| `Refusals.RefusalsAreBare` | src/atp/brain/learn.py:515-534 | what passes as a refusal carries one reason and nothing else |
| `Lifecycle.AbstentionRestsOnEvidence` | src/atp/brain/learn.py:482-496 | an accepted abstention rests on an admitted, fresh item on the claim and a model registered by then |
| `Lifecycle.EveryGroundStands` | src/atp/brain/learn.py:800-840 | every recorded ground is backed by a sound result naming the model, known between registration and retirement; behind an inferior comparison both proofs were known by then |
| `Lifecycle.RetiresExactly` | src/atp/brain/learn.py:800-840 | a retirement is accepted exactly for an active named model with sound evidence and a ground known in time |
| `Lifecycle.ChallengerOnlyDrifts` | src/atp/brain/learn.py:829-836 | a challenger is only ever retired for drift |
| `Lifecycle.ReinstatementIsCausal` | src/atp/brain/learn.py:930-947 | it restores the role held before, never RETIRED, and registered, known, retired and reinstated follow in this order |
| `AutopilotPolicy.DeniedExactly` | src/atp/autopilot/policy.py:70-71 | the denied paths are exactly those not allowed, and none exactly when all are allowed |
| `PolicyLaws.SecretExactly` | src/atp/autopilot/policy.py:36-60 | a path is secret exactly when one of six names stands in it, in whatever case |
| `PolicyLaws.AllowedExactly` | src/atp/autopilot/policy.py:26-68 | the whole policy written out: a path is allowed exactly when it does not climb, names no secret, is no part of trading, is covered by the goal, and is research or enabled infrastructure |
| `PolicyLaws.ReasonExactly` | src/atp/autopilot/policy.py:51-68 | which reason and tier a decision gives: the first rule that applies |
| `PolicyLaws.SpacesAre` | src/atp/autopilot/policy.py:52 | the characters that stripping a path removes |
| `PolicyLaws.PaddingChangesNothing` | src/atp/autopilot/policy.py:52 | spaces around a path and slashes before it change no decision |
| `AutopilotPolicy.NormalizedNeverEmpty` | src/atp/autopilot/policy.py:52-55 | a normalised path is never empty, and an empty one is not allowed |
| `AutopilotRuns.ReverseUndoes` | src/atp/autopilot/orchestrator.py:136-140 | reversing an applied patch restores the tree |
| `Orchestrator.DevelopmentAutopilot.ChangedFiles` | src/atp/autopilot/orchestrator.py:83-93 | the sorted names git reports of the paths that differ from the commit, in whatever order it lists them |
| `AutopilotRuns.AfterLastArrow` | src/atp/autopilot/orchestrator.py:90-91 | a reported name is cut after its last arrow |
| `AutopilotRuns.BlockNamesDenied` | src/atp/autopilot/orchestrator.py:122-144 | a policy block names at least one path, only denied ones, and leaves the tree of the loop head |
| `AutopilotLaws.TurnExactly` | src/atp/autopilot/orchestrator.py:108-176 | which event a turn makes and when its patch stays, in the answers themselves; a policy block names exactly the denied files |
| `AutopilotLaws.TurnCompletesExactly` | src/atp/autopilot/orchestrator.py:108-176 | a turn completes exactly when all declared is allowed, git takes the patch, all reported is allowed, every check passes and the review approves without P0 or P1 |
| `AutopilotLaws.StandsOnExactly` | src/atp/autopilot/orchestrator.py:145-172 | a completed run stands on exactly the checks of its tree, all passed, and on an approving review of them |
| `AutopilotLaws.BuilderIsToldTheFailure` | src/atp/autopilot/orchestrator.py:124-176 | over runs: the next builder is told a finding with name and tail for exactly each failed check, in order and at least one, or the review's findings, or that the patch was rejected |
| `AutopilotLaws.StatusTellsTheEnd` | src/atp/autopilot/orchestrator.py:110-180 | the status a run ends with tells its last event |
| `AutopilotRuns.RunIsTrace` | src/atp/autopilot/orchestrator.py:105-180 | whatever the oracles answer: the start, one failure per failed iteration, one end; each builder is told exactly the failure before it, and is called at most `max_iterations` times |
| `AutopilotRuns.RunKeepsAuthorised` | src/atp/autopilot/orchestrator.py:122-144 | however a run from an authorised tree ends, the policy allows every name git reports of the tree it leaves |
| `AutopilotRuns.RunChangesAllowedExactly` | src/atp/autopilot/orchestrator.py:83-144 | for all oracles: a run changes only files the policy allows exactly when no denied path is left changed by the last kept patch to write it, git reporting that tree without the path or under an allowed name |
| `AutopilotRuns.ReportedRunChangesOnlyAllowed` | src/atp/autopilot/orchestrator.py:83-144 | where git reports every differing path under its own name, a run from a clean tree changes only files the policy allows |
| `AutopilotExamples.IgnoredFileSlips` | src/atp/autopilot/orchestrator.py:83-144 | a run from a clean tree completes, reports no change and has created an ignored `.env` |
| `AutopilotExamples.ArrowNameSlips` | src/atp/autopilot/orchestrator.py:90-92 | a run completes, reports an allowed path and has created a service file whose name holds an arrow |
| `Orchestrator.DevelopmentAutopilot.Iterate` | src/atp/autopilot/orchestrator.py:108-176 | one iteration logs exactly the event the answers of builder, git, checks and review call for, leaves exactly its tree, and records what the builder was told at the call |
| `Orchestrator.DevelopmentAutopilot.Run` | src/atp/autopilot/orchestrator.py:95-180 | a dirty tree is refused untouched; from a clean one events, builder calls and tree are exactly the run the oracles call for, every name git then reports is allowed, and COMPLETED stands on the checks and the review of this very tree |
| `FullFile.ApplyMeans` | src/atp/autopilot/full_file.py:879-901 | after a list of edits each target holds its content and every other path is as it was |
| `FullFile.AppliedNoLongerFits` | src/atp/autopilot/full_file.py:852-858 | an applied edit does not fit the result |
| `FullFile.Disk.Link` | src/atp/autopilot/full_file.py:884-890 | a creation never replaces an existing file |
| `Materialize.WriteTemp` | src/atp/autopilot/full_file.py:791-818 | the first free of a hundred names holds the content whole, or nothing is left unless its removal failed |
| `Materialize.CommitOne` | src/atp/autopilot/full_file.py:880-898 | one edit leaves its target untouched, or put with the temporary still there, or put and used up |
| `Materialize.Commit` | src/atp/autopilot/full_file.py:879-901 | a commit pass reaches a prefix of the edits, the whole list without a fault |
| `Materialize.Cleanup` | src/atp/autopilot/full_file.py:911-917 | cleanup removes every temporary unless a removal fails |
| `Materialize.Materialize` | src/atp/autopilot/full_file.py:821-920 | success applies all edits and leaves nothing else; failure before the commit applies none, any other exactly a prefix; only failed removals leave temporaries; commit and verification fail only by faults |
| `EditRules.ValidateEdits` | src/atp/autopilot/full_file.py:197-230 | the number, form, order and size rules of an edit list |
| `EditRules.AcceptedPathsAreCanonical` | src/atp/autopilot/full_file.py:226-228 | accepted paths are their own sorted set |
| `EditLaws.WidthOfOne` | src/atp/autopilot/full_file.py:122 | the bytes of one character in UTF-8 |
| `EditLaws.LengthsAdd` | src/atp/autopilot/full_file.py:122 | the bytes of a text are those of its characters |
| `EditLaws.PathsExactly` | src/atp/autopilot/full_file.py:120-143 | a path is accepted exactly as a row of plain components, at most 240 bytes, composed, without backslashes and control characters |
| `EditLaws.ContentsExactly` | src/atp/autopilot/full_file.py:146-167 | a content is accepted exactly when all of it may be written and it ends in one newline |
| `EditLaws.AcceptedExactly` | src/atp/autopilot/full_file.py:197-230 | a list is accepted exactly with one to eighty well-formed edits on ascending paths and 400000 bytes in all |
| `EditLaws.ParentsAre` | src/atp/autopilot/full_file.py:652-654 | the parent of a path is what stands before its last slash |
| `EditLaws.BoundExactly` | src/atp/autopilot/full_file.py:641-662 | a list is bound exactly when each path is allowed and each edit creates an unlisted path in a listed directory or changes the very content listed |
| `EditLaws.DigitsAreDecimal` | src/atp/autopilot/full_file.py:794 | numbers in temporary names are written in decimal |
| `EditLaws.TemporaryIsBeside` | src/atp/autopilot/full_file.py:791-796 | a temporary stands beside its target, under a name of the process and the attempt |
| `EditLaws.AttemptsDiffer` | src/atp/autopilot/full_file.py:793-794 | no two attempts share a name |
| `EditRules.ValidateAgainstState` | src/atp/autopilot/full_file.py:641-662 | the policy and preimage rules against the bound state |
| `EditRules.BoundIsReady` | src/atp/autopilot/full_file.py:641-662 | a list bound to a live state passes preflight exactly when the paths it creates are free and the files it modifies are plain text |
| `EditExamples.CreationMayNotBeReady` | src/atp/autopilot/full_file.py:845-858 | a valid, bound list that fails preflight on an ignored file it would create |
| `EditExamples.ModificationMayNotBeReady` | src/atp/autopilot/full_file.py:763-774 | a valid, bound list that creates nothing and fails preflight on a listed file with a carriage return |
| `EditRules.BoundAppliesOnce` | src/atp/autopilot/full_file.py:658-661 | a bound list that was applied never fits again |
| `EditRules.LeavesMeans` | src/atp/autopilot/full_file.py:845-917 | path by path what any run leaves, and that a created path was free |
| `EditRules.Transport` | src/atp/autopilot/full_file.py:821-920 | an invalid or unbound list changes nothing; otherwise exactly a prefix is applied, all of it on success |
| `Metrics.MaxDrawdown` | src/atp/backtest/metrics.py:72-82 | the single pass computes the drawdown |
| `Metrics.DrawdownIsQuadraticMaximum` | src/atp/backtest/metrics.py:72-82 | on non-negative curves it is the maximum over all pairs, and a fraction |
| `Metrics.NegativeEquityUnderstates` | src/atp/backtest/metrics.py:72-82 | a concrete curve whose worst pair exceeds the drawdown |
| `WorstPair.PassIsWorstExactly` | src/atp/backtest/metrics.py:72-82 | on every curve: the single pass is the worst pair exactly when each value that sinks after two different positive values is matched in depth by one that sank before they differed |
| `Metrics.DrawdownScales` | src/atp/backtest/metrics.py:72-82 | positive rescaling leaves the drawdown alone |
| `Metrics.SegmentDrawdown` | src/atp/backtest/metrics.py:72-82 | a stretch falls no further than the whole |
| `Metrics.ReturnsFromEquity` | src/atp/backtest/metrics.py:62-69 | the loop computes the period returns, skipping zero denominators |
| `Metrics.ReturnsCompound` | src/atp/backtest/metrics.py:114-117 | the period returns compound to the total return |
| `WalkForward.WalkForwardWindows` | src/atp/backtest/validation.py:28-46 | raises on non-positive sizes; for a positive or default step the windows are those at every step, as far as one fits |
| `WalkForward.NegativeStepNeverStops` | src/atp/backtest/validation.py:38-45 | with a negative step the guard holds forever |
| `WalkForward.WindowsMoveForward` | src/atp/backtest/validation.py:42-43 | windows stay in bounds and each test block directly follows its train block |
| `WalkForward.WindowCount` | src/atp/backtest/validation.py:41-45 | there are as many windows as fit |
| `WalkForward.DefaultTestsAreContiguous` | src/atp/backtest/validation.py:38-43 | default-step test blocks laid end to end are one stretch of the bars, with less than a block left over |
| `WalkForward.RunWalkForward` | src/atp/backtest/validation.py:59-87 | the loop computes each window's metrics and those of the chained curve |
| `WalkForward.WindowReports` | src/atp/backtest/metrics.py:107-117 | each window's metrics are those of its own curve and trades; a period counts for every value but the last that is not zero |
| `WalkForward.TradesAddUp` | src/atp/backtest/validation.py:81 | the chain carries the trades of all windows |
| `WalkForward.WalkForwardCompounds` | src/atp/backtest/validation.py:75-78 | one plus the combined return is the product over the windows |
| `WalkForward.ZeroStartBreaksCompounding` | src/atp/backtest/validation.py:77 | two concrete windows whose chain does not compound |
| `Compounding.CompoundsExactly` | src/atp/backtest/validation.py:75-80 | for all windows: the chain compounds exactly when no window starts at zero, or the first does and the product is one, or the last that does ends where the chain stood, or what follows loses everything |
| `WalkForward.CombinedDrawdownCovers` | src/atp/backtest/validation.py:72-87 | the combined drawdown of positive curves is at least every window's |
| `MonteCarlo.MonteCarloTradeOrder` | src/atp/backtest/validation.py:102-158 | the summary of every run, nothing without trades, a division by zero without runs |
| `MonteCarlo.PercentileBoundsShare` | src/atp/backtest/validation.py:143-147 | at most a `q` share of the outcomes lies below the `q` percentile |
| `MonteCarlo.PercentileIsQuantile` | src/atp/backtest/validation.py:143-147 | the value read off is an outcome with at most a q share below it and more than that at or below it, or all |
| `MonteCarlo.QuantileIsUnique` | src/atp/backtest/validation.py:143-147 | there is only one such value |
| `MonteCarlo.SummaryQuantiles` | src/atp/backtest/validation.py:149-158 | each reported percentile is that quantile of where the runs end and how far they fall |
| `MonteCarlo.FinalIsSum` | src/atp/backtest/validation.py:122-131 | a run ends at its start plus the trades drawn |
| `MonteCarlo.SummaryPercentiles` | src/atp/backtest/validation.py:149-156 | the reported percentiles come in order |
| `MonteCarlo.SummaryTail` | src/atp/backtest/validation.py:152 | no more runs end below the fifth percentile than its rank |
| `MonteCarlo.SummaryLoss` | src/atp/backtest/validation.py:157 | the loss share is a fraction, zero exactly when no run ends below its start |

`Lifecycle.SoundDriftIsReproduced`, `SoundComparisonIsReproduced` and `SoundRetirementIsReproduced` (a result
passes as accepted exactly when its evaluator returns it for its own inputs), `ReinstatesExactly` and
`RetirementRoundTrip` unfold the definitions behind `EveryGroundStands` and `ReinstatementIsCausal`.
`AutopilotRuns.TraceEndsOnce` reads `Trace` back (one terminal event, the last), `AutopilotPolicy.GoalOnlyNarrows`
and `AllowedIsBounded` the path rules (a goal opens no path; an allowed path is no red one).

## Left out

Paper execution:

- Wiring attestation is one flag, `attested`; the identity and exact-type checks behind it are not modelled, nor is the canonical authority a permit hands out.
- Risk-engine fields change only by kill, reset, halt and new day; fills and the equity they move are not part of this model.
- Permits nest inside their desk cycle and a reconfiguration body runs without giving the lock away.
- PaperRuns.QuietWaitIsBounded: a new day leaves the mode alone, so its own wait is not bounded by releases; new cycles can keep ordering meanwhile.
- Overlapping `start_new_day` calls: the day check comes before the wait, so no monotone day is claimed across them.
- A halt that arrives during a RUNNING cycle does not by itself refuse that cycle's permits; the risk engine's own checks of an order are not part of this model.
- Audit entries, decision records, journalling, metrics, snapshots and the market-data gate.

Research brain:

- Python object shapes (exact types, unset slots, non-finite numbers, naive datetimes); a value model has none of them.
- SHA-256, and the checksum's float form of the freshness limit, which can collide for limits that differ by microseconds.
- CanonicalText.OrderKeyDecodes: only quotes and backslashes are escaped; the numeric escapes of control and non-ASCII characters are not written out.
- Calibration labels, and the checksums stored in results: a result carries the value the checksum is of.
- Float rounding inside sums and quotients; `round(x, 12)` is modelled exactly, halves to even.
- `prove.py`: a proof is whether it re-proves itself, whether it was accepted, and its summary.

Development autopilot:

- JSON parsing, schemas, SHA patterns, the header fields of an edit output, and the state artifact itself; content stands for its digest.
- EditRules.BoundIsReady: that the bound state matches the checkout is a hypothesis; the comparison that establishes it (`live_state`) reads git and is not modelled.
- Unicode categories and composed form are tables passed in; path case folding covers ASCII.
- Type, permissions, links and size of a file are the flag `regular`, and whether its bytes are plain text the flag `plain`; a missing or unsafe directory counts as a failing operation.
- Interference by other processes while `materialize` runs, and crashes between its operations.
- Git: a patch either applies whole or not at all, checks do not edit the tree, and the index holds the commit, so that no rename is reported; what is printed of a differing path is any function of the tree and the path.
- Run identifiers, report checksums, and the text git gives for a rejected patch.
- Orchestrator.DevelopmentAutopilot.Iterate: the body of the loop and its phases are methods of their own; the source has them in line.

Validation arithmetic:

- CAGR, volatility, Sharpe, Sortino, win rate and profit factor: float formulas without structure.
- The backtester: any curve and any trades per window.
- `train_test_split`: a single slice.
- MonteCarlo.MonteCarloTradeOrder: the draws are an input; nothing is said of their distribution.

Elsewhere: the frontend, the brokers, governance and the dashboards are not part of this model.
