/** The laws of the boundary in its own fields: what a grant, a start and a status rest on, which
    steps move the mode, the epoch, the halt, the dry-run window and the queue, and what a task that
    inherits a cycle's context may do. */
module PaperLaws {
  import opened Options
  import opened PaperBoundary
  import opened PaperProtocol
  import opened PaperInvariant
  import opened PaperRuns

  // ---------------------------------------------------------------- a sound graph

  /** `to_risk_limits`, with the two correlation limits that a policy does not name. */
  function Projected(p: Policy, exposure: real, correlation: real): Limits {
    Limits(p.capital, p.dailyLossLimit, if p.dailyLossLimit >= 0.05 then 3.0 * p.dailyLossLimit else 0.15,
           p.maxPositionPct, p.maxLeverage, p.maxOpenPositions, p.riskPerTrade, p.maxPortfolioRisk,
           exposure, correlation)
  }

  predicate PositivePolicy(p: Policy) {
    && p.capital > 0.0 && 0.0 < p.riskPerTrade <= p.dailyLossLimit && p.maxPortfolioRisk > 0.0
    && p.maxPositionPct > 0.0 && p.maxLeverage > 0.0 && p.maxOpenPositions > 0
  }

  predicate SoundSchedule(s: Option<Scheduler>) {
    s.Some? ==>
      && s.value.slices > 0
      && (s.value.profile.Some? ==> s.value.profile.value != [] && forall x :: x in s.value.profile.value ==> x > 0.0)
  }

  /** The graph is the attested one, the algorithm the canonical one, every setting in range, and the
      limits are those the policy projects to. */
  predicate Sound(e: Engine) {
    var g := e.graph;
    && g.attested && g.schedulerAttached && e.risk.dayStartEquity > 0.0 && g.algo == e.canonicalAlgo
    && (g.algo == ImmediateAlgo || (g.algo.cap > 0.0 && g.algo.maxSlices > 0))
    && SoundSchedule(g.scheduler) && PositivePolicy(g.policy)
    && g.limits.maxCorrelatedExposurePct > 0.0 && g.limits.correlationThreshold > 0.0
    && g.limits == Projected(g.policy, g.limits.maxCorrelatedExposurePct, g.limits.correlationThreshold)
  }

  lemma LimitsAreProjected(p: Policy, l: Limits)
    ensures PolicyRiskOk(p, l) <==>
      && PositivePolicy(p) && l.maxCorrelatedExposurePct > 0.0 && l.correlationThreshold > 0.0
      && l == Projected(p, l.maxCorrelatedExposurePct, l.correlationThreshold)
  {
  }

  lemma ScheduleIsSound(s: Option<Scheduler>)
    ensures SchedulerOk(s) <==> SoundSchedule(s)
  {
    if s.Some? && s.value.profile.Some? {
      var profile := s.value.profile.value;
      if forall x :: x in profile ==> x > 0.0 {
        assert forall i :: 0 <= i < |profile| ==> profile[i] in profile;
      }
    }
  }

  lemma WiringIsSound(e: Engine)
    ensures WiringOk(e) <==> Sound(e)
  {
    LimitsAreProjected(e.graph.policy, e.graph.limits);
    ScheduleIsSound(e.graph.scheduler);
  }

  /** Policy, limits, algorithm and scheduler settings are those of the binding. */
  predicate Unmoved(e: Engine) {
    && e.binding.Some?
    && e.binding.value.policy == e.graph.policy && e.binding.value.limits == e.graph.limits
    && e.binding.value.algo == e.graph.algo && e.binding.value.scheduler == e.graph.scheduler
  }

  predicate Holds(e: Engine) {
    Sound(e) && (e.intent == Running ==> Unmoved(e))
  }

  lemma BoundaryHolds(e: Engine)
    ensures RuntimeOk(e) <==> Holds(e)
  {
    WiringIsSound(e);
  }

  // ---------------------------------------------------------------- grants, starts and statuses

  /** What each verdict means, and so when an order is granted. */
  lemma VerdictMeans(e: Engine, c: Context, current: Option<Task>)
    ensures var v := Decide(e, c, current);
      && (v == BoundaryViolation <==> !Holds(e))
      && (v == NoCycle <==> Holds(e) && c.epoch == None)
      && (v == WrongTask <==> Holds(e) && c.epoch.Some? && (c.task == None || c.task != current))
      && (v == StaleCycle <==> && Holds(e) && c.epoch.Some? && c.task.Some? && c.task == current
                               && c.epoch != Some(e.epoch))
      && (v == Granted <==> && Sound(e) && Unmoved(e) && e.intent == Running
                            && c.epoch == Some(e.epoch) && c.task.Some? && c.task == current)
  {
    BoundaryHolds(e);
  }

  predicate NamesThreeNumbers(c: RiskConfig, p: Policy) {
    c.capital == p.capital && c.riskPerTradePct == p.riskPerTrade && c.maxDailyLossPct == p.dailyLossLimit
  }

  /** A start succeeds exactly from ARMED, not killed, confirmed, connected, on healthy data, in a
      sound graph, for a configuration that names the policy's own three numbers. */
  lemma StartsExactly(w: World, ev: Event)
    ensures Starts(w, ev) <==>
      && ev.Starting? && w.engine.intent == Armed && !w.engine.risk.killed && Sound(w.engine)
      && ev.request.confirmed && ev.request.connected && ev.request.healthyData
      && ev.request.config.Some? && NamesThreeNumbers(ev.request.config.value, w.engine.graph.policy)
  {
    WiringIsSound(w.engine);
  }

  /** The kill switch outranks everything, an unsound boundary reads as DISABLED, and a halt hides
      the intent. */
  lemma StatusMeans(e: Engine)
    ensures var st := StatusOf(e);
      && (st == Killed <==> e.risk.killed)
      && (st == Disabled <==> !e.risk.killed && (!Holds(e) || e.intent == Disabled))
      && (st == Halted <==> !e.risk.killed && Holds(e) && e.intent != Disabled && e.risk.halted)
      && (st in {Armed, DryRun, Running} ==> st == e.intent)
  {
    BoundaryHolds(e);
  }

  // ---------------------------------------------------------------- the graph since the start

  /** A RUNNING engine with a binding refuses for the boundary exactly when its graph is unsound or
      policy, limits, algorithm or scheduler differ from what they were at the latest start. */
  lemma BoundaryIsThatOfTheStart(ws: seq<World>, evs: seq<Event>, j: nat, c: Context, current: Option<Task>)
    returns (i: nat)
    requires IsRun(ws, evs) && j <= |evs|
    requires ws[j].engine.intent == Running && ws[j].engine.binding.Some?
    ensures i < j && Starts(ws[i], evs[i]) && (forall k :: i < k < j ==> !Starts(ws[k], evs[k]))
    ensures var now, then_ := ws[j].engine.graph, ws[i].engine.graph;
            Decide(ws[j].engine, c, current) == BoundaryViolation <==>
              || !Sound(ws[j].engine) || now.policy != then_.policy || now.limits != then_.limits
              || now.algo != then_.algo || now.scheduler != then_.scheduler
  {
    i := LatestStart(ws, evs, j);
    assert ws[j].engine.binding == Some(SignatureOf(ws[i].engine.graph));
    VerdictMeans(ws[j].engine, c, current);
  }

  /** At every order the graph is sound, and its settings are those of the latest start, which was
      confirmed for the policy's three numbers. */
  lemma OrderRestsOnSoundGraph(ws: seq<World>, evs: seq<Event>, j: nat) returns (i: nat)
    requires IsRun(ws, evs) && j < |evs| && Orders(ws[j], evs[j])
    ensures i < j && Starts(ws[i], evs[i]) && Sound(ws[i].engine) && Sound(ws[j].engine)
    ensures evs[i].request.config.Some? && NamesThreeNumbers(evs[i].request.config.value, ws[j].engine.graph.policy)
    ensures !ws[j].engine.risk.killed && ws[j].engine.risk.dayStartEquity > 0.0
  {
    i := OrderMatchesLatestStart(ws, evs, j);
    RunInv(ws, evs, j);
    WiringIsSound(ws[j].engine);
    StartsExactly(ws[i], evs[i]);
  }

  // ---------------------------------------------------------------- the mode

  /** The window of a dry run is over. */
  predicate Elapsed(e: Engine, ev: Event) {
    && ev.StepBegins? && e.intent == DryRun && e.dryRunUntil.Some? && ev.now >= e.dryRunUntil.value
  }

  /** A section that checks the boundary finds it broken. */
  predicate Trips(e: Engine, ev: Event) {
    || ((ev.Arming? || ev.DryRunning? || ev.ObserveBegins? || ev.UpdateBodyDone? || ev.ResettingKill?) && !Sound(e))
    || ((ev.StepBegins? || ev.PermitRequested? || ev.ScheduleRequested?) && !Holds(e))
    || (ev.SnapshotTaken? && e.intent == Running && !Holds(e))
  }

  predicate EntersArmed(e: Engine, ev: Event) {
    || (ev.Arming? && Sound(e) && !e.risk.killed && e.intent == Disabled)
    || ((ev.Stopping? || ev.Updating?) && (e.intent == Running || e.intent == DryRun))
  }

  predicate EntersDisabled(e: Engine, ev: Event) {
    (ev.Disarming? && !e.risk.killed) || ev.ResettingKill? || Trips(e, ev) || (Elapsed(e, ev) && Sound(e))
  }

  predicate EntersDryRun(e: Engine, ev: Event) {
    ev.DryRunning? && Sound(e) && !e.risk.killed && e.intent != Running
  }

  /** The intent after a step, from the fields before it. */
  function IntentAfter(w: World, ev: Event): Intent {
    if EntersDisabled(w.engine, ev) then Disabled
    else if EntersArmed(w.engine, ev) then Armed
    else if EntersDryRun(w.engine, ev) then DryRun
    else if Starts(w, ev) then Running
    else w.engine.intent
  }

  lemma FinishingKeepsMode(w: World, ev: Event)
    requires Enabled(w, ev)
    ensures EngineAfter(w, ev).intent == Entered(w, ev).intent && EngineAfter(w, ev).epoch == Entered(w, ev).epoch
    ensures EngineAfter(w, ev).binding == Entered(w, ev).binding && EngineAfter(w, ev).queue == Entered(w, ev).queue
    ensures EngineAfter(w, ev).dryRunUntil == Entered(w, ev).dryRunUntil
  {
  }

  lemma IntentByHand(w: World, ev: Event)
    requires Enabled(w, ev) && ByHand(ev)
    ensures Entered(w, ev).intent == IntentAfter(w, ev)
  {
    WiringIsSound(w.engine);
  }

  lemma IntentByCycle(w: World, ev: Event)
    requires Enabled(w, ev) && !ByHand(ev)
    ensures Entered(w, ev).intent == IntentAfter(w, ev)
  {
    WiringIsSound(w.engine);
    BoundaryHolds(w.engine);
  }

  /** Which steps move the intent, and where to. */
  lemma IntentMovesExactly(w: World, ev: Event, w': World)
    requires Next(w, ev, w')
    ensures w'.engine.intent == IntentAfter(w, ev)
  {
    FinishingKeepsMode(w, ev);
    if ByHand(ev) {
      IntentByHand(w, ev);
    } else {
      IntentByCycle(w, ev);
    }
  }

  /** The steps that make every cycle begun before them stale. */
  predicate Renews(w: World, ev: Event) {
    || EntersDisabled(w.engine, ev) || EntersArmed(w.engine, ev) || EntersDryRun(w.engine, ev) || Starts(w, ev)
    || ev.Killing? || ev.Updating? || NewDayAccepted(w.engine, ev)
  }

  lemma EpochByHand(w: World, ev: Event)
    requires Enabled(w, ev) && ByHand(ev)
    ensures Entered(w, ev).epoch == w.engine.epoch + if Renews(w, ev) then 1 else 0
  {
    WiringIsSound(w.engine);
  }

  lemma EpochByCycle(w: World, ev: Event)
    requires Enabled(w, ev) && !ByHand(ev)
    ensures Entered(w, ev).epoch == w.engine.epoch + if Renews(w, ev) then 1 else 0
  {
    WiringIsSound(w.engine);
    BoundaryHolds(w.engine);
  }

  /** The epoch rises by one exactly at the steps that switch the mode, kill, rebind or begin a new
      day. */
  lemma EpochMovesExactly(w: World, ev: Event, w': World)
    requires Next(w, ev, w')
    ensures w'.engine.epoch == w.engine.epoch + if Renews(w, ev) then 1 else 0
  {
    FinishingKeepsMode(w, ev);
    if ByHand(ev) {
      EpochByHand(w, ev);
    } else {
      EpochByCycle(w, ev);
    }
  }

  // ---------------------------------------------------------------- the daily halt

  /** A new day is accepted exactly for positive equity and a day after the recorded one. */
  predicate NewDayAccepted(e: Engine, ev: Event) {
    ev.NewDay? && ev.equity > 0.0 && (e.day == None || ev.day > e.day.value)
  }

  lemma NewDayExactly(e: Engine, day: int, equity: real)
    ensures NewDayEnter(e, day, equity).1 == None <==> equity > 0.0 && (e.day == None || day > e.day.value)
    ensures NewDayFinish(e, day, equity).day == Some(day)
    ensures var risk := NewDayFinish(e, day, equity).risk;
            risk.dayStartEquity == equity && !risk.halted && risk.killed == e.risk.killed
  {
  }

  predicate FinishesNewDay(w: World, ev: Event) {
    Finishing(w, ev).Some? && Finishing(w, ev).value.FinishNewDay?
  }

  lemma EnteringLeavesDay(w: World, ev: Event)
    requires Enabled(w, ev)
    ensures Entered(w, ev).risk.halted == (w.engine.risk.halted || ev.RiskHalts?)
    ensures Entered(w, ev).day == w.engine.day
    ensures Entered(w, ev).risk.dayStartEquity == w.engine.risk.dayStartEquity
  {
  }

  /** A call sleeps exactly when it must wait and orders are in flight: stop, disarm, kill and a
      reconfiguration always wait, a reset in a sound graph, a new day when it is accepted. */
  lemma CallSleepsExactly(w: World, ev: Event, w': World, c: nat)
    requires Next(w, ev, w') && c !in w.waiting
    ensures c in w'.waiting <==>
      && CallOf(ev) == c && w.engine.inflight > 0
      && (ev.Stopping? || ev.Disarming? || ev.Killing? || ev.Updating? || NewDayAccepted(w.engine, ev)
          || (ev.ResettingKill? && Sound(w.engine)))
  {
    WiringIsSound(w.engine);
  }

  /** A sleeping call wakes only when nothing is in flight, and then sleeps no more. */
  lemma CallWakesExactly(w: World, ev: Event, w': World, c: nat)
    requires Next(w, ev, w') && c in w.waiting
    ensures c !in w'.waiting <==> ev == Waking(c)
    ensures c !in w'.waiting ==> w.engine.inflight == 0
  {
  }

  lemma RiskMoves(w: World, ev: Event, w': World)
    requires Next(w, ev, w') && !FinishesNewDay(w, ev)
    ensures w'.engine.risk.halted == (w.engine.risk.halted || ev.RiskHalts?)
    ensures w'.engine.day == w.engine.day && w'.engine.risk.dayStartEquity == w.engine.risk.dayStartEquity
  {
    EnteringLeavesDay(w, ev);
  }

  lemma WaitsSince(w: World, ev: Event, w': World, c: nat)
    requires Next(w, ev, w') && c in w'.waiting
    ensures (c in w.waiting && w'.waiting[c] == w.waiting[c])
         || (CallOf(ev) == c && Reaches(w, ev) == Some(w'.waiting[c]))
  {
  }

  /** A sleeping call was made, and what it has left to do is what it was called for. */
  lemma {:induction false} WaitingWasCalled(ws: seq<World>, evs: seq<Event>, j: nat, c: nat) returns (i: nat)
    requires IsRun(ws, evs) && j <= |evs| && c in ws[j].waiting
    ensures i < j && CallOf(evs[i]) == c && Reaches(ws[i], evs[i]) == Some(ws[j].waiting[c])
  {
    assert j > 0;
    assert StepAt(ws, evs, j - 1);
    WaitsSince(ws[j - 1], evs[j - 1], ws[j], c);
    if c in ws[j - 1].waiting && ws[j].waiting[c] == ws[j - 1].waiting[c] {
      i := WaitingWasCalled(ws, evs, j - 1, c);
    } else {
      i := j - 1;
    }
  }

  lemma {:induction false} FinishingWasCalled(ws: seq<World>, evs: seq<Event>, j: nat) returns (i: nat)
    requires IsRun(ws, evs) && j < |evs| && Finishing(ws[j], evs[j]).Some?
    ensures i <= j && CallOf(evs[i]) == CallOf(evs[j]) && Reaches(ws[i], evs[i]) == Finishing(ws[j], evs[j])
  {
    if evs[j].Waking? {
      i := WaitingWasCalled(ws, evs, j, evs[j].call);
    } else {
      i := j;
    }
  }

  lemma ReachesNewDay(w: World, ev: Event, day: int, equity: real)
    requires Reaches(w, ev) == Some(FinishNewDay(day, equity))
    ensures ev.NewDay? && ev.day == day && ev.equity == equity && NewDayAccepted(w.engine, ev)
  {
    NewDayExactly(w.engine, day, equity);
  }

  lemma NewDayRecorded(w: World, ev: Event, w': World, day: int, equity: real)
    requires Next(w, ev, w') && Finishing(w, ev) == Some(FinishNewDay(day, equity))
    ensures w'.engine.day == Some(day) && w'.engine.risk.dayStartEquity == equity && !w'.engine.risk.halted
  {
  }

  /** A halt is lifted, and the baseline and the recorded day move, only when a new day finishes that
      was later than the day recorded when it was called, and for positive equity. */
  lemma HaltLiftedOnlyByLaterDay(ws: seq<World>, evs: seq<Event>, j: nat) returns (i: nat)
    requires IsRun(ws, evs) && j < |evs|
    requires var e, e' := ws[j].engine, ws[j + 1].engine;
             || (e.risk.halted && !e'.risk.halted) || e'.day != e.day
             || e'.risk.dayStartEquity != e.risk.dayStartEquity
    ensures i <= j && CallOf(evs[i]) == CallOf(evs[j]) && NewDayAccepted(ws[i].engine, evs[i])
    ensures ws[j + 1].engine.day == Some(evs[i].day) && ws[j + 1].engine.risk.dayStartEquity == evs[i].equity
    ensures !ws[j + 1].engine.risk.halted && ws[j + 1].permits == map[]
  {
    assert StepAt(ws, evs, j);
    if !FinishesNewDay(ws[j], evs[j]) {
      RiskMoves(ws[j], evs[j], ws[j + 1]);
    }
    var f := Finishing(ws[j], evs[j]).value;
    i := FinishingWasCalled(ws, evs, j);
    ReachesNewDay(ws[i], evs[i], f.day, f.equity);
    NewDayRecorded(ws[j], evs[j], ws[j + 1], f.day, f.equity);
    ProceedsWithNothingInFlight(ws, evs, j, j);
  }

  // ---------------------------------------------------------------- the dry-run window

  lemma WindowOpens(w: World, ev: Event, w': World)
    requires Next(w, ev, w') && EntersDryRun(w.engine, ev)
    ensures w'.engine.intent == DryRun
    ensures w'.engine.dryRunUntil == Some(if ev.minutes <= 1 then ev.now + 1 else ev.now + ev.minutes)
  {
    WiringIsSound(w.engine);
  }

  lemma WindowKeptOnEntry(w: World, ev: Event)
    requires Enabled(w, ev) && !EntersDryRun(w.engine, ev) && !Elapsed(w.engine, ev)
    ensures Entered(w, ev).dryRunUntil == w.engine.dryRunUntil
  {
    WiringIsSound(w.engine);
  }

  lemma WindowStays(w: World, ev: Event, w': World)
    requires Next(w, ev, w') && w.engine.intent == DryRun && w'.engine.intent == DryRun && !EntersDryRun(w.engine, ev)
    ensures w'.engine.dryRunUntil == w.engine.dryRunUntil
  {
    IntentMovesExactly(w, ev, w');
    FinishingKeepsMode(w, ev);
    WindowKeptOnEntry(w, ev);
  }

  lemma {:induction false} WindowIsThatOfTheCall(ws: seq<World>, evs: seq<Event>, i: nat, j: nat)
    requires IsRun(ws, evs) && i < j <= |evs| && EntersDryRun(ws[i].engine, evs[i])
    requires forall k :: i < k <= j ==> ws[k].engine.intent == DryRun
    requires forall k :: i < k < j ==> !EntersDryRun(ws[k].engine, evs[k])
    ensures ws[j].engine.dryRunUntil
         == Some(if evs[i].minutes <= 1 then evs[i].now + 1 else evs[i].now + evs[i].minutes)
  {
    assert StepAt(ws, evs, j - 1);
    if i + 1 == j {
      WindowOpens(ws[i], evs[i], ws[j]);
    } else {
      WindowIsThatOfTheCall(ws, evs, i, j - 1);
      WindowStays(ws[j - 1], evs[j - 1], ws[j]);
    }
  }

  /** A dry run ends by itself: at the first cycle that begins when the minutes asked for, at least
      one, are over; a cycle before that leaves it running. */
  lemma DryRunEndsWithItsWindow(ws: seq<World>, evs: seq<Event>, i: nat, j: nat)
    requires IsRun(ws, evs) && i < j < |evs| && EntersDryRun(ws[i].engine, evs[i])
    requires forall k :: i < k <= j ==> ws[k].engine.intent == DryRun
    requires forall k :: i < k < j ==> !EntersDryRun(ws[k].engine, evs[k])
    requires evs[j].StepBegins? && Sound(ws[j].engine)
    ensures var over := evs[j].now >= evs[i].now + if evs[i].minutes <= 1 then 1 else evs[i].minutes;
      && ws[j + 1].engine.intent == (if over then Disabled else DryRun)
      && (over ==> ws[j + 1].engine.dryRunUntil == None)
      && (over && !ws[j].engine.risk.killed ==> ws[j + 1].cycles == ws[j].cycles)
  {
    WindowIsThatOfTheCall(ws, evs, i, j);
    assert StepAt(ws, evs, j);
    BoundaryHolds(ws[j].engine);
  }

  // ---------------------------------------------------------------- cycles

  /** A cycle of the desk begins exactly in an idle engine inside the boundary whose status is not
      DISABLED, with the window of a dry run still open; it may order only if begun RUNNING. */
  lemma CycleBeginsExactly(e: Engine, now: int)
    ensures var a := BeginStep(e, now).1;
            var over := e.intent == DryRun && e.dryRunUntil.Some? && now >= e.dryRunUntil.value;
      && (a.Admitted? <==> Holds(e) && !e.cycleActive && (e.risk.killed || (e.intent != Disabled && !over)))
      && (a.Admitted? && !over ==> a.status == StatusOf(e))
      && (a.Admitted? ==> a.cycleEpoch == if a.status == Running then Some(e.epoch) else None)
  {
    BoundaryHolds(e);
  }

  /** An observation begins exactly in an idle, DISABLED, sound engine. */
  lemma ObservationBeginsExactly(e: Engine)
    ensures BeginObserve(e).1 == None <==> Sound(e) && e.intent == Disabled && !e.cycleActive
  {
    WiringIsSound(e);
  }

  /** A task spawned inside a cycle inherits its context and is refused all the same, in its own name
      and in none. */
  lemma ChildInheritsAndIsRefused(w: World, ev: Event, w': World, current: Option<Task>)
    requires Inv(w) && Next(w, ev, w') && ev.TaskSpawned? && ev.parent.Some?
    requires current == None || current == Some(ev.child)
    ensures w'.contexts == w.contexts[ev.child := w.contexts[ev.parent.value]]
    ensures Decide(w'.engine, w'.contexts[ev.child], current) != Granted
  {
  }

  /** The end of a cycle gives its task back the context it had when the cycle began. */
  lemma ContextIsRestored(ws: seq<World>, evs: seq<Event>, i: nat, j: nat)
    requires IsRun(ws, evs) && i < j < |evs| && AdmitsStep(ws[i], evs[i])
    requires evs[j] == CycleEnds(evs[i].cycle) && (forall k :: i < k <= j ==> evs[i].cycle in ws[k].cycles)
    ensures ContextOf(ws[j + 1], evs[i].task) == ContextOf(ws[i], evs[i].task)
    ensures evs[i].cycle !in ws[j + 1].cycles && !ws[j + 1].engine.cycleActive
  {
    assert StepAt(ws, evs, i) && StepAt(ws, evs, j);
    RecordKept(ws, evs, i, j);
  }

  lemma {:induction false} RecordKept(ws: seq<World>, evs: seq<Event>, i: nat, j: nat)
    requires IsRun(ws, evs) && i < j <= |evs| && AdmitsStep(ws[i], evs[i])
    requires forall k :: i < k <= j ==> evs[i].cycle in ws[k].cycles
    ensures ws[j].cycles[evs[i].cycle].StepCycle? && ws[j].cycles[evs[i].cycle].task == evs[i].task
    ensures ws[j].cycles[evs[i].cycle].saved == ContextOf(ws[i], evs[i].task)
  {
    assert StepAt(ws, evs, j - 1);
    if i + 1 < j {
      RecordKept(ws, evs, i, j - 1);
      CycleRecordStays(ws[j - 1], evs[j - 1], ws[j], evs[i].cycle);
    }
  }

  // ---------------------------------------------------------------- the queue

  predicate Inserts(w: World, ev: Event, key: string, work: Work) {
    && Schedules(w, ev) && ev.key == key && ev.quantity == Some(work.quantity) && work.insertedAt == w.engine.epoch
  }

  lemma QueuedSince(w: World, ev: Event, w': World, key: string)
    requires Next(w, ev, w') && key in w'.engine.queue
    ensures || (key in w.engine.queue && w'.engine.queue[key] == w.engine.queue[key])
            || Inserts(w, ev, key, w'.engine.queue[key])
  {
    FinishingKeepsMode(w, ev);
    if !ev.ScheduleRequested? && !ev.QueueItemDropped? {
      OnlySchedulingTouchesQueue(w, ev);
    }
  }

  /** Whatever is queued was put there, with its quantity, by a granted insertion at the epoch it
      carries, and has been there ever since. */
  lemma {:induction false} QueuedWasScheduled(ws: seq<World>, evs: seq<Event>, j: nat, key: string) returns (i: nat)
    requires IsRun(ws, evs) && j <= |evs| && key in ws[j].engine.queue
    ensures i < j && Inserts(ws[i], evs[i], key, ws[j].engine.queue[key])
    ensures forall k :: i < k <= j ==> key in ws[k].engine.queue && ws[k].engine.queue[key] == ws[j].engine.queue[key]
  {
    assert j > 0;
    assert StepAt(ws, evs, j - 1);
    QueuedSince(ws[j - 1], evs[j - 1], ws[j], key);
    if Inserts(ws[j - 1], evs[j - 1], key, ws[j].engine.queue[key]) {
      i := j - 1;
    } else {
      i := QueuedWasScheduled(ws, evs, j - 1, key);
    }
  }
}
