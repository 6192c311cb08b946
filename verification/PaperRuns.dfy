/** What holds over whole runs of the paper boundary, for every interleaving of tasks,
    threads, drifts of the object graph and control calls. */
module PaperRuns {
  import opened Options
  import opened PaperBoundary
  import opened PaperProtocol
  import opened PaperInvariant

  ghost predicate StepAt(ws: seq<World>, evs: seq<Event>, i: nat)
    requires i < |evs| && |ws| == |evs| + 1
  {
    Next(ws[i], evs[i], ws[i + 1])
  }

  /** A run: the worlds passed through and the events between them. */
  ghost predicate IsRun(ws: seq<World>, evs: seq<Event>) {
    && |ws| == |evs| + 1
    && Initial(ws[0])
    && forall i :: 0 <= i < |evs| ==> StepAt(ws, evs, i)
  }

  lemma {:induction false} RunInv(ws: seq<World>, evs: seq<Event>, n: nat)
    requires IsRun(ws, evs) && n <= |evs|
    ensures Inv(ws[n])
  {
    if n == 0 {
      InitialInv(ws[0]);
    } else {
      RunInv(ws, evs, n - 1);
      assert StepAt(ws, evs, n - 1);
      StepKeepsInv(ws[n - 1], evs[n - 1], ws[n]);
    }
  }

  /** Every reachable state: one desk cycle at most, permits only for the task of an active
      cycle that began in status RUNNING, none while an update body holds the lock. */
  lemma OwnershipInEveryReachableState(ws: seq<World>, evs: seq<Event>, n: nat)
    requires IsRun(ws, evs) && n <= |evs|
    ensures forall a, b :: a in ws[n].cycles && b in ws[n].cycles ==> a == b
    ensures ws[n].engine.cycleActive <==> ws[n].cycles != map[]
    ensures ws[n].engine.inflight == |ws[n].permits|
    ensures forall p :: p in ws[n].permits ==> PermitHasCycle(ws[n], p)
    ensures ws[n].holder.Some? ==> ws[n].permits == map[]
  {
    RunInv(ws, evs, n);
    forall p | p in ws[n].permits
      ensures PermitHasCycle(ws[n], p)
    {
    }
  }

  // ---------------------------------------------------------------- epochs

  ghost predicate SameMode(a: Engine, b: Engine) {
    a.epoch == b.epoch && a.intent == b.intent && a.binding == b.binding
    && a.risk.killed == b.risk.killed
  }

  lemma {:induction false} EpochRises(ws: seq<World>, evs: seq<Event>, i: nat, j: nat)
    requires IsRun(ws, evs) && i <= j <= |evs|
    ensures ws[i].engine.epoch <= ws[j].engine.epoch
  {
    if i < j {
      EpochRises(ws, evs, i, j - 1);
      assert StepAt(ws, evs, j - 1);
      StepMoves(ws[j - 1], evs[j - 1]);
    }
  }

  /** As long as the epoch stands still, so do the intent, the binding and the kill switch. */
  lemma {:induction false} SameEpochSameMode(ws: seq<World>, evs: seq<Event>, i: nat, j: nat)
    requires IsRun(ws, evs) && i <= j <= |evs| && ws[i].engine.epoch == ws[j].engine.epoch
    ensures forall k :: i <= k <= j ==> SameMode(ws[i].engine, ws[k].engine)
  {
    if i < j {
      EpochRises(ws, evs, i, j - 1);
      EpochRises(ws, evs, j - 1, j);
      SameEpochSameMode(ws, evs, i, j - 1);
      assert StepAt(ws, evs, j - 1);
      StepMoves(ws[j - 1], evs[j - 1]);
    }
  }

  // ---------------------------------------------------------------- orders and their cycle

  predicate Begins(w: World, ev: Event) {
    AdmitsStep(w, ev) || AdmitsObserve(w, ev)
  }

  lemma CycleRecordStays(w: World, ev: Event, w': World, c: nat)
    requires Next(w, ev, w') && c in w.cycles && c in w'.cycles
    ensures w'.cycles[c] == w.cycles[c]
  {
  }

  lemma {:induction false} CycleHasBeginning(ws: seq<World>, evs: seq<Event>, j: nat, c: nat) returns (i: nat)
    requires IsRun(ws, evs) && j <= |evs| && c in ws[j].cycles
    ensures i < j && Begins(ws[i], evs[i]) && evs[i].cycle == c
    ensures forall k :: i < k <= j ==> c in ws[k].cycles && ws[k].cycles[c] == ws[j].cycles[c]
  {
    assert j > 0;
    assert StepAt(ws, evs, j - 1);
    if c in ws[j - 1].cycles {
      i := CycleHasBeginning(ws, evs, j - 1, c);
      CycleRecordStays(ws[j - 1], evs[j - 1], ws[j], c);
    } else {
      i := j - 1;
    }
  }

  predicate Orders(w: World, ev: Event) {
    Grants(w, ev) || Schedules(w, ev)
  }

  /** No order and no queue insertion without uninterrupted RUNNING: behind every grant stands
      the step of the very task that asks, admitted in status RUNNING, and from that admission
      to the grant the epoch, the intent, the binding and the kill switch never moved. */
  lemma OrderNeedsUninterruptedRunning(ws: seq<World>, evs: seq<Event>, j: nat) returns (i: nat)
    requires IsRun(ws, evs) && j < |evs| && Orders(ws[j], evs[j])
    ensures i < j && AdmitsStep(ws[i], evs[i])
    ensures evs[j].current == Some(evs[i].task) && StatusOf(ws[i].engine) == Running
    ensures forall k :: i <= k <= j ==>
              && SameMode(ws[i].engine, ws[k].engine)
              && ws[k].engine.intent == Running && !ws[k].engine.risk.killed
    ensures forall k :: i < k <= j ==> evs[i].cycle in ws[k].cycles
  {
    var c := OrderHasCycle(ws, evs, j);
    i := CycleHasBeginning(ws, evs, j, c);
    CycleRecordAt(ws, evs, i);
    assert ws[i + 1].cycles[c] == ws[j].cycles[c];
    SameEpochSameMode(ws, evs, i, j);
    assert SameMode(ws[i].engine, ws[j].engine);
  }

  lemma OrderHasCycle(ws: seq<World>, evs: seq<Event>, j: nat) returns (c: nat)
    requires IsRun(ws, evs) && j < |evs| && Orders(ws[j], evs[j])
    ensures c in ws[j].cycles && ws[j].cycles[c].StepCycle?
    ensures evs[j].current == Some(ws[j].cycles[c].task)
    ensures ws[j].cycles[c].epoch == Some(ws[j].engine.epoch) && ws[j].cycles[c].status == Running
    ensures ws[j].engine.intent == Running && !ws[j].engine.risk.killed
  {
    RunInv(ws, evs, j);
    assert StepAt(ws, evs, j);
    c := GrantHasCycle(ws[j], evs[j]);
  }

  lemma CycleRecordAt(ws: seq<World>, evs: seq<Event>, i: nat)
    requires IsRun(ws, evs) && i < |evs| && Begins(ws[i], evs[i])
    ensures evs[i].cycle in ws[i + 1].cycles
    ensures ws[i + 1].cycles[evs[i].cycle].StepCycle? <==> AdmitsStep(ws[i], evs[i])
    ensures AdmitsStep(ws[i], evs[i]) && ws[i + 1].cycles[evs[i].cycle].status == Running ==>
              && ws[i + 1].cycles[evs[i].cycle].task == evs[i].task
              && StatusOf(ws[i].engine) == Running
              && ws[i + 1].cycles[evs[i].cycle].epoch == Some(ws[i].engine.epoch)
  {
    assert StepAt(ws, evs, i);
    AdmittedCycleRecord(ws[i], evs[i], ws[i + 1]);
  }

  /** The record a begun cycle leaves; a cycle with an epoch began in status RUNNING. */
  lemma AdmittedCycleRecord(w: World, ev: Event, w': World)
    requires Next(w, ev, w') && Begins(w, ev)
    ensures ev.cycle in w'.cycles
    ensures w'.cycles[ev.cycle].StepCycle? <==> AdmitsStep(w, ev)
    ensures AdmitsStep(w, ev) && w'.cycles[ev.cycle].status == Running ==>
              && w'.cycles[ev.cycle].task == ev.task && StatusOf(w.engine) == Running
              && w'.cycles[ev.cycle].epoch == Some(w.engine.epoch)
  {
  }

  /** The calls that end an order path. */
  predicate Interrupts(w: World, ev: Event) {
    || (ev.Stopping? && w.engine.intent == Running)
    || (ev.Disarming? && !w.engine.risk.killed)
    || ev.Killing?
    || ev.ResettingKill?
    || ev.Updating?
    || (ev.NewDay? && NewDayEnter(w.engine, ev.day, ev.equity).1.None?)
  }

  lemma InterruptionRaisesEpoch(w: World, ev: Event, w': World)
    requires Next(w, ev, w') && Interrupts(w, ev)
    ensures w'.engine.epoch > w.engine.epoch
  {
  }

  /** A desk cycle begun before a stop, disarm, kill, reset, reconfiguration or new day never
      sends an order afterwards, whatever re-arming and restarting follows. */
  lemma StaleCycleNeverOrders(ws: seq<World>, evs: seq<Event>, i: nat, k: nat, j: nat)
    requires IsRun(ws, evs) && i < k < j < |evs|
    requires Begins(ws[i], evs[i]) && (forall m :: i < m <= j ==> evs[i].cycle in ws[m].cycles)
    requires Interrupts(ws[k], evs[k])
    ensures !Orders(ws[j], evs[j])
  {
    if Orders(ws[j], evs[j]) {
      var b := OrderNeedsUninterruptedRunning(ws, evs, j);
      RunInv(ws, evs, j);
      assert evs[b].cycle in ws[j].cycles;
      assert evs[b].cycle == evs[i].cycle;
      SameCycleSameBeginning(ws, evs, i, b, j);
      assert SameMode(ws[b].engine, ws[k].engine) && SameMode(ws[b].engine, ws[k + 1].engine);
      assert StepAt(ws, evs, k);
      InterruptionRaisesEpoch(ws[k], evs[k], ws[k + 1]);
      assert false;
    }
  }

  /** A cycle that stays active has one beginning: a new one would need its number to be free. */
  lemma SameCycleSameBeginning(ws: seq<World>, evs: seq<Event>, i: nat, b: nat, j: nat)
    requires IsRun(ws, evs) && i < j < |evs| && b < j
    requires Begins(ws[i], evs[i]) && Begins(ws[b], evs[b]) && evs[i].cycle == evs[b].cycle
    requires forall m :: i < m <= j ==> evs[i].cycle in ws[m].cycles
    requires forall m :: b < m <= j ==> evs[i].cycle in ws[m].cycles
    ensures i == b
  {
    assert StepAt(ws, evs, i) && StepAt(ws, evs, b);
  }

  /** ARMED, DRY_RUN, HALTED, KILLED and observing cycles never order. */
  lemma WatchingCycleNeverOrders(ws: seq<World>, evs: seq<Event>, i: nat, j: nat)
    requires IsRun(ws, evs) && i < j < |evs| && Begins(ws[i], evs[i])
    requires AdmitsObserve(ws[i], evs[i]) || StatusOf(ws[i].engine) != Running
    requires forall m :: i < m <= j ==> evs[i].cycle in ws[m].cycles
    ensures !Orders(ws[j], evs[j])
  {
    if Orders(ws[j], evs[j]) {
      var b := OrderNeedsUninterruptedRunning(ws, evs, j);
      RunInv(ws, evs, j);
      assert evs[b].cycle in ws[j].cycles;
      SameCycleSameBeginning(ws, evs, i, b, j);
      assert false;
    }
  }

  // ---------------------------------------------------------------- waiting for orders in flight

  /** Whoever held a permit and does no more has released it. */
  lemma {:induction false} PermitGoneWasReleased(
      ws: seq<World>, evs: seq<Event>, i: nat, j: nat, p: nat) returns (k: nat)
    requires IsRun(ws, evs) && i <= j <= |evs|
    requires p in ws[i].permits && p !in ws[j].permits
    ensures i <= k < j && evs[k] == PermitReleased(p)
    decreases j - i
  {
    assert i < j;
    assert StepAt(ws, evs, i);
    if p in ws[i + 1].permits {
      k := PermitGoneWasReleased(ws, evs, i + 1, j, p);
    } else {
      k := i;
    }
  }

  /** `stop`, `disarm`, `kill`, `reset_kill`, `start_new_day` and the body of
      `risk_configuration_update` proceed with no permit outstanding: everything granted
      before the call has been released when it gets past its wait. */
  lemma ProceedsWithNothingInFlight(ws: seq<World>, evs: seq<Event>, i: nat, j: nat)
    requires IsRun(ws, evs) && i <= j < |evs| && Finishing(ws[j], evs[j]).Some?
    ensures ws[j].permits == map[] && ws[j + 1].permits == map[] && ws[j + 1].engine.inflight == 0
    ensures forall p :: p in ws[i].permits ==> exists k :: i <= k < j && evs[k] == PermitReleased(p)
  {
    RunInv(ws, evs, j);
    assert StepAt(ws, evs, j);
    assert |ws[j].permits| == 0;
    StepCountsInflight(ws[j], evs[j]);
    forall p | p in ws[i].permits
      ensures exists k :: i <= k < j && evs[k] == PermitReleased(p)
    {
      var k := PermitGoneWasReleased(ws, evs, i, j, p);
    }
  }

  lemma BodyKeepsLock(w: World, ev: Event, w': World)
    requires Next(w, ev, w') && w.holder.Some? && w.permits == map[] && ev != UpdateBodyDone
    ensures w'.holder == w.holder && w'.permits == map[] && SameMode(w.engine, w'.engine)
    ensures !Orders(w, ev) && !TakesLock(ev)
  {
  }

  /** While the body of a reconfiguration holds the lock, nothing is granted, inserted, begun
      or switched: policy and limits are rebound with the mode standing still. */
  lemma {:induction false} UpdateBodyUndisturbed(ws: seq<World>, evs: seq<Event>, i: nat, j: nat)
    requires IsRun(ws, evs) && i < j <= |evs|
    requires Finishing(ws[i], evs[i]) == Some(FinishUpdate)
    requires forall k :: i < k < j ==> evs[k] != UpdateBodyDone
    ensures ws[j].holder == Some(CallOf(evs[i])) && ws[j].permits == map[]
    ensures SameMode(ws[i + 1].engine, ws[j].engine)
    ensures forall k :: i < k < j ==> !Orders(ws[k], evs[k]) && !TakesLock(evs[k])
  {
    assert StepAt(ws, evs, j - 1);
    if i + 1 == j {
      ProceedsWithNothingInFlight(ws, evs, i, i);
    } else {
      UpdateBodyUndisturbed(ws, evs, i, j - 1);
      BodyKeepsLock(ws[j - 1], evs[j - 1], ws[j]);
    }
  }

  /** Nothing can be granted until a start succeeds. */
  predicate Quiet(e: Engine) {
    e.intent != Running || e.binding == None
  }

  /** The sections that begin by checking the wiring, and trip when it is unsafe. */
  predicate ChecksWiring(ev: Event) {
    ev.Arming? || ev.DryRunning? || ev.ObserveBegins? || ev.UpdateBodyDone?
  }

  /** The sections that check the wiring and, while RUNNING, the binding. */
  predicate ChecksRuntime(ev: Event) {
    ev.StepBegins? || ev.PermitRequested? || ev.ScheduleRequested? || ev.SnapshotTaken?
  }

  /** The guards under which a step ends RUNNING: a control call, or a section that trips. */
  predicate EndsRunning(w: World, ev: Event) {
    || ev.Stopping? || (ev.Disarming? && !w.engine.risk.killed) || ev.Killing? || ev.ResettingKill? || ev.Updating?
    || (ChecksWiring(ev) && !WiringOk(w.engine))
    || (ChecksRuntime(ev) && !RuntimeOk(w.engine))
  }

  predicate ControlCall(ev: Event) {
    ev.Stopping? || ev.Disarming? || ev.Killing? || ev.ResettingKill? || ev.Updating?
  }

  lemma ControlKeepsQuiet(w: World, ev: Event)
    requires Enabled(w, ev) && ControlCall(ev)
    ensures Quiet(Entered(w, ev)) <==> Quiet(w.engine) || EndsRunning(w, ev)
  {
  }

  lemma WiringCheckKeepsQuiet(w: World, ev: Event)
    requires Enabled(w, ev) && ChecksWiring(ev)
    ensures Quiet(Entered(w, ev)) <==> Quiet(w.engine) || EndsRunning(w, ev)
  {
  }

  lemma RuntimeCheckKeepsQuiet(w: World, ev: Event)
    requires Enabled(w, ev) && ChecksRuntime(ev)
    ensures Quiet(Entered(w, ev)) <==> Quiet(w.engine) || EndsRunning(w, ev)
  {
  }

  lemma RestKeepsQuiet(w: World, ev: Event)
    requires Enabled(w, ev) && !ControlCall(ev) && !ChecksWiring(ev) && !ChecksRuntime(ev)
    ensures Quiet(Entered(w, ev)) <==> !Starts(w, ev) && Quiet(w.engine)
  {
  }

  lemma FinishKeepsQuiet(w: World, ev: Event)
    requires Enabled(w, ev)
    ensures Quiet(EngineAfter(w, ev)) <==> Quiet(Entered(w, ev))
  {
  }

  /** A step leaves the engine RUNNING and bound exactly when it is a successful start, or finds
      it so and is none of the steps that end it. */
  lemma RunningStep(w: World, ev: Event, w': World)
    requires Next(w, ev, w')
    ensures !Quiet(w'.engine) <==> Starts(w, ev) || (!Quiet(w.engine) && !EndsRunning(w, ev))
  {
    FinishKeepsQuiet(w, ev);
    if ControlCall(ev) {
      ControlKeepsQuiet(w, ev);
    } else if ChecksWiring(ev) {
      WiringCheckKeepsQuiet(w, ev);
    } else if ChecksRuntime(ev) {
      RuntimeCheckKeepsQuiet(w, ev);
    } else {
      RestKeepsQuiet(w, ev);
    }
  }

  lemma QuietStays(w: World, ev: Event, w': World)
    requires Next(w, ev, w') && Quiet(w.engine) && !Starts(w, ev)
    ensures Quiet(w'.engine) && !Orders(w, ev)
  {
    RunningStep(w, ev, w');
  }

  /** `stop`, `disarm`, `kill`, `reset_kill` and a reconfiguration leave the engine quiet. */
  lemma ControlCallQuiets(w: World, ev: Event, w': World)
    requires Next(w, ev, w') && Bound(w.engine) && ControlCall(ev)
    ensures Quiet(w'.engine)
  {
    RunningStep(w, ev, w');
  }

  /** A successful start at `k` that nothing before `j` has ended. */
  ghost predicate StartStands(ws: seq<World>, evs: seq<Event>, k: nat, j: nat)
    requires k < |evs| && j <= |evs| && |ws| == |evs| + 1
  {
    Starts(ws[k], evs[k]) && forall m :: k < m < j ==> !EndsRunning(ws[m], evs[m])
  }

  ghost predicate SomeStartStands(ws: seq<World>, evs: seq<Event>, i: nat, j: nat)
    requires j <= |evs| && |ws| == |evs| + 1
  {
    exists k :: i <= k < j && StartStands(ws, evs, k, j)
  }

  /** From a quiet moment on, the engine is RUNNING and bound exactly when some later start has
      succeeded and no control call and no trip has come since. */
  lemma {:induction false} RunningExactly(ws: seq<World>, evs: seq<Event>, i: nat, j: nat)
    requires IsRun(ws, evs) && i <= j <= |evs| && Quiet(ws[i].engine)
    ensures !Quiet(ws[j].engine) <==> SomeStartStands(ws, evs, i, j)
  {
    if i < j {
      var n := j - 1;
      RunningExactly(ws, evs, i, n);
      assert StepAt(ws, evs, n);
      RunningStep(ws[n], evs[n], ws[j]);
      if Starts(ws[n], evs[n]) {
        assert StartStands(ws, evs, n, j);
      } else if !Quiet(ws[j].engine) {
        var k :| i <= k < n && StartStands(ws, evs, k, n);
        assert StartStands(ws, evs, k, j);
      } else if SomeStartStands(ws, evs, i, j) {
        var k :| i <= k < j && StartStands(ws, evs, k, j);
        assert StartStands(ws, evs, k, n);
      }
    }
  }

  /** The control call made at `i` gets past its wait at `j`. */
  ghost predicate GetsPast(ws: seq<World>, evs: seq<Event>, i: nat, j: nat)
    requires i <= j < |evs| && |ws| == |evs| + 1
  {
    && ControlCall(evs[i]) && Finishing(ws[j], evs[j]).Some?
    && (i < j ==> evs[j] == Waking(CallOf(evs[i])) && forall m :: i < m <= j ==> CallOf(evs[i]) in ws[m].waiting)
  }

  lemma WakingKeepsQuiet(w: World, ev: Event, w': World)
    requires Next(w, ev, w') && ev.Waking?
    ensures Quiet(w'.engine) <==> Quiet(w.engine)
  {
    RunningStep(w, ev, w');
  }

  lemma ReportsRunning(e: Engine)
    requires Bound(e)
    ensures StatusOf(e) == Running <==> !Quiet(e) && RuntimeOk(e) && !e.risk.halted
  {
  }

  lemma CallQuietsAt(ws: seq<World>, evs: seq<Event>, i: nat)
    requires IsRun(ws, evs) && i < |evs| && ControlCall(evs[i])
    ensures Quiet(ws[i + 1].engine)
  {
    RunInv(ws, evs, i);
    assert StepAt(ws, evs, i);
    ControlCallQuiets(ws[i], evs[i], ws[i + 1]);
  }

  /** A control call returns with the engine RUNNING and bound exactly when, between the call and
      its return, another start succeeded that no control call and no trip has ended. */
  lemma ReturnsBoundExactly(ws: seq<World>, evs: seq<Event>, i: nat, j: nat)
    requires IsRun(ws, evs) && i <= j < |evs| && GetsPast(ws, evs, i, j)
    ensures !Quiet(ws[j + 1].engine) <==> SomeStartStands(ws, evs, i + 1, j)
  {
    CallQuietsAt(ws, evs, i);
    if i < j {
      RunningExactly(ws, evs, i + 1, j);
      assert StepAt(ws, evs, j);
      WakingKeepsQuiet(ws[j], evs[j], ws[j + 1]);
    }
  }

  /** And it reports RUNNING exactly when, besides, the boundary is sound and no halt is in force;
      in any case nothing is in flight. */
  lemma ReturnsRunningExactly(ws: seq<World>, evs: seq<Event>, i: nat, j: nat)
    requires IsRun(ws, evs) && i <= j < |evs| && GetsPast(ws, evs, i, j)
    ensures ws[j + 1].engine.inflight == 0
    ensures StatusOf(ws[j + 1].engine) == Running <==>
              && SomeStartStands(ws, evs, i + 1, j)
              && RuntimeOk(ws[j + 1].engine) && !ws[j + 1].engine.risk.halted
  {
    ProceedsWithNothingInFlight(ws, evs, i, j);
    ReturnsBoundExactly(ws, evs, i, j);
    RunInv(ws, evs, j + 1);
    ReportsRunning(ws[j + 1].engine);
  }

  function Releases(evs: seq<Event>): nat {
    if evs == [] then 0
    else Releases(evs[..|evs| - 1]) + if evs[|evs| - 1].PermitReleased? then 1 else 0
  }

  /** Once quiet and until the next successful start, the in-flight count falls by exactly one
      at every release and never rises: a waiting call is woken after exactly as many releases
      as there were orders in flight. */
  lemma {:induction false} QuietWaitIsBounded(ws: seq<World>, evs: seq<Event>, i: nat, j: nat)
    requires IsRun(ws, evs) && i <= j <= |evs| && Quiet(ws[i].engine)
    requires forall k :: i <= k < j ==> !Starts(ws[k], evs[k])
    ensures Quiet(ws[j].engine)
    ensures ws[j].engine.inflight + Releases(evs[i..j]) == ws[i].engine.inflight
  {
    if i < j {
      QuietWaitIsBounded(ws, evs, i, j - 1);
      assert StepAt(ws, evs, j - 1);
      QuietStays(ws[j - 1], evs[j - 1], ws[j]);
      StepCountsInflight(ws[j - 1], evs[j - 1]);
      assert evs[i..j][..j - 1 - i] == evs[i..j - 1];
    }
  }

  // ---------------------------------------------------------------- the start behind a grant

  lemma RunningComesFromStart(w: World, ev: Event, w': World)
    requires Next(w, ev, w') && Bound(w.engine)
    requires w'.engine.intent == Running && w'.engine.binding.Some?
    ensures if Starts(w, ev) then w'.engine.binding == Some(SignatureOf(w.engine.graph))
            else w.engine.intent == Running && w.engine.binding == w'.engine.binding
  {
  }

  lemma RunningComesFromStartAt(ws: seq<World>, evs: seq<Event>, i: nat)
    requires IsRun(ws, evs) && i < |evs|
    requires ws[i + 1].engine.intent == Running && ws[i + 1].engine.binding.Some?
    ensures if Starts(ws[i], evs[i])
            then ws[i + 1].engine.binding == Some(SignatureOf(ws[i].engine.graph))
            else ws[i].engine.intent == Running && ws[i].engine.binding == ws[i + 1].engine.binding
  {
    RunInv(ws, evs, i);
    assert StepAt(ws, evs, i);
    RunningComesFromStart(ws[i], evs[i], ws[i + 1]);
  }

  /** The latest successful start, and RUNNING on its binding ever since. */
  lemma {:induction false} LatestStart(ws: seq<World>, evs: seq<Event>, j: nat) returns (i: nat)
    requires IsRun(ws, evs) && j <= |evs|
    requires ws[j].engine.intent == Running && ws[j].engine.binding.Some?
    ensures i < j && Starts(ws[i], evs[i])
    ensures forall k :: i < k <= j ==>
              && ws[k].engine.intent == Running
              && ws[k].engine.binding == Some(SignatureOf(ws[i].engine.graph))
    ensures forall k :: i < k < j ==> !Starts(ws[k], evs[k])
  {
    assert j > 0;
    RunningComesFromStartAt(ws, evs, j - 1);
    if Starts(ws[j - 1], evs[j - 1]) {
      i := j - 1;
    } else {
      i := LatestStart(ws, evs, j - 1);
    }
  }

  /** Every order is placed under the exact policy, limits, algorithm and scheduler settings of
      the latest successful start, whose confirmed capital, risk-per-trade and daily loss
      still are the policy's and the risk engine's. */
  lemma OrderMatchesLatestStart(ws: seq<World>, evs: seq<Event>, j: nat) returns (i: nat)
    requires IsRun(ws, evs) && j < |evs| && Orders(ws[j], evs[j])
    ensures i < j && Starts(ws[i], evs[i]) && (forall k :: i < k < j ==> !Starts(ws[k], evs[k]))
    ensures var now, then_ := ws[j].engine.graph, ws[i].engine.graph;
            && now.policy == then_.policy && now.limits == then_.limits
            && now.algo == then_.algo && now.scheduler == then_.scheduler
    ensures evs[i].request.confirmed && evs[i].request.connected && evs[i].request.healthyData
    ensures evs[i].request.config.Some?
    ensures var c, g := evs[i].request.config.value, ws[j].engine.graph;
            && c.capital == g.policy.capital == g.limits.maxCapital
            && c.riskPerTradePct == g.policy.riskPerTrade == g.limits.maxTradeRiskPct
            && c.maxDailyLossPct == g.policy.dailyLossLimit == g.limits.maxDailyLossPct
  {
    i := LatestStart(ws, evs, j);
    assert ws[j].engine.binding == Some(SignatureOf(ws[i].engine.graph));
  }

  /** Whatever drifts after the start, the next request to order, to queue or to run a cycle
      gets nothing and leaves the engine disabled, unbound and on a new epoch. */
  lemma DriftDisablesBeforeTheOrder(w: World, ev: Event, w': World)
    requires Next(w, ev, w') && !RuntimeOk(w.engine)
    requires ev.PermitRequested? || ev.ScheduleRequested? || ev.StepBegins?
    ensures w'.permits == w.permits && w'.cycles == w.cycles && w'.engine.inflight == w.engine.inflight
    ensures w'.engine.intent == Disabled && w'.engine.binding == None
    ensures w'.engine.epoch == w.engine.epoch + 1
    ensures w'.engine.queue == if w.engine.graph.schedulerAttached then map[] else w.engine.queue
  {
  }

  // ---------------------------------------------------------------- the kill switch

  lemma EnteringMovesKillSwitch(w: World, ev: Event)
    requires Enabled(w, ev)
    ensures Entered(w, ev).risk.killed <==> ev.Killing? || (w.engine.risk.killed && !ResetsKill(w, ev))
    ensures ResetsKill(w, ev) ==> Entered(w, ev).intent == Disabled
  {
  }

  lemma FinishingKeepsKillSwitch(w: World, ev: Event)
    requires Enabled(w, ev)
    ensures EngineAfter(w, ev).risk.killed == Entered(w, ev).risk.killed
    ensures EngineAfter(w, ev).intent == Entered(w, ev).intent
  {
  }

  lemma KillSwitchMoves(w: World, ev: Event, w': World)
    requires Next(w, ev, w')
    ensures w'.engine.risk.killed <==>
              ev.Killing? || (w.engine.risk.killed && !ResetsKill(w, ev))
    ensures ResetsKill(w, ev) ==> w'.engine.intent == Disabled
  {
    EnteringMovesKillSwitch(w, ev);
    FinishingKeepsKillSwitch(w, ev);
  }

  lemma DisabledIsLeftByArming(w: World, ev: Event, w': World)
    requires Next(w, ev, w') && w.engine.intent == Disabled
    ensures w'.engine.intent != Disabled <==> LeavesDisabled(w, ev)
  {
  }

  /** After a kill the reported status is KILLED until a reset is accepted. */
  lemma {:induction false} KilledUntilReset(ws: seq<World>, evs: seq<Event>, i: nat, j: nat)
    requires IsRun(ws, evs) && i < j <= |evs| && evs[i].Killing?
    requires forall k :: i < k < j ==> !ResetsKill(ws[k], evs[k])
    ensures ws[j].engine.risk.killed && StatusOf(ws[j].engine) == Killed
  {
    assert StepAt(ws, evs, j - 1);
    KillSwitchMoves(ws[j - 1], evs[j - 1], ws[j]);
    if i + 1 < j {
      KilledUntilReset(ws, evs, i, j - 1);
    }
  }

  lemma {:induction false} LatestReset(ws: seq<World>, evs: seq<Event>, i: nat, j: nat) returns (a: nat)
    requires IsRun(ws, evs) && i <= j <= |evs|
    requires ws[i].engine.risk.killed && !ws[j].engine.risk.killed
    ensures i <= a < j && ResetsKill(ws[a], evs[a])
  {
    assert i < j;
    assert StepAt(ws, evs, j - 1);
    KillSwitchMoves(ws[j - 1], evs[j - 1], ws[j]);
    if ws[j - 1].engine.risk.killed {
      a := j - 1;
    } else {
      a := LatestReset(ws, evs, i, j - 1);
    }
  }

  lemma {:induction false} LatestEntry(ws: seq<World>, evs: seq<Event>, i: nat, j: nat) returns (b: nat)
    requires IsRun(ws, evs) && i <= j <= |evs|
    requires ws[i].engine.intent == Disabled && ws[j].engine.intent != Disabled
    ensures i <= b < j && LeavesDisabled(ws[b], evs[b])
  {
    assert i < j;
    assert StepAt(ws, evs, j - 1);
    if ws[j - 1].engine.intent == Disabled {
      DisabledIsLeftByArming(ws[j - 1], evs[j - 1], ws[j]);
      b := j - 1;
    } else {
      b := LatestEntry(ws, evs, i, j - 1);
    }
  }

  /** The kill switch is final: an order after a kill is preceded by an accepted reset, then by
      leaving DISABLED through `arm` or `dry_run`, then by a confirmed start, in that order. */
  lemma KillIsFinal(ws: seq<World>, evs: seq<Event>, i: nat, j: nat) returns (a: nat, b: nat, c: nat)
    requires IsRun(ws, evs) && i < j < |evs| && evs[i].Killing? && Orders(ws[j], evs[j])
    ensures i < a < b < c < j
    ensures ResetsKill(ws[a], evs[a]) && LeavesDisabled(ws[b], evs[b]) && Starts(ws[c], evs[c])
  {
    c := LatestStart(ws, evs, j);
    assert StepAt(ws, evs, i);
    assert ws[i + 1].engine.binding == None && ws[i + 1].engine.risk.killed;
    assert i + 1 <= c;
    a := LatestReset(ws, evs, i + 1, c);
    assert StepAt(ws, evs, a);
    KillSwitchMoves(ws[a], evs[a], ws[a + 1]);
    b := LatestEntry(ws, evs, a + 1, c);
  }

  // ---------------------------------------------------------------- the scheduler queue

  ghost predicate Fresh(e: Engine) {
    forall k :: k in e.queue ==> e.queue[k].insertedAt == e.epoch && e.intent == Running
  }

  /** The one way to break it: an epoch is invalidated while the desk's scheduler is not the
      canonical one, whose queue `cancel_all` then misses. */
  predicate StrandsWork(w: World, w': World) {
    w'.engine.epoch > w.engine.epoch && !w.engine.graph.schedulerAttached && w.engine.queue != map[]
  }

  predicate InvalidatesOrKeeps(e: Engine, e': Engine) {
    e'.queue == if e'.epoch > e.epoch && e.graph.schedulerAttached then map[] else e.queue
  }

  lemma OnlySchedulingTouchesQueue(w: World, ev: Event)
    requires Enabled(w, ev) && !ev.ScheduleRequested? && !ev.QueueItemDropped?
    ensures InvalidatesOrKeeps(w.engine, Entered(w, ev))
  {
  }

  lemma QueueFreshStep(w: World, ev: Event, w': World)
    requires Next(w, ev, w') && Fresh(w.engine)
    ensures Fresh(w'.engine) <==> !StrandsWork(w, w')
  {
    StepMoves(w, ev);
    if !ev.ScheduleRequested? && !ev.QueueItemDropped? {
      OnlySchedulingTouchesQueue(w, ev);
      StrandedOrFresh(w, w');
    } else if StrandsWork(w, w') {
      var k :| k in w.engine.queue;
      assert k in w'.engine.queue;
    }
  }

  lemma StrandedOrFresh(w: World, w': World)
    requires Fresh(w.engine) && Moves(w.engine, w'.engine) && InvalidatesOrKeeps(w.engine, w'.engine)
    ensures Fresh(w'.engine) <==> !StrandsWork(w, w')
  {
  }

  /** Every queued item was inserted at the current epoch with the intent still RUNNING, in
      every run in which no step strands work; the first step that does breaks it. */
  lemma {:induction false} QueueIsFresh(ws: seq<World>, evs: seq<Event>, n: nat)
    requires IsRun(ws, evs) && n <= |evs|
    requires forall k :: 0 <= k < n - 1 ==> !StrandsWork(ws[k], ws[k + 1])
    ensures Fresh(ws[n].engine) <==> (n == 0 || !StrandsWork(ws[n - 1], ws[n]))
  {
    if n > 0 {
      QueueIsFresh(ws, evs, n - 1);
      assert n > 1 ==> !StrandsWork(ws[n - 2], ws[n - 2 + 1]);
      assert StepAt(ws, evs, n - 1);
      QueueFreshStep(ws[n - 1], evs[n - 1], ws[n]);
    }
  }
}
