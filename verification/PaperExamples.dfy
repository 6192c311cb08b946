/** Two runs that show where the guarantees of PaperRuns end: a stop whose wait another start
    overtakes, and a queue that outlives its epoch when the desk's scheduler was exchanged. */
module PaperExamples {
  import opened Options
  import opened PaperBoundary
  import opened PaperProtocol
  import opened PaperRuns

  const SafeGraph := Graph(
    true, true,
    Policy(100.0, 0.01, 0.02, 0.05, 0.1, 1.0, 5, "equities"),
    Limits(100.0, 0.02, 0.15, 0.1, 1.0, 5, 0.01, 0.05, 0.5, 0.5),
    ImmediateAlgo, None)

  const Confirmed := StartRequest(true, true, true, Some(RiskConfig(100.0, 0.01, 0.02)))

  const Built := Engine(Disabled, 0, 0, false, None, ImmediateAlgo, SafeGraph, Risk(false, false, 100.0),
                        map[], None, None)

  const Idle := World(Built, map[], map[], map[], map[], None)
  const Spawned := Idle.(contexts := map[0 := NoContext])
  const ArmedWorld := Spawned.(engine := Built.(intent := Armed, epoch := 1))
  const Started := Spawned.(engine := Built.(intent := Running, epoch := 2, binding := Some(SignatureOf(SafeGraph))))
  const Cycling := Started.(
    engine := Started.engine.(cycleActive := true),
    contexts := map[0 := Context(Some(2), Some(0))],
    cycles := map[0 := StepCycle(0, Running, Some(2), NoContext)])

  lemma Opening()
    ensures Initial(Idle)
    ensures Next(Idle, TaskSpawned(None, 0), Spawned)
    ensures Next(Spawned, Arming, ArmedWorld)
  {
  }

  lemma StartSucceeds()
    ensures Next(ArmedWorld, Starting(Confirmed), Started)
    ensures Starts(ArmedWorld, Starting(Confirmed))
  {
  }

  lemma CycleBegins()
    ensures Next(Started, StepBegins(0, 0, 0), Cycling)
  {
  }

  const Prefix := [TaskSpawned(None, 0), Arming, Starting(Confirmed), StepBegins(0, 0, 0)]
  const PrefixWorlds := [Idle, Spawned, ArmedWorld, Started, Cycling]

  lemma PrefixRuns()
    ensures IsRun(PrefixWorlds, Prefix)
  {
    Opening();
    StartSucceeds();
    CycleBegins();
    forall i | 0 <= i < |Prefix|
      ensures StepAt(PrefixWorlds, Prefix, i)
    {
    }
  }

  lemma OneStepMore(ws: seq<World>, evs: seq<Event>, ev: Event, w: World)
    requires IsRun(ws, evs) && Next(ws[|evs|], ev, w)
    ensures IsRun(ws + [w], evs + [ev])
  {
    var ws', evs' := ws + [w], evs + [ev];
    forall i | 0 <= i < |evs'|
      ensures StepAt(ws', evs', i)
    {
      if i < |evs| {
        assert StepAt(ws, evs, i);
      }
    }
  }

  // ---------------------------------------------------------------- a stop overtaken by a start

  const Ordered := Cycling.(
    engine := Cycling.engine.(inflight := 1), permits := map[7 := Permit(0, 2)])
  const Stopped := Ordered.(
    engine := Ordered.engine.(intent := Armed, binding := None, epoch := 3), waiting := map[9 := FinishStop])
  const Restarted := Stopped.(
    engine := Stopped.engine.(intent := Running, binding := Some(SignatureOf(SafeGraph)), epoch := 4))
  const Released := Restarted.(engine := Restarted.engine.(inflight := 0), permits := map[])
  const Returned := Released.(waiting := map[])

  lemma PermitThenStop()
    ensures Next(Cycling, PermitRequested(7, Some(0), 0), Ordered)
    ensures Next(Ordered, Stopping(9), Stopped)
  {
  }

  lemma StartThenRelease()
    ensures Next(Stopped, Starting(Confirmed), Restarted)
    ensures Next(Restarted, PermitReleased(7), Released)
  {
  }

  lemma StopWakes()
    ensures Next(Released, Waking(9), Returned) && Finishing(Released, Waking(9)) == Some(FinishStop)
  {
  }

  /** `stop` returns with nothing in flight, but not necessarily with the engine stopped. */
  lemma StopMayReturnRunning() returns (ws: seq<World>, evs: seq<Event>, i: nat, j: nat)
    ensures IsRun(ws, evs) && i < j < |evs|
    ensures evs[i].Stopping? && evs[j] == Waking(evs[i].call) && Finishing(ws[j], evs[j]) == Some(FinishStop)
    ensures ws[j + 1].engine.intent == Running && ws[j + 1].engine.inflight == 0
  {
    PrefixRuns();
    PermitThenStop();
    StartThenRelease();
    StopWakes();
    ws, evs := PrefixWorlds, Prefix;
    OneStepMore(ws, evs, PermitRequested(7, Some(0), 0), Ordered);
    ws, evs := ws + [Ordered], evs + [PermitRequested(7, Some(0), 0)];
    OneStepMore(ws, evs, Stopping(9), Stopped);
    ws, evs := ws + [Stopped], evs + [Stopping(9)];
    OneStepMore(ws, evs, Starting(Confirmed), Restarted);
    ws, evs := ws + [Restarted], evs + [Starting(Confirmed)];
    OneStepMore(ws, evs, PermitReleased(7), Released);
    ws, evs := ws + [Released], evs + [PermitReleased(7)];
    OneStepMore(ws, evs, Waking(9), Returned);
    ws, evs := ws + [Returned], evs + [Waking(9)];
    i, j := 5, 8;
  }

  // ---------------------------------------------------------------- work stranded in the queue

  const Queued := Cycling.(engine := Cycling.engine.(queue := map["parent" := Work(1.0, 2)]))
  const Swapped := Queued.(engine := Queued.engine.(graph := SafeGraph.(schedulerAttached := false)))
  const Stranded := Swapped.(engine := Swapped.engine.(intent := Armed, binding := None, epoch := 3))

  lemma WorkQueued()
    ensures Next(Cycling, ScheduleRequested(Some(0), 0, "parent", Some(1.0)), Queued)
  {
  }

  lemma SchedulerSwapped()
    ensures Next(Queued, GraphDrifts(SafeGraph.(schedulerAttached := false)), Swapped)
  {
  }

  lemma StopStrands()
    ensures Next(Swapped, Stopping(9), Stranded) && StrandsWork(Swapped, Stranded)
  {
    assert "parent" in Swapped.engine.queue;
  }

  /** Once the scheduler attached to the desk is another one, a stop leaves the old queue in place:
      work of an epoch gone by, under an intent that is no longer RUNNING. */
  lemma StopMayStrandWork() returns (ws: seq<World>, evs: seq<Event>)
    ensures IsRun(ws, evs) && evs != [] && evs[|evs| - 1].Stopping? && !Fresh(ws[|evs|].engine)
  {
    PrefixRuns();
    WorkQueued();
    SchedulerSwapped();
    StopStrands();
    var schedule := ScheduleRequested(Some(0), 0, "parent", Some(1.0));
    var drift := GraphDrifts(SafeGraph.(schedulerAttached := false));
    ws, evs := PrefixWorlds, Prefix;
    OneStepMore(ws, evs, schedule, Queued);
    ws, evs := ws + [Queued], evs + [schedule];
    OneStepMore(ws, evs, drift, Swapped);
    ws, evs := ws + [Swapped], evs + [drift];
    OneStepMore(ws, evs, Stopping(9), Stranded);
    ws, evs := ws + [Stranded], evs + [Stopping(9)];
    assert "parent" in Stranded.engine.queue;
  }
}
