/** The engine as an object: fields updated in place under the boundary lock. */
module PaperEngine {
  import opened Options
  import opened PaperBoundary

  /** The engine as the program keeps it: fields updated under the boundary lock.  The graph
      and the risk state are reached through references; their current values are the fields
      `graph` and `risk`. */
  class PaperAutonomousEngine {
    var intent: Intent
    var epoch: nat
    var inflight: nat
    var cycleActive: bool
    var binding: Option<Signature>
    const canonicalAlgo: Algo
    var graph: Graph
    var risk: Risk
    var queue: map<string, Work>
    var day: Option<int>
    var dryRunUntil: Option<int>

    function State(): Engine
      reads this
    {
      Engine(intent, epoch, inflight, cycleActive, binding, canonicalAlgo, graph, risk,
             queue, day, dryRunUntil)
    }

    constructor (graph: Graph, risk: Risk)
      requires WiringOk(Engine(Disabled, 0, 0, false, None, graph.algo, graph, risk, map[], None, None))
      ensures FreshlyBuilt(State())
      ensures this.graph == graph && this.risk == risk && canonicalAlgo == graph.algo
      ensures intent == Disabled && epoch == 0 && inflight == 0 && !cycleActive && binding == None
      ensures queue == map[] && day == None && dryRunUntil == None
    {
      intent, epoch, inflight, cycleActive, binding := Disabled, 0, 0, false, None;
      canonicalAlgo, this.graph, this.risk := graph.algo, graph, risk;
      queue, day, dryRunUntil := map[], None, None;
    }

    method InvalidateEpochLocked()
      modifies this`epoch, this`queue
      ensures State() == PaperBoundary.Invalidate(old(State()))
      ensures epoch == old(epoch) + 1 && queue == if graph.schedulerAttached then map[] else old(queue)
    {
      epoch := epoch + 1;
      if graph.schedulerAttached {
        queue := map[];
      }
    }

    method TripBoundary()
      modifies this`intent, this`binding, this`epoch, this`queue
      ensures State() == PaperBoundary.Trip(old(State()))
      ensures intent == Disabled && binding == None && epoch == old(epoch) + 1
    {
      intent := Disabled;
      binding := None;
      InvalidateEpochLocked();
    }

    method Arm() returns (reply: Reply)
      modifies this
      ensures (State(), reply) == PaperBoundary.Arm(old(State()))
      ensures reply.Reported? ==> WiringOk(State()) && !risk.killed && intent != Disabled
      ensures reply.Refused? ==> intent == if WiringOk(old(State())) then old(intent) else Disabled
    {
      if !WiringOk(State()) {
        TripBoundary();
        return Refused(UnsafeBoundary);
      }
      if risk.killed {
        return Refused(KillEngaged);
      }
      if intent == Disabled {
        intent := Armed;
        InvalidateEpochLocked();
      }
      reply := Reported(StatusOf(State()));
    }

    method EnterDryRun(now: int, minutes: int) returns (reply: Reply)
      modifies this
      ensures (State(), reply) == PaperBoundary.EnterDryRun(old(State()), now, minutes)
      ensures reply.Reported? ==> !risk.killed && intent == if old(intent) == Running then Running else DryRun
    {
      if !WiringOk(State()) {
        TripBoundary();
        return Refused(UnsafeBoundary);
      }
      if risk.killed {
        return Refused(KillEngaged);
      }
      if intent == Disabled || intent == Armed || intent == DryRun {
        dryRunUntil := Some(DryRunUntil(now, minutes));
        intent := DryRun;
        InvalidateEpochLocked();
      }
      reply := Reported(StatusOf(State()));
    }

    method Start(r: StartRequest) returns (reply: Reply)
      modifies this
      ensures (State(), reply) == PaperBoundary.Start(old(State()), r)
      ensures reply.Reported? <==> StartAccepted(old(State()), r)
      ensures reply.Reported? ==> intent == Running && binding == Some(SignatureOf(graph)) && epoch == old(epoch) + 1
      ensures reply.Refused? ==> State() == old(State())
    {
      if intent != Armed || risk.killed {
        return Refused(NotArmed);
      }
      if !r.confirmed {
        return Refused(Unconfirmed);
      }
      if !StartSafe(State(), r) {
        return Refused(UnsafeStart);
      }
      binding := Some(SignatureOf(graph));
      intent := Running;
      InvalidateEpochLocked();
      reply := Reported(StatusOf(State()));
    }

    method StopEnter()
      modifies this
      ensures State() == PaperBoundary.StopEnter(old(State()))
      ensures intent != Running && intent != DryRun && inflight == old(inflight)
      ensures old(intent) == Running ==> binding == None && epoch == old(epoch) + 1
    {
      if intent == Running || intent == DryRun {
        intent := Armed;
        binding := None;
        InvalidateEpochLocked();
      }
    }

    method DisarmEnter()
      modifies this
      ensures State() == PaperBoundary.DisarmEnter(old(State()))
      ensures !risk.killed ==> intent == Disabled && binding == None && epoch == old(epoch) + 1
    {
      if !risk.killed {
        intent := Disabled;
        binding := None;
        InvalidateEpochLocked();
      }
    }

    method KillEnter()
      modifies this
      ensures State() == PaperBoundary.KillEnter(old(State()))
      ensures risk.killed && binding == None && epoch == old(epoch) + 1 && intent == old(intent)
      ensures StatusOf(State()) == Killed && inflight == old(inflight)
    {
      risk := risk.(killed := true);
      binding := None;
      InvalidateEpochLocked();
    }

    method ResetKillEnter() returns (refusal: Option<Refusal>)
      modifies this
      ensures (State(), refusal) == PaperBoundary.ResetKillEnter(old(State()))
      ensures intent == Disabled && binding == None && epoch == old(epoch) + 1
      ensures refusal.None? ==> !risk.killed
    {
      if !WiringOk(State()) {
        TripBoundary();
        return Some(UnsafeBoundary);
      }
      risk := risk.(killed := false);
      intent := Disabled;
      binding := None;
      InvalidateEpochLocked();
      refusal := None;
    }

    method UpdateEnter()
      modifies this
      ensures State() == PaperBoundary.UpdateEnter(old(State()))
      ensures intent != Running && intent != DryRun && binding == None && epoch == old(epoch) + 1
    {
      if intent == Running || intent == DryRun {
        intent := Armed;
      }
      binding := None;
      InvalidateEpochLocked();
    }

    method UpdateExit()
      modifies this
      ensures State() == PaperBoundary.UpdateExit(old(State()))
      ensures !WiringOk(old(State())) ==> intent == Disabled && binding == None
    {
      if !WiringOk(State()) {
        TripBoundary();
      }
    }

    method NewDayEnter(tradingDay: int, equity: real) returns (refusal: Option<Refusal>)
      modifies this
      ensures (State(), refusal) == PaperBoundary.NewDayEnter(old(State()), tradingDay, equity)
      ensures refusal == None <==> equity > 0.0 && (old(day) == None || tradingDay > old(day).value)
      ensures refusal.Some? ==> State() == old(State())
      ensures refusal.None? ==> epoch == old(epoch) + 1 && intent == old(intent) && binding == old(binding)
    {
      if equity <= 0.0 {
        return Some(EquityInvalid);
      }
      if day.Some? && tradingDay <= day.value {
        return Some(DayNotAdvanced);
      }
      InvalidateEpochLocked();
      refusal := None;
    }

    method NewDayFinish(tradingDay: int, equity: real)
      modifies this`risk, this`day
      ensures State() == PaperBoundary.NewDayFinish(old(State()), tradingDay, equity)
      ensures day == Some(tradingDay)
      ensures !risk.halted && risk.dayStartEquity == equity && risk.killed == old(risk).killed && epoch == old(epoch)
    {
      risk := risk.(dayStartEquity := equity, halted := false);
      day := Some(tradingDay);
    }

    method BeginStep(now: int) returns (admission: Admission)
      modifies this
      ensures (State(), admission) == PaperBoundary.BeginStep(old(State()), now)
      ensures admission.Admitted? ==> !old(cycleActive) && cycleActive && admission.status != Disabled
      ensures admission.Admitted? ==> admission.cycleEpoch == if admission.status == Running then Some(epoch) else None
      ensures admission.NotAdmitted? ==> cycleActive == old(cycleActive)
    {
      if !RuntimeOk(State()) {
        TripBoundary();
        return NotAdmitted;
      }
      if intent == DryRun && dryRunUntil.Some? && now >= dryRunUntil.value {
        intent := Disabled;
        dryRunUntil := None;
        InvalidateEpochLocked();
      }
      var st := StatusOf(State());
      if st == Disabled || cycleActive {
        return NotAdmitted;
      }
      cycleActive := true;
      admission := Admitted(st, if st == Running then Some(epoch) else None);
    }

    method BeginObserve() returns (refusal: Option<Refusal>)
      modifies this
      ensures (State(), refusal) == PaperBoundary.BeginObserve(old(State()))
      ensures refusal.None? ==> !old(cycleActive) && cycleActive && intent == Disabled
    {
      if !WiringOk(State()) {
        TripBoundary();
        return Some(UnsafeBoundary);
      }
      if intent != Disabled {
        return Some(NotDisabled);
      }
      if cycleActive {
        return Some(CycleBusy);
      }
      cycleActive := true;
      refusal := None;
    }

    method EndCycle()
      modifies this`cycleActive
      ensures State() == PaperBoundary.EndCycle(old(State()))
      ensures !cycleActive && epoch == old(epoch) && inflight == old(inflight)
    {
      cycleActive := false;
    }

    method RequestPermit(c: Context, current: Option<Task>) returns (v: Verdict)
      modifies this
      ensures (State(), v) == PaperBoundary.RequestPermit(old(State()), c, current)
      ensures v == Granted ==> inflight == old(inflight) + 1 && intent == Running && RuntimeOk(State())
      ensures v == Granted ==> c.epoch == Some(epoch) && c.task.Some? && c.task == current
      ensures v != Granted ==> inflight == old(inflight)
    {
      v := Decide(State(), c, current);
      if v == BoundaryViolation {
        TripBoundary();
      } else if v == Granted {
        inflight := inflight + 1;
      }
    }

    method ReleasePermit()
      requires inflight > 0
      modifies this`inflight
      ensures State() == PaperBoundary.ReleasePermit(old(State()))
      ensures inflight == old(inflight) - 1 && cycleActive == old(cycleActive) && epoch == old(epoch)
    {
      inflight := inflight - 1;
    }

    method Schedule(c: Context, current: Option<Task>, key: string, quantity: Option<real>)
      returns (v: Verdict)
      modifies this
      ensures (State(), v) == PaperBoundary.Schedule(old(State()), c, current, key, quantity)
      ensures v == Granted ==> intent == Running
      ensures v == Granted && quantity.Some? ==> key in queue && queue[key] == Work(quantity.value, epoch)
      ensures v == Granted ==> c.epoch == Some(epoch) && c.task.Some? && c.task == current
    {
      v := Decide(State(), c, current);
      if v == BoundaryViolation {
        TripBoundary();
      } else if v == Granted && quantity.Some? {
        queue := queue[key := Work(quantity.value, epoch)];
      }
    }

    method SnapshotCheck()
      modifies this
      ensures State() == PaperBoundary.SnapshotCheck(old(State()))
      ensures intent == Running ==> RuntimeOk(State())
    {
      if intent == Running && !RuntimeOk(State()) {
        TripBoundary();
      }
    }
  }
}
