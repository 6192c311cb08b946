/** The boundary as a concurrent protocol: tasks and threads interleave the critical
    sections of PaperBoundary in any order.

    A world is the engine together with what lives outside it: the context variables each
    task carries, the desk cycles that have begun and not ended, the execution permits
    handed out and not released, the calls asleep in `Condition.wait`, and the
    `risk_configuration_update` whose body holds the lock. */
module PaperProtocol {
  import opened Options
  import opened PaperBoundary

  /** `saved` is the context the cycle restores when it ends; an observation sets none. */
  datatype Cycle =
    | StepCycle(task: Task, status: Status, epoch: Option<nat>, saved: Context)
    | ObserveCycle(task: Task)

  datatype Permit = Permit(task: Task, epoch: nat)

  /** What remains to be done once no order is in flight. */
  datatype Pending =
    | FinishStop | FinishDisarm | FinishKill | FinishResetKill
    | FinishUpdate | FinishNewDay(day: int, equity: real)

  datatype World = World(
    engine: Engine,
    contexts: map<Task, Context>,
    cycles: map<nat, Cycle>,
    permits: map<nat, Permit>,
    waiting: map<nat, Pending>,
    holder: Option<nat>)

  datatype Event =
    | Arming
    | DryRunning(now: int, minutes: int)
    | Starting(request: StartRequest)
    | Stopping(call: nat)
    | Disarming(call: nat)
    | Killing(call: nat)
    | ResettingKill(call: nat)
    | Updating(call: nat)
    | NewDay(call: nat, day: int, equity: real)
    | Waking(call: nat)
    | UpdateBodyDone
    | StepBegins(cycle: nat, task: Task, now: int)
    | ObserveBegins(cycle: nat, task: Task)
    | CycleEnds(cycle: nat)
    | PermitRequested(permit: nat, current: Option<Task>, carrier: Task)
    | PermitReleased(permit: nat)
    | ScheduleRequested(current: Option<Task>, carrier: Task, key: string, quantity: Option<real>)
    | QueueItemDropped(key: string)
    | SnapshotTaken
    | TaskSpawned(parent: Option<Task>, child: Task)
    | GraphDrifts(graph: Graph)
    | RiskHalts

  const NoContext := Context(None, None)

  function ContextOf(w: World, t: Task): Context {
    if t in w.contexts then w.contexts[t] else NoContext
  }

  /** A permit request runs in the context of `carrier`; outside an event loop, or in a
      worker thread that inherited the context, there is no current task. */
  predicate SensibleCaller(w: World, current: Option<Task>, carrier: Task) {
    carrier in w.contexts && (current == None || current == Some(carrier))
  }

  predicate Grants(w: World, ev: Event) {
    ev.PermitRequested? && Decide(w.engine, ContextOf(w, ev.carrier), ev.current) == Granted
  }

  predicate Schedules(w: World, ev: Event) {
    && ev.ScheduleRequested?
    && Decide(w.engine, ContextOf(w, ev.carrier), ev.current) == Granted
  }

  predicate Starts(w: World, ev: Event) {
    ev.Starting? && StartAccepted(w.engine, ev.request)
  }

  predicate ResetsKill(w: World, ev: Event) {
    ev.ResettingKill? && WiringOk(w.engine)
  }

  /** The two ways out of DISABLED. */
  predicate LeavesDisabled(w: World, ev: Event) {
    && (ev.Arming? || ev.DryRunning?)
    && WiringOk(w.engine) && !w.engine.risk.killed && w.engine.intent == Disabled
  }

  /** Every event but the environment's takes the lock, which an update body keeps to itself. */
  predicate TakesLock(ev: Event) {
    !(ev.UpdateBodyDone? || ev.QueueItemDropped? || ev.TaskSpawned? || ev.GraphDrifts? || ev.RiskHalts?)
  }

  predicate Enabled(w: World, ev: Event) {
    && (TakesLock(ev) ==> w.holder == None)
    && match ev
       case Stopping(c) => c !in w.waiting
       case Disarming(c) => c !in w.waiting
       case Killing(c) => c !in w.waiting
       case ResettingKill(c) => c !in w.waiting
       case Updating(c) => c !in w.waiting
       case NewDay(c, _, _) => c !in w.waiting
       case Waking(c) => c in w.waiting && w.engine.inflight == 0
       case UpdateBodyDone => w.holder.Some?
       case StepBegins(c, t, _) => c !in w.cycles && t in w.contexts
       case ObserveBegins(c, t) => c !in w.cycles && t in w.contexts
       // The order path runs inside its cycle: a cycle ends after the permits taken in it.
       case CycleEnds(c) =>
         c in w.cycles && forall p | p in w.permits :: w.permits[p].task != w.cycles[c].task
       case PermitRequested(p, cur, t) => p !in w.permits && SensibleCaller(w, cur, t)
       case PermitReleased(p) => p in w.permits && w.engine.inflight > 0
       case ScheduleRequested(cur, t, _, _) => SensibleCaller(w, cur, t)
       case QueueItemDropped(k) => k in w.engine.queue
       case TaskSpawned(parent, child) => child !in w.contexts && (parent.Some? ==> parent.value in w.contexts)
       case _ => true
  }

  /** What the engine object looks like when the event's own critical section is done,
      at the latest when it falls asleep in `Condition.wait`. */
  function Entered(w: World, ev: Event): Engine
    requires Enabled(w, ev)
  {
    var e := w.engine;
    match ev
    case Arming => Arm(e).0
    case DryRunning(now, minutes) => EnterDryRun(e, now, minutes).0
    case Starting(r) => Start(e, r).0
    case Stopping(_) => StopEnter(e)
    case Disarming(_) => DisarmEnter(e)
    case Killing(_) => KillEnter(e)
    case ResettingKill(_) => ResetKillEnter(e).0
    case Updating(_) => UpdateEnter(e)
    case NewDay(_, d, q) => NewDayEnter(e, d, q).0
    case Waking(_) => e
    case UpdateBodyDone => UpdateExit(e)
    case StepBegins(_, _, now) => BeginStep(e, now).0
    case ObserveBegins(_, _) => BeginObserve(e).0
    case CycleEnds(_) => EndCycle(e)
    case PermitRequested(_, cur, t) => RequestPermit(e, ContextOf(w, t), cur).0
    case PermitReleased(_) => ReleasePermit(e)
    case ScheduleRequested(cur, t, k, q) => Schedule(e, ContextOf(w, t), cur, k, q).0
    case QueueItemDropped(k) => e.(queue := e.queue - {k})
    case SnapshotTaken => SnapshotCheck(e)
    case TaskSpawned(_, _) => e
    case GraphDrifts(g) => e.(graph := g)
    case RiskHalts => e.(risk := e.risk.(halted := true))
  }

  /** A call that reaches `_wait_for_inflight_locked`, and what it does after the wait. */
  function Reaches(w: World, ev: Event): Option<Pending> {
    match ev
    case Stopping(_) => Some(FinishStop)
    case Disarming(_) => Some(FinishDisarm)
    case Killing(_) => Some(FinishKill)
    case ResettingKill(_) => if WiringOk(w.engine) then Some(FinishResetKill) else None
    case Updating(_) => Some(FinishUpdate)
    case NewDay(_, d, q) => if NewDayEnter(w.engine, d, q).1.None? then Some(FinishNewDay(d, q)) else None
    case _ => None
  }

  function CallOf(ev: Event): nat {
    match ev
    case Stopping(c) => c
    case Disarming(c) => c
    case Killing(c) => c
    case ResettingKill(c) => c
    case Updating(c) => c
    case NewDay(c, _, _) => c
    case Waking(c) => c
    case _ => 0
  }

  /** The wait of this call is over in this very step: it found nothing in flight, or it woke
      up to that.  Its remaining work runs before the lock is given away again. */
  function Finishing(w: World, ev: Event): Option<Pending> {
    if ev.Waking? then if ev.call in w.waiting then Some(w.waiting[ev.call]) else None
    else if w.engine.inflight == 0 then Reaches(w, ev)
    else None
  }

  function EngineAfter(w: World, ev: Event): Engine
    requires Enabled(w, ev)
  {
    match Finishing(w, ev)
    case Some(FinishNewDay(d, q)) => NewDayFinish(Entered(w, ev), d, q)
    case _ => Entered(w, ev)
  }

  function WaitingAfter(w: World, ev: Event): map<nat, Pending> {
    if ev.Waking? then w.waiting - {ev.call}
    else if Reaches(w, ev).Some? && w.engine.inflight > 0
    then w.waiting[CallOf(ev) := Reaches(w, ev).value]
    else w.waiting
  }

  function HolderAfter(w: World, ev: Event): Option<nat> {
    if Finishing(w, ev) == Some(FinishUpdate) then Some(CallOf(ev))
    else if ev.UpdateBodyDone? then None
    else w.holder
  }

  function CyclesAfter(w: World, ev: Event): map<nat, Cycle>
    requires Enabled(w, ev)
  {
    match ev
    case StepBegins(c, t, now) =>
      var a := BeginStep(w.engine, now).1;
      if a.Admitted? then w.cycles[c := StepCycle(t, a.status, a.cycleEpoch, w.contexts[t])] else w.cycles
    case ObserveBegins(c, t) =>
      if BeginObserve(w.engine).1.None? then w.cycles[c := ObserveCycle(t)] else w.cycles
    case CycleEnds(c) => w.cycles - {c}
    case _ => w.cycles
  }

  function ContextsAfter(w: World, ev: Event): map<Task, Context>
    requires Enabled(w, ev)
  {
    match ev
    case StepBegins(_, t, now) =>
      var a := BeginStep(w.engine, now).1;
      if a.Admitted? then w.contexts[t := Context(a.cycleEpoch, Some(t))] else w.contexts
    case CycleEnds(c) =>
      if w.cycles[c].StepCycle? then w.contexts[w.cycles[c].task := w.cycles[c].saved] else w.contexts
    case TaskSpawned(parent, child) =>
      w.contexts[child := if parent.Some? then ContextOf(w, parent.value) else NoContext]
    case _ => w.contexts
  }

  function PermitsAfter(w: World, ev: Event): map<nat, Permit> {
    match ev
    case PermitRequested(p, _, t) =>
      if Grants(w, ev) then w.permits[p := Permit(t, w.engine.epoch)] else w.permits
    case PermitReleased(p) => w.permits - {p}
    case _ => w.permits
  }

  function Apply(w: World, ev: Event): World
    requires Enabled(w, ev)
  {
    World(EngineAfter(w, ev), ContextsAfter(w, ev), CyclesAfter(w, ev), PermitsAfter(w, ev),
          WaitingAfter(w, ev), HolderAfter(w, ev))
  }

  predicate Next(w: World, ev: Event, w': World) {
    Enabled(w, ev) && w' == Apply(w, ev)
  }

  ghost predicate Initial(w: World) {
    && FreshlyBuilt(w.engine)
    && w.contexts == map[] && w.cycles == map[] && w.permits == map[]
    && w.waiting == map[] && w.holder == None
  }

  // ---------------------------------------------------------------- the invariant

  /** At most one desk cycle is active, and the engine's flag says whether one is. */
  ghost predicate OneCycle(w: World) {
    && (w.engine.cycleActive <==> w.cycles != map[])
    && (forall a, b :: a in w.cycles && b in w.cycles ==> a == b)
  }

  /** A context names its own task only while that task's cycle is active, and carries
      that cycle's epoch; only a cycle admitted in status RUNNING has an epoch. */
  ghost predicate ContextsOwned(w: World) {
    && (forall t :: t in w.contexts && w.contexts[t].task == Some(t) ==>
          exists c :: c in w.cycles && w.cycles[c].StepCycle? && w.cycles[c].task == t
                      && w.cycles[c].epoch == w.contexts[t].epoch)
    && (forall t :: t in w.contexts && w.contexts[t].task.Some? ==> w.contexts[t].task.value in w.contexts)
    && (forall c :: c in w.cycles && w.cycles[c].StepCycle? ==>
          && w.cycles[c].task in w.contexts
          && w.cycles[c].saved.task != Some(w.cycles[c].task)
          && (w.cycles[c].saved.task.Some? ==> w.cycles[c].saved.task.value in w.contexts)
          && (w.cycles[c].epoch.Some? <==> w.cycles[c].status == Running)
          && (w.cycles[c].epoch.Some? ==> w.cycles[c].epoch.value <= w.engine.epoch))
  }

  /** Every outstanding permit was taken by the task of the active cycle, which began in
      status RUNNING, at that cycle's epoch; the in-flight counter counts them. */
  ghost predicate PermitsOwned(w: World) {
    && w.engine.inflight == |w.permits|
    && (forall p :: p in w.permits ==>
          exists c :: c in w.cycles && w.cycles[c].StepCycle? && w.cycles[c].task == w.permits[p].task
                      && w.cycles[c].status == Running && w.cycles[c].epoch == Some(w.permits[p].epoch))
  }

  /** Nothing is in flight while an update body holds the lock. */
  ghost predicate UpdateExclusive(w: World) {
    w.holder.Some? ==> w.permits == map[]
  }

  /** While RUNNING a binding exists unless the kill switch has taken it away. */
  predicate Bound(e: Engine) {
    && (e.binding.Some? ==> e.intent == Running && !e.risk.killed)
    && (e.intent == Running && e.binding == None ==> e.risk.killed)
  }

  ghost predicate Inv(w: World) {
    OneCycle(w) && ContextsOwned(w) && PermitsOwned(w) && UpdateExclusive(w) && Bound(w.engine)
  }
}
