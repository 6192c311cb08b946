/** The paper-execution boundary: the mode machine that decides when an autonomous
    desk cycle may place an internal paper order.

    `Engine` is the abstract value of one engine object and the functions on it are the
    atomic critical sections, one per method that takes the boundary lock.  The class in
    PaperEngine updates its fields in place, each method tied to the function here that
    specifies it.  PaperProtocol and PaperRuns interleave the critical sections and prove
    what holds over whole runs. */
module PaperBoundary {
  import opened Fractions
  import opened Options

  /** Killed and Halted are only ever reported, they are never an intent. */
  datatype Status = Disabled | Armed | DryRun | Running | Halted | Killed

  type Intent = s: Status | s != Halted && s != Killed witness Disabled

  // ---------------------------------------------------------------- configuration

  /** `universe` stands for the policy fields no limit is derived from
      (asset classes, trading days and hours, quote age). */
  datatype Policy = Policy(
    capital: real, riskPerTrade: real, dailyLossLimit: real, maxPortfolioRisk: real,
    maxPositionPct: real, maxLeverage: real, maxOpenPositions: int, universe: string)

  datatype Limits = Limits(
    maxCapital: real, maxDailyLossPct: real, maxDrawdownPct: real, maxPositionPct: real,
    maxGrossLeverage: real, maxOpenPositions: int, maxTradeRiskPct: real,
    maxPortfolioRiskPct: real, maxCorrelatedExposurePct: real, correlationThreshold: real)

  datatype Algo = ImmediateAlgo | SlicingAlgo(cap: real, maxSlices: int)

  datatype Scheduler = Scheduler(slices: int, profile: Option<seq<real>>)

  /** The three parameters the user confirms when starting. */
  datatype RiskConfig = RiskConfig(capital: real, riskPerTradePct: real, maxDailyLossPct: real)

  /** Everything that is recorded when the engine starts and compared at every grant. */
  datatype Signature = Signature(
    policy: Policy, limits: Limits, algo: Algo, scheduler: Option<Scheduler>)

  /** The order-capable object graph.  `attested` says that every identity and exact-type
      check passes; `schedulerAttached` that the desk still holds the canonical scheduler. */
  datatype Graph = Graph(
    attested: bool, schedulerAttached: bool,
    policy: Policy, limits: Limits, algo: Algo, scheduler: Option<Scheduler>)

  datatype Risk = Risk(killed: bool, halted: bool, dayStartEquity: real)

  /** One queued parent order.  `insertedAt` is a history variable: the boundary epoch
      at which the item entered the scheduler queue. */
  datatype Work = Work(quantity: real, insertedAt: nat)

  datatype Engine = Engine(
    intent: Intent, epoch: nat, inflight: nat, cycleActive: bool,
    binding: Option<Signature>, canonicalAlgo: Algo, graph: Graph, risk: Risk,
    queue: map<string, Work>, day: Option<int>, dryRunUntil: Option<int>)

  // ---------------------------------------------------------------- boundary checks

  function SignatureOf(g: Graph): Signature {
    Signature(g.policy, g.limits, g.algo, g.scheduler)
  }

  /** The limits a policy projects to; the correlation limits stay the risk engine's own. */
  predicate ProjectedTo(p: Policy, l: Limits) {
    && l.maxCapital == p.capital
    && l.maxDailyLossPct == p.dailyLossLimit
    && l.maxDrawdownPct == Max(p.dailyLossLimit * 3.0, 0.15)
    && l.maxPositionPct == p.maxPositionPct
    && l.maxGrossLeverage == p.maxLeverage
    && l.maxOpenPositions == p.maxOpenPositions
    && l.maxTradeRiskPct == p.riskPerTrade
    && l.maxPortfolioRiskPct == p.maxPortfolioRisk
  }

  predicate PolicyRiskOk(p: Policy, l: Limits) {
    && ProjectedTo(p, l)
    && l.maxCapital > 0.0 && l.maxDailyLossPct > 0.0 && l.maxDrawdownPct > 0.0
    && l.maxPositionPct > 0.0 && l.maxGrossLeverage > 0.0 && l.maxOpenPositions > 0
    && l.maxTradeRiskPct > 0.0 && l.maxPortfolioRiskPct > 0.0
    && l.maxCorrelatedExposurePct > 0.0 && l.correlationThreshold > 0.0
    && p.riskPerTrade <= p.dailyLossLimit
  }

  predicate AlgoOk(a: Algo) {
    a.SlicingAlgo? ==> a.cap > 0.0 && a.maxSlices > 0
  }

  predicate SchedulerOk(s: Option<Scheduler>) {
    match s
    case None => true
    case Some(sched) =>
      && sched.slices > 0
      && (sched.profile.Some? ==>
            && sched.profile.value != []
            && forall i :: 0 <= i < |sched.profile.value| ==> sched.profile.value[i] > 0.0)
  }

  predicate WiringOk(e: Engine) {
    && e.graph.attested
    && e.graph.schedulerAttached
    && e.risk.dayStartEquity > 0.0
    && AlgoOk(e.graph.algo) && e.graph.algo == e.canonicalAlgo
    && SchedulerOk(e.graph.scheduler)
    && PolicyRiskOk(e.graph.policy, e.graph.limits)
  }

  /** Wiring, and while RUNNING also the binding recorded by the start. */
  predicate RuntimeOk(e: Engine) {
    && WiringOk(e)
    && (e.intent == Running ==> e.binding == Some(SignatureOf(e.graph)))
  }

  /** The confirmed configuration, the policy and the risk limits name the same three numbers. */
  predicate ConfigBound(c: RiskConfig, g: Graph) {
    && c.capital == g.policy.capital == g.limits.maxCapital
    && c.riskPerTradePct == g.policy.riskPerTrade == g.limits.maxTradeRiskPct
    && c.maxDailyLossPct == g.policy.dailyLossLimit == g.limits.maxDailyLossPct
  }

  function StatusOf(e: Engine): Status {
    if e.risk.killed then Killed
    else if !RuntimeOk(e) then Disabled
    else if e.intent == Disabled then Disabled
    else if e.risk.halted then Halted
    else e.intent
  }

  // ---------------------------------------------------------------- critical sections

  /** `cancel_all` reaches the queue only through the desk's own scheduler. */
  function Invalidate(e: Engine): Engine {
    e.(epoch := e.epoch + 1, queue := if e.graph.schedulerAttached then map[] else e.queue)
  }

  function Trip(e: Engine): Engine {
    Invalidate(e.(intent := Disabled, binding := None))
  }

  datatype Refusal =
    | UnsafeBoundary | KillEngaged | NotArmed | Unconfirmed | UnsafeStart
    | EquityInvalid | DayNotAdvanced | NotDisabled | CycleBusy

  datatype Reply = Refused(why: Refusal) | Reported(status: Status)

  function Arm(e: Engine): (Engine, Reply) {
    if !WiringOk(e) then (Trip(e), Refused(UnsafeBoundary))
    else if e.risk.killed then (e, Refused(KillEngaged))
    else
      var e' := if e.intent == Disabled then Invalidate(e.(intent := Armed)) else e;
      (e', Reported(StatusOf(e')))
  }

  function DryRunUntil(now: int, minutes: int): int {
    now + if minutes > 1 then minutes else 1
  }

  function EnterDryRun(e: Engine, now: int, minutes: int): (Engine, Reply) {
    if !WiringOk(e) then (Trip(e), Refused(UnsafeBoundary))
    else if e.risk.killed then (e, Refused(KillEngaged))
    else
      var e' := if e.intent == Running then e
                else Invalidate(e.(intent := DryRun, dryRunUntil := Some(DryRunUntil(now, minutes))));
      (e', Reported(StatusOf(e')))
  }

  /** `config` is None when the caller did not hand over an exact risk configuration. */
  datatype StartRequest = StartRequest(
    confirmed: bool, connected: bool, healthyData: bool, config: Option<RiskConfig>)

  predicate StartSafe(e: Engine, r: StartRequest) {
    && WiringOk(e) && r.connected && r.healthyData && !e.risk.killed
    && r.config.Some? && ConfigBound(r.config.value, e.graph)
  }

  predicate StartAccepted(e: Engine, r: StartRequest) {
    e.intent == Armed && !e.risk.killed && r.confirmed && StartSafe(e, r)
  }

  function Start(e: Engine, r: StartRequest): (Engine, Reply) {
    if e.intent != Armed || e.risk.killed then (e, Refused(NotArmed))
    else if !r.confirmed then (e, Refused(Unconfirmed))
    else if !StartSafe(e, r) then (e, Refused(UnsafeStart))
    else
      var e' := Invalidate(e.(binding := Some(SignatureOf(e.graph)), intent := Running));
      (e', Reported(StatusOf(e')))
  }

  // Calls that wait for orders in flight are split where `Condition.wait` gives the lock away:
  // the `...Enter` part runs before the wait, the rest once no permit is outstanding.

  function StopEnter(e: Engine): Engine {
    if e.intent == Running || e.intent == DryRun
    then Invalidate(e.(intent := Armed, binding := None)) else e
  }

  function DisarmEnter(e: Engine): Engine {
    if e.risk.killed then e else Invalidate(e.(intent := Disabled, binding := None))
  }

  function KillEnter(e: Engine): Engine {
    Invalidate(e.(risk := e.risk.(killed := true), binding := None))
  }

  /** Refused(UnsafeBoundary) raises without waiting. */
  function ResetKillEnter(e: Engine): (Engine, Option<Refusal>) {
    if !WiringOk(e) then (Trip(e), Some(UnsafeBoundary))
    else
      (Invalidate(e.(risk := e.risk.(killed := false), intent := Disabled, binding := None)), None)
  }

  function UpdateEnter(e: Engine): Engine {
    Invalidate(e.(binding := None,
      intent := if e.intent == Running || e.intent == DryRun then Armed else e.intent))
  }

  function UpdateExit(e: Engine): Engine {
    if WiringOk(e) then e else Trip(e)
  }

  function NewDayEnter(e: Engine, day: int, equity: real): (Engine, Option<Refusal>) {
    if equity <= 0.0 then (e, Some(EquityInvalid))
    else if e.day.Some? && day <= e.day.value then (e, Some(DayNotAdvanced))
    else (Invalidate(e), None)
  }

  function NewDayFinish(e: Engine, day: int, equity: real): Engine {
    e.(risk := e.risk.(dayStartEquity := equity, halted := false), day := Some(day))
  }

  /** What a desk cycle is allowed to do once it got past the entry checks of `step`. */
  datatype Admission =
    | NotAdmitted
    | Admitted(status: Status, cycleEpoch: Option<nat>)

  function BeginStep(e: Engine, now: int): (Engine, Admission) {
    if !RuntimeOk(e) then (Trip(e), NotAdmitted)
    else
      var elapsed := e.intent == DryRun && e.dryRunUntil.Some? && now >= e.dryRunUntil.value;
      var e1 := if elapsed then Invalidate(e.(intent := Disabled, dryRunUntil := None)) else e;
      var st := StatusOf(e1);
      if st == Disabled || e1.cycleActive then (e1, NotAdmitted)
      else (e1.(cycleActive := true),
            Admitted(st, if st == Running then Some(e1.epoch) else None))
  }

  function BeginObserve(e: Engine): (Engine, Option<Refusal>) {
    if !WiringOk(e) then (Trip(e), Some(UnsafeBoundary))
    else if e.intent != Disabled then (e, Some(NotDisabled))
    else if e.cycleActive then (e, Some(CycleBusy))
    else (e.(cycleActive := true), None)
  }

  function EndCycle(e: Engine): Engine {
    e.(cycleActive := false)
  }

  type Task = nat

  /** The two context variables a task carries: the epoch of its cycle and the task that began it. */
  datatype Context = Context(epoch: Option<nat>, task: Option<Task>)

  datatype Verdict = Granted | BoundaryViolation | NoCycle | WrongTask | StaleCycle | NotRunning

  /** The decision both permits share, in the order the source takes it. */
  function Decide(e: Engine, c: Context, current: Option<Task>): Verdict {
    if !RuntimeOk(e) then BoundaryViolation
    else if c.epoch.None? then NoCycle
    else if c.task.None? || c.task != current then WrongTask
    else if c.epoch.value != e.epoch then StaleCycle
    else if e.intent != Running then NotRunning
    else Granted
  }

  function RequestPermit(e: Engine, c: Context, current: Option<Task>): (Engine, Verdict) {
    var v := Decide(e, c, current);
    (if v == BoundaryViolation then Trip(e)
     else if v == Granted then e.(inflight := e.inflight + 1) else e, v)
  }

  function ReleasePermit(e: Engine): Engine
    requires e.inflight > 0
  {
    e.(inflight := e.inflight - 1)
  }

  /** The scheduling permit keeps the lock through the insertion, so both are one step.
      `quantity` is None when the scheduler itself refuses to split the order. */
  function Schedule(e: Engine, c: Context, current: Option<Task>, key: string, quantity: Option<real>)
    : (Engine, Verdict)
  {
    var v := Decide(e, c, current);
    (if v == BoundaryViolation then Trip(e)
     else if v == Granted && quantity.Some?
     then e.(queue := e.queue[key := Work(quantity.value, e.epoch)]) else e, v)
  }

  /** A read of the account snapshot disables a RUNNING engine whose boundary drifted. */
  function SnapshotCheck(e: Engine): Engine {
    if e.intent == Running && !RuntimeOk(e) then Trip(e) else e
  }

  /** An engine whose constructor accepted the wiring. */
  predicate FreshlyBuilt(e: Engine) {
    && WiringOk(e)
    && e.intent == Disabled && e.epoch == 0 && e.inflight == 0 && !e.cycleActive
    && e.binding == None && e.queue == map[] && e.day == None && e.dryRunUntil == None
  }
}
