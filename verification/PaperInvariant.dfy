/** Every step of the protocol keeps the ownership invariant. */
module PaperInvariant {
  import opened Options
  import opened PaperBoundary
  import opened PaperProtocol

  lemma InitialInv(w: World)
    requires Initial(w)
    ensures Inv(w)
  {
  }

  /** What any step does to the mode: the epoch never falls, and it rises whenever the
      intent, the binding or the kill switch changes. */
  predicate Moves(e: Engine, e': Engine) {
    && e'.epoch >= e.epoch
    && (e'.epoch == e.epoch ==>
          e'.intent == e.intent && e'.binding == e.binding && e'.risk.killed == e.risk.killed)
  }

  lemma EnteredMoves(w: World, ev: Event)
    requires Enabled(w, ev)
    ensures Moves(w.engine, Entered(w, ev))
  {
  }

  lemma StepMoves(w: World, ev: Event)
    requires Enabled(w, ev)
    ensures Moves(w.engine, EngineAfter(w, ev))
  {
    EnteredMoves(w, ev);
  }

  /** The sections a person calls. */
  predicate ByHand(ev: Event) {
    || ev.Arming? || ev.DryRunning? || ev.Starting? || ev.Stopping? || ev.Disarming? || ev.Killing?
    || ev.ResettingKill? || ev.Updating? || ev.NewDay?
  }

  lemma CallKeepsBound(w: World, ev: Event)
    requires Enabled(w, ev) && Bound(w.engine) && ByHand(ev)
    ensures Bound(Entered(w, ev))
  {
  }

  lemma CycleKeepsBound(w: World, ev: Event)
    requires Enabled(w, ev) && Bound(w.engine) && !ByHand(ev)
    ensures Bound(Entered(w, ev))
  {
  }

  lemma FinishKeepsBound(w: World, ev: Event)
    requires Enabled(w, ev) && Bound(Entered(w, ev))
    ensures Bound(EngineAfter(w, ev))
  {
  }

  lemma StepKeepsBound(w: World, ev: Event)
    requires Enabled(w, ev) && Bound(w.engine)
    ensures Bound(EngineAfter(w, ev))
  {
    if ByHand(ev) {
      CallKeepsBound(w, ev);
    } else {
      CycleKeepsBound(w, ev);
    }
    FinishKeepsBound(w, ev);
  }

  /** The in-flight counter moves with the permits. */
  lemma StepCountsInflight(w: World, ev: Event)
    requires Enabled(w, ev)
    ensures EngineAfter(w, ev).inflight == w.engine.inflight
              + (if Grants(w, ev) then 1 else 0) - (if ev.PermitReleased? then 1 else 0)
  {
  }

  predicate AdmitsStep(w: World, ev: Event) {
    ev.StepBegins? && BeginStep(w.engine, ev.now).1.Admitted?
  }

  predicate AdmitsObserve(w: World, ev: Event) {
    ev.ObserveBegins? && BeginObserve(w.engine).1.None?
  }

  /** The cycle flag moves with the cycles. */
  lemma StepFlagsCycle(w: World, ev: Event)
    requires Enabled(w, ev)
    ensures EngineAfter(w, ev).cycleActive ==
              (!ev.CycleEnds? && (w.engine.cycleActive || AdmitsStep(w, ev) || AdmitsObserve(w, ev)))
  {
  }

  /** A desk cycle is admitted only when none is active. */
  lemma AdmissionNeedsIdle(w: World, ev: Event)
    requires Enabled(w, ev) && OneCycle(w)
    requires AdmitsStep(w, ev) || AdmitsObserve(w, ev)
    ensures w.cycles == map[] && CyclesAfter(w, ev).Keys == {ev.cycle}
  {
  }

  lemma OneCycleKept(w: World, ev: Event, w': World)
    requires OneCycle(w) && Next(w, ev, w')
    ensures OneCycle(w')
  {
    StepFlagsCycle(w, ev);
    if AdmitsStep(w, ev) || AdmitsObserve(w, ev) {
      AdmissionNeedsIdle(w, ev);
      assert ev.cycle in w'.cycles;
    } else if ev.CycleEnds? {
      assert w'.cycles == map[];
    }
  }

  lemma AdmittedStepOwnsContext(w: World, ev: Event, w': World)
    requires OneCycle(w) && ContextsOwned(w) && Next(w, ev, w') && AdmitsStep(w, ev)
    ensures ContextsOwned(w')
  {
  }

  lemma CycleEndRestoresContext(w: World, ev: Event, w': World)
    requires OneCycle(w) && ContextsOwned(w) && Next(w, ev, w') && ev.CycleEnds?
    ensures ContextsOwned(w')
  {
  }

  lemma ContextsKept(w: World, ev: Event, w': World)
    requires OneCycle(w) && ContextsOwned(w) && Next(w, ev, w')
    ensures ContextsOwned(w')
  {
    StepMoves(w, ev);
    if AdmitsStep(w, ev) {
      AdmittedStepOwnsContext(w, ev, w');
    } else if AdmitsObserve(w, ev) {
      AdmissionNeedsIdle(w, ev);
    } else if ev.CycleEnds? {
      CycleEndRestoresContext(w, ev, w');
    } else {
      assert w'.cycles == w.cycles;
    }
  }

  lemma DropSize<K, V>(m: map<K, V>, k: K)
    requires k in m
    ensures |m - {k}| == |m| - 1
  {
  }

  lemma AddSize<K, V>(m: map<K, V>, k: K, v: V)
    requires k !in m
    ensures |m[k := v]| == |m| + 1
  {
  }

  lemma InflightCountsPermits(w: World, ev: Event, w': World)
    requires w.engine.inflight == |w.permits| && Next(w, ev, w')
    ensures w'.engine.inflight == |w'.permits|
  {
    StepCountsInflight(w, ev);
    if ev.PermitReleased? {
      DropSize(w.permits, ev.permit);
    } else if Grants(w, ev) {
      AddSize(w.permits, ev.permit, Permit(ev.carrier, w.engine.epoch));
    }
  }

  /** The cycle a granted permit belongs to. */
  lemma GrantHasCycle(w: World, ev: Event) returns (c: nat)
    requires Inv(w) && Enabled(w, ev) && (Grants(w, ev) || Schedules(w, ev))
    ensures ev.current == Some(ev.carrier)
    ensures c in w.cycles && w.cycles[c].StepCycle? && w.cycles[c].task == ev.carrier
    ensures w.cycles[c].epoch == Some(w.engine.epoch) && w.cycles[c].status == Running
  {
    assert w.contexts[ev.carrier].task == Some(ev.carrier);
    c :| c in w.cycles && w.cycles[c].StepCycle? && w.cycles[c].task == ev.carrier
         && w.cycles[c].epoch == w.contexts[ev.carrier].epoch;
  }

  ghost predicate PermitHasCycle(w: World, p: nat)
    requires p in w.permits
  {
    exists c :: c in w.cycles && w.cycles[c].StepCycle? && w.cycles[c].task == w.permits[p].task
                && w.cycles[c].status == Running && w.cycles[c].epoch == Some(w.permits[p].epoch)
  }

  lemma GrantedPermitHasCycle(w: World, ev: Event, w': World)
    requires Inv(w) && Next(w, ev, w') && Grants(w, ev)
    ensures w'.permits == w.permits[ev.permit := Permit(ev.carrier, w.engine.epoch)]
    ensures w'.cycles == w.cycles && PermitHasCycle(w', ev.permit)
  {
  }

  /** A cycle with a permit outstanding stays. */
  lemma CyclesOutlivePermits(w: World, ev: Event, w': World)
    requires Inv(w) && Next(w, ev, w') && w.permits != map[]
    ensures w'.cycles == w.cycles
  {
  }

  /** A permit that was there before is the same permit. */
  lemma OtherPermitsStay(w: World, ev: Event, w': World)
    requires Next(w, ev, w')
    ensures forall p :: p in w'.permits && !(Grants(w, ev) && p == ev.permit) ==>
              p in w.permits && w'.permits[p] == w.permits[p]
  {
  }

  lemma SameCycleOwns(w: World, w': World, p: nat)
    requires p in w.permits && p in w'.permits && w'.permits[p] == w.permits[p] && w'.cycles == w.cycles
    requires PermitHasCycle(w, p)
    ensures PermitHasCycle(w', p)
  {
  }

  lemma EveryPermitHasCycle(w: World, ev: Event, w': World, p: nat)
    requires Inv(w) && Next(w, ev, w') && p in w'.permits
    ensures PermitHasCycle(w', p)
  {
    if Grants(w, ev) && p == ev.permit {
      GrantedPermitHasCycle(w, ev, w');
    } else {
      OtherPermitsStay(w, ev, w');
      CyclesOutlivePermits(w, ev, w');
      assert PermitHasCycle(w, p);
      SameCycleOwns(w, w', p);
    }
  }

  lemma OwnedPermits(w: World)
    requires w.engine.inflight == |w.permits| && forall p :: p in w.permits ==> PermitHasCycle(w, p)
    ensures PermitsOwned(w)
  {
  }

  lemma PermitsKept(w: World, ev: Event, w': World)
    requires Inv(w) && Next(w, ev, w')
    ensures PermitsOwned(w')
  {
    InflightCountsPermits(w, ev, w');
    forall p | p in w'.permits
      ensures PermitHasCycle(w', p)
    {
      EveryPermitHasCycle(w, ev, w', p);
    }
    OwnedPermits(w');
  }

  lemma UpdateStaysExclusive(w: World, ev: Event, w': World)
    requires Inv(w) && Next(w, ev, w')
    ensures UpdateExclusive(w')
  {
  }

  lemma StepKeepsInv(w: World, ev: Event, w': World)
    requires Inv(w) && Next(w, ev, w')
    ensures Inv(w')
  {
    StepKeepsBound(w, ev);
    OneCycleKept(w, ev, w');
    ContextsKept(w, ev, w');
    PermitsKept(w, ev, w');
    UpdateStaysExclusive(w, ev, w');
  }
}
