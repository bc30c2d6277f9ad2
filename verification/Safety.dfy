/** The run theorems: what holds in every state the scheduler can reach, each
    under the conditions it really needs. */
module Safety {
  import opened Base
  import opened Sums
  import opened Types
  import opened Placement
  import opened Devices
  import opened Machine
  import opened Waking
  import opened Books
  import opened Lifecycle
  import opened Slots
  import opened Resources
  import opened PlacementSafety
  import opened InstanceCap
  import opened Stranding

  // ── Over all runs ───────────────────────────────────────────────────────

  /** Registry, slots and their limits, waiters, ports, references and queues
      are in order. */
  ghost predicate Accounts(env: Env, s: State) {
    && BooksOk(s)
    && SlotsInv(s) && LimitsOk(env, s.fleet) && WaitersInv(s.lobby, s.guards)
    && PortsInv(s) && KeepAliveInv(env, s)
    && QueuesInv(env, s)
  }

  lemma AccountsInit(env: Env)
    ensures Accounts(env, Init())
  {
    assert Conserved(Init().fleet, Init().guards);
  }

  lemma AccountsStep(env: Env, s: State, step: Step)
    requires Accounts(env, s) && Enabled(env, s, step)
    ensures Accounts(env, Next(env, s, step))
  {
    BooksStep(env, s, step);
    SlotsStep(env, s, step);
    LimitsStep(env, s, step);
    WaitersStep(env, s, step);
    PortsStep(env, s, step);
    KeepAliveStep(env, s, step);
    QueuesStep(env, s, step);
  }

  lemma {:induction false} AccountsRun(env: Env, s: State, steps: seq<Step>)
    requires Accounts(env, s) && ValidRun(env, s, steps)
    ensures Accounts(env, Exec(env, s, steps))
    decreases |steps|
  {
    if steps != [] {
      AccountsStep(env, s, steps[0]);
      AccountsRun(env, Next(env, s, steps[0]), steps[1..]);
    }
  }

  /** In every reachable state whatever, the accounts are in order. */
  lemma Accounted(env: Env, s: State)
    requires Reachable(env, s)
    ensures Accounts(env, s)
  {
    var steps :| ValidRun(env, Init(), steps) && Exec(env, Init(), steps) == s;
    AccountsInit(env);
    AccountsRun(env, Init(), steps);
  }

  /** In every reachable state a wake-up serves the first of the waiters still
      waiting, exactly when there is one and a slot is free. */
  lemma FirstComeFirstServed(env: Env, s: State, m: ModelName, source: WakeSource)
    requires Reachable(env, s) && WakeEnabled(s, m, source)
    ensures ServedInTurn(env, s, Next(env, s, Waking(m, source)), m)
  {
    Accounted(env, s);
    var u := TakeWake(s, m, source);
    WaitersTakeWake(env, s, m, source);
    ServesEarliest(env, u, m);
    ServedAlike(env, s, u, WakeOne(env, u, m), m);
  }

  lemma {:induction false} CapRun(env: Env, s: State, steps: seq<Step>)
    requires BooksOk(s) && CapInv(env, s) && ValidRun(env, s, steps)
    ensures CapInv(env, Exec(env, s, steps))
    decreases |steps|
  {
    if steps != [] {
      CapStep(env, s, steps[0]);
      BooksStep(env, s, steps[0]);
      CapRun(env, Next(env, s, steps[0]), steps[1..]);
    }
  }

  /** In no reachable state does a model have more non-retiring instances than
      its cap. */
  lemma WithinCap(env: Env, s: State, m: ModelName)
    requires Reachable(env, s) && m in env.configs
    ensures |ActivePositions(s.fleet, m)| <= env.configs[m].maxInstances
  {
    ActiveExactly(s.fleet, m);
    var steps :| ValidRun(env, Init(), steps) && Exec(env, Init(), steps) == s;
    forall n | n in env.configs ensures Claimed(Init(), n) <= env.configs[n].maxInstances {}
    CapRun(env, Init(), steps);
    assert Claimed(s, m) <= env.configs[m].maxInstances;
  }

  lemma {:induction false} SpansRun(env: Env, s: State, steps: seq<Step>)
    requires BooksOk(s) && SpansOk(env, s) && ValidRun(env, s, steps)
    ensures SpansOk(env, Exec(env, s, steps))
    decreases |steps|
  {
    if steps != [] {
      SpansStep(env, s, steps[0]);
      BooksStep(env, s, steps[0]);
      SpansRun(env, Next(env, s, steps[0]), steps[1..]);
    }
  }

  /** In every reachable state each instance spans as many devices as its model
      asks for, all of them from the model's own list. */
  lemma SpansItsDevices(env: Env, s: State, i: InstId)
    requires Reachable(env, s) && i in s.fleet.registry
    ensures i in s.fleet.info && Fitted(env, s.fleet.info[i].model, s.fleet.info[i].gpus)
  {
    var steps :| ValidRun(env, Init(), steps) && Exec(env, Init(), steps) == s;
    SpansRun(env, Init(), steps);
    Accounted(env, s);
  }

  /** In every reachable state a slot is kept awake by as many references as
      instances of Vulkan and ROCm models, registered or still leaving, have
      devices in it. */
  lemma KeptAwakeFor(env: Env, s: State, slot: Slot)
    requires Reachable(env, s)
    ensures s.keepAlive[slot]
         == KeptAwake(env, s.fleet.info, s.fleet.registry, slot) + KeptAwake(env, s.fleet.info, s.fleet.leaving, slot)
  {
    Accounted(env, s);
    KeptAwakeExactly(env, s.fleet.info, s.fleet.registry, slot);
    KeptAwakeExactly(env, s.fleet.info, s.fleet.leaving, slot);
  }

  // ── With duplicate-free pools ───────────────────────────────────────────

  lemma {:induction false} PlacementRun(env: Env, s: State, steps: seq<Step>)
    requires env.Valid() && DistinctPools(env) && BooksOk(s) && PlacementInv(env, s) && ValidRun(env, s, steps)
    ensures PlacementInv(env, Exec(env, s, steps))
    decreases |steps|
  {
    if steps != [] {
      PlacementStep(env, s, steps[0]);
      BooksStep(env, s, steps[0]);
      PlacementRun(env, Next(env, s, steps[0]), steps[1..]);
    }
  }

  /** In every reachable state, declared VRAM stays within capacity and the
      instances of a model on disjoint slots, if the pools repeat no device. */
  lemma PlacedSafely(env: Env, s: State)
    requires env.Valid() && DistinctPools(env) && Reachable(env, s)
    ensures PlacementInv(env, s)
  {
    var steps :| ValidRun(env, Init(), steps) && Exec(env, Init(), steps) == s;
    forall slot ensures Granted(env, slot, Declared(env, Placing(Init().fleet), {}, slot)) {}
    PlacementRun(env, Init(), steps);
  }

  // ── With proper readiness reports and reapers ───────────────────────────

  /** Instances live as they should. */
  lemma LivesProperly(env: Env, s: State)
    requires WellReachable(env, s)
    ensures LifecycleInv(env, s)
  {
    var steps :| GoodRun(env, Init(), steps) && Exec(env, Init(), steps) == s;
    LifecycleInit(env);
    LifecycleRun(env, Init(), steps);
  }

  /** From `s` to `t` the child of instance `i` is taken, or its killing is finished. */
  predicate Kills(s: State, t: State, i: InstId) {
    i in s.fleet.life && i in t.fleet.life && t.fleet.life[i].child != s.fleet.life[i].child
    && (t.fleet.life[i].child == Killing || s.fleet.life[i].child == Killing)
  }

  ghost predicate NoGuardOn(s: State, i: InstId) {
    forall g :: g in s.guards ==> s.guards[g].inst != i
  }

  /** Requests are not interrupted: a child is taken or killed while no request
      holds, and no waiter's channel contains, a slot on its instance, on every
      path but one.  The exception, and the only one: a reaper forces out a
      handle it collected earlier and that has a running child and a request
      by now. */
  lemma NeverInterrupted(env: Env, s: State, step: Step, i: InstId)
    requires WellReachable(env, s) && Enabled(env, s, step) && Kills(s, Next(env, s, step), i)
    ensures NoGuardOn(s, i) && NoGuardOn(Next(env, s, step), i) <==> SparesBusy(s, step)
  {
    WellIsReachable(env, s);
    Accounted(env, s);
    LivesProperly(env, s);
    ChildChangesAlone(env, s, step, i);
    if SparesBusy(s, step) {
      KillIsIdle(env, s, step, i);
    } else {
      ForcedIsThis(env, s, step, i);
      GuardedWhenBusy(s, i);
    }
  }

  lemma KillIsIdle(env: Env, s: State, step: Step, i: InstId)
    requires LifecycleInv(env, s) && SlotsInv(s) && Enabled(env, s, step) && SparesBusy(s, step)
    requires Kills(s, Next(env, s, step), i) && Next(env, s, step).guards == s.guards
    ensures NoGuardOn(s, i)
  {
    if s.fleet.life[i].child == Killing {
      KillingIsIdle(env, s, i);
    } else {
      MarkReadyKillsNone(env, s, step, i);
      LifecycleStep(env, s, step);
      SlotsStep(env, s, step);
      KillingIsIdle(env, Next(env, s, step), i);
    }
  }

  lemma MarkReadyKillsNone(env: Env, s: State, step: Step, i: InstId)
    requires Enabled(env, s, step) && Kills(s, Next(env, s, step), i)
    ensures ReadyFromLoading(s, step)
  {
  }

  lemma ForcedIsThis(env: Env, s: State, step: Step, i: InstId)
    requires Enabled(env, s, step) && Kills(s, Next(env, s, step), i) && !SparesBusy(s, step)
    ensures s.fleet.life[i].inFlight > 0
  {
  }

  lemma GuardedWhenBusy(s: State, i: InstId)
    requires SlotsInv(s) && i in s.fleet.life && s.fleet.life[i].inFlight > 0
    ensures !NoGuardOn(s, i)
  {
    assert GuardsOn(s.guards, i) != {};
    var g :| g in GuardsOn(s.guards, i);
  }

  lemma KillingIsIdle(env: Env, s: State, i: InstId)
    requires LifecycleInv(env, s) && SlotsInv(s) && i in s.fleet.life && s.fleet.life[i].child == Killing
    ensures NoGuardOn(s, i)
  {
    assert LifeOk(env, s.fleet.info[i].model, i in s.fleet.registry, s.fleet.life[i]);
    assert GuardsOn(s.guards, i) == {};
    forall g | g in s.guards ensures s.guards[g].inst != i {
      assert g !in GuardsOn(s.guards, i);
    }
  }

  /** A step that changes a child changes no guard. */
  lemma ChildChangesAlone(env: Env, s: State, step: Step, i: InstId)
    requires RegistryOk(s.fleet) && Enabled(env, s, step)
    requires i in s.fleet.life && i in Next(env, s, step).fleet.life
    requires Next(env, s, step).fleet.life[i].child != s.fleet.life[i].child
    ensures Next(env, s, step).guards == s.guards
  {
    if Calm(step) {
      CalmStanding(env, s, step);
    } else if step.Spawning? {
      SpawnSlotFrame(env, s, step.model, step.spawn);
    } else {
      RemoveSlotFrame(s, step.inst, step.remove);
    }
  }
}
