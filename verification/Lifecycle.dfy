/** Instance lifecycle: what is kept about states, children, reaps and spawn
    phases, and by exactly which steps. */
module Lifecycle {
  import opened Base
  import opened Sums
  import opened Types
  import opened Placement
  import opened Machine
  import opened Waking
  import opened Books

  // ── Invariants ──────────────────────────────────────────────────────────

  /** A non-retiring instance is registered, keeps its child and is not being
      unregistered; one whose child is being shut down holds no slot. */
  ghost predicate LifeOk(env: Env, model: ModelName, registered: bool, l: Life) {
    && (l.state != Failed ==> registered && l.unregs == 0 && !Taken(l.child))
    && (l.child == Killing ==> l.inFlight == 0)
    && model in env.configs
  }

  ghost predicate LivesOk(env: Env, f: Fleet) {
    forall i :: Known(f, i) ==> LifeOk(env, f.info[i].model, i in f.registry, f.life[i])
  }

  /** Handles a reaper has collected stay retiring and idle until it acts. */
  ghost predicate ReapingOk(f: Fleet) {
    forall i :: i in f.reaping ==> i in f.life && f.life[i].state == Failed && f.life[i].inFlight == 0
  }

  /** An instance under readiness polling has never served; if something
      already retired it, its child is taken. */
  ghost predicate PollOk(p: Phase, f: Fleet) {
    p.Polling? ==>
      && p.inst in f.life
      && f.life[p.inst].inFlight == 0 && f.life[p.inst].state != Ready
      && (f.life[p.inst].state == Failed ==> Taken(f.life[p.inst].child))
  }

  ghost predicate PollsOk(env: Env, f: Fleet, spawns: map<ModelName, Phase>) {
    forall m :: m in spawns ==> m in env.configs && PollOk(spawns[m], f)
  }

  ghost predicate LivesInv(env: Env, s: State) {
    LivesOk(env, s.fleet) && ReapingOk(s.fleet) && PollsOk(env, s.fleet, s.spawns)
  }

  ghost predicate LifecycleInv(env: Env, s: State) { BooksOk(s) && LivesInv(env, s) }

  lemma LifecycleInit(env: Env)
    ensures LifecycleInv(env, Init())
  {
  }

  // ── One step ────────────────────────────────────────────────────────────

  /** What a new life of instance `i` must satisfy for the invariants to survive. */
  ghost predicate Admissible(env: Env, s: State, i: InstId, l: Life) {
    && Known(s.fleet, i)
    && LifeOk(env, s.fleet.info[i].model, i in s.fleet.registry, l)
    && (i in s.fleet.reaping ==> l.state == Failed && l.inFlight == 0)
    && (forall m :: m in s.spawns && s.spawns[m] == Polling(i) ==>
          l.inFlight == 0 && l.state != Ready && (l.state == Failed ==> Taken(l.child)))
  }

  lemma SetLifeKeeps(env: Env, s: State, i: InstId, l: Life)
    requires LivesInv(env, s) && Admissible(env, s, i, l)
    ensures LivesInv(env, SetLife(s, i, l))
  {
    var f' := SetLife(s, i, l).fleet;
    forall m | m in s.spawns ensures PollOk(s.spawns[m], f') {
      assert PollOk(s.spawns[m], s.fleet);
    }
  }

  /** Guards, queues, ports and references play no part in it. */
  lemma SameParts(env: Env, s: State, t: State)
    requires LivesInv(env, s) && t.fleet == s.fleet && t.spawns == s.spawns
    ensures LivesInv(env, t)
  {
  }

  lemma AcquireKeeps(env: Env, s: State, i: InstId, h: Holder)
    requires LivesInv(env, s) && HasCapacity(env, s.fleet, i)
    ensures LivesInv(env, Acquire(s, i, h))
  {
    var l := s.fleet.life[i];
    assert LifeOk(env, s.fleet.info[i].model, i in s.fleet.registry, l);
    var l' := l.(inFlight := l.inFlight + 1);
    assert Admissible(env, s, i, l');
    SetLifeKeeps(env, s, i, l');
    SameParts(env, SetLife(s, i, l'), Acquire(s, i, h));
  }

  lemma DropGuardKeeps(env: Env, s: State, g: GuardId)
    requires LivesInv(env, s) && KnownGuard(s, g)
    ensures LivesInv(env, DropGuard(s, g))
  {
    var i := s.guards[g].inst;
    var l := s.fleet.life[i];
    assert LifeOk(env, s.fleet.info[i].model, i in s.fleet.registry, l);
    forall m | m in s.spawns && s.spawns[m] == Polling(i)
      ensures l.inFlight == 0 && l.state != Ready && (l.state == Failed ==> Taken(l.child))
    {
      assert PollOk(s.spawns[m], s.fleet);
    }
    var l' := l.(inFlight := if l.inFlight > 0 then l.inFlight - 1 else 0);
    assert Admissible(env, s, i, l');
    SetLifeKeeps(env, s, i, l');
    SameParts(env, SetLife(s, i, l'), DropGuard(s, g));
  }

  lemma RequestKeeps(env: Env, s: State, req: RequestStep)
    requires LivesInv(env, s) && RequestEnabled(env, s, req)
    ensures LivesInv(env, RequestNext(env, s, req))
  {
    match req
    case Barge(i) => AcquireKeeps(env, s, i, Request);
    case Release(g) => DropGuardKeeps(env, s, g);
    case VanishServed(g) => DropGuardKeeps(env, s, g);
    case _ =>
  }

  lemma WakeKeeps(env: Env, s: State, m: ModelName)
    requires LivesInv(env, s)
    ensures LivesInv(env, WakeOne(env, s, m))
  {
    WakeCases(env, s, m);
    var t := s.(lobby := WakeOne(env, s, m).lobby);
    if WakeHands(env, s, m) {
      var q := Queue(s.lobby, m);
      AcquireKeeps(env, t, FindReady(env, s.fleet, m).value, Inbox(q[Vanished(q, s.lobby.gone)]));
    }
  }

  lemma UnregisterLives(env: Env, s: State, i: InstId)
    requires RegistryOk(s.fleet) && LivesOk(env, s.fleet) && Known(s.fleet, i) && s.fleet.life[i].unregs > 0
    ensures LivesOk(env, UnregisterInstance(s, i).fleet)
  {
    var t := UnregisterInstance(s, i);
    DropFacts(s.fleet.registry, i);
    forall j | Known(t.fleet, j) ensures LifeOk(env, t.fleet.info[j].model, j in t.fleet.registry, t.fleet.life[j]) {
      assert LifeOk(env, s.fleet.info[j].model, j in s.fleet.registry, s.fleet.life[j]);
    }
  }

  lemma UnregisterPolls(env: Env, s: State, i: InstId)
    requires LivesInv(env, s) && Known(s.fleet, i) && s.fleet.life[i].unregs > 0
    ensures PollsOk(env, UnregisterInstance(s, i).fleet, s.spawns)
  {
    var f' := UnregisterInstance(s, i).fleet;
    forall m | m in s.spawns ensures m in env.configs && PollOk(s.spawns[m], f') {
      assert PollOk(s.spawns[m], s.fleet);
    }
  }

  lemma UnregisterReaping(s: State, i: InstId)
    requires ReapingOk(s.fleet) && i in s.fleet.life && s.fleet.life[i].unregs > 0
    ensures ReapingOk(UnregisterInstance(s, i).fleet) && UnregisterInstance(s, i).spawns == s.spawns
  {
  }

  lemma UnregisterKeeps(env: Env, s: State, i: InstId)
    requires LifecycleInv(env, s) && Known(s.fleet, i) && s.fleet.life[i].unregs > 0
    ensures LivesInv(env, UnregisterInstance(s, i))
  {
    UnregisterLives(env, s, i);
    UnregisterReaping(s, i);
    UnregisterPolls(env, s, i);
  }

  lemma RemovedAdmissible(env: Env, s: State, i: InstId, act: RemoveStep)
    requires LifecycleInv(env, s) && RemoveEnabled(s, i, act) && !act.Unregister? && SparesBusy(s, Removing(i, act))
    ensures Admissible(env, s, i, RemovedLife(s.fleet.life[i], act))
  {
    var l := s.fleet.life[i];
    assert LifeOk(env, s.fleet.info[i].model, i in s.fleet.registry, l);
    forall m | m in s.spawns && s.spawns[m] == Polling(i)
      ensures l.inFlight == 0 && l.state != Ready && (l.state == Failed ==> Taken(l.child)) && Polled(s, i)
    {
      assert TaskOk(s.fleet, m, s.spawns[m]);
      assert PollOk(s.spawns[m], s.fleet);
    }
  }

  lemma RemoveKeeps(env: Env, s: State, i: InstId, act: RemoveStep)
    requires LifecycleInv(env, s) && RemoveEnabled(s, i, act) && SparesBusy(s, Removing(i, act))
    ensures LivesInv(env, RemoveNext(s, i, act))
  {
    if act.Unregister? {
      UnregisterKeeps(env, s, i);
    } else {
      RemovedAdmissible(env, s, i, act);
      SetLifeKeeps(env, s, i, RemovedLife(s.fleet.life[i], act));
      RemoveIsSetLife(s, i, act);
    }
  }

  // ── Spawning ────────────────────────────────────────────────────────────

  /** Moving a spawn to a phase without an instance. */
  lemma PhaseKeeps(env: Env, s: State, m: ModelName, p: Phase)
    requires LivesInv(env, s) && m in env.configs && !p.Polling?
    ensures PollsOk(env, s.fleet, s.spawns[m := p])
  {
  }

  lemma RegisterKeeps(env: Env, s: State, m: ModelName, port: Port, gpus: seq<nat>)
    requires LifecycleInv(env, s) && m in env.configs
    ensures LivesInv(env, RegisterInstance(env, s, m, port, gpus))
  {
    assert s.fleet.nextInst !in s.fleet.info && s.fleet.nextInst !in s.fleet.reaping;
    RegisterLives(env, s, m, port, gpus);
  }

  lemma RegisterLives(env: Env, s: State, m: ModelName, port: Port, gpus: seq<nat>)
    requires LifecycleInv(env, s) && m in env.configs
    ensures var t := RegisterInstance(env, s, m, port, gpus); LivesOk(env, t.fleet) && PollsOk(env, t.fleet, t.spawns)
  {
    var t := RegisterInstance(env, s, m, port, gpus);
    var i := s.fleet.nextInst;
    forall j | Known(t.fleet, j) ensures LifeOk(env, t.fleet.info[j].model, j in t.fleet.registry, t.fleet.life[j]) {
      if j != i {
        assert LifeOk(env, s.fleet.info[j].model, j in s.fleet.registry, s.fleet.life[j]);
      }
    }
    forall n | n in t.spawns ensures n in env.configs && PollOk(t.spawns[n], t.fleet) {
      if n != m {
        assert PollOk(s.spawns[n], s.fleet);
      }
    }
  }

  /** The poll of `m` ends: its instance gets a new life and the spawn moves on. */
  lemma PollEndKeeps(env: Env, s: State, m: ModelName, l: Life, p: Phase)
    requires LifecycleInv(env, s) && m in s.spawns && s.spawns[m].Polling?
    requires var i := s.spawns[m].inst;
             && Known(s.fleet, i) && LifeOk(env, s.fleet.info[i].model, i in s.fleet.registry, l)
             && (i in s.fleet.reaping ==> l.state == Failed && l.inFlight == 0)
             && (p == Ending || p == Spawned(i))
    ensures var i := s.spawns[m].inst;
            LivesInv(env, ReleasePermit(SetLife(s, i, l), m).(spawns := s.spawns[m := p]))
  {
    var i := s.spawns[m].inst;
    PollerIsUnique(s, m, i);
    var t := s.(spawns := s.spawns[m := p]);
    assert PollsOk(env, t.fleet, t.spawns) by {
      forall n | n in t.spawns ensures n in env.configs && PollOk(t.spawns[n], t.fleet) {
        if n != m {
          assert PollOk(s.spawns[n], s.fleet);
        }
      }
    }
    SetLifeKeeps(env, t, i, l);
    SameParts(env, SetLife(t, i, l), ReleasePermit(SetLife(s, i, l), m).(spawns := s.spawns[m := p]));
  }

  lemma SpawnKeeps(env: Env, s: State, m: ModelName, act: SpawnStep)
    requires LifecycleInv(env, s) && SpawnEnabled(env, s, m, act)
    requires ReadyFromLoading(s, Spawning(m, act))
    ensures LivesInv(env, SpawnNext(env, s, m, act))
  {
    match act
    case Start => PhaseKeeps(env, s, m, Queued);
    case TakePermit => PhaseKeeps(env, s, m, Permitted);
    case CheckCap => PhaseKeeps(env, s, m, Capped);
    case AllocPort(port) => PhaseKeeps(env, s, m, HasPort(if port.Some? then port.value else 0));
    case Abort =>
    case SelectDevices =>
    case Register => RegisterKeeps(env, s, m, s.spawns[m].port, s.spawns[m].gpus);
    case DropPermit =>
    case MarkReady =>
      PollMark(env, s, m);
    case Fail =>
      var i := s.spawns[m].inst;
      PollerIsUnique(s, m, i);
      PollEndKeeps(env, s, m, TakeChild(s.fleet.life[i]), Ending);
    case End =>
  }

  lemma PollMark(env: Env, s: State, m: ModelName)
    requires LifecycleInv(env, s) && SpawnEnabled(env, s, m, MarkReady)
    requires s.fleet.life[s.spawns[m].inst].state == Loading
    ensures LivesInv(env, SpawnNext(env, s, m, MarkReady))
  {
    var i := s.spawns[m].inst;
    PollerIsUnique(s, m, i);
    assert LifeOk(env, s.fleet.info[i].model, i in s.fleet.registry, s.fleet.life[i]);
    PollEndKeeps(env, s, m, s.fleet.life[i].(state := Ready), Spawned(i));
  }

  /** The bookkeeping of instances on their way out does not matter here. */
  lemma CleanKeeps(env: Env, s: State, i: InstId)
    requires LifecycleInv(env, s) && CleanEnabled(s, i)
    ensures LivesInv(env, CleanNext(env, s, i))
  {
    var t := CleanNext(env, s, i);
    CleanFrame(env, s, i);
    forall m | m in t.spawns ensures PollOk(t.spawns[m], t.fleet) {
      assert PollOk(s.spawns[m], s.fleet);
    }
    forall j | Known(t.fleet, j) ensures LifeOk(env, t.fleet.info[j].model, j in t.fleet.registry, t.fleet.life[j]) {
      assert LifeOk(env, s.fleet.info[j].model, j in s.fleet.registry, s.fleet.life[j]);
    }
  }

  // ── Which steps keep it ─────────────────────────────────────────────────

  /** Every step keeps the lifecycle invariant, provided readiness is reported
      of a loading instance and a forced removal finds its instance idle or
      its child dead. */
  lemma LifecycleStep(env: Env, s: State, step: Step)
    requires LifecycleInv(env, s) && Enabled(env, s, step) && ReadyFromLoading(s, step) && SparesBusy(s, step)
    ensures LifecycleInv(env, Next(env, s, step))
  {
    BooksStep(env, s, step);
    match step
    case Requesting(req) => RequestKeeps(env, s, req);
    case Waking(m, source) =>
      assert LivesInv(env, TakeWake(s, m, source));
      WakeKeeps(env, TakeWake(s, m, source), m);
    case Spawning(m, act) => SpawnKeeps(env, s, m, act);
    case Removing(i, act) => RemoveKeeps(env, s, i, act);
    case Reaping(m) =>
    case ReapingStranded(m, late) =>
    case Cleaning(i) => CleanKeeps(env, s, i);
  }

  /** Readiness reported of an instance that a removal has meanwhile marked
      `Failed` makes an instance routable whose child is being shut down. */
  lemma MarkReadyExact(env: Env, s: State, m: ModelName)
    requires LifecycleInv(env, s) && SpawnEnabled(env, s, m, MarkReady)
    ensures LifecycleInv(env, SpawnNext(env, s, m, MarkReady))
            <==> s.fleet.life[s.spawns[m].inst].state == Loading
  {
    var i := s.spawns[m].inst;
    PollerIsUnique(s, m, i);
    if s.fleet.life[i].state == Loading {
      LifecycleStep(env, s, Spawning(m, MarkReady));
    } else {
      var t := SpawnNext(env, s, m, MarkReady);
      assert PollOk(s.spawns[m], s.fleet);
      assert !LifeOk(env, t.fleet.info[i].model, i in t.fleet.registry, t.fleet.life[i]);
      assert Known(t.fleet, i);
    }
  }

  /** A forced removal, by either reaper, is harmless exactly when its instance
      is idle at that moment or its child has died already: handles stranded
      in `Loading` are collected under the lock and removed after it. */
  lemma ForceExact(env: Env, s: State, i: InstId)
    requires LifecycleInv(env, s) && RemoveEnabled(s, i, Force)
    ensures LifecycleInv(env, RemoveNext(s, i, Force))
            <==> s.fleet.life[i].inFlight == 0 || s.fleet.life[i].child != Running
  {
    var l := s.fleet.life[i];
    if l.inFlight == 0 || l.child != Running {
      LifecycleStep(env, s, Removing(i, Force));
    } else {
      var t := RemoveNext(s, i, Force);
      assert Known(t.fleet, i) && t.fleet.life[i].child == Killing;
      assert !LifeOk(env, t.fleet.info[i].model, i in t.fleet.registry, t.fleet.life[i]);
    }
  }

  /** The two conditions are exact, over all steps: a step keeps the invariant
      if and only if it does not report readiness of an instance that is no
      longer loading and does not force out a busy one. */
  lemma LifecycleExact(env: Env, s: State, step: Step)
    requires LifecycleInv(env, s) && Enabled(env, s, step)
    ensures LifecycleInv(env, Next(env, s, step)) <==> ReadyFromLoading(s, step) && SparesBusy(s, step)
  {
    if !ReadyFromLoading(s, step) {
      MarkReadyExact(env, s, step.model);
    } else if !SparesBusy(s, step) {
      ForceExact(env, s, step.inst);
    } else {
      LifecycleStep(env, s, step);
    }
  }

  /** Every run of such steps keeps it. */
  lemma {:induction false} LifecycleRun(env: Env, s: State, steps: seq<Step>)
    requires LifecycleInv(env, s) && GoodRun(env, s, steps)
    ensures LifecycleInv(env, Exec(env, s, steps))
    decreases |steps|
  {
    if steps != [] {
      LifecycleStep(env, s, steps[0]);
      LifecycleRun(env, Next(env, s, steps[0]), steps[1..]);
    }
  }
}
