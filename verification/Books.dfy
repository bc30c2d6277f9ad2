/** The bookkeeping every run keeps, whatever readiness reports and forced
    removals do: the registry, the one spawn permit, and what spawn tasks poll. */
module Books {
  import opened Base
  import opened Sums
  import opened Types
  import opened Placement
  import opened Machine
  import opened Waking

  predicate Taken(c: Child) { c == Killing || c == Gone }

  ghost predicate RegistryOk(f: Fleet) {
    && f.info.Keys == f.life.Keys
    && (forall i :: i in f.info ==> i < f.nextInst)
    && NoDup(f.registry) && NoDup(f.leaving)
    && (forall i :: i in f.registry ==> i in f.info && i !in f.leaving)
    && (forall i :: i in f.leaving ==> i in f.info)
    && (forall i :: i in f.stage <==> i in f.leaving)
  }

  predicate NeedsPermit(p: Phase) { p.Permitted? || p.Capped? || p.HasPort? || p.Selected? }

  /** From the cap check to registration a spawn task holds the one permit. */
  ghost predicate PermitOk(spawns: map<ModelName, Phase>, permit: Option<ModelName>) {
    && (forall m :: m in spawns && NeedsPermit(spawns[m]) ==> permit == Some(m))
    && (permit.Some? ==> permit.value in spawns && (NeedsPermit(spawns[permit.value]) || spawns[permit.value].Polling?))
  }

  /** A spawn task polls an instance of its own model. */
  ghost predicate TaskOk(f: Fleet, m: ModelName, p: Phase) {
    match p
    case Polling(i) => IsOf(f, i, m)
    case Spawned(i) => IsOf(f, i, m)
    case _ => true
  }

  ghost predicate TasksOk(f: Fleet, spawns: map<ModelName, Phase>) {
    forall m :: m in spawns ==> TaskOk(f, m, spawns[m])
  }

  ghost predicate BooksOk(s: State) {
    RegistryOk(s.fleet) && PermitOk(s.spawns, s.permit) && TasksOk(s.fleet, s.spawns)
  }

  // ── Removal and cleanup ─────────────────────────────────────────────────

  lemma DropFacts(list: seq<InstId>, i: InstId)
    requires NoDup(list)
    ensures NoDup(Drop(list, i)) && forall j :: j in Drop(list, i) <==> j in list && j != i
  {
    KeepIn(list, Other(i));
    KeepNoDup(list, Other(i));
  }

  lemma UnregisterRegistry(f: Fleet, i: InstId)
    requires RegistryOk(f) && i in f.registry
    ensures RegistryOk(f.(registry := Drop(f.registry, i), leaving := f.leaving + [i], stage := f.stage[i := FreePort]))
  {
    DropFacts(f.registry, i);
  }

  lemma UnregisterFleet(s: State, i: InstId)
    requires RegistryOk(s.fleet) && Known(s.fleet, i) && s.fleet.life[i].unregs > 0
    ensures RegistryOk(UnregisterInstance(s, i).fleet)
  {
    var t := SetLife(s, i, s.fleet.life[i].(unregs := s.fleet.life[i].unregs - 1));
    if i in s.fleet.registry {
      UnregisterRegistry(t.fleet, i);
    }
  }

  /** The life a removal step gives its instance. */
  function RemovedLife(l: Life, act: RemoveStep): Life
    requires !act.Unregister?
  {
    match act
    case IfIdle => if l.inFlight > 0 then l else TakeChild(l)
    case Drain => if l.inFlight > 0 then l.(state := Failed) else TakeChild(l)
    case Force => TakeChild(l)
    case Exits => l.(child := Exited)
    case Killed => l.(child := Gone, unregs := l.unregs + 1)
    case Crash => if l.state == Failed then l else TakeChild(l)
  }

  lemma RemoveIsSetLife(s: State, i: InstId, act: RemoveStep)
    requires RemoveEnabled(s, i, act) && !act.Unregister?
    ensures RemoveNext(s, i, act) == SetLife(s, i, RemovedLife(s.fleet.life[i], act))
  {
    assert s.fleet.life[i := s.fleet.life[i]] == s.fleet.life;
  }

  lemma StageKeepsRegistry(f: Fleet, i: InstId, c: Cleanup)
    requires RegistryOk(f) && i in f.stage
    ensures RegistryOk(SetStage(f, i, c))
  {
  }

  lemma LeaveKeepsRegistry(f: Fleet, i: InstId)
    requires RegistryOk(f) && i in f.stage
    ensures RegistryOk(f.(leaving := Drop(f.leaving, i), stage := f.stage - {i}))
  {
    DropFacts(f.leaving, i);
  }

  lemma CleanFrame(env: Env, s: State, i: InstId)
    requires RegistryOk(s.fleet) && CleanEnabled(s, i)
    ensures var t := CleanNext(env, s, i);
            && RegistryOk(t.fleet)
            && t.fleet.info == s.fleet.info && t.fleet.life == s.fleet.life && t.fleet.registry == s.fleet.registry
            && t.fleet.reaping == s.fleet.reaping && t.spawns == s.spawns && t.permit == s.permit
  {
    match s.fleet.stage[i]
    case ReleaseKeepAlive => LeaveKeepsRegistry(s.fleet, i);
    case FreePort => StageKeepsRegistry(s.fleet, i, DrainCheck);
    case DrainClear => StageKeepsRegistry(s.fleet, i, ReleaseKeepAlive);
    case DrainCheck =>
      StageKeepsRegistry(s.fleet, i, DrainClear);
      StageKeepsRegistry(s.fleet, i, ReleaseKeepAlive);
  }

  /** No other spawn polls the same instance. */
  lemma PollerIsUnique(s: State, m: ModelName, i: InstId)
    requires BooksOk(s) && m in s.spawns && s.spawns[m] == Polling(i)
    ensures forall n :: n in s.spawns && s.spawns[n] == Polling(i) ==> n == m
    ensures IsOf(s.fleet, i, m) && i in s.fleet.life
  {
    assert TaskOk(s.fleet, m, s.spawns[m]);
    forall n | n in s.spawns && s.spawns[n] == Polling(i) ensures n == m {
      assert TaskOk(s.fleet, n, s.spawns[n]);
    }
  }

  // ── One step ────────────────────────────────────────────────────────────

  /** No spawn moved, and every instance is still on record as it was. */
  lemma TasksStay(s: State, t: State)
    requires TasksOk(s.fleet, s.spawns) && t.spawns == s.spawns && t.fleet.info == s.fleet.info
    ensures TasksOk(t.fleet, t.spawns)
  {
    forall m | m in t.spawns ensures TaskOk(t.fleet, m, t.spawns[m]) {
      assert TaskOk(s.fleet, m, s.spawns[m]);
    }
  }

  /** The spawn task of `m` moved on, nothing else changed in the records. */
  lemma TaskMoves(s: State, t: State, m: ModelName, p: Phase)
    requires TasksOk(s.fleet, s.spawns) && t.spawns == s.spawns[m := p] && t.fleet.info == s.fleet.info
    requires TaskOk(t.fleet, m, p)
    ensures TasksOk(t.fleet, t.spawns)
  {
    forall n | n in t.spawns ensures TaskOk(t.fleet, n, t.spawns[n]) {
      assert n != m ==> TaskOk(s.fleet, n, s.spawns[n]);
    }
  }

  lemma BooksLife(s: State, t: State)
    requires BooksOk(s) && t.fleet == s.fleet.(life := t.fleet.life) && t.fleet.life.Keys == s.fleet.life.Keys
    requires t.spawns == s.spawns && t.permit == s.permit
    ensures BooksOk(t)
  {
    TasksStay(s, t);
  }

  lemma BooksRequest(env: Env, s: State, req: RequestStep)
    requires BooksOk(s) && RequestEnabled(env, s, req)
    ensures BooksOk(RequestNext(env, s, req))
  {
    BooksLife(s, RequestNext(env, s, req));
  }

  lemma BooksWake(env: Env, s: State, m: ModelName, source: WakeSource)
    requires BooksOk(s) && WakeEnabled(s, m, source)
    ensures BooksOk(WakeOne(env, TakeWake(s, m, source), m))
  {
    var u := TakeWake(s, m, source);
    if source.OnSpawn? {
      TaskMoves(s, u, m, Ending);
    }
    assert BooksOk(u);
    WakeCases(env, u, m);
    BooksLife(u, WakeOne(env, u, m));
  }

  lemma BooksRegister(env: Env, s: State, m: ModelName)
    requires BooksOk(s) && SpawnEnabled(env, s, m, SpawnStep.Register)
    ensures BooksOk(SpawnNext(env, s, m, SpawnStep.Register))
  {
    var t := SpawnNext(env, s, m, SpawnStep.Register);
    assert s.fleet.nextInst !in s.fleet.info;
    forall n | n in t.spawns ensures TaskOk(t.fleet, n, t.spawns[n]) {
      assert n != m ==> TaskOk(s.fleet, n, s.spawns[n]);
    }
  }

  lemma BooksPollEnd(env: Env, s: State, m: ModelName, act: SpawnStep)
    requires BooksOk(s) && SpawnEnabled(env, s, m, act) && (act.MarkReady? || act.Fail?)
    ensures BooksOk(SpawnNext(env, s, m, act))
  {
    var t := SpawnNext(env, s, m, act);
    assert TaskOk(s.fleet, m, s.spawns[m]);
    TaskMoves(s, t, m, t.spawns[m]);
    assert t.fleet == s.fleet.(life := t.fleet.life);
  }

  lemma BooksQuietSpawn(env: Env, s: State, m: ModelName, act: SpawnStep)
    requires BooksOk(s) && SpawnEnabled(env, s, m, act) && !act.Register? && !act.MarkReady? && !act.Fail?
    ensures BooksOk(SpawnNext(env, s, m, act))
  {
    var t := SpawnNext(env, s, m, act);
    assert t.fleet == s.fleet;
    forall n | n in t.spawns ensures TaskOk(t.fleet, n, t.spawns[n]) {
      assert n in s.spawns ==> TaskOk(s.fleet, n, s.spawns[n]);
    }
  }

  lemma BooksRemove(env: Env, s: State, i: InstId, act: RemoveStep)
    requires BooksOk(s) && RemoveEnabled(s, i, act)
    ensures BooksOk(RemoveNext(s, i, act))
  {
    var t := RemoveNext(s, i, act);
    if act.Unregister? {
      UnregisterFleet(s, i);
      TasksStay(s, t);
    } else {
      RemoveIsSetLife(s, i, act);
      BooksLife(s, t);
    }
  }

  lemma BooksClean(env: Env, s: State, i: InstId)
    requires BooksOk(s) && CleanEnabled(s, i)
    ensures BooksOk(CleanNext(env, s, i))
  {
    CleanFrame(env, s, i);
    TasksStay(s, CleanNext(env, s, i));
  }

  /** Every step keeps the books, without exception. */
  lemma BooksStep(env: Env, s: State, step: Step)
    requires BooksOk(s) && Enabled(env, s, step)
    ensures BooksOk(Next(env, s, step))
  {
    match step
    case Requesting(req) => BooksRequest(env, s, req);
    case Waking(m, source) => BooksWake(env, s, m, source);
    case Spawning(m, act) =>
      if act.Register? { BooksRegister(env, s, m); }
      else if act.MarkReady? || act.Fail? { BooksPollEnd(env, s, m, act); }
      else { BooksQuietSpawn(env, s, m, act); }
    case Removing(i, act) => BooksRemove(env, s, i, act);
    case Reaping(m) => TasksStay(s, Next(env, s, step));
    case ReapingStranded(m, late) => TasksStay(s, Next(env, s, step));
    case Cleaning(i) => BooksClean(env, s, i);
  }

  lemma {:induction false} BooksRun(env: Env, s: State, steps: seq<Step>)
    requires BooksOk(s) && ValidRun(env, s, steps)
    ensures BooksOk(Exec(env, s, steps))
    decreases |steps|
  {
    if steps != [] {
      BooksStep(env, s, steps[0]);
      BooksRun(env, Next(env, s, steps[0]), steps[1..]);
    }
  }

  // ── Requests, wake-ups, collected handles and cleanups ──────────────────

  /** Steps that neither spawn nor remove. */
  predicate Calm(step: Step) { !step.Spawning? && !step.Removing? }

  /** They leave registration, states and children alone. */
  ghost predicate SameStanding(s: State, t: State) {
    && t.fleet.info == s.fleet.info && t.fleet.registry == s.fleet.registry && t.fleet.life.Keys == s.fleet.life.Keys
    && forall i :: i in s.fleet.life ==>
         t.fleet.life[i].state == s.fleet.life[i].state && t.fleet.life[i].child == s.fleet.life[i].child
         && t.fleet.life[i].unregs == s.fleet.life[i].unregs
  }

  lemma CalmRequest(env: Env, s: State, req: RequestStep)
    requires RequestEnabled(env, s, req)
    ensures var t := RequestNext(env, s, req); SameStanding(s, t) && t.spawns == s.spawns
  {
  }

  lemma CalmAcquire(s: State, i: InstId, h: Holder)
    requires i in s.fleet.life
    ensures SameStanding(s, Acquire(s, i, h)) && Acquire(s, i, h).spawns == s.spawns
  {
  }

  lemma CalmWake(env: Env, s: State, m: ModelName, source: WakeSource)
    requires WakeEnabled(s, m, source)
    ensures var t := WakeOne(env, TakeWake(s, m, source), m);
            SameStanding(s, t) && t.spawns == if source.OnSpawn? then s.spawns[m := Ending] else s.spawns
  {
    var u := TakeWake(s, m, source);
    WakeCases(env, u, m);
    if WakeHands(env, u, m) {
      var q := Queue(u.lobby, m);
      CalmAcquire(u.(lobby := WakeOne(env, u, m).lobby), FindReady(env, u.fleet, m).value,
                  Inbox(q[Vanished(q, u.lobby.gone)]));
    }
  }

  lemma CalmStanding(env: Env, s: State, step: Step)
    requires RegistryOk(s.fleet) && Enabled(env, s, step) && Calm(step)
    ensures var t := Next(env, s, step);
            && SameStanding(s, t)
            && t.spawns == if step.Waking? && step.source.OnSpawn? then s.spawns[step.model := Ending] else s.spawns
  {
    match step
    case Requesting(req) => CalmRequest(env, s, req);
    case Waking(m, source) => CalmWake(env, s, m, source);
    case Reaping(m) =>
    case ReapingStranded(m, late) =>
    case Cleaning(i) => CleanFrame(env, s, i);
  }
}
