/** Failed spawns and failed start-ups give everything back. */
module Rollback {
  import opened Base
  import opened Sums
  import opened Types
  import opened Placement
  import opened Machine
  import opened Waking
  import opened Books
  import opened MakeRoom
  import opened Eviction
  import opened Slots
  import opened Resources
  import opened Safety
  import opened Stranding

  // ── A failed spawn leaves nothing behind ────────────────────────────────

  function Spawns(m: ModelName, acts: seq<SpawnStep>): (r: seq<Step>)
    ensures |r| == |acts|
  {
    if acts == [] then [] else [Spawning(m, acts[0])] + Spawns(m, acts[1..])
  }

  /** `t` is `s` with a spawn of `m` somewhere before registration. */
  ghost predicate Unregistered(s: State, t: State, m: ModelName) {
    && t == s.(spawns := t.spawns, permit := t.permit, used := t.used)
    && t.spawns - {m} == s.spawns
    && t.used == s.used + Held(t, m) && s.used !! Held(t, m)
    && t.permit == (if m in t.spawns && NeedsPermit(t.spawns[m]) then Some(m) else None)
    && (m in t.spawns ==> t.spawns[m].Queued? || NeedsPermit(t.spawns[m]))
  }

  function Held(t: State, m: ModelName): set<Port> {
    if m in t.spawns && (t.spawns[m].HasPort? || t.spawns[m].Selected?) then {t.spawns[m].port} else {}
  }

  lemma UnregisteredStep(env: Env, s: State, t: State, m: ModelName, act: SpawnStep)
    requires Unregistered(s, t, m) && SpawnEnabled(env, t, m, act) && !act.Register?
    ensures Unregistered(s, SpawnNext(env, t, m, act), m)
  {
  }

  lemma {:induction false} UnregisteredRun(env: Env, s: State, t: State, m: ModelName, acts: seq<SpawnStep>)
    requires Unregistered(s, t, m) && ValidRun(env, t, Spawns(m, acts))
    requires forall a :: a in acts ==> !a.Register?
    ensures Unregistered(s, Exec(env, t, Spawns(m, acts)), m)
    decreases |acts|
  {
    if acts != [] {
      var steps := Spawns(m, acts);
      assert steps[1..] == Spawns(m, acts[1..]);
      assert acts[0] in acts;
      UnregisteredStep(env, s, t, m, acts[0]);
      UnregisteredRun(env, s, Next(env, t, steps[0]), m, acts[1..]);
    }
  }

  /** However far a spawn gets before registration and wherever it gives up
      (no port, too few devices, bad command, process not started), the state
      afterwards is exactly the state before. */
  lemma FailedSpawnRestores(env: Env, s: State, m: ModelName, acts: seq<SpawnStep>)
    requires m !in s.spawns && s.permit == None
    requires ValidRun(env, s, Spawns(m, acts)) && forall a :: a in acts ==> !a.Register?
    requires m !in Exec(env, s, Spawns(m, acts)).spawns
    ensures Exec(env, s, Spawns(m, acts)) == s
  {
    assert s.spawns - {m} == s.spawns;
    assert s.used + {} == s.used;
    UnregisteredRun(env, s, s, m, acts);
    var t := Exec(env, s, Spawns(m, acts));
    assert t.spawns - {m} == t.spawns;
  }

  // ── A failed start-up is undone as well ─────────────────────────────────

  function StepsLeft(c: Cleanup): nat {
    match c case FreePort => 4 case DrainCheck => 3 case DrainClear => 2 case ReleaseKeepAlive => 1
  }

  /** The rest of an effective `unregister_instance`, without interruption. */
  function Cleaned(env: Env, s: State, i: InstId): State
    requires CleanEnabled(s, i)
    decreases StepsLeft(s.fleet.stage[i])
  {
    var t := CleanNext(env, s, i);
    if s.fleet.stage[i].ReleaseKeepAlive? then t else Cleaned(env, t, i)
  }

  /** Everything but the queues and the life records is as in `s`, less the
      port and the keep-alive references of `i`. */
  ghost predicate Returned(env: Env, s: State, t: State, i: InstId, info: Info, port: set<Port>) {
    && t.used == s.used - port
    && t.keepAlive == s.keepAlive - KeepAliveSlots(env, info.model, info.gpus)
    && t.fleet.leaving == Drop(s.fleet.leaving, i) && t.fleet.stage == s.fleet.stage - {i}
    && t.fleet.registry == s.fleet.registry && t.fleet.info == s.fleet.info
    && t.guards == s.guards && t.spawns == s.spawns && t.permit == s.permit
  }

  lemma CleanOnce(env: Env, s: State, i: InstId)
    requires CleanEnabled(s, i) && !s.fleet.stage[i].ReleaseKeepAlive?
    ensures var t := CleanNext(env, s, i);
            && t == s.(used := t.used, lobby := t.lobby, fleet := SetStage(s.fleet, i, t.fleet.stage[i]))
            && t.used == (if s.fleet.stage[i].FreePort? then s.used - {s.fleet.info[i].port} else s.used)
            && !t.fleet.stage[i].FreePort?
  {
  }

  lemma {:induction false} CleanedReturns(env: Env, s: State, i: InstId)
    requires CleanEnabled(s, i)
    ensures Returned(env, s, Cleaned(env, s, i), i, s.fleet.info[i],
                     if s.fleet.stage[i].FreePort? then {s.fleet.info[i].port} else {})
    decreases StepsLeft(s.fleet.stage[i])
  {
    var t := CleanNext(env, s, i);
    if !s.fleet.stage[i].ReleaseKeepAlive? {
      CleanOnce(env, s, i);
      CleanedReturns(env, t, i);
      assert t.fleet.stage - {i} == s.fleet.stage - {i};
    }
  }

  /** The child of `i` is shut down, if it is not dead already, and the
      instance unregistered. */
  function TakenBack(env: Env, s: State, i: InstId): State
    requires Known(s.fleet, i) && i in s.fleet.registry && Leaves(s.fleet.life[i])
  {
    Cleaned(env, UnregisterInstance(ShutDown(s, i), i), i)
  }

  /** The child is being shut down, or gone with the unregistration to come. */
  predicate Leaves(l: Life) { l.child == Killing || (l.child == Gone && l.unregs > 0) }

  function ShutDown(s: State, i: InstId): State
    requires Known(s.fleet, i)
  {
    if s.fleet.life[i].child == Killing then RemoveNext(s, i, Killed) else s
  }

  lemma TakenBackReturns(env: Env, s: State, i: InstId)
    requires Known(s.fleet, i) && i in s.fleet.registry && Leaves(s.fleet.life[i]) && i !in s.fleet.leaving
    ensures var t := TakenBack(env, s, i);
            && t.used == s.used - {s.fleet.info[i].port}
            && t.keepAlive == s.keepAlive - KeepAliveSlots(env, s.fleet.info[i].model, s.fleet.info[i].gpus)
            && t.fleet.registry == Drop(s.fleet.registry, i) && t.fleet.leaving == s.fleet.leaving
            && t.fleet.stage == s.fleet.stage - {i}
            && t.guards == s.guards && t.spawns == s.spawns && t.permit == s.permit
  {
    var u := UnregisterInstance(ShutDown(s, i), i);
    CleanedReturns(env, u, i);
    DropLast(s.fleet.leaving, i);
    assert u.fleet.stage - {i} == s.fleet.stage - {i};
  }

  lemma DropLast(list: seq<InstId>, i: InstId)
    requires i !in list
    ensures Drop(list + [i], i) == list
  {
    KeepConcat(list, [i], Other(i));
    KeepAll(list, Other(i));
    assert [i][1..] == [];
  }

  /** A spawn of `m` with its devices chosen registers an instance, the child
      dies or does not, and the poll fails. */
  function NeverReady(env: Env, t: State, m: ModelName, dies: bool): State
    requires m in env.configs && m in t.spawns && t.spawns[m].Selected?
  {
    SpawnNext(env, Registered(env, t, m, dies), m, Fail)
  }

  function Registered(env: Env, t: State, m: ModelName, dies: bool): State
    requires m in env.configs && m in t.spawns && t.spawns[m].Selected?
  {
    var u := SpawnNext(env, t, m, Register);
    if dies then RemoveNext(u, t.fleet.nextInst, Exits) else u
  }

  /** From a registered, polled instance, alive or dead, to the failed poll. */
  lemma PollFailsIs(env: Env, u: State, m: ModelName, i: InstId)
    requires m in env.configs && m in u.spawns && u.spawns[m] == Polling(i) && Known(u.fleet, i) && u.permit == Some(m)
    requires u.fleet.life[i] == Life(Loading, 0, Running, 0) || u.fleet.life[i] == Life(Loading, 0, Exited, 0)
    ensures var f := SpawnNext(env, u, m, Fail);
            && f == u.(fleet := u.fleet.(life := f.fleet.life), spawns := u.spawns[m := Ending], permit := None)
            && f.fleet.life == u.fleet.life[i :=
                 if u.fleet.life[i].child == Exited then Life(Failed, 0, Gone, 1) else Life(Failed, 0, Killing, 0)]
  {
  }

  /** Registered, and dead or alive: everything else is as before. */
  lemma RegisteredIs(env: Env, t: State, m: ModelName, dies: bool)
    requires m in env.configs && m in t.spawns && t.spawns[m].Selected?
    ensures var u := Registered(env, t, m, dies);
            var i, p := t.fleet.nextInst, t.spawns[m];
            && Known(u.fleet, i) && u.fleet.info == t.fleet.info[i := Info(m, p.port, p.gpus)]
            && u.fleet.life == t.fleet.life[i := Life(Loading, 0, if dies then Exited else Running, 0)]
            && u.fleet.registry == t.fleet.registry + [i]
            && u.fleet.leaving == t.fleet.leaving && u.fleet.stage == t.fleet.stage
            && u.used == t.used && u.keepAlive == t.keepAlive + KeepAliveSlots(env, m, p.gpus)
            && u.spawns == t.spawns[m := Polling(i)] && u.permit == t.permit && u.guards == t.guards
  {
  }

  /** All but the instance's own record is as registration left it. */
  lemma NeverReadyIs(env: Env, t: State, m: ModelName, dies: bool)
    requires m in env.configs && m in t.spawns && t.spawns[m].Selected? && t.permit == Some(m)
    ensures var f := NeverReady(env, t, m, dies);
            var i, p := t.fleet.nextInst, t.spawns[m];
            && Known(f.fleet, i) && f.fleet.info == t.fleet.info[i := Info(m, p.port, p.gpus)]
            && f.fleet.life == t.fleet.life[i := if dies then Life(Failed, 0, Gone, 1) else Life(Failed, 0, Killing, 0)]
            && f.fleet.registry == t.fleet.registry + [i]
            && f.fleet.leaving == t.fleet.leaving && f.fleet.stage == t.fleet.stage
            && f.used == t.used && f.keepAlive == t.keepAlive + KeepAliveSlots(env, m, p.gpus)
            && f.spawns == t.spawns[m := Ending] && f.permit == None && f.guards == t.guards
  {
    RegisteredIs(env, t, m, dies);
    PollFailsIs(env, Registered(env, t, m, dies), m, t.fleet.nextInst);
  }

  /** The registry, what is leaving it, ports, references, guards and permit are the same. */
  ghost predicate SameHoldings(s: State, u: State) {
    && u.fleet.registry == s.fleet.registry && u.fleet.leaving == s.fleet.leaving && u.fleet.stage == s.fleet.stage
    && u.used == s.used && u.keepAlive == s.keepAlive && u.guards == s.guards && u.permit == s.permit
  }

  lemma StartupTakenBack(env: Env, s: State, t: State, m: ModelName, dies: bool)
    requires RegistryOk(t.fleet) && m in env.configs && m in t.spawns && t.spawns[m].Selected?
    requires t.permit == Some(m) && t.used - {t.spawns[m].port} == s.used
    requires SameHoldings(s, t.(used := s.used, permit := s.permit))
    requires s.permit == None
    ensures var f := NeverReady(env, t, m, dies);
            var i := t.fleet.nextInst;
            && Known(f.fleet, i) && i in f.fleet.registry && Leaves(f.fleet.life[i])
            && SameHoldings(s, TakenBack(env, f, i)) && TakenBack(env, f, i).spawns == t.spawns[m := Ending]
  {
    var i := t.fleet.nextInst;
    NeverReadyIs(env, t, m, dies);
    TakenBackReturns(env, NeverReady(env, t, m, dies), i);
    DropLast(t.fleet.registry, i);
    assert t.fleet.stage - {i} == t.fleet.stage;
  }

  /** An instance that never becomes ready, its child dead or alive, is taken
      back completely: registry, used ports, keep-alive references, spawn entry
      and permit are as before the spawn. */
  lemma FailedStartupRestores(env: Env, s: State, t: State, m: ModelName, dies: bool)
    requires RegistryOk(s.fleet) && m in env.configs && m !in s.spawns && s.permit == None
    requires Unregistered(s, t, m) && m in t.spawns && t.spawns[m].Selected?
    ensures var f := NeverReady(env, t, m, dies);
            var i := s.fleet.nextInst;
            && Known(f.fleet, i) && i in f.fleet.registry && Leaves(f.fleet.life[i])
            && var u := TakenBack(env, f, i);
            && SameHoldings(s, u) && SpawnEnabled(env, u, m, End) && SpawnNext(env, u, m, End).spawns == s.spawns
  {
    assert t.used - {t.spawns[m].port} == s.used;
    StartupTakenBack(env, s, t, m, dies);
    assert t.spawns[m := Ending] - {m} == s.spawns;
  }

  // ── What the planner sees of it ─────────────────────────────────────────

  lemma {:induction false} SnapsSame(f: Fleet, f': Fleet, used: map<InstId, nat>, list: seq<InstId>)
    requires forall i :: i in list ==> SnapOf(f', used, i) == SnapOf(f, used, i)
    ensures Snaps(f', used, list) == Snaps(f, used, list)
  {
    if list != [] {
      assert list[0] in list;
      SnapsSame(f, f', used, list[1..]);
    }
  }

  lemma {:induction false} SnapsPush(f: Fleet, used: map<InstId, nat>, list: seq<InstId>, i: InstId)
    ensures Snaps(f, used, list + [i]) == Snaps(f, used, list) + [SnapOf(f, used, i)]
  {
    if list == [] {
      assert [i][1..] == [];
    } else {
      SnapsPush(f, used, list[1..], i);
      assert (list + [i])[1..] == list[1..] + [i];
    }
  }

  /** The planner's view without the failed instance is the one before the spawn. */
  lemma FailedUnseen(env: Env, t: State, m: ModelName, dies: bool, used: map<InstId, nat>)
    requires BooksOk(t) && m in env.configs && m in t.spawns && t.spawns[m].Selected?
    ensures var f := NeverReady(env, t, m, dies).fleet;
            After(Snaps(f, used, f.registry), {t.fleet.nextInst}) == Snaps(t.fleet, used, t.fleet.registry)
  {
    var i := t.fleet.nextInst;
    var f := NeverReady(env, t, m, dies).fleet;
    NeverReadyIs(env, t, m, dies);
    assert i !in t.fleet.info;
    forall j | j in t.fleet.registry ensures SnapOf(f, used, j) == SnapOf(t.fleet, used, j) {
      assert j != i && At(f.info, j) == At(t.fleet.info, j);
    }
    SnapsSame(t.fleet, f, used, t.fleet.registry);
    SnapsPush(f, used, t.fleet.registry, i);
    OnlyLastGone(Snaps(t.fleet, used, t.fleet.registry), SnapOf(f, used, i));
  }

  lemma OnlyLastGone(snaps: seq<Snap>, last: Snap)
    requires forall s :: s in snaps ==> s.at.id != last.at.id
    ensures After(snaps + [last], {last.at.id}) == snaps
  {
    KeepConcat(snaps, [last], Survives({last.at.id}));
    KeepAll(snaps, Survives({last.at.id}));
    assert [last][1..] == [];
  }

  lemma NeverReadyBooks(env: Env, t: State, m: ModelName, dies: bool)
    requires BooksOk(t) && m in env.configs && m in t.spawns && t.spawns[m].Selected?
    ensures BooksOk(NeverReady(env, t, m, dies))
  {
    var u := SpawnNext(env, t, m, Register);
    BooksStep(env, t, Spawning(m, Register));
    if dies {
      BooksStep(env, u, Removing(t.fleet.nextInst, Exits));
    }
    RegisteredIs(env, t, m, dies);
    BooksStep(env, Registered(env, t, m, dies), Spawning(m, Fail));
  }

  /** A failed start-up leaves no trace in any later plan: after any run that
      removes its instance and no other, whatever requests and reapers do
      meanwhile, the dry run answers for every model as before the spawn. */
  lemma FailedStartupUnseen(env: Env, t: State, m: ModelName, dies: bool, used: map<InstId, nat>, steps: seq<Step>,
          cfg: ModelConfig)
    requires BooksOk(t) && m in env.configs && m in t.spawns && t.spawns[m].Selected?
    requires var f := NeverReady(env, t, m, dies);
             && ValidRun(env, f, steps) && RoomRun(steps, {t.fleet.nextInst})
             && t.fleet.nextInst !in Exec(env, f, steps).fleet.registry
    ensures var u := Exec(env, NeverReady(env, t, m, dies), steps).fleet;
            SpawnFeasible(env, Snaps(u, used, u.registry), {}, cfg)
            <==> SpawnFeasible(env, Snaps(t.fleet, used, t.fleet.registry), {}, cfg)
  {
    var i := t.fleet.nextInst;
    var f := NeverReady(env, t, m, dies);
    NeverReadyBooks(env, t, m, dies);
    RoomThinned(env, f, {i}, steps);
    FeasibleThinned(env, f, Exec(env, f, steps), used, {i}, cfg);
    FailedUnseen(env, t, m, dies, used);
  }

  // ── The same among other steps ──────────────────────────────────────────

  /** A registered instance without a child is being unregistered. */
  ghost predicate LeaversOk(f: Fleet) {
    forall i :: i in f.registry && i in f.life && f.life[i].child == Gone ==> f.life[i].unregs > 0
  }

  lemma LeaversStep(env: Env, s: State, step: Step)
    requires BooksOk(s) && LeaversOk(s.fleet) && Enabled(env, s, step)
    ensures LeaversOk(Next(env, s, step).fleet)
  {
    if Calm(step) {
      CalmStanding(env, s, step);
    } else if step.Removing? {
      LeaversRemove(s, step.inst, step.remove);
    }
  }

  lemma LeaversRemove(s: State, i: InstId, act: RemoveStep)
    requires BooksOk(s) && LeaversOk(s.fleet) && RemoveEnabled(s, i, act)
    ensures LeaversOk(RemoveNext(s, i, act).fleet)
  {
    if act.Unregister? {
      DropFacts(s.fleet.registry, i);
    } else {
      RemoveIsSetLife(s, i, act);
    }
  }

  /** Out of service, and its child has been taken. */
  ghost predicate Retired(s: State, i: InstId) {
    i in s.fleet.life && s.fleet.life[i].state == Failed
    && (s.fleet.life[i].child == Killing || s.fleet.life[i].child == Gone)
  }

  /** The step reports readiness of instance `i`, the only way back. */
  predicate Marks(s: State, step: Step, i: InstId) {
    step.Spawning? && step.spawn.MarkReady? && step.model in s.spawns && s.spawns[step.model] == Polling(i)
  }

  /** Readiness of `i` is reported nowhere along the run. */
  ghost predicate Unmarked(env: Env, s: State, steps: seq<Step>, i: InstId)
    requires ValidRun(env, s, steps)
    decreases |steps|
  {
    steps == [] || (!Marks(s, steps[0], i) && Unmarked(env, Next(env, s, steps[0]), steps[1..], i))
  }

  /** No spawn task polls the instance. */
  ghost predicate Unpolled(s: State, i: InstId) {
    i in s.fleet.info && forall n :: n in s.spawns ==> s.spawns[n] != Polling(i)
  }

  lemma UnpolledSpawn(env: Env, s: State, i: InstId, m: ModelName, act: SpawnStep)
    requires BooksOk(s) && Unpolled(s, i) && SpawnEnabled(env, s, m, act)
    ensures Unpolled(SpawnNext(env, s, m, act), i)
  {
    assert i < s.fleet.nextInst;
    if act.Register? {
      assert SpawnNext(env, s, m, act).spawns == s.spawns[m := Polling(s.fleet.nextInst)];
    }
  }

  lemma UnpolledStep(env: Env, s: State, step: Step, i: InstId)
    requires BooksOk(s) && Unpolled(s, i) && Enabled(env, s, step)
    ensures Unpolled(Next(env, s, step), i) && !Marks(s, step, i)
  {
    match step
    case Spawning(m, act) => UnpolledSpawn(env, s, i, m, act);
    case Removing(j, act) =>
      if !act.Unregister? {
        RemoveIsSetLife(s, j, act);
      }
    case _ => CalmStanding(env, s, step);
  }

  /** Once nobody polls an instance, readiness is never reported of it again. */
  lemma {:induction false} UnpolledRun(env: Env, s: State, steps: seq<Step>, i: InstId)
    requires BooksOk(s) && Unpolled(s, i) && ValidRun(env, s, steps)
    ensures Unmarked(env, s, steps, i)
    decreases |steps|
  {
    if steps != [] {
      UnpolledStep(env, s, steps[0], i);
      BooksStep(env, s, steps[0]);
      UnpolledRun(env, Next(env, s, steps[0]), steps[1..], i);
    }
  }

  /** How many steps of its own removal an instance still has to go. */
  function Remaining(f: Fleet, i: InstId): nat {
    if i in f.registry then (if i in f.life && f.life[i].child == Killing then 6 else 5)
    else if i in f.stage then StepsLeft(f.stage[i]) else 0
  }

  /** A step of the removal of `i`. */
  predicate OwnStep(step: Step, i: InstId) {
    step == Removing(i, Killed) || step == Removing(i, Unregister) || step == Cleaning(i)
  }

  lemma RetiredRemove(s: State, i: InstId, j: InstId, act: RemoveStep)
    requires BooksOk(s) && Retired(s, i) && RemoveEnabled(s, j, act)
    ensures Retired(RemoveNext(s, j, act), i) && Remaining(RemoveNext(s, j, act).fleet, i) <= Remaining(s.fleet, i)
  {
    if act.Unregister? {
      DropFacts(s.fleet.registry, j);
    } else {
      RemoveIsSetLife(s, j, act);
    }
  }

  lemma RetiredRegister(env: Env, s: State, i: InstId, m: ModelName)
    requires BooksOk(s) && Retired(s, i) && SpawnEnabled(env, s, m, Register)
    ensures var t := SpawnNext(env, s, m, Register); Retired(t, i) && Remaining(t.fleet, i) <= Remaining(s.fleet, i)
  {
    assert i in s.fleet.info && i < s.fleet.nextInst;
  }

  lemma RetiredPollEnd(env: Env, s: State, i: InstId, m: ModelName, act: SpawnStep)
    requires Retired(s, i) && SpawnEnabled(env, s, m, act) && (act.MarkReady? || act.Fail?)
    requires !Marks(s, Spawning(m, act), i)
    ensures var t := SpawnNext(env, s, m, act); Retired(t, i) && Remaining(t.fleet, i) <= Remaining(s.fleet, i)
  {
    assert act.MarkReady? ==> s.spawns[m].inst != i;
  }

  lemma RetiredQuiet(env: Env, s: State, i: InstId, m: ModelName, act: SpawnStep)
    requires Retired(s, i) && SpawnEnabled(env, s, m, act) && !act.Register? && !act.MarkReady? && !act.Fail?
    ensures var t := SpawnNext(env, s, m, act); Retired(t, i) && Remaining(t.fleet, i) <= Remaining(s.fleet, i)
  {
    assert SpawnNext(env, s, m, act).fleet == s.fleet;
  }

  lemma RetiredSpawn(env: Env, s: State, i: InstId, m: ModelName, act: SpawnStep)
    requires BooksOk(s) && Retired(s, i) && SpawnEnabled(env, s, m, act) && !Marks(s, Spawning(m, act), i)
    ensures var t := SpawnNext(env, s, m, act); Retired(t, i) && Remaining(t.fleet, i) <= Remaining(s.fleet, i)
  {
    if act.Register? {
      RetiredRegister(env, s, i, m);
    } else if act.MarkReady? || act.Fail? {
      RetiredPollEnd(env, s, i, m, act);
    } else {
      RetiredQuiet(env, s, i, m, act);
    }
  }

  lemma RetiredClean(env: Env, s: State, i: InstId, j: InstId)
    requires BooksOk(s) && Retired(s, i) && CleanEnabled(s, j)
    ensures Retired(CleanNext(env, s, j), i) && Remaining(CleanNext(env, s, j).fleet, i) <= Remaining(s.fleet, i)
  {
    CleanFrame(env, s, j);
  }

  /** Nothing brings a retired instance back or sets its removal back. */
  lemma RetiredStep(env: Env, s: State, step: Step, i: InstId)
    requires BooksOk(s) && Retired(s, i) && Enabled(env, s, step) && !Marks(s, step, i)
    ensures Retired(Next(env, s, step), i) && Remaining(Next(env, s, step).fleet, i) <= Remaining(s.fleet, i)
  {
    match step
    case Removing(j, act) => RetiredRemove(s, i, j, act);
    case Spawning(m, act) => RetiredSpawn(env, s, i, m, act);
    case Cleaning(j) => RetiredClean(env, s, i, j);
    case _ =>
      CalmStanding(env, s, step);
      CalmStage(env, s, step);
  }

  lemma CalmStage(env: Env, s: State, step: Step)
    requires Enabled(env, s, step) && Calm(step) && !step.Cleaning?
    ensures Next(env, s, step).fleet.stage == s.fleet.stage
  {
    if step.Waking? {
      WakeCases(env, TakeWake(s, step.model, step.source), step.model);
    }
  }

  lemma {:induction false} RetiredRun(env: Env, s: State, steps: seq<Step>, i: InstId)
    requires BooksOk(s) && LeaversOk(s.fleet) && Retired(s, i) && ValidRun(env, s, steps) && Unmarked(env, s, steps, i)
    ensures var t := Exec(env, s, steps);
            BooksOk(t) && LeaversOk(t.fleet) && Retired(t, i) && Remaining(t.fleet, i) <= Remaining(s.fleet, i)
    decreases |steps|
  {
    if steps != [] {
      RetiredStep(env, s, steps[0], i);
      LeaversStep(env, s, steps[0]);
      BooksStep(env, s, steps[0]);
      RetiredRun(env, Next(env, s, steps[0]), steps[1..], i);
    }
  }

  lemma {:induction false} LeaversRun(env: Env, s: State, steps: seq<Step>)
    requires BooksOk(s) && LeaversOk(s.fleet) && ValidRun(env, s, steps)
    ensures LeaversOk(Exec(env, s, steps).fleet)
    decreases |steps|
  {
    if steps != [] {
      LeaversStep(env, s, steps[0]);
      BooksStep(env, s, steps[0]);
      LeaversRun(env, Next(env, s, steps[0]), steps[1..]);
    }
  }

  lemma UnregisterNearer(s: State, i: InstId)
    requires RegistryOk(s.fleet) && i in s.fleet.registry && i in s.fleet.life && s.fleet.life[i].unregs > 0
    ensures Remaining(UnregisterInstance(s, i).fleet, i) < Remaining(s.fleet, i)
  {
    DropFacts(s.fleet.registry, i);
  }

  lemma KilledNearer(s: State, i: InstId)
    requires RemoveEnabled(s, i, Killed) && i in s.fleet.registry
    ensures Remaining(RemoveNext(s, i, Killed).fleet, i) < Remaining(s.fleet, i)
  {
  }

  lemma CleanNearer(env: Env, s: State, i: InstId)
    requires RegistryOk(s.fleet) && CleanEnabled(s, i)
    ensures Remaining(CleanNext(env, s, i).fleet, i) < Remaining(s.fleet, i)
  {
  }

  /** As long as anything is left to do, one of its own steps can be taken, and
      taking it brings the end nearer. */
  lemma CanGoOn(env: Env, s: State, i: InstId) returns (step: Step)
    requires BooksOk(s) && LeaversOk(s.fleet) && Retired(s, i) && Remaining(s.fleet, i) > 0
    ensures OwnStep(step, i) && Enabled(env, s, step)
    ensures Remaining(Next(env, s, step).fleet, i) < Remaining(s.fleet, i)
  {
    if i !in s.fleet.registry {
      step := Cleaning(i);
      CleanNearer(env, s, i);
    } else if s.fleet.life[i].child == Killing {
      step := Removing(i, Killed);
      KilledNearer(s, i);
    } else {
      step := Removing(i, Unregister);
      UnregisterNearer(s, i);
    }
  }

  /** Nothing of instance `i` is left: it is neither registered nor leaving, so
      every slot's references are those of other instances; its port is free or
      held by another; and a parked waiter of its model is attended to by
      another instance. */
  ghost predicate AllReturned(env: Env, s: State, i: InstId) {
    && i !in s.fleet.registry && i !in s.fleet.leaving && i !in s.fleet.stage && i in s.fleet.info
    && (s.fleet.info[i].port in s.used ==>
          exists h :: h != OfInstance(i) && HeldPort(s, h) == Some(s.fleet.info[i].port))
    && (Queue(s.lobby, s.fleet.info[i].model) != [] ==> exists j :: j != i && Attends(s.fleet, s.fleet.info[i].model, j))
    && KeepAliveInv(env, s)
  }

  lemma ReturnsAll(env: Env, s: State, i: InstId)
    requires Accounts(env, s) && i in s.fleet.info && Remaining(s.fleet, i) == 0
    ensures AllReturned(env, s, i)
  {
    assert HeldPort(s, OfInstance(i)) == None;
    if s.fleet.info[i].port in s.used {
      var h :| HeldPort(s, h) == Some(s.fleet.info[i].port);
      assert h != OfInstance(i);
    }
    var m := s.fleet.info[i].model;
    assert QueueOk(env, s, m);
    if Queue(s.lobby, m) != [] {
      var j :| Attends(s.fleet, m, j);
      assert j != i;
    }
  }

  lemma AccountsWithLeavers(env: Env, s: State)
    requires Reachable(env, s)
    ensures Accounts(env, s) && LeaversOk(s.fleet)
  {
    Accounted(env, s);
    var run :| ValidRun(env, Init(), run) && Exec(env, Init(), run) == s;
    LeaversRun(env, Init(), run);
  }

  /** Retired, out of service, and either all is returned or a step of its own
      removal can be taken that brings it nearer to that. */
  ghost predicate OnItsWayOut(env: Env, s: State, i: InstId) {
    && Retired(s, i) && !HasCapacity(env, s.fleet, i) && Remaining(s.fleet, i) <= 6
    && if Remaining(s.fleet, i) == 0 then AllReturned(env, s, i) else exists step :: Nearer(env, s, step, i)
  }

  ghost predicate Nearer(env: Env, s: State, step: Step, i: InstId) {
    OwnStep(step, i) && Enabled(env, s, step) && Remaining(Next(env, s, step).fleet, i) < Remaining(s.fleet, i)
  }

  lemma RetiredLeaves(env: Env, s: State, i: InstId)
    requires BooksOk(s) && LeaversOk(s.fleet) && Retired(s, i)
    requires Remaining(s.fleet, i) == 0 ==> AllReturned(env, s, i)
    ensures OnItsWayOut(env, s, i)
  {
    if Remaining(s.fleet, i) > 0 {
      var step := CanGoOn(env, s, i);
      assert Nearer(env, s, step, i);
    }
  }

  /** Whatever else happens after a poll has failed, its child dead or alive:
      the instance stays retired, nothing sets its removal back, one of at most
      six steps of its own can always be taken until all it held is returned,
      and the accounts of ports and references are right all along. */
  lemma FailedStartupReturns(env: Env, s: State, m: ModelName, steps: seq<Step>)
    requires Reachable(env, s) && SpawnEnabled(env, s, m, Fail)
    requires ValidRun(env, SpawnNext(env, s, m, Fail), steps)
    ensures var t := Exec(env, SpawnNext(env, s, m, Fail), steps);
            OnItsWayOut(env, t, s.spawns[m].inst) && Accounts(env, t)
  {
    var i := s.spawns[m].inst;
    var f := Next(env, s, Spawning(m, Fail));
    AccountsWithLeavers(env, s);
    FailRetires(env, s, m);
    AccountsStep(env, s, Spawning(m, Fail));
    LeaversStep(env, s, Spawning(m, Fail));
    UnpolledRun(env, f, steps, i);
    WayOutRun(env, f, steps, i);
  }

  /** From a retired instance on, over any run that does not report readiness of it. */
  lemma WayOutRun(env: Env, f: State, steps: seq<Step>, i: InstId)
    requires Accounts(env, f) && LeaversOk(f.fleet) && Retired(f, i) && ValidRun(env, f, steps)
    requires Unmarked(env, f, steps, i)
    ensures var t := Exec(env, f, steps); OnItsWayOut(env, t, i) && Accounts(env, t)
  {
    AccountsRun(env, f, steps);
    RetiredRun(env, f, steps, i);
    if Remaining(Exec(env, f, steps).fleet, i) == 0 {
      ReturnsAll(env, Exec(env, f, steps), i);
    }
    RetiredLeaves(env, Exec(env, f, steps), i);
  }

  lemma FailRetires(env: Env, s: State, m: ModelName)
    requires BooksOk(s) && SpawnEnabled(env, s, m, Fail)
    ensures var f := SpawnNext(env, s, m, Fail); Retired(f, s.spawns[m].inst) && Unpolled(f, s.spawns[m].inst)
  {
    PollerIsUnique(s, m, s.spawns[m].inst);
  }
}
