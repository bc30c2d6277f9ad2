/** Where the guarantees end: concrete runs that break a promise, and for each
    the exact condition under which the promise holds. */
module Findings {
  import opened Base
  import opened Sums
  import opened Types
  import opened Placement
  import opened Machine
  import opened Waking
  import opened Books
  import opened Lifecycle
  import opened Slots
  import opened Wakeups

  // ── A configuration with one model and no devices ───────────────────────

  const M: ModelName := "m"

  function OneModel(limit: nat): Env {
    Env(map[M := ModelConfig(M, 1, limit, 0, 0, limit, [], [], [], 1)], map[], map[], map[], map[], map[], [])
  }

  /** One instance with the given life; its spawn is in the given phase. */
  function One(life: Life, spawns: map<ModelName, Phase>, permit: Option<ModelName>): State {
    Init().(fleet := Fleet(map[0 := Info(M, 1, [])], map[0 := life], 1, [0], [], map[], {}, {}),
            spawns := spawns, permit := permit, used := {1})
  }

  function Fresh(): State { One(Life(Loading, 0, Running, 0), map[M := Polling(0)], Some(M)) }

  /** The spawn of the one model in the given phase, nothing registered yet. */
  function Spawning1(p: Phase): State {
    Init().(spawns := map[M := p], permit := if NeedsPermit(p) then Some(M) else None,
            used := if p.HasPort? || p.Selected? then {p.port} else {})
  }

  /** Nothing is registered, so the cap check passes. */
  lemma CapPasses(limit: nat, s: State)
    requires s.fleet.registry == [] && s.spawns == map[M := Permitted]
    ensures SpawnEnabled(OneModel(limit), s, M, CheckCap)
    ensures SpawnNext(OneModel(limit), s, M, CheckCap) == s.(spawns := map[M := Capped])
  {
  }

  lemma CappedReachable(limit: nat)
    requires limit >= 1
    ensures WellReachable(OneModel(limit), Spawning1(Capped))
  {
    var env := OneModel(limit);
    assert GoodRun(env, Init(), []) && Exec(env, Init(), []) == Init();
    WellReach(env, Init(), Spawning(M, Start), Spawning1(Queued));
    WellReach(env, Spawning1(Queued), Spawning(M, TakePermit), Spawning1(Permitted));
    CapPasses(limit, Spawning1(Permitted));
    WellReach(env, Spawning1(Permitted), Spawning(M, CheckCap), Spawning1(Capped));
  }

  lemma SelectedReachable(limit: nat)
    requires limit >= 1
    ensures WellReachable(OneModel(limit), Spawning1(Selected(1, [])))
  {
    var env := OneModel(limit);
    CappedReachable(limit);
    WellReach(env, Spawning1(Capped), Spawning(M, AllocPort(Some(1))), Spawning1(HasPort(1)));
    WellReach(env, Spawning1(HasPort(1)), Spawning(M, SelectDevices), Spawning1(Selected(1, [])));
  }

  lemma FreshReachable(limit: nat)
    requires limit >= 1
    ensures WellReachable(OneModel(limit), Fresh())
  {
    SelectedReachable(limit);
    WellReach(OneModel(limit), Spawning1(Selected(1, [])), Spawning(M, SpawnStep.Register), Fresh());
  }

  // ── Readiness reported of a retired instance ────────────────────────────

  /** Its child is being shut down, but it is routable again. */
  function Revived(): State { One(Life(Ready, 0, Killing, 0), map[M := Spawned(0)], None) }

  lemma RevivedReachable()
    ensures Reachable(OneModel(1), Revived())
  {
    var env := OneModel(1);
    FreshReachable(1);
    WellIsReachable(env, Fresh());
    var drained := One(Life(Failed, 0, Killing, 0), map[M := Polling(0)], Some(M));
    Reach(env, Fresh(), Removing(0, Drain), drained);
    Reach(env, drained, Spawning(M, MarkReady), Revived());
  }

  /** An unload drains the loading instance (taking its child), readiness is
      reported all the same, a request is routed to it, and its child is then
      killed under the request. */
  lemma KilledUnderRequest()
    ensures exists s :: Reachable(OneModel(1), s) && RemoveEnabled(s, 0, Killed)
                     && s.fleet.life[0].inFlight == 1 && KnownGuard(s, 0) && s.guards[0] == Guard(0, Request)
  {
    var env := OneModel(1);
    RevivedReachable();
    var serving := One(Life(Ready, 1, Killing, 0), map[M := Spawned(0)], None)
                     .(guards := map[0 := Guard(0, Request)], nextGuard := 1);
    assert HasCapacity(env, Revived().fleet, 0);
    Reach(env, Revived(), Requesting(Barge(0)), serving);
  }

  // ── A handle collected while loading and forced out when busy ───────────

  function Collected(s: State): State { s.(fleet := s.fleet.(stranded := {0})) }

  /** A request is served by an instance collected while it was loading. */
  function Serving(): State {
    Collected(One(Life(Ready, 1, Running, 0), map[M := Spawned(0)], None))
      .(guards := map[0 := Guard(0, Request)], nextGuard := 1)
  }

  lemma CollectedReachable()
    ensures WellReachable(OneModel(1), Collected(Fresh()))
  {
    FreshReachable(1);
    assert Straggling(Fresh().fleet, M, {0}) == {0};
    WellReach(OneModel(1), Fresh(), ReapingStranded(M, {0}), Collected(Fresh()));
  }

  lemma ServingReachable()
    ensures WellReachable(OneModel(1), Serving())
  {
    var env := OneModel(1);
    var ready := Collected(One(Life(Ready, 0, Running, 0), map[M := Spawned(0)], None));
    CollectedReachable();
    WellReach(env, Collected(Fresh()), Spawning(M, MarkReady), ready);
    assert HasCapacity(env, ready.fleet, 0);
    WellReach(env, ready, Requesting(Barge(0)), Serving());
  }

  /** The reaper of stranded instances collects a loading instance under the
      lock; before it gets to remove it, the instance becomes ready and takes a
      request; the forced removal then takes the running child all the same. */
  lemma StrandedWhileServing()
    ensures exists s :: WellReachable(OneModel(1), s) && RemoveEnabled(s, 0, Force) && !SparesBusy(s, Removing(0, Force))
                     && s.fleet.life[0].state == Ready && KnownGuard(s, 0) && s.guards[0] == Guard(0, Request)
                     && RemoveNext(s, 0, Force).fleet.life[0].child == Killing && RemoveNext(s, 0, Force).guards == s.guards
  {
    ServingReachable();
    assert RemoveEnabled(Serving(), 0, Force);
  }

  // ── A second removal of an instance whose child is still shutting down ──

  /** An instance that is being unregistered, or no longer registered, has no
      child left: its port and its devices are really free. */
  ghost predicate ReallyGone(f: Fleet) {
    forall i :: i in f.life && (f.life[i].unregs > 0 || i !in f.registry) ==> f.life[i].child == Gone
  }

  /** A removal finds the child already taken by another one that is still
      shutting it down. */
  predicate TakesAgain(s: State, step: Step) {
    match step
    case Removing(i, act) =>
      i in s.fleet.life && s.fleet.life[i].child == Killing && (act.IfIdle? || act.Drain? || act.Force?)
    case Spawning(m, act) =>
      act.Fail? && m in s.spawns && s.spawns[m].Polling? && s.spawns[m].inst in s.fleet.life
      && s.fleet.life[s.spawns[m].inst].child == Killing
    case _ => false
  }

  lemma GoneSetLife(s: State, i: InstId, l: Life)
    requires ReallyGone(s.fleet) && i in s.fleet.life
    ensures ReallyGone(SetLife(s, i, l).fleet) <==> (l.unregs > 0 || i !in s.fleet.registry ==> l.child == Gone)
  {
    var f' := SetLife(s, i, l).fleet;
    assert f'.life[i] == l;
  }

  lemma GoneRemove(env: Env, s: State, i: InstId, act: RemoveStep)
    requires LifecycleInv(env, s) && ReallyGone(s.fleet) && RemoveEnabled(s, i, act) && !act.Unregister?
    ensures ReallyGone(RemoveNext(s, i, act).fleet) <==> !TakesAgain(s, Removing(i, act))
  {
    var l := s.fleet.life[i];
    assert LifeOk(env, s.fleet.info[i].model, i in s.fleet.registry, l);
    RemoveIsSetLife(s, i, act);
    GoneSetLife(s, i, RemovedLife(l, act));
  }

  lemma GoneUnregister(env: Env, s: State, i: InstId)
    requires RegistryOk(s.fleet) && ReallyGone(s.fleet) && RemoveEnabled(s, i, Unregister)
    ensures ReallyGone(UnregisterInstance(s, i).fleet)
  {
    DropFacts(s.fleet.registry, i);
  }

  lemma GonePollEnd(env: Env, s: State, m: ModelName, act: SpawnStep)
    requires ReallyGone(s.fleet) && SpawnEnabled(env, s, m, act) && (act.MarkReady? || act.Fail?)
    ensures ReallyGone(SpawnNext(env, s, m, act).fleet) <==> !TakesAgain(s, Spawning(m, act))
  {
    var i := s.spawns[m].inst;
    var l := SpawnNext(env, s, m, act).fleet.life[i];
    assert SpawnNext(env, s, m, act).fleet == SetLife(s, i, l).fleet;
    GoneSetLife(s, i, l);
  }

  lemma GoneSpawn(env: Env, s: State, m: ModelName, act: SpawnStep)
    requires RegistryOk(s.fleet) && ReallyGone(s.fleet) && SpawnEnabled(env, s, m, act)
    ensures ReallyGone(SpawnNext(env, s, m, act).fleet) <==> !TakesAgain(s, Spawning(m, act))
  {
    if act.MarkReady? || act.Fail? {
      GonePollEnd(env, s, m, act);
    } else if !act.Register? {
      assert SpawnNext(env, s, m, act).fleet == s.fleet;
    }
  }

  lemma GoneCalm(env: Env, s: State, step: Step)
    requires RegistryOk(s.fleet) && ReallyGone(s.fleet) && Enabled(env, s, step) && !step.Spawning? && !step.Removing?
    ensures ReallyGone(Next(env, s, step).fleet)
  {
    match step
    case Requesting(req) => GoneRequest(env, s, req);
    case Waking(m, source) => WakeCases(env, TakeWake(s, m, source), m);
    case Reaping(m) =>
    case ReapingStranded(m, late) =>
    case Cleaning(i) => CleanFrame(env, s, i);
  }

  lemma GoneRequest(env: Env, s: State, req: RequestStep)
    requires ReallyGone(s.fleet) && RequestEnabled(env, s, req)
    ensures ReallyGone(RequestNext(env, s, req).fleet)
  {
  }

  /** A step keeps it if and only if it is not a removal of an instance whose
      child another removal is still shutting down. */
  lemma GoneExact(env: Env, s: State, step: Step)
    requires LifecycleInv(env, s) && ReallyGone(s.fleet) && Enabled(env, s, step)
    ensures ReallyGone(Next(env, s, step).fleet) <==> !TakesAgain(s, step)
  {
    match step
    case Spawning(m, act) => GoneSpawn(env, s, m, act);
    case Removing(i, act) => if act.Unregister? { GoneUnregister(env, s, i); } else { GoneRemove(env, s, i, act); }
    case _ => GoneCalm(env, s, step);
  }

  function Dying(reaping: set<InstId>, unregs: nat): State {
    var s := One(Life(Failed, 0, Killing, unregs), map[M := Spawned(0)], None);
    s.(fleet := s.fleet.(reaping := reaping))
  }

  lemma DrainedReachable()
    ensures WellReachable(OneModel(1), Dying({}, 0))
  {
    var env := OneModel(1);
    FreshReachable(1);
    var ready := One(Life(Ready, 0, Running, 0), map[M := Spawned(0)], None);
    WellReach(env, Fresh(), Spawning(M, MarkReady), ready);
    WellReach(env, ready, Removing(0, Drain), Dying({}, 0));
  }

  lemma DyingReachable()
    ensures WellReachable(OneModel(1), Dying({0}, 0))
  {
    DrainedReachable();
    assert Reapable(Dying({}, 0).fleet, M) == {0};
    WellReach(OneModel(1), Dying({}, 0), Reaping(M), Dying({0}, 0));
  }

  function Leaving(c: Cleanup, used: set<Port>): State {
    var s := Dying({0}, 0);
    s.(fleet := s.fleet.(registry := [], leaving := [0], stage := map[0 := c]), used := used)
  }

  lemma DyingUnregistered()
    ensures WellReachable(OneModel(1), Leaving(FreePort, {1}))
  {
    var env := OneModel(1);
    DyingReachable();
    WellReach(env, Dying({0}, 0), Removing(0, Force), Dying({0}, 1));
    assert Drop([0], 0) == [];
    WellReach(env, Dying({0}, 1), Removing(0, Unregister), Leaving(FreePort, {1}));
  }

  /** A drain is shutting the child down when a periodic reap finds the
      instance still registered: the port is free for the next spawn while
      the child may still be bound to it. */
  lemma PortFreedWhileDying()
    ensures exists s :: WellReachable(OneModel(1), s) && 0 in s.fleet.life && s.fleet.life[0].child == Killing
                     && s.fleet.registry == [] && s.used == {}
  {
    var env := OneModel(1);
    DyingUnregistered();
    assert {1} - {1} == {};
    WellReach(env, Leaving(FreePort, {1}), Cleaning(0), Leaving(DrainCheck, {}));
  }

  // ── A queue cleared although an instance has come ───────────────────────

  /** Instance 0 failed to start; its unregistration is at the given point. */
  function Failing(c: Cleanup, used: set<Port>): State {
    Init().(fleet := Fleet(map[0 := Info(M, 1, [])], map[0 := Life(Failed, 0, Gone, 0)], 1, [], [0], map[0 := c], {}, {}),
            used := used)
  }

  lemma PollFails()
    ensures WellReachable(OneModel(1), One(Life(Failed, 0, Killing, 0), map[M := Ending], None))
  {
    FreshReachable(1);
    WellReach(OneModel(1), Fresh(), Spawning(M, Fail), One(Life(Failed, 0, Killing, 0), map[M := Ending], None));
  }

  lemma FailedToStart()
    ensures WellReachable(OneModel(1), One(Life(Failed, 0, Gone, 1), map[], None))
  {
    var failed := One(Life(Failed, 0, Killing, 0), map[M := Ending], None);
    PollFails();
    assert map[M := Ending] - {M} == map[];
    WellReach(OneModel(1), failed, Spawning(M, End), One(Life(Failed, 0, Killing, 0), map[], None));
    DiesThen(One(Life(Failed, 0, Killing, 0), map[], None));
  }

  lemma DiesThen(s: State)
    requires WellReachable(OneModel(1), s) && s == One(Life(Failed, 0, Killing, 0), map[], None)
    ensures WellReachable(OneModel(1), One(Life(Failed, 0, Gone, 1), map[], None))
  {
    WellReach(OneModel(1), s, Removing(0, Killed), One(Life(Failed, 0, Gone, 1), map[], None));
  }

  lemma AboutToClear()
    ensures WellReachable(OneModel(1), Failing(DrainClear, {}))
  {
    var env := OneModel(1);
    FailedToStart();
    assert Drop([0], 0) == [];
    WellReach(env, One(Life(Failed, 0, Gone, 1), map[], None), Removing(0, Unregister), Failing(FreePort, {1}));
    CleansUp();
  }

  lemma CleansUp()
    requires WellReachable(OneModel(1), Failing(FreePort, {1}))
    ensures WellReachable(OneModel(1), Failing(DrainClear, {}))
  {
    var env := OneModel(1);
    assert {1} - {1} == {};
    WellReach(env, Failing(FreePort, {1}), Cleaning(0), Failing(DrainCheck, {}));
    WellReach(env, Failing(DrainCheck, {}), Cleaning(0), Failing(DrainClear, {}));
  }

  /** The next spawn of the model, in the given phase, meanwhile. */
  function Meanwhile(p: Phase): State {
    Failing(DrainClear, if p.HasPort? || p.Selected? then {p.port} else {})
      .(spawns := map[M := p], permit := if NeedsPermit(p) then Some(M) else None)
  }

  lemma MeanwhilePermitted()
    ensures WellReachable(OneModel(1), Meanwhile(Permitted))
  {
    var env := OneModel(1);
    AboutToClear();
    WellReach(env, Failing(DrainClear, {}), Spawning(M, Start), Meanwhile(Queued));
    WellReach(env, Meanwhile(Queued), Spawning(M, TakePermit), Meanwhile(Permitted));
  }

  lemma MeanwhileCapped()
    ensures WellReachable(OneModel(1), Meanwhile(Capped))
  {
    MeanwhilePermitted();
    CapPasses(1, Meanwhile(Permitted));
    WellReach(OneModel(1), Meanwhile(Permitted), Spawning(M, CheckCap), Meanwhile(Capped));
  }

  lemma MeanwhileSelected()
    ensures WellReachable(OneModel(1), Meanwhile(Selected(2, [])))
  {
    var env := OneModel(1);
    MeanwhileCapped();
    WellReach(env, Meanwhile(Capped), Spawning(M, AllocPort(Some(2))), Meanwhile(HasPort(2)));
    WellReach(env, Meanwhile(HasPort(2)), Spawning(M, SelectDevices), Meanwhile(Selected(2, [])));
  }

  /** Instance 1 is loading, and a waiter is parked behind it. */
  function Behind(lobby: Lobby): State {
    Init().(fleet := Fleet(map[0 := Info(M, 1, []), 1 := Info(M, 2, [])],
                           map[0 := Life(Failed, 0, Gone, 0), 1 := Life(Loading, 0, Running, 0)], 2, [1], [0],
                           map[0 := DrainClear], {}, {}),
            spawns := map[M := Polling(1)], permit := Some(M), used := {2}, lobby := lobby)
  }

  lemma BehindReachable()
    ensures WellReachable(OneModel(1), Behind(Init().lobby))
  {
    MeanwhileSelected();
    WellReach(OneModel(1), Meanwhile(Selected(2, [])), Spawning(M, SpawnStep.Register), Behind(Init().lobby));
  }

  function OneParked(): Lobby { Lobby(map[M := [0]], 1, {}, map[], map[M := 1]) }

  lemma ParkedBehind()
    ensures WellReachable(OneModel(1), Behind(OneParked()))
  {
    BehindReachable();
    var s := Behind(Init().lobby);
    assert 1 in s.fleet.registry && Routable(s.fleet, 1, M);
    assert Queue(s.lobby, M) + [0] == [0] && Bump(s.lobby.pushWakes, M, 1) == map[M := 1];
    assert RequestNext(OneModel(1), s, Push(M)).lobby == OneParked();
    WellReach(OneModel(1), s, Requesting(Push(M)), Behind(OneParked()));
  }

  /** An unregistration finds the model without instances; before it clears the
      queue the next instance registers and a request is parked behind it; the
      request is then turned away although its instance is on its way. */
  lemma ClearedWhileLoading()
    ensures exists s :: WellReachable(OneModel(1), s) && CleanEnabled(s, 0) && 1 in s.fleet.registry && Routable(s.fleet, 1, M)
                     && Queue(s.lobby, M) == [0] && s.lobby.gone == {} && Queue(CleanNext(OneModel(1), s, 0).lobby, M) == []
                     && CleanNext(OneModel(1), s, 0).guards == map[]
  {
    ParkedBehind();
    var s := Behind(OneParked());
    assert CleanEnabled(s, 0) && Queue(CleanNext(OneModel(1), s, 0).lobby, M) == [];
  }

  // ── The wake-up bound is attained ───────────────────────────────────────

  function Upto(k: nat): (q: seq<WaiterId>)
    ensures |q| == k && forall j :: 0 <= j < k ==> q[j] == j
  {
    if k == 0 then [] else Upto(k - 1) + [k - 1]
  }

  /** `k` waiters parked behind the loading instance, no wake call pending. */
  function Parked(k: nat): State {
    if k == 0 then Fresh()
    else Fresh().(lobby := Lobby(map[M := Upto(k)], k, {}, map[], map[M := 0]))
  }

  function JustPushed(k: nat): State {
    Fresh().(lobby := Lobby(map[M := Upto(k)], k, {}, map[], map[M := 1]))
  }

  lemma PushOne(limit: nat, k: nat)
    requires k < limit && WellReachable(OneModel(limit), Parked(k))
    ensures WellReachable(OneModel(limit), JustPushed(k + 1))
  {
    var env := OneModel(limit);
    var s := Parked(k);
    assert Routable(s.fleet, 0, M) && 0 in s.fleet.registry;
    assert Queue(s.lobby, M) == Upto(k) && Count(s.lobby.pushWakes, M) == 0;
    WellReach(env, s, Requesting(Push(M)), JustPushed(k + 1));
  }

  lemma WakeNobody(limit: nat, k: nat)
    requires k > 0 && WellReachable(OneModel(limit), JustPushed(k))
    ensures WellReachable(OneModel(limit), Parked(k))
  {
    var env := OneModel(limit);
    var s := JustPushed(k);
    assert TakeWake(s, M, OnPush) == Parked(k);
    assert FindReady(env, s.fleet, M).None?;
    WellReach(env, s, Waking(M, OnPush), Parked(k));
  }

  lemma {:induction false} ParkedReachable(limit: nat, k: nat)
    requires k <= limit && limit >= 1
    ensures WellReachable(OneModel(limit), Parked(k))
  {
    if k == 0 {
      FreshReachable(limit);
    } else {
      ParkedReachable(limit, k - 1);
      PushOne(limit, k - 1);
      WakeNobody(limit, k);
    }
  }

  /** The instance has just become ready with `k` waiters parked. */
  function ReadyWith(k: nat): State {
    var f := Fleet(map[0 := Info(M, 1, [])], map[0 := Life(Ready, 0, Running, 0)], 1, [0], [], map[], {}, {});
    Parked(k).(fleet := f, spawns := map[M := Spawned(0)], permit := None)
  }

  /** One waiter has been served, the others are parked. */
  function Woken(k: nat): State
    requires k >= 1
  {
    var s := TakeWake(ReadyWith(k), M, OnSpawn);
    Acquire(s.(lobby := SetQueue(s.lobby, M, Upto(k)[1..])), 0, Inbox(0))
  }

  lemma WokenFree(limit: nat)
    requires limit >= 1
    ensures Free(OneModel(limit), Woken(limit).fleet, M) == limit - 1
  {
    var f := Woken(limit).fleet;
    assert f.life[0] == Life(Ready, 1, Running, 0);
    assert f.registry == [0] && [0][1..] == [];
  }

  lemma WokenStuck(limit: nat)
    requires limit >= 1
    ensures Owed(Woken(limit), M) == 0 && Stuck(OneModel(limit), Woken(limit), M) == limit - 1
  {
    WokenFree(limit);
    assert Queue(Woken(limit).lobby, M) == Upto(limit)[1..];
  }

  /** For every `max_concurrent` there is a run on which one instance becomes
      ready and leaves exactly `max_concurrent - 1` servable waiters parked
      with no wake call pending. */
  lemma WakeBoundAttained(limit: nat)
    requires limit >= 1
    ensures exists s :: WellReachable(OneModel(limit), s) && Owed(s, M) == 0 && Stuck(OneModel(limit), s, M) == limit - 1
  {
    ParkedReachable(limit, limit);
    WellReach(OneModel(limit), Parked(limit), Spawning(M, MarkReady), ReadyWith(limit));
    WellReach(OneModel(limit), ReadyWith(limit), Waking(M, OnSpawn), Woken(limit));
    WokenStuck(limit);
  }
}
