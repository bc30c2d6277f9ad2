/** No lost wake-ups, with the exact allowance for the single wake call a
    finished spawn makes although it brings `max_concurrent` slots. */
module Wakeups {
  import opened Base
  import opened Sums
  import opened Types
  import opened Machine
  import opened Waking
  import opened Books
  import opened Slots

  function FreeOf(env: Env, f: Fleet, m: ModelName): InstId -> nat {
    (i: InstId) =>
      if IsOf(f, i, m) && i in f.life && f.life[i].state == Ready && f.life[i].inFlight < Limit(env, m)
      then Limit(env, m) - f.life[i].inFlight else 0
  }

  /** Free slots on the registered ready instances of `m`. */
  function Free(env: Env, f: Fleet, m: ModelName): nat {
    Sum(f.registry, FreeOf(env, f, m))
  }

  /** Wake calls still to come: undelivered release events, calls owed by
      `enqueue`, and the one of a spawn that has just become ready. */
  function Owed(s: State, m: ModelName): nat {
    Count(s.lobby.events, m) + Count(s.lobby.pushWakes, m)
    + if m in s.spawns && s.spawns[m].Spawned? then 1 else 0
  }

  /** Waiters that could be served now. */
  function Servable(env: Env, s: State, m: ModelName): nat {
    Min(|Queue(s.lobby, m)|, Free(env, s.fleet, m)) as nat
  }

  /** Waiters that could be served now and that no pending wake call is for. */
  function Stuck(env: Env, s: State, m: ModelName): nat {
    Max(0, Servable(env, s, m) - Owed(s, m)) as nat
  }

  // ── How free slots change ───────────────────────────────────────────────

  lemma FreeSetLife(env: Env, s: State, i: InstId, l: Life, m: ModelName)
    requires NoDup(s.fleet.registry) && Known(s.fleet, i)
    ensures var f' := SetLife(s, i, l).fleet;
            && (i in s.fleet.registry ==>
                  Free(env, f', m) + FreeOf(env, s.fleet, m)(i) == Free(env, s.fleet, m) + FreeOf(env, f', m)(i))
            && (i !in s.fleet.registry ==> Free(env, f', m) == Free(env, s.fleet, m))
  {
    SumChangeOne(s.fleet.registry, i, FreeOf(env, s.fleet, m), FreeOf(env, SetLife(s, i, l).fleet, m));
  }

  lemma NoneReadyNoneFree(env: Env, f: Fleet, m: ModelName)
    requires FindReady(env, f, m).None?
    ensures Free(env, f, m) == 0
  {
    forall i | i in f.registry ensures FreeOf(env, f, m)(i) == 0 {
      assert IsOf(f, i, m) ==> !HasCapacity(env, f, i);
    }
    SumZero(f.registry, FreeOf(env, f, m));
  }

  lemma DropFrees(env: Env, f: Fleet, f': Fleet, i: InstId, m: ModelName)
    requires f'.info == f.info && f'.life == f.life && f'.registry == Drop(f.registry, i)
    ensures Free(env, f', m) <= Free(env, f, m)
  {
    var masked := (j: InstId) => if j == i then 0 else FreeOf(env, f, m)(j);
    SumSame(f'.registry, FreeOf(env, f, m), FreeOf(env, f', m));
    SumKeep(f.registry, Other(i), FreeOf(env, f, m), masked);
    SumLe(f.registry, masked, FreeOf(env, f, m));
  }

  /** Retiring an instance, or leaving it as it was, frees nothing. */
  lemma RetireFreesNone(env: Env, s: State, i: InstId, l: Life, m: ModelName)
    requires RegistryOk(s.fleet) && Known(s.fleet, i)
    requires l.state == Failed || (l.state == s.fleet.life[i].state && l.inFlight == s.fleet.life[i].inFlight)
    ensures Free(env, SetLife(s, i, l).fleet, m) <= Free(env, s.fleet, m)
  {
    FreeSetLife(env, s, i, l, m);
  }

  /** A removal step never frees a slot. */
  lemma RemoveFreesNone(env: Env, s: State, i: InstId, act: RemoveStep, m: ModelName)
    requires RegistryOk(s.fleet) && RemoveEnabled(s, i, act)
    ensures Free(env, RemoveNext(s, i, act).fleet, m) <= Free(env, s.fleet, m)
  {
    if act.Unregister? {
      UnregisterFreesNone(env, s, i, m);
    } else {
      RetireFreesNone(env, s, i, RemovedLife(s.fleet.life[i], act), m);
      RemoveIsSetLife(s, i, act);
    }
  }

  lemma UnregisterFreesNone(env: Env, s: State, i: InstId, m: ModelName)
    requires RegistryOk(s.fleet) && Known(s.fleet, i) && s.fleet.life[i].unregs > 0
    ensures Free(env, UnregisterInstance(s, i).fleet, m) <= Free(env, s.fleet, m)
  {
    var l := s.fleet.life[i];
    RetireFreesNone(env, s, i, l.(unregs := l.unregs - 1), m);
    if i in s.fleet.registry {
      DropFrees(env, SetLife(s, i, l.(unregs := l.unregs - 1)).fleet, UnregisterInstance(s, i).fleet, i, m);
    }
  }

  // ── One step ────────────────────────────────────────────────────────────

  /** Queue length, free slots and owed wake calls decide what is stuck. */
  lemma StuckFrom(env: Env, s: State, t: State, m: ModelName, surge: nat)
    requires var q, r := |Queue(s.lobby, m)|, |Queue(t.lobby, m)|;
             var f, g := Free(env, s.fleet, m), Free(env, t.fleet, m);
             || (r <= q && g <= f && Owed(t, m) >= Owed(s, m))
             || (r <= q && g <= f + 1 + surge && Owed(t, m) >= Owed(s, m) + 1)
             || (r <= q + 1 && g <= f && Owed(t, m) >= Owed(s, m) + 1)
             || (r < q && g < f && Owed(t, m) >= Owed(s, m) - 1)
             || Queue(t.lobby, m) == [] || g == 0
    ensures Stuck(env, t, m) <= Stuck(env, s, m) + surge
  {
  }

  lemma DropGuardOwes(s: State, g: GuardId, m: ModelName)
    requires SlotsInv(s) && KnownGuard(s, g)
    ensures var t := DropGuard(s, g);
            && t.lobby.queues == s.lobby.queues && t.spawns == s.spawns && t.lobby.pushWakes == s.lobby.pushWakes
            && Count(t.lobby.events, m) == Count(s.lobby.events, m) + (if s.fleet.info[s.guards[g].inst].model == m then 1 else 0)
  {
    DropGuardConserves(s, g);
  }

  lemma DropGuardFrees(env: Env, s: State, g: GuardId, m: ModelName)
    requires RegistryOk(s.fleet) && SlotsInv(s) && KnownGuard(s, g)
    ensures Free(env, DropGuard(s, g).fleet, m)
         <= Free(env, s.fleet, m) + (if s.fleet.info[s.guards[g].inst].model == m then 1 else 0)
  {
    var i := s.guards[g].inst;
    var l := s.fleet.life[i];
    DropGuardConserves(s, g);
    assert DropGuard(s, g).fleet == SetLife(s, i, l.(inFlight := l.inFlight - 1)).fleet;
    FreeSetLife(env, s, i, l.(inFlight := l.inFlight - 1), m);
  }

  lemma StuckDropGuard(env: Env, s: State, g: GuardId, m: ModelName)
    requires RegistryOk(s.fleet) && SlotsInv(s) && KnownGuard(s, g)
    ensures Stuck(env, DropGuard(s, g), m) <= Stuck(env, s, m)
  {
    DropGuardOwes(s, g, m);
    DropGuardFrees(env, s, g, m);
    StuckFrom(env, s, DropGuard(s, g), m, 0);
  }

  lemma AcquireTakes(env: Env, s: State, i: InstId, h: Holder, m: ModelName)
    requires RegistryOk(s.fleet) && HasCapacity(env, s.fleet, i)
    ensures Free(env, Acquire(s, i, h).fleet, m) <= Free(env, s.fleet, m)
    ensures i in s.fleet.registry && IsOf(s.fleet, i, m) ==>
              Free(env, Acquire(s, i, h).fleet, m) == Free(env, s.fleet, m) - 1
  {
    var l := s.fleet.life[i];
    assert Acquire(s, i, h).fleet == SetLife(s, i, l.(inFlight := l.inFlight + 1)).fleet;
    FreeSetLife(env, s, i, l.(inFlight := l.inFlight + 1), m);
  }

  lemma StuckAlike(env: Env, t: State, u: State, m: ModelName)
    requires u.fleet == t.fleet && u.spawns == t.spawns && u.lobby.queues == t.lobby.queues
    requires u.lobby.events == t.lobby.events && u.lobby.pushWakes == t.lobby.pushWakes
    ensures Stuck(env, u, m) == Stuck(env, t, m)
  {
  }

  lemma StuckVanishServed(env: Env, s: State, g: GuardId, m: ModelName)
    requires RegistryOk(s.fleet) && SlotsInv(s) && RequestEnabled(env, s, VanishServed(g))
    ensures Stuck(env, RequestNext(env, s, VanishServed(g)), m) <= Stuck(env, s, m)
  {
    StuckDropGuard(env, s, g, m);
    StuckAlike(env, DropGuard(s, g), RequestNext(env, s, VanishServed(g)), m);
  }

  lemma StuckPush(env: Env, s: State, n: ModelName, m: ModelName)
    requires RequestEnabled(env, s, Push(n))
    ensures Stuck(env, RequestNext(env, s, Push(n)), m) <= Stuck(env, s, m)
  {
    StuckFrom(env, s, RequestNext(env, s, Push(n)), m, 0);
  }

  lemma StuckRemoveQueued(env: Env, s: State, n: ModelName, w: WaiterId, m: ModelName)
    requires RequestEnabled(env, s, RemoveQueued(n, w))
    ensures Stuck(env, RequestNext(env, s, RemoveQueued(n, w)), m) <= Stuck(env, s, m)
  {
    StuckFrom(env, s, RequestNext(env, s, RemoveQueued(n, w)), m, 0);
  }

  lemma StuckRequest(env: Env, s: State, req: RequestStep, m: ModelName)
    requires RegistryOk(s.fleet) && SlotsInv(s) && RequestEnabled(env, s, req)
    ensures Stuck(env, RequestNext(env, s, req), m) <= Stuck(env, s, m)
  {
    match req
    case Barge(i) =>
      AcquireTakes(env, s, i, Machine.Request, m);
      StuckFrom(env, s, Acquire(s, i, Machine.Request), m, 0);
    case Release(g) => StuckDropGuard(env, s, g, m);
    case VanishServed(g) => StuckVanishServed(env, s, g, m);
    case Push(n) => StuckPush(env, s, n, m);
    case VanishParked(w) =>
    case RemoveQueued(n, w) => StuckRemoveQueued(env, s, n, w, m);
    case Receive(g) =>
  }

  /** A wake call that is made serves a waiter or finds nothing to do. */
  lemma StuckWake(env: Env, s: State, m: ModelName, source: WakeSource)
    requires RegistryOk(s.fleet) && WakeEnabled(s, m, source)
    ensures Stuck(env, WakeOne(env, TakeWake(s, m, source), m), m) <= Stuck(env, s, m)
  {
    var u := TakeWake(s, m, source);
    var t := WakeOne(env, u, m);
    TakeWakeOwes(s, m, source);
    WakeServes(env, u, m);
    StuckFrom(env, s, t, m, 0);
  }

  lemma TakeWakeOwes(s: State, m: ModelName, source: WakeSource)
    requires WakeEnabled(s, m, source)
    ensures var u := TakeWake(s, m, source);
            && u.fleet == s.fleet && u.lobby.queues == s.lobby.queues
            && Owed(u, m) == Owed(s, m) - 1
            && forall n :: n != m ==> Owed(u, n) == Owed(s, n)
  {
  }

  lemma WakeServes(env: Env, u: State, m: ModelName)
    requires RegistryOk(u.fleet)
    ensures var t := WakeOne(env, u, m);
            || (|Queue(t.lobby, m)| < |Queue(u.lobby, m)| && Free(env, t.fleet, m) < Free(env, u.fleet, m) && Owed(t, m) >= Owed(u, m))
            || Queue(t.lobby, m) == [] || Free(env, t.fleet, m) == 0
  {
    WakeClosedForm(env, u, m);
    if FindReady(env, u.fleet, m).None? {
      NoneReadyNoneFree(env, u.fleet, m);
    } else if WakeHands(env, u, m) {
      var q := Queue(u.lobby, m);
      var k := Vanished(q, u.lobby.gone);
      AcquireTakes(env, u.(lobby := Passed(u.lobby, m, k, 1)), FindReady(env, u.fleet, m).value, Inbox(q[k]), m);
    }
  }

  lemma StuckWakeOther(env: Env, s: State, n: ModelName, source: WakeSource, m: ModelName)
    requires RegistryOk(s.fleet) && WakeEnabled(s, n, source) && m != n
    ensures Stuck(env, WakeOne(env, TakeWake(s, n, source), n), m) <= Stuck(env, s, m)
  {
    var u := TakeWake(s, n, source);
    TakeWakeOwes(s, n, source);
    WakeElsewhere(env, u, n, m);
    StuckFrom(env, s, WakeOne(env, u, n), m, 0);
  }

  lemma LobbyElsewhere(env: Env, u: State, n: ModelName, m: ModelName)
    requires m != n
    ensures var t := WakeOne(env, u, n); Queue(t.lobby, m) == Queue(u.lobby, m) && Owed(t, m) == Owed(u, m)
  {
    WakeClosedForm(env, u, n);
  }

  lemma WakeElsewhere(env: Env, u: State, n: ModelName, m: ModelName)
    requires RegistryOk(u.fleet) && m != n
    ensures var t := WakeOne(env, u, n);
            Queue(t.lobby, m) == Queue(u.lobby, m) && Owed(t, m) == Owed(u, m) && Free(env, t.fleet, m) <= Free(env, u.fleet, m)
  {
    LobbyElsewhere(env, u, n, m);
    WakeCases(env, u, n);
    if WakeHands(env, u, n) {
      var q := Queue(u.lobby, n);
      AcquireTakes(env, u.(lobby := WakeOne(env, u, n).lobby), FindReady(env, u.fleet, n).value,
                   Inbox(q[Vanished(q, u.lobby.gone)]), m);
    }
  }

  lemma FreeRegister(env: Env, s: State, n: ModelName, port: Port, gpus: seq<nat>, m: ModelName)
    requires RegistryOk(s.fleet)
    ensures Free(env, RegisterInstance(env, s, n, port, gpus).fleet, m) == Free(env, s.fleet, m)
  {
    var f' := RegisterInstance(env, s, n, port, gpus).fleet;
    SumPush(s.fleet.registry, s.fleet.nextInst, FreeOf(env, f', m));
    SumSame(s.fleet.registry, FreeOf(env, s.fleet, m), FreeOf(env, f', m));
  }

  /** Slots that become free although nobody releases one. */
  function Surge(env: Env, step: Step, m: ModelName): nat {
    if step == Spawning(m, MarkReady) && Limit(env, m) > 0 then Limit(env, m) - 1 else 0
  }

  lemma ReadyOwes(env: Env, s: State, n: ModelName, m: ModelName)
    requires SpawnEnabled(env, s, n, MarkReady)
    ensures var t := SpawnNext(env, s, n, MarkReady);
            var i := s.spawns[n].inst;
            && t.lobby == s.lobby && t.fleet == SetLife(s, i, s.fleet.life[i].(state := Ready)).fleet
            && Owed(t, m) == Owed(s, m) + (if n == m then 1 else 0)
  {
  }

  lemma ReadyFrees(env: Env, s: State, i: InstId, n: ModelName, m: ModelName)
    requires RegistryOk(s.fleet) && i in s.fleet.life && IsOf(s.fleet, i, n)
    ensures Free(env, SetLife(s, i, s.fleet.life[i].(state := Ready)).fleet, m)
         <= Free(env, s.fleet, m) + (if n == m then Limit(env, m) else 0)
  {
    FreeSetLife(env, s, i, s.fleet.life[i].(state := Ready), m);
  }

  lemma StuckReady(env: Env, s: State, n: ModelName, m: ModelName)
    requires RegistryOk(s.fleet) && SpawnEnabled(env, s, n, MarkReady)
    requires IsOf(s.fleet, s.spawns[n].inst, n)
    ensures Stuck(env, SpawnNext(env, s, n, MarkReady), m) <= Stuck(env, s, m) + Surge(env, Spawning(n, MarkReady), m)
  {
    ReadyOwes(env, s, n, m);
    ReadyFrees(env, s, s.spawns[n].inst, n, m);
    StuckFrom(env, s, SpawnNext(env, s, n, MarkReady), m, Surge(env, Spawning(n, MarkReady), m));
  }

  lemma StuckFail(env: Env, s: State, n: ModelName, m: ModelName)
    requires RegistryOk(s.fleet) && SpawnEnabled(env, s, n, Fail)
    ensures Stuck(env, SpawnNext(env, s, n, Fail), m) <= Stuck(env, s, m)
  {
    var i := s.spawns[n].inst;
    RetireFreesNone(env, s, i, TakeChild(s.fleet.life[i]), m);
    StuckFrom(env, s, SpawnNext(env, s, n, Fail), m, 0);
  }

  lemma StuckRegister(env: Env, s: State, n: ModelName, m: ModelName)
    requires RegistryOk(s.fleet) && SpawnEnabled(env, s, n, Register)
    ensures Stuck(env, SpawnNext(env, s, n, Register), m) <= Stuck(env, s, m)
  {
    FreeRegister(env, s, n, s.spawns[n].port, s.spawns[n].gpus, m);
    StuckFrom(env, s, SpawnNext(env, s, n, Register), m, 0);
  }

  lemma QuietSpawn(env: Env, s: State, n: ModelName, act: SpawnStep, m: ModelName)
    requires SpawnEnabled(env, s, n, act) && !act.Register? && !act.MarkReady? && !act.Fail?
    ensures var t := SpawnNext(env, s, n, act); t.fleet == s.fleet && t.lobby == s.lobby && Owed(t, m) == Owed(s, m)
  {
  }

  lemma StuckSpawn(env: Env, s: State, n: ModelName, act: SpawnStep, m: ModelName)
    requires BooksOk(s) && SpawnEnabled(env, s, n, act)
    ensures Stuck(env, SpawnNext(env, s, n, act), m) <= Stuck(env, s, m) + Surge(env, Spawning(n, act), m)
  {
    match act
    case Register => StuckRegister(env, s, n, m);
    case MarkReady =>
      assert TaskOk(s.fleet, n, s.spawns[n]);
      StuckReady(env, s, n, m);
    case Fail => StuckFail(env, s, n, m);
    case _ => QuietSpawn(env, s, n, act, m);
  }

  lemma StuckRemove(env: Env, s: State, i: InstId, act: RemoveStep, m: ModelName)
    requires RegistryOk(s.fleet) && RemoveEnabled(s, i, act)
    ensures Stuck(env, RemoveNext(s, i, act), m) <= Stuck(env, s, m)
  {
    RemoveFreesNone(env, s, i, act, m);
    RemoveOwes(s, i, act);
    StuckFrom(env, s, RemoveNext(s, i, act), m, 0);
  }

  lemma RemoveOwes(s: State, i: InstId, act: RemoveStep)
    requires RemoveEnabled(s, i, act)
    ensures RemoveNext(s, i, act).lobby == s.lobby && RemoveNext(s, i, act).spawns == s.spawns
  {
  }

  lemma StuckCollect(env: Env, s: State, step: Step, m: ModelName)
    requires step.Reaping? || step.ReapingStranded?
    ensures Stuck(env, Next(env, s, step), m) == Stuck(env, s, m)
  {
    SumSame(s.fleet.registry, FreeOf(env, s.fleet, m), FreeOf(env, Next(env, s, step).fleet, m));
  }

  lemma CleanQueues(env: Env, s: State, i: InstId, m: ModelName)
    requires CleanEnabled(s, i)
    ensures var t := CleanNext(env, s, i); |Queue(t.lobby, m)| <= |Queue(s.lobby, m)| && Owed(t, m) == Owed(s, m)
  {
  }

  lemma StuckClean(env: Env, s: State, i: InstId, m: ModelName)
    requires RegistryOk(s.fleet) && CleanEnabled(s, i)
    ensures Stuck(env, CleanNext(env, s, i), m) <= Stuck(env, s, m)
  {
    var t := CleanNext(env, s, i);
    CleanFrame(env, s, i);
    CleanQueues(env, s, i, m);
    SumSame(s.fleet.registry, FreeOf(env, s.fleet, m), FreeOf(env, t.fleet, m));
  }

  /** One step leaves at most `max_concurrent - 1` more servable waiters
      without a pending wake call, and only when an instance becomes ready. */
  lemma StuckStep(env: Env, s: State, step: Step, m: ModelName)
    requires BooksOk(s) && SlotsInv(s) && Enabled(env, s, step)
    ensures Stuck(env, Next(env, s, step), m) <= Stuck(env, s, m) + Surge(env, step, m)
  {
    match step
    case Requesting(req) => StuckRequest(env, s, req, m);
    case Waking(n, source) =>
      if n == m { StuckWake(env, s, m, source); } else { StuckWakeOther(env, s, n, source, m); }
    case Spawning(n, act) => StuckSpawn(env, s, n, act, m);
    case Removing(i, act) => StuckRemove(env, s, i, act, m);
    case Reaping(n) => StuckCollect(env, s, step, m);
    case ReapingStranded(n, late) => StuckCollect(env, s, step, m);
    case Cleaning(i) => StuckClean(env, s, i, m);
  }

  // ── Runs ────────────────────────────────────────────────────────────────

  /** How often an instance of `m` became ready, times `max_concurrent - 1`. */
  function Surges(env: Env, steps: seq<Step>, m: ModelName): nat {
    if steps == [] then 0 else Surge(env, steps[0], m) + Surges(env, steps[1..], m)
  }

  /** No lost wake-ups over whole runs: the waiters that could be served but
      that no pending wake call is for grow by no more than `max_concurrent - 1`
      for every instance that became ready, whatever barging requests, vanished
      waiters, timeouts and removals interleave, and whatever readiness is
      reported of. */
  lemma {:induction false} StuckRun(env: Env, s: State, steps: seq<Step>, m: ModelName)
    requires BooksOk(s) && SlotsInv(s) && ValidRun(env, s, steps)
    ensures Stuck(env, Exec(env, s, steps), m) <= Stuck(env, s, m) + Surges(env, steps, m)
    decreases |steps|
  {
    if steps != [] {
      StuckStep(env, s, steps[0], m);
      BooksStep(env, s, steps[0]);
      SlotsStep(env, s, steps[0]);
      StuckRun(env, Next(env, s, steps[0]), steps[1..], m);
    }
  }

  lemma {:induction false} NoSurges(env: Env, steps: seq<Step>, m: ModelName)
    requires Limit(env, m) <= 1
    ensures Surges(env, steps, m) == 0
  {
    if steps != [] {
      NoSurges(env, steps[1..], m);
    }
  }

  /** With at most one slot per instance and no wake call pending, a parked waiter
      means that no slot is free, in every reachable state. */
  lemma ParkedMeansFull(env: Env, s: State, m: ModelName)
    requires Limit(env, m) <= 1 && Reachable(env, s)
    ensures Owed(s, m) == 0 && Queue(s.lobby, m) != [] ==> Free(env, s.fleet, m) == 0
  {
    var steps :| ValidRun(env, Init(), steps) && Exec(env, Init(), steps) == s;
    assert Conserved(Init().fleet, Init().guards);
    StuckRun(env, Init(), steps, m);
    NoSurges(env, steps, m);
  }
}
