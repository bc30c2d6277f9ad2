/** How instances leave: what a crash, a removal and a drain lead to on every
    run after them. */
module Departure {
  import opened Base
  import opened Types
  import opened Machine
  import opened Waking
  import opened Books
  import opened Slots
  import opened Safety
  import opened Rollback

  // ── Crashes ─────────────────────────────────────────────────────────────

  /** The monitor's report of an instance that is still in service retires it:
      on every run after it the instance is never routable again, and one of at
      most five steps of its own can always be taken until it is unregistered,
      its port and references are given back and its model's waiters are
      attended to by others. */
  lemma CrashReturns(env: Env, s: State, i: InstId, steps: seq<Step>)
    requires Reachable(env, s) && RemoveEnabled(s, i, Crash) && s.fleet.life[i].state != Failed
    requires ValidRun(env, Next(env, s, Removing(i, Crash)), steps)
    ensures var t := Exec(env, Next(env, s, Removing(i, Crash)), steps);
            && OnItsWayOut(env, t, i) && Accounts(env, t) && Remaining(t.fleet, i) <= 5
            && forall m :: !Routable(t.fleet, i, m)
  {
    var f := Next(env, s, Removing(i, Crash));
    AccountsWithLeavers(env, s);
    AccountsStep(env, s, Removing(i, Crash));
    LeaversStep(env, s, Removing(i, Crash));
    CrashRetires(s, i);
    UnpolledRun(env, f, steps, i);
    WayOutRun(env, f, steps, i);
    RetiredRun(env, f, steps, i);
  }

  lemma CrashRetires(s: State, i: InstId)
    requires BooksOk(s) && RemoveEnabled(s, i, Crash) && s.fleet.life[i].state != Failed
    ensures var f := RemoveNext(s, i, Crash);
            && Retired(f, i) && Unpolled(f, i) && Remaining(f.fleet, i) <= 5
            && f.fleet.life[i].child == Gone && f.fleet.life[i].unregs > 0
  {
    forall n | n in s.spawns ensures s.spawns[n] != Polling(i) {
      assert TaskOk(s.fleet, n, s.spawns[n]);
    }
  }

  /** The child has exited, noticed or not. */
  predicate Dead(s: State, i: InstId) {
    Known(s.fleet, i) && (s.fleet.life[i].child == Exited || s.fleet.life[i].child == Gone)
  }

  lemma DeadSpawn(env: Env, s: State, m: ModelName, act: SpawnStep, i: InstId)
    requires BooksOk(s) && Dead(s, i) && SpawnEnabled(env, s, m, act)
    ensures Dead(SpawnNext(env, s, m, act), i)
  {
    assert i < s.fleet.nextInst;
  }

  lemma DeadRemove(s: State, j: InstId, act: RemoveStep, i: InstId)
    requires Dead(s, i) && RemoveEnabled(s, j, act)
    ensures Dead(RemoveNext(s, j, act), i)
  {
    if !act.Unregister? {
      RemoveIsSetLife(s, j, act);
    }
  }

  lemma DeadStays(env: Env, s: State, step: Step, i: InstId)
    requires BooksOk(s) && Dead(s, i) && Enabled(env, s, step)
    ensures Dead(Next(env, s, step), i)
  {
    match step
    case Spawning(m, act) => DeadSpawn(env, s, m, act, i);
    case Removing(j, act) => DeadRemove(s, j, act, i);
    case _ => CalmStanding(env, s, step);
  }

  lemma {:induction false} DeadRun(env: Env, s: State, steps: seq<Step>, i: InstId)
    requires BooksOk(s) && Dead(s, i) && ValidRun(env, s, steps)
    ensures Dead(Exec(env, s, steps), i)
    decreases |steps|
  {
    if steps != [] {
      DeadStays(env, s, steps[0], i);
      BooksStep(env, s, steps[0]);
      DeadRun(env, Next(env, s, steps[0]), steps[1..], i);
    }
  }

  /** A child that exits by itself does not come back, and as long as nobody
      has taken it, either the monitor's report can be handled or the spawn
      task still polls the instance and can find out. */
  lemma ExitIsNoticed(env: Env, s: State, i: InstId, steps: seq<Step>)
    requires Reachable(env, s) && RemoveEnabled(s, i, Exits)
    requires ValidRun(env, Next(env, s, Removing(i, Exits)), steps)
    ensures var t := Exec(env, Next(env, s, Removing(i, Exits)), steps);
            && i in t.fleet.life && (t.fleet.life[i].child == Exited || t.fleet.life[i].child == Gone)
            && (t.fleet.life[i].child == Exited ==> RemoveEnabled(t, i, Crash) || Polled(t, i))
  {
    ReachableBooks(env, s);
    BooksStep(env, s, Removing(i, Exits));
    DeadRun(env, Next(env, s, Removing(i, Exits)), steps, i);
  }

  lemma ReachableBooks(env: Env, s: State)
    requires Reachable(env, s)
    ensures BooksOk(s)
  {
    Accounted(env, s);
  }

  // ── Removals ────────────────────────────────────────────────────────────

  /** The removal goes for this instance: a polite one or a drain finds it idle,
      a forced one takes it anyway. */
  predicate GoesAhead(l: Life, act: RemoveStep) {
    act == Force || ((act == IfIdle || act == Drain) && l.inFlight == 0)
  }

  /** A removal that goes ahead retires its instance: on every run after it that
      does not report readiness of the instance, it is out of service, and one
      of at most six steps of its own can always be taken until all it held is
      returned. */
  lemma RemovalReturns(env: Env, s: State, i: InstId, act: RemoveStep, steps: seq<Step>)
    requires Reachable(env, s) && RemoveEnabled(s, i, act) && GoesAhead(s.fleet.life[i], act)
    requires ValidRun(env, Next(env, s, Removing(i, act)), steps)
    requires Unmarked(env, Next(env, s, Removing(i, act)), steps, i)
    ensures var t := Exec(env, Next(env, s, Removing(i, act)), steps);
            && OnItsWayOut(env, t, i) && Accounts(env, t)
            && forall m :: !Routable(t.fleet, i, m)
  {
    var f := Next(env, s, Removing(i, act));
    AccountsWithLeavers(env, s);
    AccountsStep(env, s, Removing(i, act));
    LeaversStep(env, s, Removing(i, act));
    RemovalRetires(s, i, act);
    WayOutRun(env, f, steps, i);
  }

  lemma RemovalRetires(s: State, i: InstId, act: RemoveStep)
    requires RemoveEnabled(s, i, act) && GoesAhead(s.fleet.life[i], act)
    ensures Retired(RemoveNext(s, i, act), i)
  {
  }

  // ── Drains ──────────────────────────────────────────────────────────────

  /** Marked as retiring with at most `n` slots in use. */
  ghost predicate WindsDown(s: State, i: InstId, n: nat) {
    Known(s.fleet, i) && s.fleet.life[i].state == Failed && s.fleet.life[i].inFlight <= n
  }

  lemma WindsDownWake(env: Env, s: State, m: ModelName, i: InstId, n: nat)
    requires WindsDown(s, i, n)
    ensures WindsDown(WakeOne(env, s, m), i, n)
  {
    WakeCases(env, s, m);
  }

  lemma WindsDownRequest(env: Env, s: State, req: RequestStep, i: InstId, n: nat)
    requires WindsDown(s, i, n) && RequestEnabled(env, s, req)
    ensures WindsDown(RequestNext(env, s, req), i, n)
  {
  }

  lemma WindsDownRemove(s: State, j: InstId, act: RemoveStep, i: InstId, n: nat)
    requires WindsDown(s, i, n) && RemoveEnabled(s, j, act)
    ensures WindsDown(RemoveNext(s, j, act), i, n)
  {
    if !act.Unregister? {
      RemoveIsSetLife(s, j, act);
    }
  }

  /** No request and no wake-up takes a slot of a retiring instance. */
  lemma WindsDownStep(env: Env, s: State, step: Step, i: InstId, n: nat)
    requires BooksOk(s) && WindsDown(s, i, n) && Enabled(env, s, step) && !Marks(s, step, i)
    ensures WindsDown(Next(env, s, step), i, n)
  {
    match step
    case Requesting(req) => WindsDownRequest(env, s, req, i, n);
    case Waking(m, source) => WindsDownWake(env, TakeWake(s, m, source), m, i, n);
    case Spawning(m, act) => WindsDownSpawn(env, s, m, act, i, n);
    case Removing(j, act) => WindsDownRemove(s, j, act, i, n);
    case Cleaning(j) => CleanFrame(env, s, j);
    case _ =>
  }

  lemma WindsDownSpawn(env: Env, s: State, m: ModelName, act: SpawnStep, i: InstId, n: nat)
    requires BooksOk(s) && WindsDown(s, i, n) && SpawnEnabled(env, s, m, act) && !Marks(s, Spawning(m, act), i)
    ensures WindsDown(SpawnNext(env, s, m, act), i, n)
  {
    assert i < s.fleet.nextInst;
    assert act.MarkReady? ==> s.spawns[m].inst != i;
  }

  lemma {:induction false} WindsDownRun(env: Env, s: State, steps: seq<Step>, i: InstId, n: nat)
    requires BooksOk(s) && WindsDown(s, i, n) && ValidRun(env, s, steps) && Unmarked(env, s, steps, i)
    ensures WindsDown(Exec(env, s, steps), i, n)
    decreases |steps|
  {
    if steps != [] {
      WindsDownStep(env, s, steps[0], i, n);
      BooksStep(env, s, steps[0]);
      WindsDownRun(env, Next(env, s, steps[0]), steps[1..], i, n);
    }
  }

  /** A step after which instance `i` has one slot less in use. */
  ghost predicate GivesBack(env: Env, s: State, step: Step, i: InstId) {
    && Enabled(env, s, step) && i in s.fleet.life && i in Next(env, s, step).fleet.life
    && Next(env, s, step).fleet.life[i].inFlight < s.fleet.life[i].inFlight
  }

  /** A slot in use can be given back: its request drops the guard, or the
      waiter it was sent to vanishes. */
  lemma SlotCanReturn(env: Env, s: State, i: InstId) returns (step: Step)
    requires SlotsInv(s) && Known(s.fleet, i) && s.fleet.life[i].inFlight > 0
    ensures GivesBack(env, s, step, i)
  {
    assert GuardsOn(s.guards, i) != {};
    var g :| g in GuardsOn(s.guards, i);
    step := Requesting(if s.guards[g].holder == Request then Release(g) else VanishServed(g));
  }

  /** Collected by a reap and forced out, the instance is retired. */
  ghost predicate CanBeReaped(env: Env, s: State, i: InstId) {
    && i in s.fleet.info
    && var u := Next(env, s, Reaping(s.fleet.info[i].model));
    RemoveEnabled(u, i, Force) && Retired(Next(env, u, Removing(i, Force)), i)
  }

  /** A drained busy instance takes no new request: on every run after the drain
      that does not report readiness of it, it is retiring and has no more slots
      in use than it had; as long as it has one, a step gives one back; and once
      it has none, a reap collects it and retires it for good, unless it is
      unregistered already. */
  lemma DrainLeads(env: Env, s: State, i: InstId, steps: seq<Step>)
    requires Reachable(env, s) && RemoveEnabled(s, i, Drain) && s.fleet.life[i].inFlight > 0
    requires ValidRun(env, Next(env, s, Removing(i, Drain)), steps)
    requires Unmarked(env, Next(env, s, Removing(i, Drain)), steps, i)
    ensures var t := Exec(env, Next(env, s, Removing(i, Drain)), steps);
            && WindsDown(t, i, s.fleet.life[i].inFlight) && (forall m :: !Routable(t.fleet, i, m))
            && (t.fleet.life[i].inFlight > 0 ==> exists step :: GivesBack(env, t, step, i))
            && (t.fleet.life[i].inFlight == 0 && i in t.fleet.registry ==> CanBeReaped(env, t, i))
  {
    var f := Next(env, s, Removing(i, Drain));
    Accounted(env, s);
    AccountsStep(env, s, Removing(i, Drain));
    AccountsRun(env, f, steps);
    WindsDownRun(env, f, steps, i, s.fleet.life[i].inFlight);
    var t := Exec(env, f, steps);
    if t.fleet.life[i].inFlight > 0 {
      var step := SlotCanReturn(env, t, i);
    } else if i in t.fleet.registry {
      ReapRetires(env, t, i);
    }
  }

  lemma ReapRetires(env: Env, s: State, i: InstId)
    requires Known(s.fleet, i) && i in s.fleet.registry
    requires s.fleet.life[i].state == Failed && s.fleet.life[i].inFlight == 0
    ensures CanBeReaped(env, s, i)
  {
    assert i in Reapable(s.fleet, s.fleet.info[i].model);
  }
}
