/** No waiter is stranded: a parked waiter's model has a registered instance,
    or a queue drain of that model is still to come. */
module Stranding {
  import opened Base
  import opened Sums
  import opened Types
  import opened Machine
  import opened Waking
  import opened Books

  /** The unregistration of `i` has not yet cleared the queue or found another instance. */
  predicate Draining(f: Fleet, i: InstId) {
    i in f.stage && (f.stage[i].FreePort? || f.stage[i].DrainCheck? || f.stage[i].DrainClear?)
  }

  predicate Attends(f: Fleet, m: ModelName, i: InstId) {
    IsOf(f, i, m) && (i in f.registry || Draining(f, i))
  }

  ghost predicate Attended(f: Fleet, m: ModelName) {
    exists i :: Attends(f, m, i)
  }

  /** A parked waiter is attended to, and no queue exceeds its depth. */
  ghost predicate QueueOk(env: Env, s: State, m: ModelName) {
    Queue(s.lobby, m) != [] ==>
      m in env.configs && |Queue(s.lobby, m)| <= env.configs[m].queueDepth && Attended(s.fleet, m)
  }

  ghost predicate QueuesInv(env: Env, s: State) {
    forall m :: QueueOk(env, s, m)
  }

  /** Attendance and queues as before, or shorter queues. */
  lemma QueueFrom(env: Env, s: State, t: State, m: ModelName)
    requires QueueOk(env, s, m)
    requires |Queue(t.lobby, m)| <= |Queue(s.lobby, m)|
    requires Attended(s.fleet, m) ==> Attended(t.fleet, m)
    ensures QueueOk(env, t, m)
  {
  }

  lemma SameAttended(f: Fleet, f': Fleet, m: ModelName)
    requires f'.info == f.info && f'.registry == f.registry && f'.stage == f.stage
    ensures Attended(f, m) ==> Attended(f', m)
  {
    forall i | Attends(f, m, i) ensures Attends(f', m, i) {}
  }

  lemma QueueRequest(env: Env, s: State, req: RequestStep, m: ModelName)
    requires QueueOk(env, s, m) && RequestEnabled(env, s, req)
    ensures QueueOk(env, RequestNext(env, s, req), m)
  {
    var t := RequestNext(env, s, req);
    SameAttended(s.fleet, t.fleet, m);
    if req == Push(m) {
      var i :| i in s.fleet.registry && Routable(s.fleet, i, m);
      assert Attends(s.fleet, m, i);
    } else {
      QueueFrom(env, s, t, m);
    }
  }

  lemma QueueWake(env: Env, s: State, n: ModelName, source: WakeSource, m: ModelName)
    requires QueueOk(env, s, m) && WakeEnabled(s, n, source)
    ensures QueueOk(env, WakeOne(env, TakeWake(s, n, source), n), m)
  {
    var u := TakeWake(s, n, source);
    WakeShortens(env, u, n, m);
    var t := WakeOne(env, u, n);
    SameAttended(s.fleet, t.fleet, m);
    QueueFrom(env, s, t, m);
  }

  lemma QueueSpawn(env: Env, s: State, n: ModelName, act: SpawnStep, m: ModelName)
    requires RegistryOk(s.fleet) && QueueOk(env, s, m) && SpawnEnabled(env, s, n, act)
    ensures QueueOk(env, SpawnNext(env, s, n, act), m)
  {
    SpawnAttended(env, s, n, act, m);
    QueueFrom(env, s, SpawnNext(env, s, n, act), m);
  }

  lemma SpawnAttended(env: Env, s: State, n: ModelName, act: SpawnStep, m: ModelName)
    requires RegistryOk(s.fleet) && SpawnEnabled(env, s, n, act)
    ensures var t := SpawnNext(env, s, n, act);
            t.lobby == s.lobby && (Attended(s.fleet, m) ==> Attended(t.fleet, m))
  {
    var t := SpawnNext(env, s, n, act);
    if act.Register? {
      forall i | Attends(s.fleet, m, i) ensures Attends(t.fleet, m, i) {}
    } else {
      SameAttended(s.fleet, t.fleet, m);
    }
  }

  /** An instance leaves the registry only to have its model's queue drained. */
  lemma QueueRemove(env: Env, s: State, i: InstId, act: RemoveStep, m: ModelName)
    requires RegistryOk(s.fleet) && QueueOk(env, s, m) && RemoveEnabled(s, i, act)
    ensures QueueOk(env, RemoveNext(s, i, act), m)
  {
    var t := RemoveNext(s, i, act);
    if act.Unregister? {
      DropFacts(s.fleet.registry, i);
      forall j | Attends(s.fleet, m, j) ensures Attends(t.fleet, m, j) {}
    } else {
      RemoveIsSetLife(s, i, act);
      SameAttended(s.fleet, t.fleet, m);
    }
    QueueFrom(env, s, t, m);
  }

  lemma QueueClean(env: Env, s: State, i: InstId, m: ModelName)
    requires RegistryOk(s.fleet) && QueueOk(env, s, m) && CleanEnabled(s, i)
    ensures QueueOk(env, CleanNext(env, s, i), m)
  {
    var t := CleanNext(env, s, i);
    CleanFrame(env, s, i);
    var own := s.fleet.info[i].model;
    match s.fleet.stage[i]
    case DrainClear =>
      if own != m {
        forall j | Attends(s.fleet, m, j) ensures Attends(t.fleet, m, j) {}
        QueueFrom(env, s, t, m);
      }
    case DrainCheck =>
      if t.fleet.stage[i].ReleaseKeepAlive? && own == m {
        var j :| j in s.fleet.registry && IsOf(s.fleet, j, m);
        assert Attends(t.fleet, m, j);
      } else {
        forall j | Attends(s.fleet, m, j) ensures Attends(t.fleet, m, j) {}
      }
      QueueFrom(env, s, t, m);
    case _ =>
      forall j | Attends(s.fleet, m, j) ensures Attends(t.fleet, m, j) {}
      QueueFrom(env, s, t, m);
  }

  lemma QueueStepFor(env: Env, s: State, step: Step, m: ModelName)
    requires RegistryOk(s.fleet) && QueueOk(env, s, m) && Enabled(env, s, step)
    ensures QueueOk(env, Next(env, s, step), m)
  {
    match step
    case Requesting(req) => QueueRequest(env, s, req, m);
    case Waking(n, source) => QueueWake(env, s, n, source, m);
    case Spawning(n, act) => QueueSpawn(env, s, n, act, m);
    case Removing(i, act) => QueueRemove(env, s, i, act, m);
    case Reaping(n) => SameAttended(s.fleet, Next(env, s, step).fleet, m);
    case ReapingStranded(n, late) => SameAttended(s.fleet, Next(env, s, step).fleet, m);
    case Cleaning(i) => QueueClean(env, s, i, m);
  }

  /** Because `enqueue` checks and parks under the registry lock, while
      unregistration removes first and drains after, every step keeps it. */
  lemma QueuesStep(env: Env, s: State, step: Step)
    requires RegistryOk(s.fleet) && QueuesInv(env, s) && Enabled(env, s, step)
    ensures QueuesInv(env, Next(env, s, step))
  {
    forall m ensures QueueOk(env, Next(env, s, step), m) {
      QueueStepFor(env, s, step, m);
    }
  }
}
