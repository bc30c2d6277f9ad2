/** The instance cap, over all runs: whatever becomes ready late, no model has
    more non-retiring instances than its configuration allows. */
module InstanceCap {
  import opened Base
  import opened Sums
  import opened Types
  import opened Placement
  import opened Machine
  import opened Waking
  import opened Books

  // ── What is kept ────────────────────────────────────────────────────────

  /** A loading instance is registered, keeps its child, and nobody is
      unregistering it. */
  ghost predicate LoadingOk(f: Fleet) {
    forall i :: i in f.life && f.life[i].state == Loading ==>
      i in f.registry && f.life[i].unregs == 0 && !Taken(f.life[i].child)
  }

  /** An instance still polled has not been ready yet. */
  ghost predicate StartsOk(f: Fleet, spawns: map<ModelName, Phase>) {
    forall m :: m in spawns && spawns[m].Polling? ==> spawns[m].inst in f.life && f.life[spawns[m].inst].state != Ready
  }

  /** A spawn of `m` may yet add to the active instances: it is past the cap
      check and not registered, or polls an instance that has been retired
      meanwhile and would be active again if it became ready. */
  function Reserved(s: State, m: ModelName): nat {
    if m !in s.spawns then 0 else
    match s.spawns[m]
    case Capped => 1
    case HasPort(_) => 1
    case Selected(_, _) => 1
    case Polling(i) => if i in s.fleet.life && s.fleet.life[i].state == Failed then 1 else 0
    case _ => 0
  }

  /** Non-retiring instances, and the one a spawn may add. */
  function Claimed(s: State, m: ModelName): nat { ActiveCount(s.fleet, m) + Reserved(s, m) }

  ghost predicate CapInv(env: Env, s: State) {
    && LoadingOk(s.fleet) && StartsOk(s.fleet, s.spawns)
    && (forall m :: m in env.configs ==> Claimed(s, m) <= env.configs[m].maxInstances)
  }

  /** The positions in the registry of the model's non-retiring instances. */
  ghost function ActivePositions(f: Fleet, m: ModelName): set<nat> {
    set k: nat | k < |f.registry| && f.registry[k] in f.info && f.registry[k] in f.life
                 && f.info[f.registry[k]].model == m && f.life[f.registry[k]].state != Failed
  }

  lemma ActiveExactly(f: Fleet, m: ModelName)
    ensures ActiveCount(f, m) == |ActivePositions(f, m)|
  {
    var p := (i: InstId) => i in f.info && i in f.life && f.info[i].model == m && f.life[i].state != Failed;
    SumCounts(f.registry, p, ActiveOf(f, m));
    assert Where(f.registry, p) == ActivePositions(f, m);
  }

  // ── One instance changes ────────────────────────────────────────────────

  lemma ActiveChange(s: State, i: InstId, l: Life, m: ModelName)
    requires NoDup(s.fleet.registry) && Known(s.fleet, i)
    ensures var f' := SetLife(s, i, l).fleet;
            if i in s.fleet.registry && IsOf(s.fleet, i, m)
            then ActiveCount(f', m) + (if s.fleet.life[i].state != Failed then 1 else 0)
                 == ActiveCount(s.fleet, m) + (if l.state != Failed then 1 else 0)
            else ActiveCount(f', m) == ActiveCount(s.fleet, m)
  {
    SumChangeOne(s.fleet.registry, i, ActiveOf(s.fleet, m), ActiveOf(SetLife(s, i, l).fleet, m));
  }

  lemma ActiveDrop(f: Fleet, f': Fleet, i: InstId, m: ModelName)
    requires f'.info == f.info && f'.life == f.life && f'.registry == Drop(f.registry, i)
    ensures ActiveCount(f', m) <= ActiveCount(f, m)
  {
    var masked := (j: InstId) => if j == i then 0 else ActiveOf(f, m)(j);
    SumSame(f'.registry, ActiveOf(f, m), ActiveOf(f', m));
    SumKeep(f.registry, Other(i), ActiveOf(f, m), masked);
    SumLe(f.registry, masked, ActiveOf(f, m));
  }

  lemma ActiveRegister(env: Env, s: State, n: ModelName, port: Port, gpus: seq<nat>, m: ModelName)
    requires RegistryOk(s.fleet)
    ensures ActiveCount(RegisterInstance(env, s, n, port, gpus).fleet, m)
         == ActiveCount(s.fleet, m) + (if n == m then 1 else 0)
  {
    var f' := RegisterInstance(env, s, n, port, gpus).fleet;
    SumPush(s.fleet.registry, s.fleet.nextInst, ActiveOf(f', m));
    SumSame(s.fleet.registry, ActiveOf(s.fleet, m), ActiveOf(f', m));
  }

  lemma ActiveSame(f: Fleet, f': Fleet, m: ModelName)
    requires f'.info == f.info && f'.registry == f.registry
    requires forall i :: i in f.life ==> i in f'.life && f'.life[i].state == f.life[i].state
    requires f'.life.Keys == f.life.Keys
    ensures ActiveCount(f', m) == ActiveCount(f, m)
  {
    SumSame(f.registry, ActiveOf(f, m), ActiveOf(f', m));
  }

  /** Retiring an instance, or leaving its state, claims nothing more. */
  lemma ClaimSetLife(s: State, i: InstId, l: Life, m: ModelName)
    requires BooksOk(s) && Known(s.fleet, i) && LoadingOk(s.fleet) && StartsOk(s.fleet, s.spawns)
    requires l.state == Failed || l.state == s.fleet.life[i].state
    ensures Claimed(SetLife(s, i, l), m) <= Claimed(s, m)
  {
    ActiveChange(s, i, l, m);
    if m in s.spawns && s.spawns[m] == Polling(i) {
      assert TaskOk(s.fleet, m, s.spawns[m]);
    }
  }

  /** The poll of `n` ends with its instance ready or retired. */
  lemma ClaimPollEnd(env: Env, s: State, n: ModelName, act: SpawnStep, m: ModelName)
    requires BooksOk(s) && StartsOk(s.fleet, s.spawns) && SpawnEnabled(env, s, n, act) && (act.MarkReady? || act.Fail?)
    ensures Claimed(SpawnNext(env, s, n, act), m) <= Claimed(s, m)
  {
    var i := s.spawns[n].inst;
    assert TaskOk(s.fleet, n, s.spawns[n]);
    ActiveChange(s, i, SpawnNext(env, s, n, act).fleet.life[i], m);
    if m in s.spawns && m != n {
      assert TaskOk(s.fleet, m, s.spawns[m]);
    }
  }

  /** Registration turns the reservation into an active instance. */
  lemma ClaimRegister(env: Env, s: State, n: ModelName, m: ModelName)
    requires BooksOk(s) && SpawnEnabled(env, s, n, Register)
    ensures Claimed(SpawnNext(env, s, n, Register), m) == Claimed(s, m)
  {
    ActiveRegister(env, s, n, s.spawns[n].port, s.spawns[n].gpus, m);
    if m in s.spawns && m != n {
      assert TaskOk(s.fleet, m, s.spawns[m]);
    }
  }

  lemma ClaimQuietSpawn(env: Env, s: State, n: ModelName, act: SpawnStep, m: ModelName)
    requires SpawnEnabled(env, s, n, act) && !act.Register? && !act.MarkReady? && !act.Fail?
    requires m in env.configs && Claimed(s, m) <= env.configs[m].maxInstances
    ensures Claimed(SpawnNext(env, s, n, act), m) <= env.configs[m].maxInstances
  {
    assert SpawnNext(env, s, n, act).fleet == s.fleet;
  }

  lemma ClaimUnregister(s: State, i: InstId, m: ModelName)
    requires BooksOk(s) && Known(s.fleet, i) && s.fleet.life[i].unregs > 0 && LoadingOk(s.fleet)
    requires StartsOk(s.fleet, s.spawns)
    ensures Claimed(UnregisterInstance(s, i), m) <= Claimed(s, m)
  {
    var l := s.fleet.life[i];
    var u := SetLife(s, i, l.(unregs := l.unregs - 1));
    ClaimSetLife(s, i, l.(unregs := l.unregs - 1), m);
    if i in s.fleet.registry {
      ActiveDrop(u.fleet, UnregisterInstance(s, i).fleet, i, m);
    }
  }

  lemma ClaimCalm(env: Env, s: State, step: Step, m: ModelName)
    requires RegistryOk(s.fleet) && Enabled(env, s, step) && Calm(step)
    ensures Claimed(Next(env, s, step), m) <= Claimed(s, m)
  {
    CalmStanding(env, s, step);
    ActiveSame(s.fleet, Next(env, s, step).fleet, m);
  }

  lemma ClaimSpawn(env: Env, s: State, n: ModelName, act: SpawnStep, m: ModelName)
    requires BooksOk(s) && StartsOk(s.fleet, s.spawns) && SpawnEnabled(env, s, n, act)
    requires m in env.configs && Claimed(s, m) <= env.configs[m].maxInstances
    ensures Claimed(SpawnNext(env, s, n, act), m) <= env.configs[m].maxInstances
  {
    if act.Register? {
      ClaimRegister(env, s, n, m);
    } else if act.MarkReady? || act.Fail? {
      ClaimPollEnd(env, s, n, act, m);
    } else {
      ClaimQuietSpawn(env, s, n, act, m);
    }
  }

  lemma ClaimRemove(s: State, i: InstId, act: RemoveStep, m: ModelName)
    requires BooksOk(s) && LoadingOk(s.fleet) && StartsOk(s.fleet, s.spawns) && RemoveEnabled(s, i, act)
    ensures Claimed(RemoveNext(s, i, act), m) <= Claimed(s, m)
  {
    if act.Unregister? {
      ClaimUnregister(s, i, m);
    } else {
      RemoveIsSetLife(s, i, act);
      ClaimSetLife(s, i, RemovedLife(s.fleet.life[i], act), m);
    }
  }

  lemma ClaimStep(env: Env, s: State, step: Step, m: ModelName)
    requires BooksOk(s) && CapInv(env, s) && Enabled(env, s, step) && m in env.configs
    ensures Claimed(Next(env, s, step), m) <= env.configs[m].maxInstances
  {
    match step
    case Spawning(n, act) => ClaimSpawn(env, s, n, act, m);
    case Removing(i, act) => ClaimRemove(s, i, act, m);
    case _ => ClaimCalm(env, s, step, m);
  }

  // ── Loading and polled instances ────────────────────────────────────────

  /** A new life that neither starts the instance over nor lets it load on
      without its child. */
  lemma StartsSetLife(s: State, i: InstId, l: Life)
    requires LoadingOk(s.fleet) && StartsOk(s.fleet, s.spawns) && i in s.fleet.life
    requires l.state == Failed || l.state == s.fleet.life[i].state
    requires l.state == Loading ==> l.unregs == 0 && !Taken(l.child)
    ensures var t := SetLife(s, i, l); LoadingOk(t.fleet) && StartsOk(t.fleet, t.spawns)
  {
  }

  lemma StartsPollEnd(env: Env, s: State, m: ModelName, act: SpawnStep)
    requires BooksOk(s) && LoadingOk(s.fleet) && StartsOk(s.fleet, s.spawns) && SpawnEnabled(env, s, m, act)
    requires act.MarkReady? || act.Fail?
    ensures var t := SpawnNext(env, s, m, act); LoadingOk(t.fleet) && StartsOk(t.fleet, t.spawns)
  {
    var t := SpawnNext(env, s, m, act);
    PollerIsUnique(s, m, s.spawns[m].inst);
    forall n | n in t.spawns && t.spawns[n].Polling?
      ensures t.spawns[n].inst in t.fleet.life && t.fleet.life[t.spawns[n].inst].state != Ready
    {
      assert n != m && n in s.spawns;
    }
  }

  lemma StartsRegister(env: Env, s: State, m: ModelName)
    requires BooksOk(s) && LoadingOk(s.fleet) && StartsOk(s.fleet, s.spawns) && SpawnEnabled(env, s, m, Register)
    ensures var t := SpawnNext(env, s, m, Register); LoadingOk(t.fleet) && StartsOk(t.fleet, t.spawns)
  {
  }

  lemma StartsQuiet(env: Env, s: State, m: ModelName, act: SpawnStep)
    requires LoadingOk(s.fleet) && StartsOk(s.fleet, s.spawns) && SpawnEnabled(env, s, m, act)
    requires !act.Register? && !act.MarkReady? && !act.Fail?
    ensures var t := SpawnNext(env, s, m, act); LoadingOk(t.fleet) && StartsOk(t.fleet, t.spawns)
  {
    assert SpawnNext(env, s, m, act).fleet == s.fleet;
  }

  lemma StartsSpawn(env: Env, s: State, m: ModelName, act: SpawnStep)
    requires BooksOk(s) && LoadingOk(s.fleet) && StartsOk(s.fleet, s.spawns) && SpawnEnabled(env, s, m, act)
    ensures var t := SpawnNext(env, s, m, act); LoadingOk(t.fleet) && StartsOk(t.fleet, t.spawns)
  {
    if act.Register? {
      StartsRegister(env, s, m);
    } else if act.MarkReady? || act.Fail? {
      StartsPollEnd(env, s, m, act);
    } else {
      StartsQuiet(env, s, m, act);
    }
  }

  lemma StartsUnregister(s: State, i: InstId)
    requires BooksOk(s) && LoadingOk(s.fleet) && StartsOk(s.fleet, s.spawns) && RemoveEnabled(s, i, Unregister)
    ensures var t := UnregisterInstance(s, i); LoadingOk(t.fleet) && StartsOk(t.fleet, t.spawns)
  {
    DropFacts(s.fleet.registry, i);
  }

  lemma StartsRemove(s: State, i: InstId, act: RemoveStep)
    requires BooksOk(s) && LoadingOk(s.fleet) && StartsOk(s.fleet, s.spawns) && RemoveEnabled(s, i, act)
    ensures var t := RemoveNext(s, i, act); LoadingOk(t.fleet) && StartsOk(t.fleet, t.spawns)
  {
    if act.Unregister? {
      StartsUnregister(s, i);
    } else {
      RemoveIsSetLife(s, i, act);
      StartsSetLife(s, i, RemovedLife(s.fleet.life[i], act));
    }
  }

  lemma StartsStep(env: Env, s: State, step: Step)
    requires BooksOk(s) && LoadingOk(s.fleet) && StartsOk(s.fleet, s.spawns) && Enabled(env, s, step)
    ensures var t := Next(env, s, step); LoadingOk(t.fleet) && StartsOk(t.fleet, t.spawns)
  {
    match step
    case Spawning(m, act) => StartsSpawn(env, s, m, act);
    case Removing(i, act) => StartsRemove(s, i, act);
    case _ => CalmStanding(env, s, step);
  }

  /** The cap is kept by every step: one spawn per model, the permit held from
      the check to registration, and a retired instance that could still become
      ready counted as long as it is polled. */
  lemma CapStep(env: Env, s: State, step: Step)
    requires BooksOk(s) && CapInv(env, s) && Enabled(env, s, step)
    ensures CapInv(env, Next(env, s, step))
  {
    StartsStep(env, s, step);
    forall m | m in env.configs ensures Claimed(Next(env, s, step), m) <= env.configs[m].maxInstances {
      ClaimStep(env, s, step, m);
    }
  }
}
