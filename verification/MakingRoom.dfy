/** Plans can be carried out: from every reachable state there is a run that
    removes a plan's victims, after which the spawn goes through. */
module MakingRoom {
  import opened Base
  import opened Sums
  import opened Types
  import opened Placement
  import opened MakeRoom
  import opened Machine
  import opened Books
  import opened Slots
  import opened Safety
  import opened Eviction

  /** What the runs below start from and keep. */
  ghost predicate Settled(s: State) { BooksOk(s) && SlotsInv(s) }

  /** `steps` lead from `s` to `t`, removing instance `i` only. */
  ghost predicate Leads(env: Env, s: State, steps: seq<Step>, t: State, i: InstId) {
    && ValidRun(env, s, steps) && RoomRun(steps, {i}) && Exec(env, s, steps) == t && Settled(t)
  }

  /** All other instances are as they were. */
  ghost predicate OthersSame(s: State, t: State, i: InstId) {
    && t.fleet.info == s.fleet.info && t.fleet.life.Keys == s.fleet.life.Keys
    && forall j :: j in s.fleet.life && j != i ==> t.fleet.life[j] == s.fleet.life[j]
  }

  lemma LeadsOn(env: Env, s: State, a: seq<Step>, t: State, b: seq<Step>, u: State, i: InstId)
    requires Leads(env, s, a, t, i) && Leads(env, t, b, u, i)
    ensures Leads(env, s, a + b, u, i)
  {
    RunConcat(env, s, a, b);
  }

  lemma LeadsOne(env: Env, s: State, step: Step, i: InstId)
    requires Settled(s) && Enabled(env, s, step) && RoomStep(step, {i})
    ensures Leads(env, s, [step], Next(env, s, step), i)
  {
    assert [step][1..] == [];
    BooksStep(env, s, step);
    SlotsStep(env, s, step);
  }

  // ── One victim ──────────────────────────────────────────────────────────

  /** One of them is dropped. */
  lemma GuardDrops(env: Env, s: State, i: InstId) returns (step: Step)
    requires Settled(s) && i in s.fleet.life && s.fleet.life[i].inFlight > 0
    ensures Enabled(env, s, step) && RoomStep(step, {i})
    ensures var t := Next(env, s, step);
            && OthersSame(s, t, i) && t.fleet.registry == s.fleet.registry
            && t.fleet.life[i] == s.fleet.life[i].(inFlight := s.fleet.life[i].inFlight - 1)
  {
    assert GuardsOn(s.guards, i) != {};
    var g :| g in GuardsOn(s.guards, i);
    step := Requesting(if s.guards[g].holder == Machine.Request then Release(g) else VanishServed(g));
  }

  /** The guards on an instance are dropped, one after the other. */
  lemma {:induction false} GuardsDrop(env: Env, s: State, i: InstId) returns (steps: seq<Step>, t: State)
    requires Settled(s) && i in s.fleet.life
    ensures Leads(env, s, steps, t, i) && OthersSame(s, t, i) && t.fleet.registry == s.fleet.registry
    ensures t.fleet.life[i] == s.fleet.life[i].(inFlight := 0)
    decreases s.fleet.life[i].inFlight
  {
    if s.fleet.life[i].inFlight == 0 {
      steps, t := [], s;
    } else {
      var step := GuardDrops(env, s, i);
      var u := Next(env, s, step);
      LeadsOne(env, s, step, i);
      var more;
      more, t := GuardsDrop(env, u, i);
      steps := [step] + more;
      LeadsOn(env, s, [step], u, more, t, i);
    }
  }

  lemma UnregisterOne(env: Env, s: State, i: InstId) returns (steps: seq<Step>, t: State)
    requires Settled(s) && i in s.fleet.registry && s.fleet.life[i].unregs > 0
    ensures Leads(env, s, steps, t, i) && OthersSame(s, t, i) && t.fleet.registry == Drop(s.fleet.registry, i)
  {
    steps, t := [Removing(i, Unregister)], Next(env, s, Removing(i, Unregister));
    LeadsOne(env, s, Removing(i, Unregister), i);
  }

  lemma KillOne(env: Env, s: State, i: InstId) returns (steps: seq<Step>, t: State)
    requires Settled(s) && i in s.fleet.registry && s.fleet.life[i].child == Killing
    ensures Leads(env, s, steps, t, i) && OthersSame(s, t, i) && t.fleet.registry == s.fleet.registry
    ensures t.fleet.life[i].unregs > 0
  {
    steps, t := [Removing(i, Killed)], Next(env, s, Removing(i, Killed));
    LeadsOne(env, s, Removing(i, Killed), i);
  }

  /** A child already taken dies, and its instance is unregistered. */
  lemma Leave(env: Env, s: State, i: InstId) returns (steps: seq<Step>, t: State)
    requires Settled(s) && i in s.fleet.registry
    requires s.fleet.life[i].child == Killing || s.fleet.life[i].unregs > 0
    ensures Leads(env, s, steps, t, i) && OthersSame(s, t, i) && t.fleet.registry == Drop(s.fleet.registry, i)
  {
    if s.fleet.life[i].unregs > 0 {
      steps, t := UnregisterOne(env, s, i);
    } else {
      var first, u := KillOne(env, s, i);
      var last;
      last, t := UnregisterOne(env, u, i);
      steps := first + last;
      LeadsOn(env, s, first, u, last, t, i);
    }
  }

  /** An idle victim is removed at once. */
  lemma EvictOne(env: Env, s: State, i: InstId) returns (steps: seq<Step>, t: State)
    requires Settled(s) && i in s.fleet.registry && s.fleet.life[i].inFlight == 0
    ensures Leads(env, s, steps, t, i) && OthersSame(s, t, i) && t.fleet.registry == Drop(s.fleet.registry, i)
  {
    var u := Next(env, s, Removing(i, IfIdle));
    LeadsOne(env, s, Removing(i, IfIdle), i);
    var more;
    more, t := Leave(env, u, i);
    steps := [Removing(i, IfIdle)] + more;
    LeadsOn(env, s, [Removing(i, IfIdle)], u, more, t, i);
  }

  /** A busy victim is drained and its requests finish. */
  lemma RunDry(env: Env, s: State, i: InstId) returns (steps: seq<Step>, t: State)
    requires Settled(s) && i in s.fleet.registry && s.fleet.life[i].inFlight > 0
    ensures Leads(env, s, steps, t, i) && OthersSame(s, t, i) && t.fleet.registry == s.fleet.registry
    ensures t.fleet.life[i] == s.fleet.life[i].(state := Failed, inFlight := 0)
  {
    var a := Next(env, s, Removing(i, Drain));
    LeadsOne(env, s, Removing(i, Drain), i);
    var drops;
    drops, t := GuardsDrop(env, a, i);
    steps := [Removing(i, Drain)] + drops;
    LeadsOn(env, s, [Removing(i, Drain)], a, drops, t, i);
  }

  lemma ReapOne(env: Env, s: State, i: InstId) returns (steps: seq<Step>, t: State)
    requires Settled(s) && i in s.fleet.registry && s.fleet.life[i].state == Failed && s.fleet.life[i].inFlight == 0
    ensures Leads(env, s, steps, t, i) && OthersSame(s, t, i) && t.fleet.registry == s.fleet.registry
    ensures t.fleet.life[i].child == Killing || t.fleet.life[i].unregs > 0
  {
    var collect := Reaping(s.fleet.info[i].model);
    var u := Next(env, s, collect);
    LeadsOne(env, s, collect, i);
    assert i in Reapable(s.fleet, s.fleet.info[i].model);
    LeadsOne(env, u, Removing(i, Force), i);
    steps, t := [collect] + [Removing(i, Force)], Next(env, u, Removing(i, Force));
    LeadsOn(env, s, [collect], u, [Removing(i, Force)], t, i);
  }

  /** Drained, reaped and unregistered. */
  lemma DrainOne(env: Env, s: State, i: InstId) returns (steps: seq<Step>, t: State)
    requires Settled(s) && i in s.fleet.registry && s.fleet.life[i].inFlight > 0
    ensures Leads(env, s, steps, t, i) && OthersSame(s, t, i) && t.fleet.registry == Drop(s.fleet.registry, i)
  {
    var a, dry := RunDry(env, s, i);
    var b, taken := ReapOne(env, dry, i);
    LeadsOn(env, s, a, dry, b, taken, i);
    var c;
    c, t := Leave(env, taken, i);
    steps := a + b + c;
    LeadsOn(env, s, a + b, taken, c, t, i);
  }

  // ── A whole plan ────────────────────────────────────────────────────────

  /** The victims are distinct, registered, serving, and idle unless drained. */
  ghost predicate Evictable(s: State, plan: seq<Victim>) {
    && (forall j, k :: 0 <= j < k < |plan| ==> plan[j].snap.at.id != plan[k].snap.at.id)
    && (forall k :: 0 <= k < |plan| ==> VictimOk(s, plan[k]))
  }

  ghost predicate VictimOk(s: State, v: Victim) {
    var i := v.snap.at.id;
    i in s.fleet.registry && i in s.fleet.life
    && (v.drain <==> s.fleet.life[i].inFlight > 0)
  }

  lemma {:induction false} VictimsLeave(env: Env, s: State, plan: seq<Victim>) returns (steps: seq<Step>)
    requires Settled(s) && Evictable(s, plan)
    ensures ValidRun(env, s, steps) && RoomRun(steps, Ids(plan))
    ensures forall i :: i in Ids(plan) ==> i !in Exec(env, s, steps).fleet.registry
    ensures forall i :: i !in s.fleet.registry ==> i !in Exec(env, s, steps).fleet.registry
    decreases |plan|
  {
    if plan == [] {
      steps := [];
    } else {
      var v := plan[0];
      var i := v.snap.at.id;
      assert VictimOk(s, v);
      var first, t;
      if v.drain { first, t := DrainOne(env, s, i); } else { first, t := EvictOne(env, s, i); }
      DropFacts(s.fleet.registry, i);
      RestEvictable(s, t, plan);
      var rest := VictimsLeave(env, t, plan[1..]);
      steps := first + rest;
      RunConcat(env, s, first, rest);
      IdsCons(v, plan[1..], {});
      assert plan == [v] + plan[1..];
      RoomTogether(first, {i}, rest, Ids(plan[1..]), Ids(plan));
    }
  }

  lemma RestEvictable(s: State, t: State, plan: seq<Victim>)
    requires plan != [] && Evictable(s, plan) && OthersSame(s, t, plan[0].snap.at.id)
    requires RegistryOk(s.fleet) && t.fleet.registry == Drop(s.fleet.registry, plan[0].snap.at.id)
    ensures Evictable(t, plan[1..])
  {
    DropFacts(s.fleet.registry, plan[0].snap.at.id);
    forall k | 0 <= k < |plan| - 1 ensures VictimOk(t, plan[1..][k]) {
      assert VictimOk(s, plan[k + 1]);
      assert plan[0].snap.at.id != plan[k + 1].snap.at.id;
    }
  }

  lemma RoomTogether(a: seq<Step>, x: set<InstId>, b: seq<Step>, y: set<InstId>, all: set<InstId>)
    requires RoomRun(a, x) && RoomRun(b, y) && x <= all && y <= all
    ensures RoomRun(a + b, all)
  {
    forall k | 0 <= k < |a + b| ensures RoomStep((a + b)[k], all) {
      assert if k < |a| then RoomStep(a[k], x) else RoomStep(b[k - |a|], y);
    }
  }

  /** The victim at `k` is a registered instance in the state the plan saw. */
  lemma VictimStands(env: Env, s: State, used: map<InstId, nat>, now: nat, cfg: ModelConfig, mode: Mode, k: nat)
    requires RegistryOk(s.fleet) && LimitsOk(env, s.fleet)
    requires Plan(env, Snaps(s.fleet, used, s.fleet.registry), now, cfg, mode).Some?
    requires k < |Plan(env, Snaps(s.fleet, used, s.fleet.registry), now, cfg, mode).value|
    ensures VictimOk(s, Plan(env, Snaps(s.fleet, used, s.fleet.registry), now, cfg, mode).value[k])
  {
    var snaps := Snaps(s.fleet, used, s.fleet.registry);
    var v := Plan(env, snaps, now, cfg, mode).value[k];
    SnapsAreProper(env, s, used);
    VictimsAllowed(env, snaps, now, cfg, mode, k);
    var j :| 0 <= j < |snaps| && snaps[j] == v.snap;
    assert v.snap == SnapOf(s.fleet, used, s.fleet.registry[j]);
  }

  lemma PlanEvictable(env: Env, s: State, used: map<InstId, nat>, now: nat, cfg: ModelConfig, mode: Mode)
    requires RegistryOk(s.fleet) && LimitsOk(env, s.fleet)
    requires Plan(env, Snaps(s.fleet, used, s.fleet.registry), now, cfg, mode).Some?
    ensures Evictable(s, Plan(env, Snaps(s.fleet, used, s.fleet.registry), now, cfg, mode).value)
  {
    var snaps := Snaps(s.fleet, used, s.fleet.registry);
    var plan := Plan(env, snaps, now, cfg, mode).value;
    PlanSound(env, snaps, now, cfg, mode);
    forall k | 0 <= k < |plan| ensures VictimOk(s, plan[k]) {
      VictimStands(env, s, used, now, cfg, mode, k);
    }
  }

  /** Every plan can be carried out: there is a run that removes its victims
      and no one else, after which the spawn's checks pass. */
  lemma PlanCanBeCarriedOut(env: Env, s: State, used: map<InstId, nat>, now: nat, m: ModelName, mode: Mode)
    returns (steps: seq<Step>)
    requires env.Valid() && Reachable(env, s) && m in env.configs
    requires Plan(env, Snaps(s.fleet, used, s.fleet.registry), now, env.configs[m], mode).Some?
    ensures RoomRun(steps, Ids(Plan(env, Snaps(s.fleet, used, s.fleet.registry), now, env.configs[m], mode).value))
    ensures ValidRun(env, s, steps)
    ensures CapPasses(env, Exec(env, s, steps), m) && DevicesPass(env, Exec(env, s, steps), m)
  {
    var snaps := Snaps(s.fleet, used, s.fleet.registry);
    var plan := Plan(env, snaps, now, env.configs[m], mode).value;
    Accounted(env, s);
    PlanEvictable(env, s, used, now, env.configs[m], mode);
    steps := VictimsLeave(env, s, plan);
    assert plan[..|plan|] == plan;
    PlanLetsSpawn(env, s, used, now, m, mode, |plan|, steps);
  }
}
