/** Routing over the registry: the alias policies with the planner, the dry run
    and the placement they really use, between which nothing else happens. */
module Routing {
  import opened Base
  import opened Sums
  import opened Types
  import opened Placement
  import opened MakeRoom
  import opened Candidates

  /** The registry, and the identity of the next instance. */
  datatype World = World(snaps: seq<Snap>, next: InstId)

  /** What is fixed during one call, the outcomes of the outside world included:
      which backends come up, and which drains do not end in time. */
  datatype Setting = Setting(
    env: Env,
    now: nat,
    mode: Mode,
    blocked: set<ModelName>,
    gate: (World, ModelName) -> bool,
    starts: set<ModelName>,
    late: set<InstId>,
    enqueue: (World, ModelName) -> (Option<QueueError>, World))

  // ── The operations ──────────────────────────────────────────────────────

  function HasRoom(env: Env, m: ModelName): Snap -> bool {
    (s: Snap) => s.at.model == m && s.state == Ready && m in env.configs && s.inFlight < env.configs[m].maxConcurrent
  }

  /** A slot more on instance `id`. */
  function Taken(snaps: seq<Snap>, id: InstId, now: nat): seq<Snap> {
    if snaps == [] then [] else
    [if snaps[0].at.id == id then snaps[0].(inFlight := snaps[0].inFlight + 1, lastActive := now) else snaps[0]]
    + Taken(snaps[1..], id, now)
  }

  /** A slot on the least-loaded ready instance of the model, if one is free. */
  function Warm(st: Setting, w: World, m: ModelName): Option<World> {
    match LeastBy(Keep(w.snaps, HasRoom(st.env, m)), ByInFlight())
    case None => None
    case Some(s) => Some(w.(snaps := Taken(w.snaps, s.at.id, st.now)))
  }

  predicate Fits(st: Setting, w: World, m: ModelName) {
    m in st.env.configs && SpawnFeasible(st.env, w.snaps, {}, st.env.configs[m])
  }

  /** The instance a successful spawn adds. */
  function Newcomer(st: Setting, w: World, m: ModelName): Snap
    requires m in st.env.configs
  {
    Snap(Placed(w.next, m, Select(st.env, Places(w.snaps), {}, st.env.configs[m])), Ready, 0, st.now)
  }

  /** The spawn's own checks, its backend coming up or not, then a slot. */
  function SpawnAndAcquire(st: Setting, w: World, m: ModelName): (bool, World) {
    var after := if Fits(st, w, m) && m in st.starts then World(w.snaps + [Newcomer(st, w, m)], w.next + 1) else w;
    match Warm(st, after, m)
    case Some(taken) => (true, taken)
    case None => (false, after)
  }

  function PlanFor(st: Setting, w: World, m: ModelName): Option<seq<Victim>> {
    if m in st.env.configs then Plan(st.env, w.snaps, st.now, st.env.configs[m], st.mode) else None
  }

  /** The victims whose drain does not end in time. */
  function Lingering(plan: seq<Victim>, late: set<InstId>): set<InstId> {
    set v | v in plan && v.drain && v.snap.at.id in late :: v.snap.at.id
  }

  /** They stay, marked as retiring. */
  function Retired(snaps: seq<Snap>, ids: set<InstId>): seq<Snap> {
    if snaps == [] then [] else
    [if snaps[0].at.id in ids then snaps[0].(state := Failed) else snaps[0]] + Retired(snaps[1..], ids)
  }

  /** Idle victims and those drained in time leave the registry. */
  function Executed(st: Setting, w: World, plan: seq<Victim>): World {
    var lingering := Lingering(plan, st.late);
    w.(snaps := Retired(After(w.snaps, Ids(plan) - lingering), lingering))
  }

  predicate Routable(w: World, m: ModelName) {
    exists k :: 0 <= k < |w.snaps| && w.snaps[k].at.model == m && w.snaps[k].state != Failed
  }

  function OpsOf(st: Setting): Ops<World, seq<Victim>> {
    Ops((w: World, m: ModelName) => m in st.blocked,
        (w: World, m: ModelName) => m in st.env.configs,
        (w: World, m: ModelName) => Warm(st, w, m),
        st.gate,
        (w: World, m: ModelName) => Fits(st, w, m),
        (w: World, m: ModelName) => SpawnAndAcquire(st, w, m),
        (w: World, m: ModelName) => PlanFor(st, w, m),
        (w: World, plan: seq<Victim>) => Executed(st, w, plan),
        (w: World, m: ModelName) => Routable(w, m),
        st.enqueue)
  }

  // ── Proper registries ───────────────────────────────────────────────────

  /** Distinct ids, all below the next one. */
  ghost predicate Proper(w: World) {
    UniqueIds(w.snaps) && forall k :: 0 <= k < |w.snaps| ==> w.snaps[k].at.id < w.next
  }

  lemma {:induction false} TakenIs(snaps: seq<Snap>, id: InstId, now: nat)
    ensures var r := Taken(snaps, id, now);
            |r| == |snaps| && forall k :: 0 <= k < |snaps| ==> r[k].at == snaps[k].at && r[k].state == snaps[k].state
  {
    if snaps != [] {
      TakenIs(snaps[1..], id, now);
    }
  }

  lemma {:induction false} RetiredIs(snaps: seq<Snap>, ids: set<InstId>)
    ensures var r := Retired(snaps, ids);
            && |r| == |snaps|
            && forall k :: 0 <= k < |snaps| ==>
                 r[k] == if snaps[k].at.id in ids then snaps[k].(state := Failed) else snaps[k]
  {
    if snaps != [] {
      RetiredIs(snaps[1..], ids);
    }
  }

  lemma {:induction false} AfterProper(snaps: seq<Snap>, gone: set<InstId>)
    requires UniqueIds(snaps)
    ensures UniqueIds(After(snaps, gone)) && forall s :: s in After(snaps, gone) <==> s in snaps && s.at.id !in gone
  {
    KeepIn(snaps, Survives(gone));
    if snaps != [] {
      assert UniqueIds(snaps[1..]);
      AfterProper(snaps[1..], gone);
      var rest := After(snaps[1..], gone);
      forall k | 0 <= k < |rest| ensures rest[k].at.id != snaps[0].at.id {
        assert rest[k] in snaps[1..];
      }
    }
  }

  lemma SpawnProper(st: Setting, w: World, m: ModelName)
    requires Proper(w)
    ensures Proper(SpawnAndAcquire(st, w, m).1)
  {
    var after := if Fits(st, w, m) && m in st.starts then World(w.snaps + [Newcomer(st, w, m)], w.next + 1) else w;
    assert Proper(after);
    forall id ensures Proper(after.(snaps := Taken(after.snaps, id, st.now))) {
      TakenIs(after.snaps, id, st.now);
    }
  }

  lemma ExecutedProper(st: Setting, w: World, plan: seq<Victim>)
    requires Proper(w)
    ensures Proper(Executed(st, w, plan))
  {
    var lingering := Lingering(plan, st.late);
    AfterProper(w.snaps, Ids(plan) - lingering);
    RetiredIs(After(w.snaps, Ids(plan) - lingering), lingering);
    var left := After(w.snaps, Ids(plan) - lingering);
    forall k | 0 <= k < |left| ensures left[k].at.id < w.next {
      assert left[k] in w.snaps;
    }
  }

  lemma OpsPreserve(st: Setting)
    ensures Preserves(OpsOf(st), (w: World) => Proper(w))
  {
    forall w: World, c | Proper(w) ensures Proper(SpawnAndAcquire(st, w, c).1) {
      SpawnProper(st, w, c);
    }
    forall w: World, c | Proper(w) && PlanFor(st, w, c).Some? ensures Proper(Executed(st, w, PlanFor(st, w, c).value)) {
      ExecutedProper(st, w, PlanFor(st, w, c).value);
    }
  }

  // ── Warm slots ──────────────────────────────────────────────────────────

  /** Ready, of the model, with fewer requests than it may have at once. */
  predicate Roomy(env: Env, m: ModelName, s: Snap) {
    s.at.model == m && s.state == Ready && m in env.configs && s.inFlight < env.configs[m].maxConcurrent
  }

  /** Position `k` holds the first of those with the fewest requests. */
  ghost predicate WarmAt(st: Setting, w: World, m: ModelName, k: nat) {
    FirstLeast(w.snaps, (s: Snap) => Roomy(st.env, m, s), (s: Snap) => s.inFlight, k)
  }

  lemma {:induction false} TakenAt(snaps: seq<Snap>, k: nat, now: nat)
    requires UniqueIds(snaps) && k < |snaps|
    ensures Taken(snaps, snaps[k].at.id, now)
         == snaps[k := snaps[k].(inFlight := snaps[k].inFlight + 1, lastActive := now)]
  {
    assert UniqueIds(snaps[1..]);
    if k > 0 {
      TakenAt(snaps[1..], k - 1, now);
    } else {
      TakenOther(snaps[1..], snaps[0].at.id, now);
    }
  }

  lemma {:induction false} TakenOther(snaps: seq<Snap>, id: InstId, now: nat)
    requires forall k :: 0 <= k < |snaps| ==> snaps[k].at.id != id
    ensures Taken(snaps, id, now) == snaps
  {
    if snaps != [] {
      TakenOther(snaps[1..], id, now);
    }
  }

  lemma WarmChoice(st: Setting, w: World, m: ModelName)
    ensures var r := LeastBy(Keep(w.snaps, HasRoom(st.env, m)), ByInFlight());
            && (r.None? <==> forall s :: s in w.snaps ==> !Roomy(st.env, m, s))
            && (forall k: nat :: WarmAt(st, w, m, k) ==> k < |w.snaps| && r == Some(w.snaps[k]))
  {
    var p, q := HasRoom(st.env, m), (s: Snap) => Roomy(st.env, m, s);
    var j := ChoiceExactly(w.snaps, p, q, ByInFlight(), (s: Snap) => s.inFlight);
    EmptyKeep(w.snaps, p);
  }

  /** There is no warm slot exactly if no instance has one. */
  lemma NoneWarmExactly(st: Setting, w: World, m: ModelName)
    ensures Warm(st, w, m).None? <==> forall s :: s in w.snaps ==> !Roomy(st.env, m, s)
  {
    WarmChoice(st, w, m);
  }

  /** A warm slot is one more request on the least-loaded instance, which is
      thereby used now. */
  lemma WarmExactly(st: Setting, w: World, m: ModelName, k: nat)
    requires UniqueIds(w.snaps) && k < |w.snaps| && WarmAt(st, w, m, k)
    ensures Warm(st, w, m)
         == Some(w.(snaps := w.snaps[k := w.snaps[k].(inFlight := w.snaps[k].inFlight + 1, lastActive := st.now)]))
  {
    WarmChosen(st, w, m, k);
    TakenAt(w.snaps, k, st.now);
  }

  lemma WarmChosen(st: Setting, w: World, m: ModelName, k: nat)
    requires k < |w.snaps| && WarmAt(st, w, m, k)
    ensures Warm(st, w, m) == Some(w.(snaps := Taken(w.snaps, w.snaps[k].at.id, st.now)))
  {
    WarmChoice(st, w, m);
  }

  // ── What an eviction is good for ────────────────────────────────────────

  lemma {:induction false} RetiredPlaces(snaps: seq<Snap>, ids: set<InstId>)
    ensures Places(Retired(snaps, ids)) == Places(snaps)
  {
    if snaps != [] {
      RetiredPlaces(snaps[1..], ids);
      assert Retired(snaps, ids)[1..] == Retired(snaps[1..], ids);
    }
  }

  lemma {:induction false} RetiredLive(snaps: seq<Snap>, ids: set<InstId>, m: ModelName)
    requires forall s :: s in snaps && s.at.id in ids ==> s.at.model != m
    ensures LiveCount(Retired(snaps, ids), m, {}) == LiveCount(snaps, m, {})
  {
    if snaps != [] {
      assert snaps[0] in snaps;
      RetiredLive(snaps[1..], ids, m);
      assert Retired(snaps, ids)[1..] == Retired(snaps[1..], ids);
    }
  }

  /** A drained victim is never of the requesting model. */
  lemma LingeringElsewhere(st: Setting, w: World, m: ModelName)
    requires st.env.Valid() && Proper(w) && PlanFor(st, w, m).Some?
    ensures forall s :: s in w.snaps && s.at.id in Lingering(PlanFor(st, w, m).value, st.late) ==> s.at.model != m
  {
    var cfg, plan := st.env.configs[m], PlanFor(st, w, m).value;
    PlanChosen(st.env, w.snaps, st.now, cfg, st.mode);
    forall s | s in w.snaps && s.at.id in Lingering(plan, st.late) ensures s.at.model != cfg.name {
      var v :| v in plan && v.drain && v.snap.at.id == s.at.id;
      var k :| 0 <= k < |plan| && plan[k] == v;
      VictimIs(st.env, w.snaps, st.now, cfg.name, st.mode, plan, k);
      SameId(w.snaps, v.snap, s);
    }
  }

  /** After a plan has been carried out as far as the drains got, the model
      fits exactly if the dry run without the victims that left says so. */
  lemma FitsAfter(st: Setting, w: World, m: ModelName)
    requires st.env.Valid() && Proper(w) && PlanFor(st, w, m).Some?
    ensures var plan := PlanFor(st, w, m).value;
            Fits(st, Executed(st, w, plan), m)
            <==> SpawnFeasible(st.env, w.snaps, Ids(plan) - Lingering(plan, st.late), st.env.configs[m])
  {
    var cfg, plan := st.env.configs[m], PlanFor(st, w, m).value;
    var lingering := Lingering(plan, st.late);
    var left := After(w.snaps, Ids(plan) - lingering);
    LingeringElsewhere(st, w, m);
    AfterProper(w.snaps, Ids(plan) - lingering);
    RetiredPlaces(left, lingering);
    RetiredLive(left, lingering, m);
    DryRunIsExact(st.env, w.snaps, Ids(plan) - lingering, cfg);
  }

  /** What justifies an eviction: the candidate did not fit; the plan is not
      empty, all of it leaving makes the candidate fit, and no proper prefix of
      it would have; and what is left decides whether it fits afterwards. */
  ghost predicate Justified(st: Setting, w: World, m: ModelName, plan: seq<Victim>)
    requires m in st.env.configs
  {
    var cfg := st.env.configs[m];
    && !SpawnFeasible(st.env, w.snaps, {}, cfg)
    && plan != [] && SpawnChecksPass(st.env, After(w.snaps, Ids(plan)), cfg)
    && (forall k :: 0 <= k < |plan| ==> !SpawnChecksPass(st.env, After(w.snaps, Ids(plan[..k])), cfg))
    && (Fits(st, Executed(st, w, plan), m)
        <==> SpawnFeasible(st.env, w.snaps, Ids(plan) - Lingering(plan, st.late), cfg))
    && (Lingering(plan, st.late) == {} ==> Fits(st, Executed(st, w, plan), m))
  }

  lemma PlanJustified(st: Setting, w: World, m: ModelName)
    requires st.env.Valid() && Proper(w) && PlanFor(st, w, m).Some? && !Fits(st, w, m)
    ensures Justified(st, w, m, PlanFor(st, w, m).value)
  {
    var cfg, plan := st.env.configs[m], PlanFor(st, w, m).value;
    PlanSound(st.env, w.snaps, st.now, cfg, st.mode);
    FitsAfter(st, w, m);
    DryRunIsExact(st.env, w.snaps, Ids(plan), cfg);
    if Lingering(plan, st.late) == {} {
      assert Ids(plan) - {} == Ids(plan);
    }
    assert plan == [] ==> Ids(plan) == {};
  }

  /** A spawn whose checks pass and whose backend comes up yields a slot. */
  lemma {:induction false} FreshHasRoom(st: Setting, w: World, m: ModelName)
    requires st.env.Valid() && Fits(st, w, m) && m in st.starts
    ensures SpawnAndAcquire(st, w, m).0
  {
    var added := Newcomer(st, w, m);
    KeepIn(w.snaps + [added], HasRoom(st.env, m));
    assert added in w.snaps + [added];
    assert added in Keep(w.snaps + [added], HasRoom(st.env, m));
  }

  /** Evictions pay, whatever the policy: each one in the trace was for a
      candidate that did not fit, by a plan of which every victim was needed in
      its turn; and if all its drains end in time and the backend comes up,
      that candidate is the one the call serves. */
  lemma EvictsOnlyToFit(st: Setting, w: World, names: seq<ModelName>, policy: Policy, makeRoom: bool)
    requires st.env.Valid() && Proper(w)
    ensures var r := Acquire(OpsOf(st), w, names, policy, makeRoom);
            forall e :: e in r.trace && e.MadeRoom? ==>
              && e.model in st.env.configs && Proper(e.at) && Justified(st, e.at, e.model, e.plan)
              && (Lingering(e.plan, st.late) == {} && e.model in st.starts ==> r.outcome == Served(e.model))
  {
    var ops := OpsOf(st);
    var proper := (v: World) => Proper(v);
    var r := Acquire(ops, w, names, policy, makeRoom);
    OpsPreserve(st);
    EvictionsPay(ops, proper, w, names, policy, makeRoom);
    forall e | e in r.trace && e.MadeRoom?
      ensures e.model in st.env.configs && Proper(e.at) && Justified(st, e.at, e.model, e.plan)
      ensures Lingering(e.plan, st.late) == {} && e.model in st.starts ==> r.outcome == Served(e.model)
    {
      assert Pays(ops, proper, if r.outcome.Served? then Some(r.outcome.model) else None, e);
      PlanJustified(st, e.at, e.model);
      if Lingering(e.plan, st.late) == {} && e.model in st.starts {
        FreshHasRoom(st, Executed(st, e.at, e.plan), e.model);
      }
    }
  }

  // ── One candidate ───────────────────────────────────────────────────────

  /** A failed spawn leaves the registry as it was: that it does, clean-up
      included, is `Rollback.FailedStartupUnseen`. */
  lemma SpawnRestores(st: Setting)
    requires st.env.Valid()
    ensures Restoring(OpsOf(st))
  {
    forall w: World, m | !SpawnAndAcquire(st, w, m).0 ensures SpawnAndAcquire(st, w, m).1 == w {
      if Fits(st, w, m) && m in st.starts {
        FreshHasRoom(st, w, m);
      }
    }
  }

  /** So for one candidate the policies agree in result, registry and every action. */
  lemma PoliciesAgree(st: Setting, w: World, m: ModelName, makeRoom: bool)
    requires st.env.Valid()
    ensures Loaded(OpsOf(st), w, [m], makeRoom) == Candidates.Ordered(OpsOf(st), w, [m], makeRoom)
  {
    SpawnRestores(st);
    PoliciesAgreeOnOne(OpsOf(st), w, m, makeRoom);
  }
}
