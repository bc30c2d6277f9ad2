/** The spawn-feasibility dry run and the make-room planner, on a frozen
    registry and clock. */
module MakeRoom {
  import opened Base
  import opened Sums
  import opened Types
  import opened Placement
  import opened Devices

  const NANOS: nat := 1_000_000_000

  /** What the planner reads of a registered instance; times in nanoseconds. */
  datatype Snap = Snap(at: Placed, state: InstanceState, inFlight: nat, lastActive: nat)

  datatype Mode = NoRoom | EvictIdle | DrainSurplus

  datatype Victim = Victim(snap: Snap, drain: bool)

  function Places(snaps: seq<Snap>): seq<Placed> {
    if snaps == [] then [] else [snaps[0].at] + Places(snaps[1..])
  }

  function Ids(plan: seq<Victim>): set<InstId> {
    set v | v in plan :: v.snap.at.id
  }

  function AllIds(snaps: seq<Snap>): set<InstId> {
    set s | s in snaps :: s.at.id
  }

  ghost predicate UniqueIds(snaps: seq<Snap>) {
    forall i, j :: 0 <= i < j < |snaps| ==> snaps[i].at.id != snaps[j].at.id
  }

  /** Distinct ids, and no slot in use on a loading instance. */
  ghost predicate ProperSnaps(snaps: seq<Snap>) {
    UniqueIds(snaps) && forall s :: s in snaps && s.state == Loading ==> s.inFlight == 0
  }

  // ── Feasibility ─────────────────────────────────────────────────────────

  /** A non-retiring instance that is not planned away. */
  predicate Live(s: Snap, excluding: set<InstId>) {
    s.state != Failed && s.at.id !in excluding
  }

  function LiveOf(model: ModelName, excluding: set<InstId>): Snap -> nat {
    (s: Snap) => if s.at.model == model && Live(s, excluding) then 1 else 0
  }

  function LiveCount(snaps: seq<Snap>, model: ModelName, excluding: set<InstId>): nat {
    Sum(snaps, LiveOf(model, excluding))
  }

  /** The instance cap and the device check of a spawn, with the instances in
      `excluding` taken as gone. */
  predicate SpawnFeasible(env: Env, snaps: seq<Snap>, excluding: set<InstId>, cfg: ModelConfig) {
    && LiveCount(snaps, cfg.name, excluding) < cfg.maxInstances
    && (cfg.HasPool() ==> |Select(env, Places(snaps), excluding, cfg)| >= cfg.gpus)
  }

  /** The checks `try_spawn` itself makes on the registry. */
  predicate SpawnChecksPass(env: Env, snaps: seq<Snap>, cfg: ModelConfig) {
    SpawnFeasible(env, snaps, {}, cfg)
  }

  function Survives(excluding: set<InstId>): Snap -> bool { (s: Snap) => s.at.id !in excluding }

  /** The registry after the instances in `gone` have left it. */
  function After(snaps: seq<Snap>, gone: set<InstId>): seq<Snap> {
    Keep(snaps, Survives(gone))
  }

  lemma {:induction false} PlacesAfter(snaps: seq<Snap>, gone: set<InstId>)
    ensures Places(After(snaps, gone)) == Without(Places(snaps), gone)
  {
    if snaps != [] {
      PlacesAfter(snaps[1..], gone);
      assert Places(snaps)[1..] == Places(snaps[1..]);
      if snaps[0].at.id !in gone {
        assert After(snaps, gone)[1..] == After(snaps[1..], gone);
      }
    }
  }

  /** The dry run is exact: excluding instances answers what the spawn checks
      will answer once they are really gone. */
  lemma DryRunIsExact(env: Env, snaps: seq<Snap>, excluding: set<InstId>, cfg: ModelConfig)
    ensures SpawnFeasible(env, snaps, excluding, cfg) <==> SpawnChecksPass(env, After(snaps, excluding), cfg)
  {
    SumKeep(snaps, Survives(excluding), LiveOf(cfg.name, {}), LiveOf(cfg.name, excluding));
    PlacesAfter(snaps, excluding);
    SelectExclusionIsRemoval(env, Places(snaps), excluding, cfg);
  }

  lemma SelectSize(env: Env, placed: seq<Placed>, excluding: set<InstId>, cfg: ModelConfig)
    requires cfg.gpus >= 1
    ensures |Select(env, placed, excluding, cfg)| >= cfg.gpus
            <==> |Keep(cfg.Pool(), EligiblePred(env, placed, excluding, cfg))| >= cfg.gpus
  {
    CandidatesSize(env, placed, excluding, cfg, cfg.Pool());
    SortSize(Candidates(env, placed, excluding, cfg, cfg.Pool()));
    NoSlotsNoneEligible(env, placed, excluding, cfg, cfg.Pool());
  }

  /** The positions of the model's non-retiring instances that are not excluded. */
  ghost function ActiveAt(snaps: seq<Snap>, model: ModelName, excluding: set<InstId>): set<nat> {
    set k: nat | k < |snaps| && snaps[k].at.model == model && snaps[k].state != Failed && snaps[k].at.id !in excluding
  }

  lemma LiveCountExactly(snaps: seq<Snap>, model: ModelName, excluding: set<InstId>)
    ensures LiveCount(snaps, model, excluding) == |ActiveAt(snaps, model, excluding)|
  {
    var p := (s: Snap) => s.at.model == model && s.state != Failed && s.at.id !in excluding;
    SumCounts(snaps, p, LiveOf(model, excluding));
    assert Where(snaps, p) == ActiveAt(snaps, model, excluding);
  }

  /** A spawn is feasible if and only if the model has fewer non-retiring
      instances than it may have and, if it lists devices, enough of them may
      be taken. */
  lemma FeasibleExactly(env: Env, snaps: seq<Snap>, excluding: set<InstId>, cfg: ModelConfig)
    requires cfg.gpus >= 1 && NoDup(cfg.Pool())
    ensures SpawnFeasible(env, snaps, excluding, cfg) <==>
              && |ActiveAt(snaps, cfg.name, excluding)| < cfg.maxInstances
              && (cfg.cudaDevices + cfg.rocmDevices + cfg.vulkanDevices != [] ==>
                    |Takeable(env, Places(snaps), excluding, cfg)| >= cfg.gpus)
  {
    LiveCountExactly(snaps, cfg.name, excluding);
    SelectSize(env, Places(snaps), excluding, cfg);
    TakeableIs(env, Places(snaps), excluding, cfg);
  }

  /** Taking more instances away never makes a feasible spawn infeasible. */
  lemma FeasibleMonotone(env: Env, snaps: seq<Snap>, less: set<InstId>, more: set<InstId>, cfg: ModelConfig)
    requires cfg.gpus >= 1 && less <= more
    requires SpawnFeasible(env, snaps, less, cfg)
    ensures SpawnFeasible(env, snaps, more, cfg)
  {
    SumLe(snaps, LiveOf(cfg.name, more), LiveOf(cfg.name, less));
    if cfg.HasPool() {
      SelectSize(env, Places(snaps), less, cfg);
      SelectSize(env, Places(snaps), more, cfg);
      var p, q := EligiblePred(env, Places(snaps), less, cfg), EligiblePred(env, Places(snaps), more, cfg);
      forall idx | idx in cfg.Pool() && p(idx) ensures q(idx) {
        EligibleMonotone(env, Places(snaps), less, more, cfg, idx);
      }
      KeepGrows(cfg.Pool(), p, q);
    }
  }

  // ── Victim choice ───────────────────────────────────────────────────────

  function IdleTtl(env: Env, model: ModelName): nat {
    if model in env.configs then env.configs[model].idleTtl else 0
  }

  /** Ready, nothing in flight, and past its model's protection window. */
  predicate Idle(env: Env, now: nat, s: Snap) {
    && s.state == Ready && s.inFlight == 0
    && Max(0, now - s.lastActive) / NANOS >= IdleTtl(env, s.at.model)
  }

  /** What the configuration promises an idle instance: it may be evicted once
      it has been idle for `idle_ttl` seconds, a model without one at once. */
  predicate MayEvict(env: Env, now: nat, s: Snap) {
    && s.state == Ready && s.inFlight == 0
    && (s.at.model !in env.configs || env.configs[s.at.model].idleTtl == 0
        || now - s.lastActive >= 1_000_000_000 * env.configs[s.at.model].idleTtl)
  }

  lemma IdleExactly(env: Env, now: nat, s: Snap)
    ensures Idle(env, now, s) <==> MayEvict(env, now, s)
  {
  }

  function IdleVictims(env: Env, now: nat, excluding: set<InstId>): Snap -> bool {
    (s: Snap) => Live(s, excluding) && Idle(env, now, s)
  }

  function IdleSurplus(env: Env, snaps: seq<Snap>, now: nat, excluding: set<InstId>): Snap -> bool {
    (s: Snap) => Live(s, excluding) && Idle(env, now, s) && LiveCount(snaps, s.at.model, excluding) >= 2
  }

  function BusySurplus(snaps: seq<Snap>, requesting: ModelName, excluding: set<InstId>): Snap -> bool {
    (s: Snap) => Live(s, excluding) && s.at.model != requesting && s.inFlight > 0
              && LiveCount(snaps, s.at.model, excluding) >= 2
  }

  /** The first element with the least key. */
  function LeastBy(xs: seq<Snap>, key: Snap -> nat): (r: Option<Snap>)
    ensures r.None? <==> xs == []
    ensures r.Some? ==> r.value in xs && forall x :: x in xs ==> key(r.value) <= key(x)
  {
    if xs == [] then None else
    match LeastBy(xs[1..], key)
    case None => assert xs[1..] == []; Some(xs[0])
    case Some(y) => if key(xs[0]) <= key(y) then Some(xs[0]) else Some(y)
  }

  function ByLastActive(): Snap -> nat { (s: Snap) => s.lastActive }
  function ByInFlight(): Snap -> nat { (s: Snap) => s.inFlight }

  /** The next victim: an idle surplus duplicate, else an idle instance, each
      least recently used first; else, when draining is allowed, the least
      busy surplus duplicate of another model. */
  function NextVictim(env: Env, snaps: seq<Snap>, now: nat, requesting: ModelName, mode: Mode, excluding: set<InstId>)
    : Option<Victim>
  {
    match LeastBy(Keep(snaps, IdleSurplus(env, snaps, now, excluding)), ByLastActive())
    case Some(s) => Some(Victim(s, false))
    case None =>
      match LeastBy(Keep(snaps, IdleVictims(env, now, excluding)), ByLastActive())
      case Some(s) => Some(Victim(s, false))
      case None =>
        if mode != DrainSurplus then None else
        match LeastBy(Keep(snaps, BusySurplus(snaps, requesting, excluding)), ByInFlight())
        case Some(s) => Some(Victim(s, true))
        case None => None
  }

  lemma NextVictimFacts(env: Env, snaps: seq<Snap>, now: nat, requesting: ModelName, mode: Mode, excluding: set<InstId>)
    ensures var v := NextVictim(env, snaps, now, requesting, mode, excluding);
            && (v.Some? ==> v.value.snap in snaps && Live(v.value.snap, excluding))
            && (v.Some? && !v.value.drain ==> Idle(env, now, v.value.snap))
            && (v.Some? && v.value.drain ==>
                  mode == DrainSurplus && BusySurplus(snaps, requesting, excluding)(v.value.snap))
            && (v.None? || v.value.drain ==> forall s :: s in snaps ==> !IdleVictims(env, now, excluding)(s))
  {
    KeepIn(snaps, IdleSurplus(env, snaps, now, excluding));
    KeepIn(snaps, IdleVictims(env, now, excluding));
    KeepIn(snaps, BusySurplus(snaps, requesting, excluding));
    var none := Keep(snaps, IdleVictims(env, now, excluding));
    assert none == [] ==> forall s :: s in snaps ==> s !in none;
  }

  // ── Which one it is ─────────────────────────────────────────────────────

  /** Position `k` holds the first of those with the least key. */
  ghost predicate FirstLeast(snaps: seq<Snap>, p: Snap -> bool, key: Snap -> nat, k: nat) {
    && k < |snaps| && p(snaps[k])
    && forall j :: 0 <= j < |snaps| && p(snaps[j]) ==>
         key(snaps[k]) < key(snaps[j]) || (key(snaps[k]) == key(snaps[j]) && k <= j)
  }

  lemma {:induction false} LeastIsFirst(snaps: seq<Snap>, p: Snap -> bool, key: Snap -> nat, k: nat)
    requires FirstLeast(snaps, p, key, k)
    ensures LeastBy(Keep(snaps, p), key) == Some(snaps[k])
  {
    var rest := snaps[1..];
    KeepIn(rest, p);
    if k > 0 {
      assert FirstLeast(rest, p, key, k - 1) by {
        forall j | 0 <= j < |rest| && p(rest[j])
          ensures key(snaps[k]) < key(rest[j]) || (key(snaps[k]) == key(rest[j]) && k - 1 <= j)
        {
          assert rest[j] == snaps[j + 1];
        }
      }
      LeastIsFirst(rest, p, key, k - 1);
      assert p(snaps[0]) ==> Keep(snaps, p)[1..] == Keep(rest, p);
    } else {
      assert Keep(snaps, p)[1..] == Keep(rest, p);
      forall x | x in Keep(rest, p) ensures key(snaps[0]) <= key(x) {
        var j :| 0 <= j < |rest| && rest[j] == x;
        assert snaps[j + 1] == x;
      }
    }
  }

  lemma {:induction false} SomeFirst(snaps: seq<Snap>, p: Snap -> bool, key: Snap -> nat) returns (k: nat)
    requires exists s :: s in snaps && p(s)
    ensures FirstLeast(snaps, p, key, k)
  {
    var rest := snaps[1..];
    assert snaps == [snaps[0]] + rest;
    k := 0;
    if exists s :: s in rest && p(s) {
      var j := SomeFirst(rest, p, key);
      if !p(snaps[0]) || key(rest[j]) < key(snaps[0]) {
        k := j + 1;
      }
    }
    forall j | 0 <= j < |snaps| && p(snaps[j])
      ensures key(snaps[k]) < key(snaps[j]) || (key(snaps[k]) == key(snaps[j]) && k <= j)
    {
      if j > 0 {
        assert rest[j - 1] == snaps[j];
      }
    }
  }

  /** May be evicted, is not planned yet, and its model has another instance. */
  ghost predicate SpareIdle(env: Env, snaps: seq<Snap>, now: nat, excluding: set<InstId>, s: Snap) {
    MayEvict(env, now, s) && s.at.id !in excluding && |ActiveAt(snaps, s.at.model, excluding)| >= 2
  }

  /** Busy, of another model, not planned yet, and that model has another instance. */
  ghost predicate MayDrain(snaps: seq<Snap>, requesting: ModelName, excluding: set<InstId>, s: Snap) {
    && s.state != Failed && s.inFlight > 0 && s.at.id !in excluding
    && s.at.model != requesting && |ActiveAt(snaps, s.at.model, excluding)| >= 2
  }

  ghost predicate SpareFirst(env: Env, snaps: seq<Snap>, now: nat, excluding: set<InstId>, k: nat) {
    FirstLeast(snaps, (s: Snap) => SpareIdle(env, snaps, now, excluding, s), (s: Snap) => s.lastActive, k)
  }

  ghost predicate IdleFirst(env: Env, snaps: seq<Snap>, now: nat, excluding: set<InstId>, k: nat) {
    FirstLeast(snaps, (s: Snap) => MayEvict(env, now, s) && s.at.id !in excluding, (s: Snap) => s.lastActive, k)
  }

  ghost predicate BusyFirst(snaps: seq<Snap>, requesting: ModelName, excluding: set<InstId>, k: nat) {
    FirstLeast(snaps, (s: Snap) => MayDrain(snaps, requesting, excluding, s), (s: Snap) => s.inFlight, k)
  }

  /** The instance at `k` is the one to go next: the least recently used spare
      idle one if there is any, else the least recently used idle one, else,
      where draining is allowed, the least busy spare one of another model. */
  ghost predicate GoesNext(env: Env, snaps: seq<Snap>, now: nat, requesting: ModelName, mode: Mode,
          excluding: set<InstId>, k: nat, drain: bool) {
    if exists j: nat :: SpareFirst(env, snaps, now, excluding, j) then !drain && SpareFirst(env, snaps, now, excluding, k)
    else if exists j: nat :: IdleFirst(env, snaps, now, excluding, j) then !drain && IdleFirst(env, snaps, now, excluding, k)
    else drain && mode == DrainSurplus && BusyFirst(snaps, requesting, excluding, k)
  }

  /** The choice among the instances satisfying `q`, by position. */
  lemma ChoiceExactly(snaps: seq<Snap>, p: Snap -> bool, q: Snap -> bool, key: Snap -> nat, key': Snap -> nat)
    returns (k: nat)
    requires forall s :: s in snaps ==> p(s) == q(s)
    requires forall s :: key(s) == key'(s)
    ensures LeastBy(Keep(snaps, p), key).Some? ==> FirstLeast(snaps, q, key', k)
    ensures forall j: nat :: FirstLeast(snaps, q, key', j) ==> LeastBy(Keep(snaps, p), key) == Some(snaps[j])
  {
    KeepIn(snaps, p);
    k := 0;
    if LeastBy(Keep(snaps, p), key).Some? {
      k := SomeFirst(snaps, q, key');
    }
    forall j: nat | FirstLeast(snaps, q, key', j) ensures LeastBy(Keep(snaps, p), key) == Some(snaps[j]) {
      assert FirstLeast(snaps, p, key, j);
      LeastIsFirst(snaps, p, key, j);
    }
  }

  lemma SpareExactly(env: Env, snaps: seq<Snap>, now: nat, excluding: set<InstId>) returns (k: nat)
    ensures var r := LeastBy(Keep(snaps, IdleSurplus(env, snaps, now, excluding)), ByLastActive());
            && (r.Some? ==> SpareFirst(env, snaps, now, excluding, k))
            && (forall j: nat :: SpareFirst(env, snaps, now, excluding, j) ==> r == Some(snaps[j]))
  {
    var p, q := IdleSurplus(env, snaps, now, excluding), (s: Snap) => SpareIdle(env, snaps, now, excluding, s);
    forall s | s in snaps ensures p(s) == q(s) {
      IdleExactly(env, now, s);
      LiveCountExactly(snaps, s.at.model, excluding);
    }
    k := ChoiceExactly(snaps, p, q, ByLastActive(), (s: Snap) => s.lastActive);
  }

  lemma IdleFirstExactly(env: Env, snaps: seq<Snap>, now: nat, excluding: set<InstId>) returns (k: nat)
    ensures var r := LeastBy(Keep(snaps, IdleVictims(env, now, excluding)), ByLastActive());
            && (r.Some? ==> IdleFirst(env, snaps, now, excluding, k))
            && (forall j: nat :: IdleFirst(env, snaps, now, excluding, j) ==> r == Some(snaps[j]))
  {
    var p, q := IdleVictims(env, now, excluding), (s: Snap) => MayEvict(env, now, s) && s.at.id !in excluding;
    forall s | s in snaps ensures p(s) == q(s) {
      IdleExactly(env, now, s);
    }
    k := ChoiceExactly(snaps, p, q, ByLastActive(), (s: Snap) => s.lastActive);
  }

  lemma BusyExactly(snaps: seq<Snap>, requesting: ModelName, excluding: set<InstId>) returns (k: nat)
    ensures var r := LeastBy(Keep(snaps, BusySurplus(snaps, requesting, excluding)), ByInFlight());
            && (r.Some? ==> BusyFirst(snaps, requesting, excluding, k))
            && (forall j: nat :: BusyFirst(snaps, requesting, excluding, j) ==> r == Some(snaps[j]))
  {
    var p, q := BusySurplus(snaps, requesting, excluding), (s: Snap) => MayDrain(snaps, requesting, excluding, s);
    forall s | s in snaps ensures p(s) == q(s) {
      LiveCountExactly(snaps, s.at.model, excluding);
    }
    k := ChoiceExactly(snaps, p, q, ByInFlight(), (s: Snap) => s.inFlight);
  }

  /** The victim searches pick exactly the instance that goes next, and none if
      no instance does. */
  lemma NextVictimExactly(env: Env, snaps: seq<Snap>, now: nat, requesting: ModelName, mode: Mode,
          excluding: set<InstId>)
    ensures var v := NextVictim(env, snaps, now, requesting, mode, excluding);
            && (v.Some? <==> exists k: nat, drain :: GoesNext(env, snaps, now, requesting, mode, excluding, k, drain))
            && (forall k: nat, drain :: GoesNext(env, snaps, now, requesting, mode, excluding, k, drain) ==>
                  k < |snaps| && v == Some(Victim(snaps[k], drain)))
  {
    var spare := SpareExactly(env, snaps, now, excluding);
    var idle := IdleFirstExactly(env, snaps, now, excluding);
    var busy := BusyExactly(snaps, requesting, excluding);
    var v := NextVictim(env, snaps, now, requesting, mode, excluding);
    if v.Some? {
      var k := if SpareFirst(env, snaps, now, excluding, spare) then spare
               else if IdleFirst(env, snaps, now, excluding, idle) then idle else busy;
      assert GoesNext(env, snaps, now, requesting, mode, excluding, k, v.value.drain);
    }
  }

  /** With idle eviction there is none exactly if every instance that may be
      evicted is planned already. */
  lemma NoIdleLeft(env: Env, snaps: seq<Snap>, now: nat, requesting: ModelName, excluding: set<InstId>)
    ensures NextVictim(env, snaps, now, requesting, EvictIdle, excluding).None?
            <==> forall s :: s in snaps && MayEvict(env, now, s) ==> s.at.id in excluding
  {
    var p := IdleVictims(env, now, excluding);
    NextVictimFacts(env, snaps, now, requesting, EvictIdle, excluding);
    forall s | s in snaps ensures p(s) <==> MayEvict(env, now, s) && s.at.id !in excluding {
      IdleExactly(env, now, s);
    }
  }

  // ── The greedy loop ─────────────────────────────────────────────────────

  /** The next victim, when there is one, is a registered instance not yet planned. */
  ghost predicate Fresh(next: set<InstId> -> Option<Victim>, all: set<InstId>) {
    forall x :: next(x).Some? ==> next(x).value.snap.at.id in all && next(x).value.snap.at.id !in x
  }

  /** Add victims until the spawn is feasible or none is left. */
  function Greedy(feasible: set<InstId> -> bool, next: set<InstId> -> Option<Victim>, ghost all: set<InstId>,
          excluding: set<InstId>)
    : Option<seq<Victim>>
    requires Fresh(next, all)
    decreases |all - excluding|
  {
    if feasible(excluding) then Some([]) else
    match next(excluding)
    case None => None
    case Some(v) =>
      FewerLeft(all, excluding, v.snap.at.id);
      match Greedy(feasible, next, all, excluding + {v.snap.at.id})
      case None => None
      case Some(rest) => Some([v] + rest)
  }

  lemma FewerLeft(all: set<InstId>, excluding: set<InstId>, id: InstId)
    requires id in all && id !in excluding
    ensures |all - (excluding + {id})| < |all - excluding|
  {
    assert all - excluding == (all - (excluding + {id})) + {id};
  }

  lemma IdsCons(v: Victim, rest: seq<Victim>, excluding: set<InstId>)
    ensures Ids([v] + rest) == {v.snap.at.id} + Ids(rest)
    ensures excluding + Ids([v] + rest) == excluding + {v.snap.at.id} + Ids(rest)
  {
    forall x ensures x in Ids([v] + rest) <==> x in {v.snap.at.id} + Ids(rest) {
      if x in Ids(rest) {
        var w :| w in rest && w.snap.at.id == x;
        assert w in [v] + rest;
      }
      if x == v.snap.at.id {
        assert v in [v] + rest;
      }
    }
  }

  lemma IdsNone(plan: seq<Victim>, excluding: set<InstId>)
    ensures excluding + Ids(plan[..0]) == excluding
    ensures {} + Ids(plan) == Ids(plan)
  {
  }

  /** The victim at position `k` is the one chosen after the first `k`. */
  ghost predicate ChosenAt(next: set<InstId> -> Option<Victim>, excluding: set<InstId>, plan: seq<Victim>, k: nat)
    requires k < |plan|
  {
    next(excluding + Ids(plan[..k])) == Some(plan[k])
  }

  ghost predicate Chosen(next: set<InstId> -> Option<Victim>, excluding: set<InstId>, plan: seq<Victim>) {
    forall k :: 0 <= k < |plan| ==> ChosenAt(next, excluding, plan, k)
  }

  /** The first `k` victims were not enough. */
  ghost predicate NotEnough(feasible: set<InstId> -> bool, excluding: set<InstId>, plan: seq<Victim>, k: nat)
    requires k < |plan|
  {
    !feasible(excluding + Ids(plan[..k]))
  }

  ghost predicate Needed(feasible: set<InstId> -> bool, excluding: set<InstId>, plan: seq<Victim>) {
    forall k :: 0 <= k < |plan| ==> NotEnough(feasible, excluding, plan, k)
  }

  /** Putting the first choice in front of what follows it. */
  lemma GreedyCons(feasible: set<InstId> -> bool, next: set<InstId> -> Option<Victim>, excluding: set<InstId>,
          v: Victim, rest: seq<Victim>)
    requires next(excluding) == Some(v)
    requires Chosen(next, excluding + {v.snap.at.id}, rest)
    ensures Chosen(next, excluding, [v] + rest)
    ensures !feasible(excluding) && Needed(feasible, excluding + {v.snap.at.id}, rest) ==>
              Needed(feasible, excluding, [v] + rest)
  {
    var more, plan := excluding + {v.snap.at.id}, [v] + rest;
    forall k | 0 <= k < |plan|
      ensures ChosenAt(next, excluding, plan, k)
      ensures !feasible(excluding) && Needed(feasible, more, rest) ==> NotEnough(feasible, excluding, plan, k)
    {
      IdsNone(plan, excluding);
      if k > 0 {
        IdsCons(v, rest[..k - 1], excluding);
        assert plan[..k] == [v] + rest[..k - 1];
        assert ChosenAt(next, more, rest, k - 1);
        assert Needed(feasible, more, rest) ==> NotEnough(feasible, more, rest, k - 1);
      }
    }
  }

  lemma {:induction false} GreedyRun(feasible: set<InstId> -> bool, next: set<InstId> -> Option<Victim>,
          all: set<InstId>, excluding: set<InstId>)
    requires Fresh(next, all)
    ensures var r := Greedy(feasible, next, all, excluding);
            r.Some? ==>
              && feasible(excluding + Ids(r.value))
              && Chosen(next, excluding, r.value) && Needed(feasible, excluding, r.value)
    decreases |all - excluding|
  {
    IdsNone([], excluding);
    if !feasible(excluding) && next(excluding).Some? {
      var v := next(excluding).value;
      FewerLeft(all, excluding, v.snap.at.id);
      var more := excluding + {v.snap.at.id};
      GreedyRun(feasible, next, all, more);
      var tail := Greedy(feasible, next, all, more);
      if tail.Some? {
        IdsCons(v, tail.value, excluding);
        GreedyCons(feasible, next, excluding, v, tail.value);
      }
    }
  }

  /** The loop gives up only in front of an infeasible exclusion set that has no next victim. */
  lemma {:induction false} GreedyStuck(feasible: set<InstId> -> bool, next: set<InstId> -> Option<Victim>,
          all: set<InstId>, excluding: set<InstId>)
    returns (plan: seq<Victim>)
    requires Fresh(next, all)
    requires Greedy(feasible, next, all, excluding).None?
    ensures Chosen(next, excluding, plan)
    ensures !feasible(excluding + Ids(plan)) && next(excluding + Ids(plan)).None?
    decreases |all - excluding|
  {
    IdsNone([], excluding);
    if next(excluding).None? {
      plan := [];
    } else {
      var v := next(excluding).value;
      FewerLeft(all, excluding, v.snap.at.id);
      var rest := GreedyStuck(feasible, next, all, excluding + {v.snap.at.id});
      plan := [v] + rest;
      IdsCons(v, rest, excluding);
      GreedyCons(feasible, next, excluding, v, rest);
    }
  }

  lemma ChosenDistinct(next: set<InstId> -> Option<Victim>, all: set<InstId>, plan: seq<Victim>, i: nat, j: nat)
    requires Fresh(next, all) && Chosen(next, {}, plan) && i < j < |plan|
    ensures plan[i].snap.at.id != plan[j].snap.at.id
  {
    assert ChosenAt(next, {}, plan, j);
    assert plan[i] in plan[..j] by { assert plan[..j][i] == plan[i]; }
    assert plan[i].snap.at.id in Ids(plan[..j]);
  }

  // ── The plan ────────────────────────────────────────────────────────────

  function FeasibleWith(env: Env, snaps: seq<Snap>, cfg: ModelConfig): set<InstId> -> bool {
    (x: set<InstId>) => SpawnFeasible(env, snaps, x, cfg)
  }

  function NextWith(env: Env, snaps: seq<Snap>, now: nat, requesting: ModelName,
          mode: Mode): set<InstId> -> Option<Victim> {
    (x: set<InstId>) => NextVictim(env, snaps, now, requesting, mode, x)
  }

  lemma NextIsFresh(env: Env, snaps: seq<Snap>, now: nat, requesting: ModelName, mode: Mode)
    ensures Fresh(NextWith(env, snaps, now, requesting, mode), AllIds(snaps))
  {
    forall x | NextVictim(env, snaps, now, requesting, mode, x).Some?
      ensures var v := NextVictim(env, snaps, now, requesting, mode, x).value;
              v.snap.at.id in AllIds(snaps) && v.snap.at.id !in x
    {
      NextVictimFacts(env, snaps, now, requesting, mode, x);
    }
  }

  function Plan(env: Env, snaps: seq<Snap>, now: nat, cfg: ModelConfig, mode: Mode): Option<seq<Victim>> {
    NextIsFresh(env, snaps, now, cfg.name, mode);
    if mode == NoRoom then None
    else Greedy(FeasibleWith(env, snaps, cfg), NextWith(env, snaps, now, cfg.name, mode), AllIds(snaps), {})
  }

  /** A returned plan is the victims the loop chose, one after the other. */
  lemma PlanChosen(env: Env, snaps: seq<Snap>, now: nat, cfg: ModelConfig, mode: Mode)
    requires Plan(env, snaps, now, cfg, mode).Some?
    ensures Chosen(NextWith(env, snaps, now, cfg.name, mode), {}, Plan(env, snaps, now, cfg, mode).value)
  {
    NextIsFresh(env, snaps, now, cfg.name, mode);
    GreedyRun(FeasibleWith(env, snaps, cfg), NextWith(env, snaps, now, cfg.name, mode), AllIds(snaps), {});
  }

  /** Plans are sound and minimal along the greedy order: once all victims
      have left the registry the spawn checks pass, the victims are distinct
      registered instances, and after any proper prefix the checks still fail. */
  lemma PlanSound(env: Env, snaps: seq<Snap>, now: nat, cfg: ModelConfig, mode: Mode)
    requires Plan(env, snaps, now, cfg, mode).Some?
    ensures var plan := Plan(env, snaps, now, cfg, mode).value;
            && SpawnChecksPass(env, After(snaps, Ids(plan)), cfg)
            && (forall i, j :: 0 <= i < j < |plan| ==> plan[i].snap.at.id != plan[j].snap.at.id)
            && (forall k :: 0 <= k < |plan| ==> plan[k].snap in snaps)
            && (forall k :: 0 <= k < |plan| ==> !SpawnChecksPass(env, After(snaps, Ids(plan[..k])), cfg))
  {
    var plan := Plan(env, snaps, now, cfg, mode).value;
    var feasible, next := FeasibleWith(env, snaps, cfg), NextWith(env, snaps, now, cfg.name, mode);
    NextIsFresh(env, snaps, now, cfg.name, mode);
    GreedyRun(feasible, next, AllIds(snaps), {});
    IdsNone(plan, {});
    DryRunIsExact(env, snaps, Ids(plan), cfg);
    forall k | 0 <= k < |plan| ensures plan[k].snap in snaps && !SpawnChecksPass(env, After(snaps, Ids(plan[..k])), cfg) {
      IdsNone(plan[..k], {});
      DryRunIsExact(env, snaps, Ids(plan[..k]), cfg);
      assert ChosenAt(next, {}, plan, k) && NotEnough(feasible, {}, plan, k);
      NextVictimFacts(env, snaps, now, cfg.name, mode, Ids(plan[..k]));
    }
    forall i, j | 0 <= i < j < |plan| ensures plan[i].snap.at.id != plan[j].snap.at.id {
      ChosenDistinct(next, AllIds(snaps), plan, i, j);
    }
  }

  // ── Completeness of idle eviction ───────────────────────────────────────

  /** The instances idle eviction may take at all. */
  function IdleIds(env: Env, snaps: seq<Snap>, now: nat): set<InstId> {
    set s | s in snaps && MayEvict(env, now, s) :: s.at.id
  }

  lemma IdlePlanInIdle(env: Env, snaps: seq<Snap>, now: nat, cfg: ModelConfig, plan: seq<Victim>)
    requires Chosen(NextWith(env, snaps, now, cfg.name, EvictIdle), {}, plan)
    ensures Ids(plan) <= IdleIds(env, snaps, now)
  {
    forall k | 0 <= k < |plan| ensures plan[k].snap.at.id in IdleIds(env, snaps, now) {
      IdsNone(plan[..k], {});
      assert ChosenAt(NextWith(env, snaps, now, cfg.name, EvictIdle), {}, plan, k);
      NextVictimFacts(env, snaps, now, cfg.name, EvictIdle, Ids(plan[..k]));
      IdleExactly(env, now, plan[k].snap);
    }
  }

  lemma NoneLeftTakesAll(env: Env, snaps: seq<Snap>, now: nat, requesting: ModelName, gone: set<InstId>)
    requires NextVictim(env, snaps, now, requesting, EvictIdle, gone).None?
    ensures IdleIds(env, snaps, now) <= gone
  {
    NextVictimFacts(env, snaps, now, requesting, EvictIdle, gone);
    forall id | id in IdleIds(env, snaps, now) ensures id in gone {
      var s :| s in snaps && MayEvict(env, now, s) && s.at.id == id;
      IdleExactly(env, now, s);
      assert !IdleVictims(env, now, gone)(s);
    }
  }

  /** Idle eviction is complete: the planner gives up exactly when no set of
      evictable idle instances whatever would let the model spawn. */
  lemma IdleEvictionComplete(env: Env, snaps: seq<Snap>, now: nat, cfg: ModelConfig)
    requires cfg.gpus >= 1
    ensures Plan(env, snaps, now, cfg, EvictIdle).None?
            <==> forall gone :: gone <= IdleIds(env, snaps, now) ==> !SpawnFeasible(env, snaps, gone, cfg)
  {
    var feasible, next := FeasibleWith(env, snaps, cfg), NextWith(env, snaps, now, cfg.name, EvictIdle);
    NextIsFresh(env, snaps, now, cfg.name, EvictIdle);
    match Plan(env, snaps, now, cfg, EvictIdle)
    case None =>
      var plan := GreedyStuck(feasible, next, AllIds(snaps), {});
      IdsNone(plan, {});
      NoneLeftTakesAll(env, snaps, now, cfg.name, Ids(plan));
      forall gone | gone <= IdleIds(env, snaps, now) ensures !SpawnFeasible(env, snaps, gone, cfg) {
        if SpawnFeasible(env, snaps, gone, cfg) {
          FeasibleMonotone(env, snaps, gone, Ids(plan), cfg);
        }
      }
    case Some(plan) =>
      GreedyRun(feasible, next, AllIds(snaps), {});
      IdsNone(plan, {});
      IdlePlanInIdle(env, snaps, now, cfg, plan);
  }

  // ── The shape of a plan ─────────────────────────────────────────────────

  /** Victim class of a choice made with `excluding` already planned:
      1 idle surplus duplicate, 2 idle last instance, 3 drained. */
  function Class(snaps: seq<Snap>, excluding: set<InstId>, v: Victim): nat {
    if v.drain then 3 else if LiveCount(snaps, v.snap.at.model, excluding) >= 2 then 1 else 2
  }

  /** The key a class is ordered by. */
  function Key(v: Victim): nat { if v.drain then v.snap.inFlight else v.snap.lastActive }

  lemma LiveCountMonotone(snaps: seq<Snap>, model: ModelName, less: set<InstId>, more: set<InstId>)
    requires less <= more
    ensures LiveCount(snaps, model, more) <= LiveCount(snaps, model, less)
  {
    SumLe(snaps, LiveOf(model, more), LiveOf(model, less));
  }

  lemma EmptyKeep(snaps: seq<Snap>, p: Snap -> bool)
    ensures Keep(snaps, p) == [] <==> forall s :: s in snaps ==> !p(s)
  {
    KeepIn(snaps, p);
    if Keep(snaps, p) != [] {
      assert Keep(snaps, p)[0] in Keep(snaps, p);
    }
  }

  /** A class-1 or class-2 choice is idle and least among its peers. */
  lemma IdleChoice(env: Env, snaps: seq<Snap>, now: nat, requesting: ModelName, mode: Mode, excluding: set<InstId>)
    requires NextVictim(env, snaps, now, requesting, mode, excluding).Some?
    ensures var v := NextVictim(env, snaps, now, requesting, mode, excluding).value;
            && (Class(snaps, excluding, v) == 1 ==>
                  forall s :: s in snaps && IdleSurplus(env, snaps, now, excluding)(s) ==> v.snap.lastActive <= s.lastActive)
            && (Class(snaps, excluding, v) == 2 ==>
                  forall s :: s in snaps && IdleVictims(env, now, excluding)(s) ==> v.snap.lastActive <= s.lastActive)
            && (Class(snaps, excluding, v) >= 2 ==>
                  forall s :: s in snaps ==> !IdleSurplus(env, snaps, now, excluding)(s))
            && (Class(snaps, excluding, v) == 3 ==>
                  forall s :: s in snaps && BusySurplus(snaps, requesting, excluding)(s) ==> v.snap.inFlight <= s.inFlight)
  {
    var surplus, idle := IdleSurplus(env, snaps, now, excluding), IdleVictims(env, now, excluding);
    var busy := BusySurplus(snaps, requesting, excluding);
    KeepIn(snaps, surplus);
    KeepIn(snaps, idle);
    KeepIn(snaps, busy);
    EmptyKeep(snaps, surplus);
  }

  /** Two choices in a row: the class never goes back, and within a class the
      key never decreases. */
  lemma NextInOrder(env: Env, snaps: seq<Snap>, now: nat, requesting: ModelName, mode: Mode, excluding: set<InstId>)
    requires var v := NextVictim(env, snaps, now, requesting, mode, excluding);
             v.Some? && NextVictim(env, snaps, now, requesting, mode, excluding + {v.value.snap.at.id}).Some?
    ensures var v := NextVictim(env, snaps, now, requesting, mode, excluding).value;
            var more := excluding + {v.snap.at.id};
            var w := NextVictim(env, snaps, now, requesting, mode, more).value;
            var cv, cw := Class(snaps, excluding, v), Class(snaps, more, w);
            cv <= cw && (cv == cw ==> Key(v) <= Key(w))
  {
    var v := NextVictim(env, snaps, now, requesting, mode, excluding).value;
    var more := excluding + {v.snap.at.id};
    var w := NextVictim(env, snaps, now, requesting, mode, more).value;
    NextVictimFacts(env, snaps, now, requesting, mode, excluding);
    NextVictimFacts(env, snaps, now, requesting, mode, more);
    IdleChoice(env, snaps, now, requesting, mode, excluding);
    LiveCountMonotone(snaps, w.snap.at.model, excluding, more);
    if w.drain {
      assert BusySurplus(snaps, requesting, excluding)(w.snap);
    } else {
      assert IdleVictims(env, now, excluding)(w.snap);
      if Class(snaps, more, w) == 1 {
        assert IdleSurplus(env, snaps, now, excluding)(w.snap);
      }
    }
  }

  /** Every plan is class-1 victims, then class-2 victims, then drained ones,
      each class in ascending key. */
  ghost predicate Ordered(snaps: seq<Snap>, plan: seq<Victim>) {
    forall i, j :: 0 <= i < j < |plan| ==>
      var ci, cj := Class(snaps, Ids(plan[..i]), plan[i]), Class(snaps, Ids(plan[..j]), plan[j]);
      ci <= cj && (ci == cj ==> Key(plan[i]) <= Key(plan[j]))
  }

  lemma {:induction false} PairInOrder(env: Env, snaps: seq<Snap>, now: nat, requesting: ModelName, mode: Mode,
          plan: seq<Victim>, i: nat, j: nat)
    requires Chosen(NextWith(env, snaps, now, requesting, mode), {}, plan) && i < j < |plan|
    ensures var ci, cj := Class(snaps, Ids(plan[..i]), plan[i]), Class(snaps, Ids(plan[..j]), plan[j]);
            ci <= cj && (ci == cj ==> Key(plan[i]) <= Key(plan[j]))
    decreases j - i
  {
    var next := NextWith(env, snaps, now, requesting, mode);
    IdsNone(plan[..i], {});
    IdsNone(plan[..i + 1], {});
    assert ChosenAt(next, {}, plan, i) && ChosenAt(next, {}, plan, i + 1);
    IdsSnoc(plan, i);
    NextInOrder(env, snaps, now, requesting, mode, Ids(plan[..i]));
    if i + 1 < j {
      PairInOrder(env, snaps, now, requesting, mode, plan, i + 1, j);
    }
  }

  lemma IdsSnoc(plan: seq<Victim>, k: nat)
    requires k < |plan|
    ensures Ids(plan[..k + 1]) == Ids(plan[..k]) + {plan[k].snap.at.id}
  {
    assert plan[..k + 1] == plan[..k] + [plan[k]];
    forall x ensures x in Ids(plan[..k + 1]) <==> x in Ids(plan[..k]) + {plan[k].snap.at.id} {
      if x in Ids(plan[..k]) {
        var w :| w in plan[..k] && w.snap.at.id == x;
        assert w in plan[..k + 1];
      }
      if x == plan[k].snap.at.id {
        assert plan[k] in plan[..k + 1];
      }
    }
  }

  lemma PlanOrdered(env: Env, snaps: seq<Snap>, now: nat, cfg: ModelConfig, mode: Mode)
    requires Plan(env, snaps, now, cfg, mode).Some?
    ensures Ordered(snaps, Plan(env, snaps, now, cfg, mode).value)
  {
    var plan := Plan(env, snaps, now, cfg, mode).value;
    PlanChosen(env, snaps, now, cfg, mode);
    forall i, j | 0 <= i < j < |plan|
      ensures var ci, cj := Class(snaps, Ids(plan[..i]), plan[i]), Class(snaps, Ids(plan[..j]), plan[j]);
              ci <= cj && (ci == cj ==> Key(plan[i]) <= Key(plan[j]))
    {
      PairInOrder(env, snaps, now, cfg.name, mode, plan, i, j);
    }
  }

  /** In a registry where a Loading instance holds no slot, which every run
      keeps, no victim is loading, retiring or protected, and a drained one
      is Ready, busy and of another model. */
  lemma VictimsAllowed(env: Env, snaps: seq<Snap>, now: nat, cfg: ModelConfig, mode: Mode, k: nat)
    requires forall s :: s in snaps && s.state == Loading ==> s.inFlight == 0
    requires Plan(env, snaps, now, cfg, mode).Some? && k < |Plan(env, snaps, now, cfg, mode).value|
    ensures var v := Plan(env, snaps, now, cfg, mode).value[k];
            && mode != NoRoom && v.snap in snaps && v.snap.state == Ready
            && (!v.drain ==> MayEvict(env, now, v.snap))
            && (v.drain ==> mode == DrainSurplus && v.snap.inFlight > 0 && v.snap.at.model != cfg.name)
  {
    var plan := Plan(env, snaps, now, cfg, mode).value;
    var next := NextWith(env, snaps, now, cfg.name, mode);
    PlanChosen(env, snaps, now, cfg, mode);
    IdsNone(plan[..k], {});
    assert ChosenAt(next, {}, plan, k);
    NextVictimFacts(env, snaps, now, cfg.name, mode, Ids(plan[..k]));
    IdleExactly(env, now, plan[k].snap);
  }

  // ── Drained models keep an instance ─────────────────────────────────────

  /** Masking one of distinctly named instances takes its share out of a sum. */
  lemma {:induction false} UniqueDrop(snaps: seq<Snap>, f: Snap -> nat, g: Snap -> nat, s: Snap)
    requires UniqueIds(snaps) && s in snaps
    requires forall x :: x in snaps ==> g(x) == if x.at.id == s.at.id then 0 else f(x)
    ensures Sum(snaps, g) + f(s) == Sum(snaps, f)
  {
    assert UniqueIds(snaps[1..]);
    assert snaps[0] in snaps;
    if snaps[0] == s {
      forall x | x in snaps[1..] ensures f(x) == g(x) {
        var k :| 0 <= k < |snaps[1..]| && snaps[1..][k] == x;
        assert snaps[k + 1].at.id != snaps[0].at.id;
      }
      SumSame(snaps[1..], f, g);
    } else {
      var k :| 0 <= k < |snaps| && snaps[k] == s;
      assert snaps[1..][k - 1] == s;
      UniqueDrop(snaps[1..], f, g, s);
    }
  }

  lemma UniqueCount(snaps: seq<Snap>, model: ModelName, excluding: set<InstId>, s: Snap)
    requires UniqueIds(snaps) && s in snaps
    ensures LiveCount(snaps, model, excluding + {s.at.id}) + LiveOf(model, excluding)(s)
         == LiveCount(snaps, model, excluding)
  {
    UniqueDrop(snaps, LiveOf(model, excluding), LiveOf(model, excluding + {s.at.id}), s);
  }

  /** Draining leaves at least one planned-around instance in every model that
      had one: a drained victim's model counts two before it is chosen. */
  lemma DrainLeavesOne(env: Env, snaps: seq<Snap>, now: nat, requesting: ModelName, mode: Mode, excluding: set<InstId>,
          model: ModelName)
    requires UniqueIds(snaps)
    requires NextVictim(env, snaps, now, requesting, mode, excluding).Some?
    requires NextVictim(env, snaps, now, requesting, mode, excluding).value.drain
    ensures var v := NextVictim(env, snaps, now, requesting, mode, excluding).value;
            var after := LiveCount(snaps, model, excluding + {v.snap.at.id});
            && (LiveCount(snaps, model, excluding) >= 1 ==> after >= 1)
            && (v.snap.at.model == model ==> after >= 1)
  {
    var v := NextVictim(env, snaps, now, requesting, mode, excluding).value;
    NextVictimFacts(env, snaps, now, requesting, mode, excluding);
    UniqueCount(snaps, model, excluding, v.snap);
  }

  lemma DrainLast(env: Env, snaps: seq<Snap>, now: nat, requesting: ModelName, mode: Mode, plan: seq<Victim>, i: nat,
          k: nat)
    requires Chosen(NextWith(env, snaps, now, requesting, mode), {}, plan) && i <= k < |plan| && plan[i].drain
    ensures NextVictim(env, snaps, now, requesting, mode, Ids(plan[..k])) == Some(plan[k]) && plan[k].drain
  {
    IdsNone(plan[..k], {});
    assert ChosenAt(NextWith(env, snaps, now, requesting, mode), {}, plan, k);
    if i < k {
      PairInOrder(env, snaps, now, requesting, mode, plan, i, k);
    }
  }

  lemma DrainStep(env: Env, snaps: seq<Snap>, now: nat, requesting: ModelName, mode: Mode, plan: seq<Victim>, i: nat,
          k: nat, model: ModelName)
    requires UniqueIds(snaps)
    requires Chosen(NextWith(env, snaps, now, requesting, mode), {}, plan) && i <= k < |plan| && plan[i].drain
    ensures LiveCount(snaps, model, Ids(plan[..k])) >= 1 || plan[k].snap.at.model == model
            ==> LiveCount(snaps, model, Ids(plan[..k + 1])) >= 1
  {
    DrainLast(env, snaps, now, requesting, mode, plan, i, k);
    DrainLeavesOne(env, snaps, now, requesting, mode, Ids(plan[..k]), model);
    IdsSnoc(plan, k);
  }

  lemma {:induction false} DrainedCount(env: Env, snaps: seq<Snap>, now: nat, requesting: ModelName, mode: Mode,
          plan: seq<Victim>, i: nat, k: nat)
    requires UniqueIds(snaps)
    requires Chosen(NextWith(env, snaps, now, requesting, mode), {}, plan) && i <= k < |plan| && plan[i].drain
    ensures LiveCount(snaps, plan[i].snap.at.model, Ids(plan[..k + 1])) >= 1
    decreases k - i
  {
    if i < k {
      DrainedCount(env, snaps, now, requesting, mode, plan, i, k - 1);
    }
    DrainStep(env, snaps, now, requesting, mode, plan, i, k, plan[i].snap.at.model);
  }

  /** Every model with a drained victim keeps a non-retiring instance that no
      victim of the plan takes away. */
  lemma DrainedModelsSurvive(env: Env, snaps: seq<Snap>, now: nat, cfg: ModelConfig, mode: Mode, k: nat)
    requires UniqueIds(snaps)
    requires Plan(env, snaps, now, cfg, mode).Some? && k < |Plan(env, snaps, now, cfg, mode).value|
    requires Plan(env, snaps, now, cfg, mode).value[k].drain
    ensures var plan := Plan(env, snaps, now, cfg, mode).value;
            exists s :: s in snaps && s.at.model == plan[k].snap.at.model && s.state != Failed && s.at.id !in Ids(plan)
  {
    var plan := Plan(env, snaps, now, cfg, mode).value;
    PlanChosen(env, snaps, now, cfg, mode);
    ModelSurvives(env, snaps, now, cfg.name, mode, plan, k);
  }

  lemma ModelSurvives(env: Env, snaps: seq<Snap>, now: nat, requesting: ModelName, mode: Mode, plan: seq<Victim>,
          k: nat)
    requires UniqueIds(snaps)
    requires Chosen(NextWith(env, snaps, now, requesting, mode), {}, plan) && k < |plan| && plan[k].drain
    ensures exists s :: s in snaps && s.at.model == plan[k].snap.at.model && s.state != Failed && s.at.id !in Ids(plan)
  {
    DrainedCount(env, snaps, now, requesting, mode, plan, k, |plan| - 1);
    assert plan[..|plan| - 1 + 1] == plan;
    SumWitness(snaps, LiveOf(plan[k].snap.at.model, Ids(plan)));
  }

  lemma {:induction false} SumWitness(snaps: seq<Snap>, f: Snap -> nat)
    requires Sum(snaps, f) >= 1
    ensures exists s :: s in snaps && f(s) >= 1
  {
    if forall s :: s in snaps ==> f(s) == 0 {
      SumZero(snaps, f);
    }
  }

  // ── Where the planner's documentation promises more than it does ────────

  predicate Serving(s: Snap, model: ModelName) { s.at.model == model && s.state == Ready }

  /** Idle, but not for long enough to be evicted. */
  predicate Protected(env: Env, now: nat, s: Snap, model: ModelName) {
    Serving(s, model) && s.inFlight == 0 && !Idle(env, now, s)
  }

  ghost predicate KeepsServing(snaps: seq<Snap>, model: ModelName, plan: seq<Victim>) {
    exists s :: s in snaps && Serving(s, model) && s.at.id !in Ids(plan)
  }

  ghost predicate Drains(plan: seq<Victim>, model: ModelName) {
    exists k :: 0 <= k < |plan| && plan[k].drain && plan[k].snap.at.model == model
  }

  /** What the registry shows before the search: the model is the requesting
      one, has nothing loading, has an idle instance that is still protected,
      or nothing busy. */
  ghost predicate SafeToDrain(env: Env, snaps: seq<Snap>, now: nat, requesting: ModelName, model: ModelName) {
    || model == requesting
    || (forall s :: s in snaps && s.at.model == model ==> s.state != Loading)
    || (exists s :: s in snaps && Protected(env, now, s, model))
    || (forall s :: s in snaps && Serving(s, model) ==> s.inFlight == 0)
  }

  lemma VictimIs(env: Env, snaps: seq<Snap>, now: nat, requesting: ModelName, mode: Mode, plan: seq<Victim>, k: nat)
    requires Chosen(NextWith(env, snaps, now, requesting, mode), {}, plan) && k < |plan|
    ensures plan[k].snap in snaps && plan[k].snap.state != Failed
    ensures if plan[k].drain then plan[k].snap.inFlight > 0 && plan[k].snap.at.model != requesting
            else Idle(env, now, plan[k].snap)
  {
    IdsNone(plan[..k], {});
    assert ChosenAt(NextWith(env, snaps, now, requesting, mode), {}, plan, k);
    NextVictimFacts(env, snaps, now, requesting, mode, Ids(plan[..k]));
  }

  lemma SameId(snaps: seq<Snap>, s: Snap, t: Snap)
    requires UniqueIds(snaps) && s in snaps && t in snaps && s.at.id == t.at.id
    ensures s == t
  {
  }

  /** An instance whose id is planned is a victim. */
  lemma PlannedIsVictim(env: Env, snaps: seq<Snap>, now: nat, requesting: ModelName, mode: Mode, plan: seq<Victim>,
          s: Snap)
    returns (k: nat)
    requires UniqueIds(snaps) && Chosen(NextWith(env, snaps, now, requesting, mode), {}, plan)
    requires s in snaps && s.at.id in Ids(plan)
    ensures k < |plan| && plan[k].snap == s
  {
    var v :| v in plan && v.snap.at.id == s.at.id;
    k :| 0 <= k < |plan| && plan[k] == v;
    VictimIs(env, snaps, now, requesting, mode, plan, k);
    SameId(snaps, v.snap, s);
  }

  lemma SafeKeeps(env: Env, snaps: seq<Snap>, now: nat, requesting: ModelName, mode: Mode, plan: seq<Victim>,
          model: ModelName)
    requires ProperSnaps(snaps)
    requires SafeToDrain(env, snaps, now, requesting, model)
    requires Chosen(NextWith(env, snaps, now, requesting, mode), {}, plan) && Drains(plan, model)
    ensures KeepsServing(snaps, model, plan)
  {
    var k: nat :| k < |plan| && plan[k].drain && plan[k].snap.at.model == model;
    VictimIs(env, snaps, now, requesting, mode, plan, k);
    ModelSurvives(env, snaps, now, requesting, mode, plan, k);
    if s :| s in snaps && Protected(env, now, s, model) {
      if s.at.id in Ids(plan) {
        var j := PlannedIsVictim(env, snaps, now, requesting, mode, plan, s);
        VictimIs(env, snaps, now, requesting, mode, plan, j);
      }
    } else {
      assert Serving(plan[k].snap, model);
    }
  }

  lemma {:induction false} GreedyNever(next: set<InstId> -> Option<Victim>, all: set<InstId>, excluding: set<InstId>)
    requires Fresh(next, all)
    ensures Greedy((x: set<InstId>) => false, next, all, excluding).None?
    decreases |all - excluding|
  {
    if next(excluding).Some? {
      FewerLeft(all, excluding, next(excluding).value.snap.at.id);
      GreedyNever(next, all, excluding + {next(excluding).value.snap.at.id});
    }
  }

  /** The search run to its end drains every busy instance of a model that
      something loading makes surplus. */
  lemma UnsafeDrainsAll(env: Env, snaps: seq<Snap>, now: nat, requesting: ModelName, model: ModelName)
    returns (plan: seq<Victim>)
    requires ProperSnaps(snaps)
    requires !SafeToDrain(env, snaps, now, requesting, model)
    ensures Chosen(NextWith(env, snaps, now, requesting, DrainSurplus), {}, plan)
    ensures Drains(plan, model) && !KeepsServing(snaps, model, plan)
  {
    var next := NextWith(env, snaps, now, requesting, DrainSurplus);
    NextIsFresh(env, snaps, now, requesting, DrainSurplus);
    GreedyNever(next, AllIds(snaps), {});
    plan := GreedyStuck((x: set<InstId>) => false, next, AllIds(snaps), {});
    IdsNone(plan, {});
    var gone := Ids(plan);
    NextVictimFacts(env, snaps, now, requesting, DrainSurplus, gone);
    forall s | s in snaps && Serving(s, model) ensures s.at.id in gone {
      if s.inFlight == 0 {
        assert !IdleVictims(env, now, gone)(s);
      } else {
        BusyIsTaken(env, snaps, now, requesting, model, plan, s);
      }
    }
    var busy :| busy in snaps && Serving(busy, model) && busy.inFlight > 0;
    var k := PlannedIsVictim(env, snaps, now, requesting, DrainSurplus, plan, busy);
    VictimIs(env, snaps, now, requesting, DrainSurplus, plan, k);
  }

  lemma BusyIsTaken(env: Env, snaps: seq<Snap>, now: nat, requesting: ModelName, model: ModelName, plan: seq<Victim>,
          s: Snap)
    requires ProperSnaps(snaps)
    requires Chosen(NextWith(env, snaps, now, requesting, DrainSurplus), {}, plan)
    requires NextVictim(env, snaps, now, requesting, DrainSurplus, Ids(plan)).None?
    requires !SafeToDrain(env, snaps, now, requesting, model)
    requires s in snaps && Serving(s, model) && s.inFlight > 0
    ensures s.at.id in Ids(plan)
  {
    var gone := Ids(plan);
    var loading :| loading in snaps && loading.at.model == model && loading.state == Loading;
    if loading.at.id in gone {
      var k := PlannedIsVictim(env, snaps, now, requesting, DrainSurplus, plan, loading);
      VictimIs(env, snaps, now, requesting, DrainSurplus, plan, k);
      assert false;
    }
    if s.at.id !in gone {
      UniqueCount(snaps, model, gone, s);
      SumMember(snaps, loading, LiveOf(model, gone + {s.at.id}));
      assert LiveCount(snaps, model, gone) >= 2;
      EmptyKeep(snaps, BusySurplus(snaps, requesting, gone));
      assert false;
    }
  }

  /** If the search chooses these victims, one after the other, and drains an
      instance of `model`, it leaves the model a Ready instance. */
  ghost predicate PromiseKept(env: Env, snaps: seq<Snap>, now: nat, requesting: ModelName, model: ModelName,
          plan: seq<Victim>) {
    Chosen(NextWith(env, snaps, now, requesting, DrainSurplus), {}, plan) && Drains(plan, model) ==>
      KeepsServing(snaps, model, plan)
  }

  /** "The last serving instance of a model is never drained": the search,
      however far it has to go, keeps that promise to a model if and only if
      the registry shows it safe beforehand.  What breaks it is a Loading
      instance, which the surplus count includes. */
  lemma DrainKeepsServing(env: Env, snaps: seq<Snap>, now: nat, requesting: ModelName, model: ModelName)
    requires ProperSnaps(snaps)
    ensures (forall plan :: PromiseKept(env, snaps, now, requesting, model, plan))
            <==> SafeToDrain(env, snaps, now, requesting, model)
  {
    if SafeToDrain(env, snaps, now, requesting, model) {
      forall plan ensures PromiseKept(env, snaps, now, requesting, model, plan) {
        if Chosen(NextWith(env, snaps, now, requesting, DrainSurplus), {}, plan) && Drains(plan, model) {
          SafeKeeps(env, snaps, now, requesting, DrainSurplus, plan, model);
        }
      }
    } else {
      var plan := UnsafeDrainsAll(env, snaps, now, requesting, model);
      assert !PromiseKept(env, snaps, now, requesting, model, plan);
    }
  }

  /** So every plan keeps a serving instance of each model it drains from, if
      that model is safe to drain. */
  lemma PlanKeepsServing(env: Env, snaps: seq<Snap>, now: nat, cfg: ModelConfig, mode: Mode, model: ModelName)
    requires ProperSnaps(snaps)
    requires Plan(env, snaps, now, cfg, mode).Some? && Drains(Plan(env, snaps, now, cfg, mode).value, model)
    requires SafeToDrain(env, snaps, now, cfg.name, model)
    ensures KeepsServing(snaps, model, Plan(env, snaps, now, cfg, mode).value)
  {
    PlanChosen(env, snaps, now, cfg, mode);
    SafeKeeps(env, snaps, now, cfg.name, mode, Plan(env, snaps, now, cfg, mode).value, model);
  }

  lemma SumTwo<T>(x: T, y: T, f: T -> nat)
    ensures Sum([x, y], f) == f(x) + f(y)
  {
    assert [x, y][1..] == [y] && [y][1..] == [];
    assert Sum([y], f) == f(y) + Sum([y][1..], f);
  }

  lemma KeepTwo(x: Snap, y: Snap, p: Snap -> bool)
    ensures Keep([x, y], p) == (if p(x) then [x] else []) + (if p(y) then [y] else [])
  {
    assert [x, y][1..] == [y] && [y][1..] == [];
  }

  const TINY := ModelConfig("", 2, 1, 1, 0, 1, [], [], [], 1)

  /** Two one-megabyte GPUs, model "a" on both, and model "b" pinned to `pool`. */
  function TwoGpus(pool: seq<nat>): Env {
    Env(map["a" := TINY.(name := "a", vulkanDevices := [0, 1]), "b" := TINY.(name := "b", vulkanDevices := pool)],
        map[0 := "s0", 1 := "s1"], map[], map[], map[], map[], [Gpu("s0", MB), Gpu("s1", MB)])
  }

  function DeviceSlot(dev: nat): Slot { if dev == 0 then "s0" else "s1" }

  lemma TwoGpusUsed(env: Env, x: Placed, y: Placed, dev: nat, excluding: set<InstId>)
    requires dev <= 1 && env == TwoGpus([dev])
    requires x.model == "a" && x.gpus == [0] && y.model == "a" && y.gpus == [1] && x.id != y.id
    ensures VramUsed(env, [x, y], excluding, DeviceSlot(dev))
         == if (if dev == 0 then x.id in excluding else y.id in excluding) then 0 else MB
    ensures FindGpu(env.snapshot, DeviceSlot(dev)) == Some(Gpu(DeviceSlot(dev), MB))
  {
    var slot := DeviceSlot(dev);
    SumTwo(x, y, VramOn(env, slot, excluding));
    assert env.KindOf("a") == Vulkan;
    assert forall w: nat, i: nat :: Sum([i], OnSlot(env, "a", slot, w)) == OnSlot(env, "a", slot, w)(i);
    assert "s0" != "s1" by { assert "s0"[1] != "s1"[1]; }
    assert "a" != "b" by { assert "a"[0] != "b"[0]; }
    assert env.snapshot[1..] == [Gpu("s1", MB)];
  }

  lemma TwoGpusFeasible(env: Env, x: Snap, y: Snap, dev: nat, excluding: set<InstId>)
    requires dev <= 1 && env == TwoGpus([dev])
    requires x.at.model == "a" && x.at.gpus == [0] && y.at.model == "a" && y.at.gpus == [1] && x.at.id != y.at.id
    ensures SpawnFeasible(env, [x, y], excluding, env.configs["b"])
            <==> (if dev == 0 then x.at.id in excluding else y.at.id in excluding)
  {
    var cfg := env.configs["b"];
    SumTwo(x, y, LiveOf("b", excluding));
    TwoGpusUsed(env, x.at, y.at, dev, excluding);
    assert [x, y][1..] == [y] && [y][1..] == [];
    assert Places([y]) == [y.at] + Places([y][1..]);
    assert Places([x, y]) == [x.at, y.at] by { assert [x.at] + Places([x, y][1..]) == [x.at, y.at]; }
    assert cfg.Pool() == [dev] && cfg.Kind() == Vulkan;
    assert "a" != "b" by { assert "a"[0] != "b"[0]; }
    SelectSize(env, [x.at, y.at], excluding, cfg);
    assert Keep([dev], EligiblePred(env, [x.at, y.at], excluding, cfg))
        == if Eligible(env, [x.at, y.at], excluding, cfg, dev) then [dev] else [];
  }

  lemma OnlyReadyIsVictim(busy: Snap, loading: Snap)
    requires busy == Snap(Placed(0, "a", [0]), Ready, 1, 0)
    requires loading == Snap(Placed(1, "a", [1]), Loading, 0, 0)
    ensures NextVictim(TwoGpus([0]), [busy, loading], 0, "b", DrainSurplus, {}) == Some(Victim(busy, true))
  {
    var env := TwoGpus([0]);
    var snaps := [busy, loading];
    SumTwo(busy, loading, LiveOf("a", {}));
    KeepTwo(busy, loading, IdleSurplus(env, snaps, 0, {}));
    KeepTwo(busy, loading, IdleVictims(env, 0, {}));
    KeepTwo(busy, loading, BusySurplus(snaps, "b", {}));
    assert "a" != "b" by { assert "a"[0] != "b"[0]; }
    assert [busy][1..] == [];
  }

  /** "Never leave a model without a serving instance" fails: the only Ready
      instance of "a" is drained because a Loading one makes it surplus. */
  lemma DrainTakesLastServing(busy: Snap, loading: Snap)
    requires busy == Snap(Placed(0, "a", [0]), Ready, 1, 0)
    requires loading == Snap(Placed(1, "a", [1]), Loading, 0, 0)
    ensures var env := TwoGpus([0]);
            Plan(env, [busy, loading], 0, env.configs["b"], DrainSurplus) == Some([Victim(busy, true)])
  {
    var env := TwoGpus([0]);
    var snaps := [busy, loading];
    TwoGpusFeasible(env, busy, loading, 0, {});
    TwoGpusFeasible(env, busy, loading, 0, {0});
    OnlyReadyIsVictim(busy, loading);
    NextIsFresh(env, snaps, 0, "b", DrainSurplus);
    assert {} + {0} == {0};
    assert Greedy(FeasibleWith(env, snaps, env.configs["b"]), NextWith(env, snaps, 0, "b", DrainSurplus), AllIds(snaps), {0}) == Some([]);
    assert [Victim(busy, true)] + [] == [Victim(busy, true)];
  }

  /** The two duplicates, both busy; the first one is drained first, and that
      leaves no victim. */
  lemma DuplicateVictims(first: Snap, second: Snap)
    requires first == Snap(Placed(0, "a", [0]), Ready, 1, 0)
    requires second == Snap(Placed(1, "a", [1]), Ready, 2, 0)
    ensures NextVictim(TwoGpus([1]), [first, second], 0, "b", DrainSurplus, {}) == Some(Victim(first, true))
    ensures BusySurplus([first, second], "b", {})(second)
  {
    var env := TwoGpus([1]);
    var snaps := [first, second];
    SumTwo(first, second, LiveOf("a", {}));
    assert "a" != "b" by { assert "a"[0] != "b"[0]; }
    KeepTwo(first, second, IdleSurplus(env, snaps, 0, {}));
    KeepTwo(first, second, IdleVictims(env, 0, {}));
    KeepTwo(first, second, BusySurplus(snaps, "b", {}));
    assert snaps[1..] == [second] && [second][1..] == [];
  }

  lemma NoSecondVictim(first: Snap, second: Snap)
    requires first == Snap(Placed(0, "a", [0]), Ready, 1, 0)
    requires second == Snap(Placed(1, "a", [1]), Ready, 2, 0)
    ensures NextVictim(TwoGpus([1]), [first, second], 0, "b", DrainSurplus, {0}) == None
  {
    var env := TwoGpus([1]);
    var snaps := [first, second];
    SumTwo(first, second, LiveOf("a", {0}));
    KeepTwo(first, second, IdleSurplus(env, snaps, 0, {0}));
    KeepTwo(first, second, IdleVictims(env, 0, {0}));
    KeepTwo(first, second, BusySurplus(snaps, "b", {0}));
  }

  /** "No plan means no allowed eviction gets there" fails with draining: here
      the least busy duplicate is drained first, the model is then down to its
      last instance, and no plan is returned, although draining the other
      duplicate alone is allowed and would have been enough. */
  lemma DrainSurplusNotExhaustive(first: Snap, second: Snap)
    requires first == Snap(Placed(0, "a", [0]), Ready, 1, 0)
    requires second == Snap(Placed(1, "a", [1]), Ready, 2, 0)
    ensures var env := TwoGpus([1]);
            && Plan(env, [first, second], 0, env.configs["b"], DrainSurplus).None?
            && BusySurplus([first, second], "b", {})(second)
            && SpawnFeasible(env, [first, second], {1}, env.configs["b"])
  {
    var env := TwoGpus([1]);
    var snaps := [first, second];
    TwoGpusFeasible(env, first, second, 1, {});
    TwoGpusFeasible(env, first, second, 1, {0});
    TwoGpusFeasible(env, first, second, 1, {1});
    DuplicateVictims(first, second);
    NoSecondVictim(first, second);
    NextIsFresh(env, snaps, 0, "b", DrainSurplus);
    assert {} + {0} == {0};
    assert Greedy(FeasibleWith(env, snaps, env.configs["b"]), NextWith(env, snaps, 0, "b", DrainSurplus), AllIds(snaps), {0}) == None;
  }
}
