/** Placement safety over runs: VRAM per PCI slot, and disjoint slots within a
    model. */
module PlacementSafety {
  import opened Base
  import opened Sums
  import opened Types
  import opened Placement
  import opened Devices
  import opened Machine
  import opened Waking
  import opened Books

  // ── What is kept ────────────────────────────────────────────────────────

  /** A configured model lists a device in this slot whose size is known, and
      `bytes` exceed neither its configured nor its reported size. */
  ghost predicate GrantedBy(env: Env, m: ModelName, idx: nat, slot: Slot, bytes: nat) {
    m in env.configs && Listed(env.configs[m], idx) && SitsIn(env, env.configs[m], idx, slot)
    && Sized(env, env.configs[m], idx, slot) && Within(env, env.configs[m], idx, slot, bytes)
  }

  ghost predicate Granted(env: Env, slot: Slot, used: nat) {
    used == 0 || exists m, idx :: GrantedBy(env, m, idx, slot, used)
  }

  lemma GrantedLess(env: Env, slot: Slot, used: nat, less: nat)
    requires Granted(env, slot, used) && less <= used
    ensures Granted(env, slot, less)
  {
    if m, idx :| GrantedBy(env, m, idx, slot, used) {
      assert GrantedBy(env, m, idx, slot, less);
    }
  }

  function Placing(f: Fleet): seq<Placed> { Layout(f.info, f.registry) }

  /** What all registered instances, retiring ones included, declare on a slot
      is granted by some device there. */
  ghost predicate VramOk(env: Env, placed: seq<Placed>) {
    forall slot :: Granted(env, slot, Declared(env, placed, {}, slot))
  }

  /** Instances of one model never share a slot. */
  ghost predicate SlotsDisjoint(env: Env, f: Fleet) {
    forall i, j :: i in f.registry && j in f.registry && i != j ==> Apart(env, f.info, i, j)
  }

  /** The two instances are of different models or share no slot. */
  ghost predicate Apart(env: Env, info: map<InstId, Info>, i: InstId, j: InstId) {
    i in info && j in info && info[i].model == info[j].model ==>
      forall slot :: !(Holds(env, info[i].model, info[i].gpus, slot) && Holds(env, info[j].model, info[j].gpus, slot))
  }

  /** The devices chosen for a spawn stay eligible until it registers. */
  ghost predicate ChoiceOk(env: Env, placed: seq<Placed>, m: ModelName, p: Phase) {
    p.Selected? && m in env.configs ==>
      NoDup(p.gpus) && forall k :: 0 <= k < |p.gpus| ==> Choice(env, placed, env.configs[m], p.gpus[k])
  }

  /** A listed device that may still be taken. */
  ghost predicate Choice(env: Env, placed: seq<Placed>, cfg: ModelConfig, idx: nat) {
    Listed(cfg, idx) && Eligible(env, placed, {}, cfg, idx)
  }

  ghost predicate ChoicesOk(env: Env, placed: seq<Placed>, spawns: map<ModelName, Phase>) {
    forall m :: m in spawns ==> ChoiceOk(env, placed, m, spawns[m])
  }

  ghost predicate PlacementInv(env: Env, s: State) {
    VramOk(env, Placing(s.fleet)) && SlotsDisjoint(env, s.fleet) && ChoicesOk(env, Placing(s.fleet), s.spawns)
  }

  /** Validation does not reject repeated indices in a pool; placement safety needs them absent. */
  ghost predicate DistinctPools(env: Env) {
    forall m :: m in env.configs ==> NoDup(env.configs[m].Pool())
  }

  // ── Registration ────────────────────────────────────────────────────────

  lemma {:induction false} LayoutConcat(info: map<InstId, Info>, a: seq<InstId>, b: seq<InstId>)
    ensures Layout(info, a + b) == Layout(info, a) + Layout(info, b)
  {
    if a == [] {
      assert a + b == b;
    } else {
      LayoutConcat(info, a[1..], b);
      assert (a + b)[1..] == a[1..] + b;
    }
  }

  lemma {:induction false} LayoutSame(info: map<InstId, Info>, info': map<InstId, Info>, list: seq<InstId>)
    requires forall i :: i in list ==> At(info, i) == At(info', i)
    ensures Layout(info, list) == Layout(info', list)
  {
    if list != [] {
      assert list[0] in list;
      LayoutSame(info, info', list[1..]);
    }
  }

  lemma {:induction false} LayoutIn(info: map<InstId, Info>, list: seq<InstId>)
    ensures forall p :: p in Layout(info, list) <==> p.id in list && p == At(info, p.id)
  {
    if list != [] {
      LayoutIn(info, list[1..]);
      assert list == [list[0]] + list[1..];
    }
  }

  /** The layout after registering one instance. */
  lemma RegisterLayout(env: Env, s: State, m: ModelName, port: Port, gpus: seq<nat>)
    requires RegistryOk(s.fleet)
    ensures Placing(RegisterInstance(env, s, m, port, gpus).fleet)
         == Placing(s.fleet) + [Placed(s.fleet.nextInst, m, gpus)]
  {
    var f' := RegisterInstance(env, s, m, port, gpus).fleet;
    LayoutConcat(f'.info, s.fleet.registry, [s.fleet.nextInst]);
    LayoutSame(s.fleet.info, f'.info, s.fleet.registry);
    assert [s.fleet.nextInst][1..] == [];
  }

  /** Distinct devices of one namespace lie on distinct slots, so an instance
      is charged at most once per slot, and only if one of them lies on it. */
  lemma {:induction false} ChargedOnce(env: Env, m: ModelName, gpus: seq<nat>, slot: Slot, w: nat)
    requires env.Valid() && NoDup(gpus)
    ensures Sum(gpus, OnSlot(env, m, slot, w)) == (if Holds(env, m, gpus, slot) then w else 0)
  {
    if gpus != [] {
      var rest := gpus[1..];
      assert NoDup(rest);
      ChargedOnce(env, m, rest, slot, w);
      if env.SlotFor(m, gpus[0]) == Some(slot) {
        forall k | 0 <= k < |rest| ensures env.SlotFor(m, rest[k]) != Some(slot) {
          assert gpus[k + 1] != gpus[0];
        }
        assert Holds(env, m, gpus, slot);
      } else {
        assert gpus == [gpus[0]] + rest;
        assert forall k :: 0 <= k < |rest| ==> gpus[k + 1] == rest[k];
        assert Holds(env, m, gpus, slot) == Holds(env, m, rest, slot);
      }
    }
  }

  /** What eligibility of a device says about its slot. */
  lemma EligibleSlot(env: Env, placed: seq<Placed>, cfg: ModelConfig, idx: nat, slot: Slot)
    requires Eligible(env, placed, {}, cfg, idx) && SitsIn(env, cfg, idx, slot)
    ensures !Occupied(env, placed, {}, cfg.name, slot)
    ensures Sized(env, cfg, idx, slot)
    ensures cfg.vram > 0 ==> Within(env, cfg, idx, slot, Declared(env, placed, {}, slot) + cfg.vram * 1_048_576)
  {
    EligibleAt(env, placed, {}, cfg, idx, slot);
    FreeOfExactly(env, placed, {}, cfg.name, slot);
  }

  /** A new instance adds what it declares to the slots it sits on. */
  lemma DeclaredPush(env: Env, placed: seq<Placed>, i: InstId, m: ModelName, gpus: seq<nat>, slot: Slot)
    requires env.Valid() && m in env.configs && NoDup(gpus)
    ensures Declared(env, placed + [Placed(i, m, gpus)], {}, slot) == Declared(env, placed, {}, slot)
         + if Holds(env, m, gpus, slot) then env.configs[m].vram * 1_048_576 else 0
  {
    DeclaredExactly(env, placed, {}, slot);
    DeclaredExactly(env, placed + [Placed(i, m, gpus)], {}, slot);
    SumPush(placed, Placed(i, m, gpus), VramOn(env, slot, {}));
    ChargedOnce(env, m, gpus, slot, env.VramOf(m));
  }

  /** A chosen device grants what it is chosen for. */
  lemma ChoiceGrants(env: Env, placed: seq<Placed>, m: ModelName, idx: nat, slot: Slot)
    requires m in env.configs && env.configs[m].vram > 0
    requires Choice(env, placed, env.configs[m], idx) && SitsIn(env, env.configs[m], idx, slot)
    ensures Granted(env, slot, Declared(env, placed, {}, slot) + env.configs[m].vram * 1_048_576)
  {
    EligibleSlot(env, placed, env.configs[m], idx, slot);
    assert GrantedBy(env, m, idx, slot, Declared(env, placed, {}, slot) + env.configs[m].vram * 1_048_576);
  }

  lemma HeldDevice(env: Env, m: ModelName, gpus: seq<nat>, slot: Slot) returns (k: nat)
    requires m in env.configs && Holds(env, m, gpus, slot)
    ensures k < |gpus| && SitsIn(env, env.configs[m], gpus[k], slot)
  {
    k :| 0 <= k < |gpus| && env.SlotFor(m, gpus[k]) == Some(slot);
    SitsExactly(env, m, gpus[k], slot);
  }

  lemma VramAfterRegister(env: Env, placed: seq<Placed>, i: InstId, m: ModelName, gpus: seq<nat>, slot: Slot)
    requires env.Valid() && m in env.configs && NoDup(gpus)
    requires forall k :: 0 <= k < |gpus| ==> Choice(env, placed, env.configs[m], gpus[k])
    requires Granted(env, slot, Declared(env, placed, {}, slot))
    ensures Granted(env, slot, Declared(env, placed + [Placed(i, m, gpus)], {}, slot))
  {
    DeclaredPush(env, placed, i, m, gpus, slot);
    if Holds(env, m, gpus, slot) && env.configs[m].vram > 0 {
      var k := HeldDevice(env, m, gpus, slot);
      ChoiceGrants(env, placed, m, gpus[k], slot);
    }
  }

  lemma NewcomerAlone(env: Env, f: Fleet, m: ModelName, gpus: seq<nat>, j: InstId, slot: Slot)
    requires env.Valid() && m in env.configs && j in f.registry && IsOf(f, j, m)
    requires forall k :: 0 <= k < |gpus| ==> Choice(env, Placing(f), env.configs[m], gpus[k])
    ensures !(Holds(env, m, f.info[j].gpus, slot) && Holds(env, m, gpus, slot))
  {
    if Holds(env, m, gpus, slot) {
      var k := HeldDevice(env, m, gpus, slot);
      assert Choice(env, Placing(f), env.configs[m], gpus[k]);
      EligibleSlot(env, Placing(f), env.configs[m], gpus[k], slot);
      LayoutIn(f.info, f.registry);
      assert At(f.info, j) in Placing(f);
    }
  }

  lemma NewcomerApart(env: Env, f: Fleet, m: ModelName, gpus: seq<nat>, j: InstId)
    requires env.Valid() && m in env.configs && j in f.registry && j in f.info
    requires forall k :: 0 <= k < |gpus| ==> Choice(env, Placing(f), env.configs[m], gpus[k])
    ensures f.info[j].model == m ==>
              forall slot :: !(Holds(env, m, f.info[j].gpus, slot) && Holds(env, m, gpus, slot))
  {
    if f.info[j].model == m {
      forall slot ensures !(Holds(env, m, f.info[j].gpus, slot) && Holds(env, m, gpus, slot)) {
        NewcomerAlone(env, f, m, gpus, j, slot);
      }
    }
  }

  lemma PlacementRegister(env: Env, s: State, m: ModelName)
    requires env.Valid() && BooksOk(s) && PlacementInv(env, s)
    requires SpawnEnabled(env, s, m, Register)
    ensures PlacementInv(env, SpawnNext(env, s, m, Register))
  {
    var p := s.spawns[m];
    var t := SpawnNext(env, s, m, Register);
    assert ChoiceOk(env, Placing(s.fleet), m, p);
    RegisterLayout(env, s, m, p.port, p.gpus);
    forall slot ensures Granted(env, slot, Declared(env, Placing(t.fleet), {}, slot)) {
      VramAfterRegister(env, Placing(s.fleet), s.fleet.nextInst, m, p.gpus, slot);
    }
    RegisterDisjoint(env, s, m);
    forall n | n in t.spawns ensures ChoiceOk(env, Placing(t.fleet), n, t.spawns[n]) {
      assert NeedsPermit(t.spawns[n]) ==> n == m;
    }
  }

  lemma RegisterDisjoint(env: Env, s: State, m: ModelName)
    requires env.Valid() && RegistryOk(s.fleet) && PlacementInv(env, s)
    requires SpawnEnabled(env, s, m, Register)
    ensures SlotsDisjoint(env, SpawnNext(env, s, m, Register).fleet)
  {
    var p := s.spawns[m];
    var f' := SpawnNext(env, s, m, Register).fleet;
    var new_ := s.fleet.nextInst;
    assert ChoiceOk(env, Placing(s.fleet), m, p);
    forall i, j | i in f'.registry && j in f'.registry && i != j ensures Apart(env, f'.info, i, j) {
      if i == new_ {
        NewcomerApart(env, s.fleet, m, p.gpus, j);
      } else if j == new_ {
        NewcomerApart(env, s.fleet, m, p.gpus, i);
      } else {
        assert Apart(env, s.fleet.info, i, j);
      }
    }
  }

  // ── Removal ─────────────────────────────────────────────────────────────

  lemma {:induction false} LayoutDrop(info: map<InstId, Info>, list: seq<InstId>, i: InstId)
    ensures Layout(info, Drop(list, i)) == Without(Layout(info, list), {i})
  {
    if list != [] {
      LayoutDrop(info, list[1..], i);
      assert Layout(info, list)[1..] == Layout(info, list[1..]);
      if list[0] != i {
        assert Drop(list, i)[1..] == Drop(list[1..], i);
      }
    }
  }

  lemma VramDrops(env: Env, placed: seq<Placed>, i: InstId, slot: Slot)
    ensures Declared(env, Without(placed, {i}), {}, slot) <= Declared(env, placed, {}, slot)
  {
    DeclaredExactly(env, placed, {}, slot);
    DeclaredExactly(env, Without(placed, {i}), {}, slot);
    SumKeep(placed, NotIn({i}), VramOn(env, slot, {}), VramOn(env, slot, {i}));
    SumLe(placed, VramOn(env, slot, {i}), VramOn(env, slot, {}));
  }

  lemma PlacementUnregister(env: Env, s: State, i: InstId)
    requires RegistryOk(s.fleet) && PlacementInv(env, s) && Known(s.fleet, i) && s.fleet.life[i].unregs > 0
    ensures PlacementInv(env, UnregisterInstance(s, i))
  {
    var t := UnregisterInstance(s, i);
    if i in s.fleet.registry {
      LayoutDrop(s.fleet.info, s.fleet.registry, i);
      DropFacts(s.fleet.registry, i);
      var placed := Placing(s.fleet);
      assert Placing(t.fleet) == Without(placed, {i});
      forall slot ensures Granted(env, slot, Declared(env, Placing(t.fleet), {}, slot)) {
        VramDrops(env, placed, i, slot);
        GrantedLess(env, slot, Declared(env, placed, {}, slot), Declared(env, Placing(t.fleet), {}, slot));
      }
      forall m | m in t.spawns ensures ChoiceOk(env, Placing(t.fleet), m, t.spawns[m]) {
        ChoiceSurvives(env, placed, i, m, s.spawns[m]);
      }
    }
  }

  lemma ChoiceSurvives(env: Env, placed: seq<Placed>, i: InstId, m: ModelName, p: Phase)
    requires ChoiceOk(env, placed, m, p)
    ensures ChoiceOk(env, Without(placed, {i}), m, p)
  {
    if p.Selected? && m in env.configs {
      forall k | 0 <= k < |p.gpus| ensures Choice(env, Without(placed, {i}), env.configs[m], p.gpus[k]) {
        assert Choice(env, placed, env.configs[m], p.gpus[k]);
        EligibleMonotone(env, placed, {}, {i}, env.configs[m], p.gpus[k]);
        ExclusionIsRemoval(env, placed, {i}, env.configs[m], p.gpus[k]);
      }
    }
  }

  // ── The other steps ─────────────────────────────────────────────────────

  /** The step registered, unregistered and chose nothing. */
  ghost predicate SameLayout(s: State, t: State) {
    && t.fleet.info == s.fleet.info && t.fleet.registry == s.fleet.registry
    && (forall m :: m in t.spawns && t.spawns[m].Selected? ==> m in s.spawns && s.spawns[m] == t.spawns[m])
  }

  lemma PlacementSame(env: Env, s: State, t: State)
    requires PlacementInv(env, s) && SameLayout(s, t)
    ensures PlacementInv(env, t)
  {
    forall m | m in t.spawns ensures ChoiceOk(env, Placing(t.fleet), m, t.spawns[m]) {
      assert t.spawns[m].Selected? ==> ChoiceOk(env, Placing(s.fleet), m, s.spawns[m]);
    }
  }

  lemma PlacementSelect(env: Env, s: State, m: ModelName)
    requires env.Valid() && DistinctPools(env) && PlacementInv(env, s)
    requires SpawnEnabled(env, s, m, SelectDevices)
    ensures PlacementInv(env, SpawnNext(env, s, m, SelectDevices))
  {
    var cfg := env.configs[m];
    var placed := Placing(s.fleet);
    var gpus := Select(env, placed, {}, cfg);
    var t := SpawnNext(env, s, m, SelectDevices);
    SelectMeetsSpec(env, placed, {}, cfg, cfg.Pool());
    ChosenEligible(env, placed, cfg);
    forall n | n in t.spawns ensures ChoiceOk(env, placed, n, t.spawns[n]) {
      if n != m {
        assert ChoiceOk(env, placed, n, s.spawns[n]);
      }
    }
  }

  lemma ChosenEligible(env: Env, placed: seq<Placed>, cfg: ModelConfig)
    requires cfg.gpus >= 1 && NoDup(cfg.Pool())
    ensures var r := Select(env, placed, {}, cfg);
            NoDup(r) && forall k :: 0 <= k < |r| ==> Choice(env, placed, cfg, r[k])
  {
    var r := Select(env, placed, {}, cfg);
    SelectMeetsSpec(env, placed, {}, cfg, cfg.Pool());
    if r != [] {
      assert BestChoice(env, placed, {}, cfg, cfg.Pool(), r);
      forall i, j | 0 <= i < j < |r| ensures r[i] != r[j] {
        assert Preferred(env, placed, {}, cfg, r[i], r[j]);
      }
    }
  }

  lemma PlacementSpawn(env: Env, s: State, m: ModelName, act: SpawnStep)
    requires env.Valid() && DistinctPools(env) && BooksOk(s) && PlacementInv(env, s)
    requires SpawnEnabled(env, s, m, act)
    ensures PlacementInv(env, SpawnNext(env, s, m, act))
  {
    match act
    case Register => PlacementRegister(env, s, m);
    case SelectDevices => PlacementSelect(env, s, m);
    case _ =>
      SpawnKeepsLayout(env, s, m, act);
      PlacementSame(env, s, SpawnNext(env, s, m, act));
  }

  lemma SpawnKeepsLayout(env: Env, s: State, m: ModelName, act: SpawnStep)
    requires SpawnEnabled(env, s, m, act) && !act.Register? && !act.SelectDevices?
    ensures SameLayout(s, SpawnNext(env, s, m, act))
  {
  }

  lemma PlacementRemove(env: Env, s: State, i: InstId, act: RemoveStep)
    requires RegistryOk(s.fleet) && PlacementInv(env, s) && RemoveEnabled(s, i, act)
    ensures PlacementInv(env, RemoveNext(s, i, act))
  {
    if act.Unregister? {
      PlacementUnregister(env, s, i);
    } else {
      RemoveIsSetLife(s, i, act);
      PlacementSame(env, s, RemoveNext(s, i, act));
    }
  }

  /** Placement safety is kept by every step, given duplicate-free pools. */
  lemma PlacementStep(env: Env, s: State, step: Step)
    requires env.Valid() && DistinctPools(env) && BooksOk(s) && PlacementInv(env, s)
    requires Enabled(env, s, step)
    ensures PlacementInv(env, Next(env, s, step))
  {
    match step
    case Spawning(m, act) => PlacementSpawn(env, s, m, act);
    case Removing(i, act) => PlacementRemove(env, s, i, act);
    case _ => PlacementCalm(env, s, step);
  }

  lemma PlacementCalm(env: Env, s: State, step: Step)
    requires RegistryOk(s.fleet) && PlacementInv(env, s) && Enabled(env, s, step) && Calm(step)
    ensures PlacementInv(env, Next(env, s, step))
  {
    CalmStanding(env, s, step);
    PlacementSame(env, s, Next(env, s, step));
  }

  // ── What an instance spans ──────────────────────────────────────────────

  /** Devices from the model's list, as many as it asks for, or none for a
      model that lists none. */
  ghost predicate Fitted(env: Env, m: ModelName, gpus: seq<nat>) {
    m in env.configs && var cfg := env.configs[m];
    && (forall k :: 0 <= k < |gpus| ==> Listed(cfg, gpus[k]))
    && |gpus| == if cfg.cudaDevices + cfg.rocmDevices + cfg.vulkanDevices != [] then cfg.gpus else 0
  }

  ghost predicate SpansOk(env: Env, s: State) {
    && (forall i :: i in s.fleet.info ==> Fitted(env, s.fleet.info[i].model, s.fleet.info[i].gpus))
    && (forall m :: m in s.spawns && s.spawns[m].Selected? ==> Fitted(env, m, s.spawns[m].gpus))
  }

  lemma SelectFits(env: Env, placed: seq<Placed>, excluding: set<InstId>, cfg: ModelConfig)
    ensures var r := Select(env, placed, excluding, cfg);
            (r == [] || |r| == cfg.gpus) && (!cfg.HasPool() ==> r == [])
            && forall k :: 0 <= k < |r| ==> Listed(cfg, r[k])
  {
    var r := Select(env, placed, excluding, cfg);
    var cs := Candidates(env, placed, excluding, cfg, cfg.Pool());
    SortSize(cs);
    SortMultiset(cs);
    CandidatesIn(env, placed, excluding, cfg, cfg.Pool());
    forall k | 0 <= k < |r| ensures Listed(cfg, r[k]) {
      assert Sort(cs)[k] in multiset(Sort(cs));
      assert Sort(cs)[k] in cs;
    }
  }

  lemma SpansSpawn(env: Env, s: State, m: ModelName, act: SpawnStep)
    requires SpansOk(env, s) && SpawnEnabled(env, s, m, act)
    ensures SpansOk(env, SpawnNext(env, s, m, act))
  {
    if act.SelectDevices? {
      SelectFits(env, Placing(s.fleet), {}, env.configs[m]);
    } else if act.Register? {
      var t := SpawnNext(env, s, m, act);
      assert t.fleet.info == s.fleet.info[s.fleet.nextInst := Info(m, s.spawns[m].port, s.spawns[m].gpus)];
    } else {
      SpawnKeepsLayout(env, s, m, act);
    }
  }

  /** Every step keeps it, with or without repeats in the lists. */
  lemma SpansStep(env: Env, s: State, step: Step)
    requires BooksOk(s) && SpansOk(env, s) && Enabled(env, s, step)
    ensures SpansOk(env, Next(env, s, step))
  {
    match step
    case Spawning(m, act) => SpansSpawn(env, s, m, act);
    case Removing(i, act) =>
      if !act.Unregister? {
        RemoveIsSetLife(s, i, act);
      }
    case _ =>
      CalmStanding(env, s, step);
  }
}
