/** Device selection in terms of the configuration and the snapshot alone: which
    devices may be taken, in which order, and what a slot has room for. */
module Devices {
  import opened Base
  import opened Sums
  import opened Types
  import opened Placement

  // ── What the configuration and the snapshot say ─────────────────────────

  /** The device is on the one list of the model that is in use. */
  ghost predicate Listed(cfg: ModelConfig, idx: nat) {
    if cfg.cudaDevices != [] then idx in cfg.cudaDevices
    else if cfg.rocmDevices != [] then idx in cfg.rocmDevices
    else idx in cfg.vulkanDevices
  }

  /** A device of a model configured like this sits in `slot`. */
  ghost predicate SitsIn(env: Env, cfg: ModelConfig, idx: nat, slot: Slot) {
    if cfg.cudaDevices != [] then idx in env.cudaSlots && env.cudaSlots[idx] == slot
    else if cfg.rocmDevices != [] then idx in env.rocmSlots && env.rocmSlots[idx] == slot
    else idx in env.vulkanSlots && env.vulkanSlots[idx] == slot
  }

  /** The same by name; a model no longer configured counts as a Vulkan one. */
  ghost predicate Sits(env: Env, m: ModelName, idx: nat, slot: Slot) {
    if m in env.configs then SitsIn(env, env.configs[m], idx, slot)
    else idx in env.vulkanSlots && env.vulkanSlots[idx] == slot
  }

  /** The positions of the instance's devices that sit in `slot`. */
  ghost function DevicesOn(env: Env, m: ModelName, gpus: seq<nat>, slot: Slot): set<nat> {
    set k: nat | k < |gpus| && Sits(env, m, gpus[k], slot)
  }

  /** Bytes declared on a slot: for each device there of an instance not
      excluded, the instance's full declared megabytes. */
  ghost function Declared(env: Env, placed: seq<Placed>, excluding: set<InstId>, slot: Slot): nat {
    if placed == [] then 0 else
    var p := placed[0];
    (if p.id in excluding || p.model !in env.configs then 0
     else |DevicesOn(env, p.model, p.gpus, slot)| * (env.configs[p.model].vram * 1_048_576))
    + Declared(env, placed[1..], excluding, slot)
  }

  /** Devices in use on a slot. */
  ghost function Residents(env: Env, placed: seq<Placed>, excluding: set<InstId>, slot: Slot): nat {
    if placed == [] then 0 else
    (if placed[0].id in excluding then 0 else |DevicesOn(env, placed[0].model, placed[0].gpus, slot)|)
    + Residents(env, placed[1..], excluding, slot)
  }

  /** Entry `k` of the snapshot is the first one for `slot`. */
  ghost predicate FirstEntry(snapshot: seq<Gpu>, slot: Slot, k: nat) {
    k < |snapshot| && snapshot[k].slot == slot && forall j :: 0 <= j < k ==> snapshot[j].slot != slot
  }

  /** The device has a configured size: a static total for CUDA devices, a limit for others. */
  ghost predicate Configured(env: Env, cfg: ModelConfig, idx: nat, bytes: nat) {
    if cfg.cudaDevices != [] then idx in env.cudaVramStatic && env.cudaVramStatic[idx] == bytes
    else idx in env.vramLimits && env.vramLimits[idx] == bytes
  }

  /** Its size is known: the snapshot reports it, or it is a CUDA device with a
      configured one. */
  ghost predicate Sized(env: Env, cfg: ModelConfig, idx: nat, slot: Slot) {
    (exists k: nat :: FirstEntry(env.snapshot, slot, k)) || (cfg.cudaDevices != [] && idx in env.cudaVramStatic)
  }

  /** `bytes` exceed neither what is configured nor what is reported. */
  ghost predicate Within(env: Env, cfg: ModelConfig, idx: nat, slot: Slot, bytes: nat) {
    && (forall limit: nat :: Configured(env, cfg, idx, limit) ==> bytes <= limit)
    && (forall k: nat :: FirstEntry(env.snapshot, slot, k) ==> bytes <= env.snapshot[k].vramTotal)
  }

  // ── The selection's own terms ───────────────────────────────────────────

  lemma SitsExactly(env: Env, m: ModelName, idx: nat, slot: Slot)
    ensures Sits(env, m, idx, slot) <==> env.SlotFor(m, idx) == Some(slot)
  {
  }

  lemma {:induction false} FindGpuExactly(gpus: seq<Gpu>, slot: Slot)
    ensures FindGpu(gpus, slot).None? <==> forall g :: g in gpus ==> g.slot != slot
    ensures forall k: nat :: FirstEntry(gpus, slot, k) ==> FindGpu(gpus, slot) == Some(gpus[k])
    ensures FindGpu(gpus, slot).Some? ==> exists k: nat :: FirstEntry(gpus, slot, k)
  {
    if gpus != [] && gpus[0].slot != slot {
      FindGpuExactly(gpus[1..], slot);
      assert gpus == [gpus[0]] + gpus[1..];
      forall k: nat | FirstEntry(gpus, slot, k) ensures FindGpu(gpus, slot) == Some(gpus[k]) {
        assert forall j :: 0 <= j < k - 1 ==> gpus[1..][j] == gpus[j + 1];
        assert FirstEntry(gpus[1..], slot, k - 1);
      }
      if j: nat :| FirstEntry(gpus[1..], slot, j) {
        assert FirstEntry(gpus, slot, j + 1);
      }
    } else if gpus != [] {
      assert FirstEntry(gpus, slot, 0);
      forall k: nat | FirstEntry(gpus, slot, k) ensures k == 0 {}
    }
  }

  /** Capacity is the least of what is configured and what is reported; without
      a report only a CUDA device has one. */
  lemma CapacityExactly(env: Env, cfg: ModelConfig, idx: nat, slot: Slot)
    ensures var c := Capacity(env, cfg.Kind(), idx, slot);
            && (c.Some? <==> Sized(env, cfg, idx, slot))
            && (c.Some? ==> forall bytes: nat :: bytes <= c.value <==> Within(env, cfg, idx, slot, bytes))
  {
    FindGpuExactly(env.snapshot, slot);
    if k: nat :| FirstEntry(env.snapshot, slot, k) {
      assert FindGpu(env.snapshot, slot) == Some(env.snapshot[k]);
    }
    var limits := env.StaticVram(cfg.Kind());
    assert idx in limits ==> Configured(env, cfg, idx, limits[idx]);
  }

  lemma OneMore(n: nat, w: nat)
    ensures (n + 1) * w == n * w + w
  {
  }

  lemma LastDevice(env: Env, m: ModelName, gpus: seq<nat>, slot: Slot, n: nat)
    requires |gpus| == n + 1
    ensures |DevicesOn(env, m, gpus, slot)|
         == |DevicesOn(env, m, gpus[..n], slot)| + if Sits(env, m, gpus[n], slot) then 1 else 0
  {
    var before, after := DevicesOn(env, m, gpus[..n], slot), DevicesOn(env, m, gpus, slot);
    assert after == if Sits(env, m, gpus[n], slot) then before + {n} else before;
  }

  lemma {:induction false} WeighedExactly(env: Env, m: ModelName, gpus: seq<nat>, slot: Slot, w: nat)
    ensures Sum(gpus, OnSlot(env, m, slot, w)) == |DevicesOn(env, m, gpus, slot)| * w
    decreases |gpus|
  {
    if gpus != [] {
      var n := |gpus| - 1;
      WeighedExactly(env, m, gpus[..n], slot, w);
      LastDevice(env, m, gpus, slot, n);
      SumPrefix(gpus, n, OnSlot(env, m, slot, w));
      assert gpus[..n + 1] == gpus;
      OneMore(|DevicesOn(env, m, gpus[..n], slot)|, w);
    }
  }

  lemma {:induction false} DeclaredExactly(env: Env, placed: seq<Placed>, excluding: set<InstId>, slot: Slot)
    ensures VramUsed(env, placed, excluding, slot) == Declared(env, placed, excluding, slot)
    ensures InstanceCount(env, placed, excluding, slot) == Residents(env, placed, excluding, slot)
  {
    if placed != [] {
      var p := placed[0];
      DeclaredExactly(env, placed[1..], excluding, slot);
      WeighedExactly(env, p.model, p.gpus, slot, env.VramOf(p.model));
      WeighedExactly(env, p.model, p.gpus, slot, 1);
    }
  }

  // ── Which devices may be taken ──────────────────────────────────────────

  /** No instance of the model, the excluded ones aside, has a device in `slot`. */
  ghost predicate FreeOf(env: Env, placed: seq<Placed>, excluding: set<InstId>, m: ModelName, slot: Slot) {
    forall p, k :: p in placed && p.model == m && p.id !in excluding && 0 <= k < |p.gpus| ==> !Sits(env, m, p.gpus[k], slot)
  }

  /** So many bytes on top of those declared on the slot still fit the device. */
  ghost predicate Fits(env: Env, placed: seq<Placed>, excluding: set<InstId>, cfg: ModelConfig, idx: nat, slot: Slot,
          more: nat) {
    Within(env, cfg, idx, slot, Declared(env, placed, excluding, slot) + more)
  }

  /** The device sits in a slot free of the model, its size is known, and what
      the model declares still fits, in addition to all that is declared there. */
  ghost predicate MayTakeAt(env: Env, placed: seq<Placed>, excluding: set<InstId>, cfg: ModelConfig, idx: nat,
          slot: Slot) {
    && SitsIn(env, cfg, idx, slot) && FreeOf(env, placed, excluding, cfg.name, slot) && Sized(env, cfg, idx, slot)
    && (cfg.vram == 0 || Fits(env, placed, excluding, cfg, idx, slot, cfg.vram * 1_048_576))
  }

  ghost predicate MayTake(env: Env, placed: seq<Placed>, excluding: set<InstId>, cfg: ModelConfig, idx: nat) {
    exists slot :: MayTakeAt(env, placed, excluding, cfg, idx, slot)
  }

  lemma FreeOfExactly(env: Env, placed: seq<Placed>, excluding: set<InstId>, m: ModelName, slot: Slot)
    ensures FreeOf(env, placed, excluding, m, slot) <==> !Occupied(env, placed, excluding, m, slot)
  {
  }

  lemma EligibleAt(env: Env, placed: seq<Placed>, excluding: set<InstId>, cfg: ModelConfig, idx: nat, slot: Slot)
    requires SitsIn(env, cfg, idx, slot)
    ensures Eligible(env, placed, excluding, cfg, idx) <==> MayTakeAt(env, placed, excluding, cfg, idx, slot)
  {
    FreeOfExactly(env, placed, excluding, cfg.name, slot);
    CapacityExactly(env, cfg, idx, slot);
    DeclaredExactly(env, placed, excluding, slot);
  }

  /** Eligibility, in the terms of the configuration. */
  lemma EligibleExactly(env: Env, placed: seq<Placed>, excluding: set<InstId>, cfg: ModelConfig, idx: nat)
    ensures Eligible(env, placed, excluding, cfg, idx) <==> MayTake(env, placed, excluding, cfg, idx)
  {
    match env.SlotOf(cfg.Kind(), idx)
    case Some(slot) => EligibleAt(env, placed, excluding, cfg, idx, slot);
    case None =>
  }

  // ── Which one is taken first ────────────────────────────────────────────

  /** Some number of bytes fits the one device and not the other. */
  ghost predicate Roomier(env: Env, placed: seq<Placed>, excluding: set<InstId>, cfg: ModelConfig, a: nat, at: Slot,
          b: nat, bt: Slot) {
    exists more: nat ::
      more > 0 && Fits(env, placed, excluding, cfg, a, at, more) && !Fits(env, placed, excluding, cfg, b, bt, more)
  }

  /** Fewer devices in use on the slot, then more room, then the lower index. */
  ghost predicate PrecedesAt(env: Env, placed: seq<Placed>, excluding: set<InstId>, cfg: ModelConfig, a: nat, at: Slot,
          b: nat, bt: Slot) {
    var here, there := Residents(env, placed, excluding, at), Residents(env, placed, excluding, bt);
    here < there || (here == there
      && (Roomier(env, placed, excluding, cfg, a, at, b, bt)
          || (!Roomier(env, placed, excluding, cfg, b, bt, a, at) && a < b)))
  }

  ghost predicate Precedes(env: Env, placed: seq<Placed>, excluding: set<InstId>, cfg: ModelConfig, a: nat, b: nat) {
    exists at, bt ::
      && MayTakeAt(env, placed, excluding, cfg, a, at) && MayTakeAt(env, placed, excluding, cfg, b, bt)
      && PrecedesAt(env, placed, excluding, cfg, a, at, b, bt)
  }

  lemma CandidateIs(env: Env, placed: seq<Placed>, excluding: set<InstId>, cfg: ModelConfig, idx: nat, slot: Slot)
    requires MayTakeAt(env, placed, excluding, cfg, idx, slot)
    ensures var c := CandidateFor(env, placed, excluding, cfg, idx);
            && c.Some? && c.value.idx == idx && c.value.count == Residents(env, placed, excluding, slot)
            && forall more: nat :: more > 0 ==>
                 (more <= c.value.free <==> Fits(env, placed, excluding, cfg, idx, slot, more))
  {
    EligibleAt(env, placed, excluding, cfg, idx, slot);
    CapacityExactly(env, cfg, idx, slot);
    DeclaredExactly(env, placed, excluding, slot);
  }

  lemma RoomierIsFree(env: Env, placed: seq<Placed>, excluding: set<InstId>, cfg: ModelConfig, a: nat, at: Slot, b: nat,
          bt: Slot)
    requires MayTakeAt(env, placed, excluding, cfg, a, at) && MayTakeAt(env, placed, excluding, cfg, b, bt)
    ensures CandidateFor(env, placed, excluding, cfg, a).Some? && CandidateFor(env, placed, excluding, cfg, b).Some?
    ensures Roomier(env, placed, excluding, cfg, a, at, b, bt)
            <==> CandidateFor(env, placed, excluding, cfg, a).value.free > CandidateFor(env, placed, excluding, cfg, b).value.free
  {
    CandidateIs(env, placed, excluding, cfg, a, at);
    CandidateIs(env, placed, excluding, cfg, b, bt);
    var x, y := CandidateFor(env, placed, excluding, cfg, a).value.free, CandidateFor(env, placed, excluding, cfg, b).value.free;
    if x > y {
      assert Fits(env, placed, excluding, cfg, a, at, x) && !Fits(env, placed, excluding, cfg, b, bt, x);
    }
  }

  /** So is the order. */
  lemma PreferredExactly(env: Env, placed: seq<Placed>, excluding: set<InstId>, cfg: ModelConfig, a: nat, b: nat)
    ensures Preferred(env, placed, excluding, cfg, a, b) <==> Precedes(env, placed, excluding, cfg, a, b)
  {
    EligibleExactly(env, placed, excluding, cfg, a);
    EligibleExactly(env, placed, excluding, cfg, b);
    forall at, bt | MayTakeAt(env, placed, excluding, cfg, a, at) && MayTakeAt(env, placed, excluding, cfg, b, bt)
      ensures Preferred(env, placed, excluding, cfg, a, b) <==> PrecedesAt(env, placed, excluding, cfg, a, at, b, bt)
    {
      CandidateIs(env, placed, excluding, cfg, a, at);
      CandidateIs(env, placed, excluding, cfg, b, bt);
      RoomierIsFree(env, placed, excluding, cfg, a, at, b, bt);
      RoomierIsFree(env, placed, excluding, cfg, b, bt, a, at);
    }
  }

  // ── The selection ───────────────────────────────────────────────────────

  /** The devices of the model that may be taken. */
  ghost function Takeable(env: Env, placed: seq<Placed>, excluding: set<InstId>, cfg: ModelConfig): set<nat> {
    set idx | idx in cfg.cudaDevices + cfg.rocmDevices + cfg.vulkanDevices
              && Listed(cfg, idx) && MayTake(env, placed, excluding, cfg, idx)
  }

  /** `gpus` takeable devices, each before the next and before all that are left. */
  ghost predicate BestOf(env: Env, placed: seq<Placed>, excluding: set<InstId>, cfg: ModelConfig, r: seq<nat>) {
    var takeable := Takeable(env, placed, excluding, cfg);
    && |r| == cfg.gpus && (forall i :: 0 <= i < |r| ==> r[i] in takeable)
    && (forall i, j :: 0 <= i < j < |r| ==> Precedes(env, placed, excluding, cfg, r[i], r[j]))
    && (forall i, x :: 0 <= i < |r| && x in takeable && x !in r ==> Precedes(env, placed, excluding, cfg, r[i], x))
  }

  lemma {:induction false} DistinctSize<T>(xs: seq<T>, s: set<T>)
    requires NoDup(xs) && forall x :: x in xs <==> x in s
    ensures |xs| == |s|
    decreases |xs|
  {
    if xs != [] {
      var rest := xs[1..];
      assert xs == [xs[0]] + rest;
      DistinctSize(rest, s - {xs[0]});
    } else {
      assert s == {};
    }
  }

  lemma TakeableIs(env: Env, placed: seq<Placed>, excluding: set<InstId>, cfg: ModelConfig)
    requires NoDup(cfg.Pool())
    ensures forall idx :: idx in Takeable(env, placed, excluding, cfg)
              <==> idx in cfg.Pool() && Eligible(env, placed, excluding, cfg, idx)
    ensures |Takeable(env, placed, excluding, cfg)| == |Keep(cfg.Pool(), EligiblePred(env, placed, excluding, cfg))|
  {
    var p := EligiblePred(env, placed, excluding, cfg);
    forall idx ensures p(idx) <==> MayTake(env, placed, excluding, cfg, idx) {
      EligibleExactly(env, placed, excluding, cfg, idx);
    }
    KeepIn(cfg.Pool(), p);
    KeepNoDup(cfg.Pool(), p);
    DistinctSize(Keep(cfg.Pool(), p), Takeable(env, placed, excluding, cfg));
  }

  /** What selection returns, from a list without repeats: nothing if fewer than
      `gpus` devices may be taken, and otherwise the best ones in order. */
  lemma SelectExactly(env: Env, placed: seq<Placed>, excluding: set<InstId>, cfg: ModelConfig)
    requires cfg.gpus >= 1 && NoDup(cfg.Pool())
    ensures var r := Select(env, placed, excluding, cfg);
            if |Takeable(env, placed, excluding, cfg)| < cfg.gpus then r == [] else BestOf(env, placed, excluding, cfg, r)
  {
    SelectMeetsSpec(env, placed, excluding, cfg, cfg.Pool());
    TakeableIs(env, placed, excluding, cfg);
    forall a, b ensures Preferred(env, placed, excluding, cfg, a, b) <==> Precedes(env, placed, excluding, cfg, a, b) {
      PreferredExactly(env, placed, excluding, cfg, a, b);
    }
  }
}
