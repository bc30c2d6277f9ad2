/** Ports and keep-alive references are returned exactly once. */
module Resources {
  import opened Base
  import opened Sums
  import opened Types
  import opened Placement
  import opened Devices
  import opened Machine
  import opened Waking
  import opened Books

  // ── Ports ───────────────────────────────────────────────────────────────

  /** Who can hold a port: an instance or a spawn that has not registered yet. */
  datatype Holding = OfInstance(i: InstId) | OfSpawn(m: ModelName)

  /** An instance holds its port while registered and until the one effective
      unregistration frees it; a spawn holds one from allocation to
      registration or abort. */
  function HeldPort(s: State, h: Holding): Option<Port> {
    match h
    case OfInstance(i) =>
      if i in s.fleet.info && (i in s.fleet.registry || (i in s.fleet.stage && s.fleet.stage[i] == FreePort))
      then Some(s.fleet.info[i].port) else None
    case OfSpawn(m) =>
      if m in s.spawns && (s.spawns[m].HasPort? || s.spawns[m].Selected?) then Some(s.spawns[m].port) else None
  }

  /** The used ports are exactly the held ones, and no two holders share one. */
  ghost predicate PortsInv(s: State) {
    && (forall h :: HeldPort(s, h).Some? ==> HeldPort(s, h).value in s.used)
    && (forall h, k :: HeldPort(s, h).Some? && HeldPort(s, h) == HeldPort(s, k) ==> h == k)
    && (forall p :: p in s.used ==> exists h :: HeldPort(s, h) == Some(p))
  }

  lemma PortsSame(s: State, t: State)
    requires PortsInv(s) && t.used == s.used
    requires forall h :: HeldPort(t, h) == HeldPort(s, h)
    ensures PortsInv(t)
  {
    forall p | p in t.used ensures exists h :: HeldPort(t, h) == Some(p) {
      var h :| HeldPort(s, h) == Some(p);
      assert HeldPort(t, h) == Some(p);
    }
  }

  lemma PortTaken(s: State, t: State, h: Holding, p: Port)
    requires PortsInv(s) && p !in s.used && t.used == s.used + {p}
    requires HeldPort(t, h) == Some(p)
    requires forall k :: k != h ==> HeldPort(t, k) == HeldPort(s, k)
    requires HeldPort(s, h) == None
    ensures PortsInv(t)
  {
    forall q | q in t.used ensures exists k :: HeldPort(t, k) == Some(q) {
      if q != p {
        var k :| HeldPort(s, k) == Some(q);
        assert HeldPort(t, k) == Some(q);
      }
    }
  }

  lemma PortFreed(s: State, t: State, h: Holding, p: Port)
    requires PortsInv(s) && HeldPort(s, h) == Some(p) && t.used == s.used - {p}
    requires HeldPort(t, h) == None
    requires forall k :: k != h ==> HeldPort(t, k) == HeldPort(s, k)
    ensures PortsInv(t)
  {
    forall q | q in t.used ensures exists k :: HeldPort(t, k) == Some(q) {
      var k :| HeldPort(s, k) == Some(q);
      assert k != h;
      assert HeldPort(t, k) == Some(q);
    }
  }

  lemma PortPassed(s: State, t: State, h: Holding, k: Holding, p: Port)
    requires PortsInv(s) && HeldPort(s, h) == Some(p) && HeldPort(s, k) == None && t.used == s.used
    requires HeldPort(t, h) == None && HeldPort(t, k) == Some(p)
    requires forall l :: l != h && l != k ==> HeldPort(t, l) == HeldPort(s, l)
    ensures PortsInv(t)
  {
    forall q | q in t.used ensures exists l :: HeldPort(t, l) == Some(q) {
      var l :| HeldPort(s, l) == Some(q);
      if l == h {
        assert HeldPort(t, k) == Some(q);
      } else {
        assert HeldPort(t, l) == Some(q);
      }
    }
  }

  lemma PortsAlloc(env: Env, s: State, m: ModelName, port: Option<Port>)
    requires PortsInv(s) && SpawnEnabled(env, s, m, AllocPort(port))
    ensures PortsInv(SpawnNext(env, s, m, AllocPort(port)))
  {
    var t := SpawnNext(env, s, m, AllocPort(port));
    if port.Some? { PortTaken(s, t, OfSpawn(m), port.value); } else { PortsSame(s, t); }
  }

  lemma PortsRegister(env: Env, s: State, m: ModelName)
    requires RegistryOk(s.fleet) && PortsInv(s) && SpawnEnabled(env, s, m, Register)
    ensures PortsInv(SpawnNext(env, s, m, Register))
  {
    var i := s.fleet.nextInst;
    PortPassed(s, SpawnNext(env, s, m, Register), OfSpawn(m), OfInstance(i), s.spawns[m].port);
  }

  lemma PortsPollEnd(env: Env, s: State, m: ModelName, act: SpawnStep)
    requires PortsInv(s) && SpawnEnabled(env, s, m, act) && (act.MarkReady? || act.Fail?)
    ensures PortsInv(SpawnNext(env, s, m, act))
  {
    PortsSame(s, SpawnNext(env, s, m, act));
  }

  lemma PortsQuiet(env: Env, s: State, m: ModelName, act: SpawnStep)
    requires PortsInv(s) && SpawnEnabled(env, s, m, act)
    requires act.Start? || act.TakePermit? || act.CheckCap? || act.DropPermit? || act.End?
    ensures PortsInv(SpawnNext(env, s, m, act))
  {
    PortsSame(s, SpawnNext(env, s, m, act));
  }

  lemma PortsSpawn(env: Env, s: State, m: ModelName, act: SpawnStep)
    requires RegistryOk(s.fleet) && PortsInv(s) && SpawnEnabled(env, s, m, act)
    ensures PortsInv(SpawnNext(env, s, m, act))
  {
    match act
    case AllocPort(port) => PortsAlloc(env, s, m, port);
    case Abort => PortFreed(s, SpawnNext(env, s, m, Abort), OfSpawn(m), s.spawns[m].port);
    case SelectDevices => PortsSelect(env, s, m);
    case Register => PortsRegister(env, s, m);
    case MarkReady => PortsPollEnd(env, s, m, act);
    case Fail => PortsPollEnd(env, s, m, act);
    case _ => PortsQuiet(env, s, m, act);
  }

  lemma PortsSelect(env: Env, s: State, m: ModelName)
    requires PortsInv(s) && SpawnEnabled(env, s, m, SelectDevices)
    ensures PortsInv(SpawnNext(env, s, m, SelectDevices))
  {
    var t := SpawnNext(env, s, m, SelectDevices);
    if m in t.spawns { PortsSame(s, t); } else { PortFreed(s, t, OfSpawn(m), s.spawns[m].port); }
  }

  lemma PortsUnregister(env: Env, s: State, i: InstId)
    requires RegistryOk(s.fleet) && PortsInv(s) && Known(s.fleet, i) && s.fleet.life[i].unregs > 0
    ensures PortsInv(UnregisterInstance(s, i))
  {
    DropFacts(s.fleet.registry, i);
    PortsSame(s, UnregisterInstance(s, i));
  }

  lemma PortsRemove(env: Env, s: State, i: InstId, act: RemoveStep)
    requires RegistryOk(s.fleet) && PortsInv(s) && RemoveEnabled(s, i, act)
    ensures PortsInv(RemoveNext(s, i, act))
  {
    if act.Unregister? {
      PortsUnregister(env, s, i);
    } else {
      RemoveIsSetLife(s, i, act);
      PortsSame(s, RemoveNext(s, i, act));
    }
  }

  lemma PortsCleanPort(env: Env, s: State, i: InstId)
    requires RegistryOk(s.fleet) && PortsInv(s) && CleanEnabled(s, i) && s.fleet.stage[i] == FreePort
    ensures PortsInv(CleanNext(env, s, i))
  {
    PortFreed(s, CleanNext(env, s, i), OfInstance(i), s.fleet.info[i].port);
  }

  lemma PortsClean(env: Env, s: State, i: InstId)
    requires RegistryOk(s.fleet) && PortsInv(s) && CleanEnabled(s, i)
    ensures PortsInv(CleanNext(env, s, i))
  {
    if s.fleet.stage[i] == FreePort {
      PortsCleanPort(env, s, i);
    } else {
      PortsSame(s, CleanNext(env, s, i));
    }
  }

  /** Over every step, the used ports stay the ports of registered instances,
      of spawns that hold one, and of unfinished unregistrations, pairwise
      distinct. */
  lemma PortsStep(env: Env, s: State, step: Step)
    requires RegistryOk(s.fleet) && PortsInv(s) && Enabled(env, s, step)
    ensures PortsInv(Next(env, s, step))
  {
    match step
    case Requesting(req) => PortsSame(s, RequestNext(env, s, req));
    case Waking(m, source) => PortsWake(env, s, m, source);
    case Spawning(m, act) => PortsSpawn(env, s, m, act);
    case Removing(i, act) => PortsRemove(env, s, i, act);
    case Reaping(m) => PortsSame(s, Next(env, s, step));
    case ReapingStranded(m, late) => PortsSame(s, Next(env, s, step));
    case Cleaning(i) => PortsClean(env, s, i);
  }

  lemma PortsWake(env: Env, s: State, m: ModelName, source: WakeSource)
    requires PortsInv(s) && WakeEnabled(s, m, source)
    ensures PortsInv(WakeOne(env, TakeWake(s, m, source), m))
  {
    var u := TakeWake(s, m, source);
    WakeCases(env, u, m);
    PortsSame(s, WakeOne(env, u, m));
  }

  // ── Keep-alive references ───────────────────────────────────────────────

  /** The references instance `i` acquired on `slot` at registration. */
  function RefsOf(env: Env, info: map<InstId, Info>, slot: Slot): InstId -> nat {
    (i: InstId) => if i in info then KeepAliveSlots(env, info[i].model, info[i].gpus)[slot] else 0
  }

  /** A slot's reference count is the number of devices on it that registered
      instances, and instances whose unregistration has not yet released
      them, occupy through Vulkan or ROCm. */
  ghost predicate KeepAliveInv(env: Env, s: State) {
    forall slot :: s.keepAlive[slot]
      == Sum(s.fleet.registry, RefsOf(env, s.fleet.info, slot)) + Sum(s.fleet.leaving, RefsOf(env, s.fleet.info, slot))
  }

  lemma KeepAliveRegister(env: Env, s: State, m: ModelName, port: Port, gpus: seq<nat>)
    requires RegistryOk(s.fleet) && KeepAliveInv(env, s)
    ensures KeepAliveInv(env, RegisterInstance(env, s, m, port, gpus))
  {
    var t := RegisterInstance(env, s, m, port, gpus);
    var i := s.fleet.nextInst;
    forall slot ensures t.keepAlive[slot]
      == Sum(t.fleet.registry, RefsOf(env, t.fleet.info, slot)) + Sum(t.fleet.leaving, RefsOf(env, t.fleet.info, slot))
    {
      var f, g := RefsOf(env, s.fleet.info, slot), RefsOf(env, t.fleet.info, slot);
      SumPush(s.fleet.registry, i, g);
      SumSame(s.fleet.registry, f, g);
      SumSame(s.fleet.leaving, f, g);
    }
  }

  lemma TakenOut(list: seq<InstId>, i: InstId, f: InstId -> nat)
    requires NoDup(list) && i in list
    ensures Sum(Drop(list, i), f) + f(i) == Sum(list, f)
  {
    var masked := (j: InstId) => if j == i then 0 else f(j);
    SumKeep(list, Other(i), f, masked);
    SumChangeOne(list, i, f, masked);
  }

  lemma KeepAliveUnregister(env: Env, s: State, i: InstId)
    requires RegistryOk(s.fleet) && KeepAliveInv(env, s) && Known(s.fleet, i) && s.fleet.life[i].unregs > 0
    ensures KeepAliveInv(env, UnregisterInstance(s, i))
  {
    var t := UnregisterInstance(s, i);
    if i in s.fleet.registry {
      forall slot ensures t.keepAlive[slot]
        == Sum(t.fleet.registry, RefsOf(env, t.fleet.info, slot)) + Sum(t.fleet.leaving, RefsOf(env, t.fleet.info, slot))
      {
        var f := RefsOf(env, s.fleet.info, slot);
        TakenOut(s.fleet.registry, i, f);
        SumPush(s.fleet.leaving, i, f);
      }
    }
  }

  /** A release never finds fewer references than it gives back. */
  lemma KeepAliveReleased(env: Env, s: State, i: InstId)
    requires RegistryOk(s.fleet) && KeepAliveInv(env, s) && CleanEnabled(s, i) && s.fleet.stage[i] == ReleaseKeepAlive
    ensures KeepAliveInv(env, CleanNext(env, s, i))
    ensures KeepAliveSlots(env, s.fleet.info[i].model, s.fleet.info[i].gpus) <= s.keepAlive
  {
    var t := CleanNext(env, s, i);
    forall slot ensures t.keepAlive[slot]
      == Sum(t.fleet.registry, RefsOf(env, t.fleet.info, slot)) + Sum(t.fleet.leaving, RefsOf(env, t.fleet.info, slot))
    ensures KeepAliveSlots(env, s.fleet.info[i].model, s.fleet.info[i].gpus)[slot] <= s.keepAlive[slot]
    {
      TakenOut(s.fleet.leaving, i, RefsOf(env, s.fleet.info, slot));
    }
  }

  /** The step moves no reference and no instance. */
  ghost predicate SameRefs(s: State, t: State) {
    && t.keepAlive == s.keepAlive && t.fleet.info == s.fleet.info
    && t.fleet.registry == s.fleet.registry && t.fleet.leaving == s.fleet.leaving
  }

  lemma SpawnSameRefs(env: Env, s: State, m: ModelName, act: SpawnStep)
    requires SpawnEnabled(env, s, m, act) && !act.Register?
    ensures SameRefs(s, SpawnNext(env, s, m, act))
  {
  }

  lemma CleanSameRefs(env: Env, s: State, i: InstId)
    requires CleanEnabled(s, i) && !s.fleet.stage[i].ReleaseKeepAlive?
    ensures SameRefs(s, CleanNext(env, s, i))
  {
  }

  lemma CalmSameRefs(env: Env, s: State, step: Step)
    requires Enabled(env, s, step) && (step.Requesting? || step.Waking? || step.Reaping? || step.ReapingStranded?)
    ensures SameRefs(s, Next(env, s, step))
  {
    match step
    case Requesting(req) => RequestSameRefs(env, s, req);
    case Waking(m, source) => WakeSameRefs(env, s, m, source);
    case _ =>
  }

  lemma RequestSameRefs(env: Env, s: State, req: RequestStep)
    requires RequestEnabled(env, s, req)
    ensures SameRefs(s, RequestNext(env, s, req))
  {
  }

  lemma WakeSameRefs(env: Env, s: State, m: ModelName, source: WakeSource)
    requires WakeEnabled(s, m, source)
    ensures SameRefs(s, WakeOne(env, TakeWake(s, m, source), m))
  {
    WakeCases(env, TakeWake(s, m, source), m);
  }

  /** Over every step, references stay those of registered and leaving instances. */
  lemma KeepAliveStep(env: Env, s: State, step: Step)
    requires RegistryOk(s.fleet) && KeepAliveInv(env, s) && Enabled(env, s, step)
    ensures KeepAliveInv(env, Next(env, s, step))
  {
    match step
    case Spawning(m, act) => KeepAliveSpawn(env, s, m, act);
    case Removing(i, act) => KeepAliveRemove(env, s, i, act);
    case Cleaning(i) => KeepAliveClean(env, s, i);
    case _ =>
      CalmSameRefs(env, s, step);
  }

  lemma KeepAliveSpawn(env: Env, s: State, m: ModelName, act: SpawnStep)
    requires RegistryOk(s.fleet) && KeepAliveInv(env, s) && SpawnEnabled(env, s, m, act)
    ensures KeepAliveInv(env, SpawnNext(env, s, m, act))
  {
    if act.Register? {
      KeepAliveRegister(env, s, m, s.spawns[m].port, s.spawns[m].gpus);
    } else {
      SpawnSameRefs(env, s, m, act);
    }
  }

  lemma KeepAliveRemove(env: Env, s: State, i: InstId, act: RemoveStep)
    requires RegistryOk(s.fleet) && KeepAliveInv(env, s) && RemoveEnabled(s, i, act)
    ensures KeepAliveInv(env, RemoveNext(s, i, act))
  {
    if act.Unregister? {
      KeepAliveUnregister(env, s, i);
    } else {
    }
  }

  lemma KeepAliveClean(env: Env, s: State, i: InstId)
    requires RegistryOk(s.fleet) && KeepAliveInv(env, s) && CleanEnabled(s, i)
    ensures KeepAliveInv(env, CleanNext(env, s, i))
  {
    if s.fleet.stage[i].ReleaseKeepAlive? {
      KeepAliveReleased(env, s, i);
    } else {
      CleanSameRefs(env, s, i);
    }
  }

  // ── Which devices they are for ──────────────────────────────────────────

  /** One reference per device in the slot, but none for a CUDA model. */
  lemma {:induction false} RefsExactly(env: Env, m: ModelName, gpus: seq<nat>, slot: Slot)
    ensures KeepAliveSlots(env, m, gpus)[slot]
         == if m in env.configs && env.configs[m].cudaDevices != [] then 0 else |DevicesOn(env, m, gpus, slot)|
    decreases |gpus|
  {
    if gpus != [] {
      RefsExactly(env, m, gpus[1..], slot);
      FirstDevice(env, m, gpus, slot);
      SitsExactly(env, m, gpus[0], slot);
    }
  }

  lemma FirstDevice(env: Env, m: ModelName, gpus: seq<nat>, slot: Slot)
    requires gpus != []
    ensures |DevicesOn(env, m, gpus, slot)|
         == |DevicesOn(env, m, gpus[1..], slot)| + if Sits(env, m, gpus[0], slot) then 1 else 0
  {
    WeighedExactly(env, m, gpus, slot, 1);
    WeighedExactly(env, m, gpus[1..], slot, 1);
    SitsExactly(env, m, gpus[0], slot);
  }

  /** The devices in the slot that the listed instances of Vulkan and ROCm models span. */
  ghost function KeptAwake(env: Env, info: map<InstId, Info>, list: seq<InstId>, slot: Slot): nat {
    if list == [] then 0 else
    var i := list[0];
    (if i !in info || (info[i].model in env.configs && env.configs[info[i].model].cudaDevices != []) then 0
     else |DevicesOn(env, info[i].model, info[i].gpus, slot)|)
    + KeptAwake(env, info, list[1..], slot)
  }

  lemma {:induction false} KeptAwakeExactly(env: Env, info: map<InstId, Info>, list: seq<InstId>, slot: Slot)
    ensures Sum(list, RefsOf(env, info, slot)) == KeptAwake(env, info, list, slot)
  {
    if list != [] {
      KeptAwakeExactly(env, info, list[1..], slot);
      if list[0] in info {
        RefsExactly(env, info[list[0]].model, info[list[0]].gpus, slot);
      }
    }
  }
}
