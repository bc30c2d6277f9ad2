/** The configuration and registry views the scheduler's decisions are made on. */
module Types {
  import opened Base

  type ModelName = string
  type Slot = string     // PCI slot, the key of all per-GPU accounting
  type InstId = nat      // identity of an instance handle
  type Port = nat

  datatype DeviceKind = Vulkan | Cuda | Rocm

  datatype InstanceState = Loading | Ready | Failed

  datatype ModelConfig = ModelConfig(
    name: ModelName,
    maxInstances: nat,
    maxConcurrent: nat,
    vram: nat,             // declared, in MB
    idleTtl: nat,          // seconds
    queueDepth: nat,
    vulkanDevices: seq<nat>,
    cudaDevices: seq<nat>,
    rocmDevices: seq<nat>,
    gpus: nat)
  {
    function Kind(): DeviceKind {
      if cudaDevices != [] then Cuda else if rocmDevices != [] then Rocm else Vulkan
    }

    function Pool(): seq<nat> {
      match Kind()
      case Cuda => cudaDevices
      case Rocm => rocmDevices
      case Vulkan => vulkanDevices
    }

    predicate HasPool() {
      vulkanDevices != [] || cudaDevices != [] || rocmDevices != []
    }

    function VramBytes(): nat { vram * MB }
  }

  const MB: nat := 1024 * 1024

  datatype Gpu = Gpu(slot: Slot, vramTotal: nat)

  /** The fixed configuration together with one GPU metrics snapshot. */
  datatype Env = Env(
    configs: map<ModelName, ModelConfig>,
    vulkanSlots: map<nat, Slot>,
    cudaSlots: map<nat, Slot>,
    rocmSlots: map<nat, Slot>,
    vramLimits: map<nat, nat>,      // bytes, for Vulkan and ROCm indices
    cudaVramStatic: map<nat, nat>,  // bytes, for CUDA indices
    snapshot: seq<Gpu>)
  {
    function Slots(kind: DeviceKind): map<nat, Slot> {
      match kind
      case Cuda => cudaSlots
      case Rocm => rocmSlots
      case Vulkan => vulkanSlots
    }

    function StaticVram(kind: DeviceKind): map<nat, nat> {
      if kind == Cuda then cudaVramStatic else vramLimits
    }

    function SlotOf(kind: DeviceKind, idx: nat): Option<Slot> {
      if idx in Slots(kind) then Some(Slots(kind)[idx]) else None
    }

    /** Models no longer configured are read as Vulkan models. */
    function KindOf(model: ModelName): DeviceKind {
      if model in configs then configs[model].Kind() else Vulkan
    }

    function SlotFor(model: ModelName, idx: nat): Option<Slot> {
      SlotOf(KindOf(model), idx)
    }

    function VramOf(model: ModelName): nat {
      if model in configs then configs[model].VramBytes() else 0
    }

    /** What config validation guarantees: models are filed under their own
        name, every limit is at least one, the pool is large enough, and no
        namespace names one PCI slot under two indices. */
    ghost predicate Valid() {
      && (forall m :: m in configs ==>
            var c := configs[m];
            && c.name == m
            && c.maxInstances >= 1 && c.maxConcurrent >= 1 && c.gpus >= 1
            && (c.HasPool() ==> c.gpus <= |c.Pool()|))
      && (forall kind, i, j :: i in Slots(kind) && j in Slots(kind) && i != j ==>
            Slots(kind)[i] != Slots(kind)[j])
    }
  }

  /** What placement reads of a registered instance. */
  datatype Placed = Placed(id: InstId, model: ModelName, gpus: seq<nat>)
}
