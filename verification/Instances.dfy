/** One backend instance and its slot guards, as objects: the slots in use are
    the live guards, whatever order guards are handed out and dropped in. */
module Instances {
  import opened Base
  import opened Types
  import opened Machine

  /** The unbounded channel release notifications are sent on. */
  class ReleaseChannel {
    var events: map<ModelName, nat>

    constructor ()
      ensures events == map[]
    {
      events := map[];
    }

    method Send(m: ModelName)
      modifies this
      ensures events == Bump(old(events), m, 1)
    {
      events := events[m := Count(events, m) + 1];
    }
  }

  class Instance {
    const model: ModelName
    const releaseTx: ReleaseChannel
    var state: InstanceState
    var inFlight: nat
    var lastActive: nat
    ghost var guards: set<SlotGuard>    // guards handed out and not dropped

    /** Every slot in use is owned by one live guard of this instance. */
    ghost predicate Valid()
      reads this, guards
    {
      inFlight == |guards| && forall g :: g in guards ==> g.handle == this && g.live
    }

    constructor (model: ModelName, releaseTx: ReleaseChannel, now: nat)
      ensures Valid() && guards == {} && state == Loading
      ensures this.model == model && this.releaseTx == releaseTx && lastActive == now
    {
      this.model, this.releaseTx := model, releaseTx;
      state, inFlight, lastActive, guards := Loading, 0, now, {};
    }

    /** The state is set whatever it was; no slot is touched. */
    method MarkReady()
      requires Valid()
      modifies this`state
      ensures Valid() && state == Ready
    {
      state := Ready;
    }

    method AcquireSlot(now: nat)
      modifies this`inFlight, this`lastActive
      ensures inFlight == old(inFlight) + 1 && lastActive == now
    {
      inFlight := inFlight + 1;
      lastActive := now;
    }

    /** The count saturates at zero, and only a release that freed a slot is announced. */
    method ReleaseSlot(now: nat)
      modifies this`inFlight, this`lastActive, releaseTx
      ensures inFlight == (if old(inFlight) > 0 then old(inFlight) - 1 else 0) && lastActive == now
      ensures releaseTx.events ==
                if old(inFlight) > 0 then Bump(old(releaseTx.events), model, 1) else old(releaseTx.events)
    {
      var wasActive := inFlight > 0;
      if inFlight > 0 {
        inFlight := inFlight - 1;
      }
      lastActive := now;
      if wasActive {
        releaseTx.Send(model);
      }
    }

    predicate HasCapacity(maxConcurrent: nat)
      reads this
    {
      state == Ready && inFlight < maxConcurrent
    }

    /** A guard is handed out exactly when fewer than `max_concurrent` are
        live, and it owns its slot alone. */
    method TryAcquire(maxConcurrent: nat, now: nat) returns (guard: Option<SlotGuard>)
      requires Valid()
      modifies this`inFlight, this`lastActive, this`guards
      ensures Valid()
      ensures guard.Some? <==> state == Ready && |old(guards)| < maxConcurrent
      ensures guard.Some? ==> fresh(guard.value) && guards == old(guards) + {guard.value}
      ensures guard.None? ==> guards == old(guards) && lastActive == old(lastActive)
      ensures |old(guards)| <= maxConcurrent ==> |guards| <= maxConcurrent
    {
      if HasCapacity(maxConcurrent) {
        AcquireSlot(now);
        var g := new SlotGuard(this);
        assert g !in guards;
        guards := guards + {g};
        guard := Some(g);
      } else {
        guard := None;
      }
    }
  }

  /** Ownership of one slot; dropping it gives the slot back. */
  class SlotGuard {
    const handle: Instance
    ghost var live: bool

    constructor (handle: Instance)
      ensures this.handle == handle && live
    {
      this.handle := handle;
      live := true;
    }

    /** A drop never saturates, so it frees one slot and announces one release;
        no other guard is affected, and this one cannot be dropped again. */
    method Drop(now: nat)
      requires handle.Valid() && this in handle.guards
      modifies this, handle, handle.releaseTx
      ensures handle.Valid() && handle.guards == old(handle.guards) - {this} && !live
      ensures handle.state == old(handle.state)
      ensures handle.releaseTx.events == Bump(old(handle.releaseTx.events), handle.model, 1)
    {
      handle.ReleaseSlot(now);
      handle.guards := handle.guards - {this};
      live := false;
    }
  }
}
