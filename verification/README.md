# Verified model of the instance scheduler and its streams

The repository is a gateway that starts model backends on GPUs on demand and
forwards requests to them. This project models what in it is hard to get
right, in Dafny, and proves what the code promises about it.

**Placement and planning** (`Placement`, `Devices`, `MakeRoom`, `Draining`,
`Planner`, `Eviction`, `MakingRoom`). Device selection with VRAM accounting per
PCI slot, the spawn-feasibility dry run, and the make-room planner. The loops of
the source are methods, proved equal to functions whose laws are the results;
`Devices` says what selection does in the terms of the configuration and the GPU
snapshot alone, and the last two modules connect plans to runs of the machine
below.

**The scheduler as a state machine** (`Machine`). Instances with their
children, guards, queues, undelivered release events, spawn tasks, the one
spawn permit, ports and keep-alive references, under a fixed configuration and
GPU snapshot. A step is one critical section of the source; requests,
time-outs, wake-ups, spawns, removals, reaps, crashes and unregistrations
interleave freely. `Books`, `Slots`, `Waking`, `Wakeups`, `Resources`,
`PlacementSafety`, `InstanceCap` and `Stranding` prove what every step keeps,
`Lifecycle` what exactly the well-behaved steps keep; `Safety` has the results
over all runs, `Rollback` those about failed spawns, `Departure` what a crash, a
removal and a drain lead to on every run after them, and `Parking` a waiter's
whole stay in the queue. `Findings` has the runs on
which a promise breaks; the exact conditions under which it holds stand beside
them or in `Lifecycle`. `Manager` is the scheduler object: its critical sections
update fields in place, and any run of calls is a run of the machine.
`Instances`, `PortAlloc` and `KeepAlive` are the other objects of the source,
as classes.

**Streams** (`Text`, `Sse`, `SsePrint`, `SseStream`, `Multipart`,
`MultipartPrint`). The incremental server-sent-event splitter and the forwarder
around it (a subset of the WHATWG HTML standard, sections 9.2.5 and 9.2.6), and
the multipart field scanner and rewriter (RFC 2046, section 5.1.1). `SsePrint`
and `MultipartPrint` say what becomes of streams and bodies as their senders
write them.

**Routing, metrics, scaling** (`Candidates`, `Routing`, `Metrics`,
`Autoscale`). The two alias policies, over any scheduler and over the real
planner; the tickless load averages over exact reals with an abstract decay; and
the autoscaler over runs of evaluations, spawns and traffic.

## Where the code does less than it promises

Each of these is kept as it is in the model; the lemma named gives the input or
the exact condition.

- `mark_ready` assigns `Ready` unconditionally. Reported of an instance that an
  unload has just drained, it makes an instance routable whose child is being
  shut down (`Findings.KilledUnderRequest`; exact: `Lifecycle.MarkReadyExact`).
- The reaper of instances stranded in `Loading` collects handles under the lock
  and forces them out after it, whatever they do by then: an instance that has
  become ready meanwhile loses its child under its requests. The comment on
  forced removal names shutdown and the drained reaper as its only callers
  (`Findings.StrandedWhileServing`; exact: `Lifecycle.ForceExact`,
  `Safety.NeverInterrupted`).
- A second removal of an instance whose child is still being shut down finds no
  child and unregisters at once, so the port is free while the child may still
  be bound to it (`Findings.PortFreedWhileDying`; exact: `Findings.GoneExact`).
- A finished spawn makes one wake call although it brings `max_concurrent`
  slots (`Wakeups.StuckRun`, attained: `Findings.WakeBoundAttained`).
- Validation does not reject a repeated index in a device pool
  (`Placement.DistinctDevices`).
- `docs/003-smart-handling.md` says that the last serving instance of a model
  is never drained; the surplus count includes loading instances
  (`MakeRoom.DrainTakesLastServing`; exact: `MakeRoom.DrainKeepsServing`).
- The comment on `plan_make_room` says that no plan means that no allowed
  eviction gets there. With draining, the greedy search can use up what makes
  the right duplicate drainable (`MakeRoom.DrainSurplusNotExhaustive`,
  `Draining.IdleTakesTheSpare`; exact: `Draining.DrainNoneExactly`).
- The comment in `enqueue` says that a push lands before the drain of the queue
  and is cleared by it, or after the removal and is refused. The drain checks
  and clears under separate locks: a push behind the next instance can come in
  between, and is cleared although that instance is on its way
  (`Findings.ClearedWhileLoading`; exact: `Parking.ParkedStep`,
  `Parking.PushedIsKept`).
- A port range that ends at 65535 is left by the scan
  (`PortAlloc.WrapLeavesRange`; exact: `PortAlloc.StaysInsideExactly`).
- An event block without a data line makes the splitter poll instead of looking
  at the rest of its buffer; at the end of the stream the rest is lost
  (`SsePrint.CommentHidesEvent`; exact: `Sse.ChunkingIrrelevantExactly`).
- A multipart part without header lines is read by the scanner and not
  recognised by the rewriter (`Multipart.HeaderlessKept`; exact:
  `Multipart.WriteIsReadExactly`).
- The multipart scanner and rewriter look for `name="..."` anywhere in a part's
  headers, so a file upload whose file name is the field's name counts as the
  field: its content is read as the value and overwritten
  (`MultipartPrint.UploadOverwritten`; exact: `MultipartPrint.HeaderNames`,
  `MultipartPrint.UploadCarries`).
- A metrics tick from the past moves the clock back
  (`Metrics.OutOfOrderExactly`).
- Nothing requires `scale_down_at <= scale_up_at` (`Autoscale.FlapsExactly`).

## Model

| member | source | states |
|---|---|---|
| `Placement.SelectGpus` | `src/scheduler.rs:1483-1690` | The selection loops over the registry, the pool and the sorted candidates compute the selection function the laws below are about |
| `Placement.SelectMeetsSpec` | `src/scheduler.rs:1634-1690` | Selection is empty exactly when fewer than `gpus` pool entries are eligible; otherwise, from a duplicate-free pool, it is the best choice: distinct eligible devices in order of instances on the slot, then free VRAM, then index, every other eligible device coming after them |
| `Placement.BestChoiceUnique` | `src/scheduler.rs:1660-1690` | There is only one best choice, so the specification fixes the result |
| `Placement.PoolOrderIrrelevant` | `src/scheduler.rs:1587-1690` | The order in which a duplicate-free pool is listed does not matter |
| `Placement.RegistryOrderIrrelevant` | `src/scheduler.rs:1495-1586` | The iteration order of the registry's hash map does not matter, for selection and so for feasibility |
| `Placement.DistinctDevices` | `src/scheduler.rs:1587-1690` | In valid configurations, selection returns distinct devices in every situation if and only if the pool repeats no index or the model spans one device; validation does not reject repeats |
| `Placement.SelectExclusionIsRemoval` | `src/scheduler.rs:1495-1586` | Selecting with instances excluded is selecting on the registry without them |
| `Placement.EligibleMonotone` | `src/scheduler.rs:1587-1660` | A device eligible with some instances excluded stays eligible when more are |
| `Placement.OccupiedSlots` | `src/scheduler.rs:1495-1543` | The slots reported as taken are exactly those an instance of the same model sits on |
| `Placement.Tally` | `src/scheduler.rs:1544-1586` | Per PCI slot, the declared VRAM and the count of every registered instance not excluded, whatever its namespace and retiring or not |
| `Devices.CapacityExactly` | `src/scheduler.rs:1602-1620` | A device has a capacity exactly if the snapshot reports its slot or it is a CUDA device with a configured size; so many bytes are within it exactly if they exceed neither what is configured nor what is reported |
| `Devices.DeclaredExactly` | `src/scheduler.rs:1544-1586` | The tallies of a slot are, over the instances not excluded, the full declared megabytes and one, times the number of the instance's devices that its own model's device map puts there |
| `Devices.EligibleExactly` | `src/scheduler.rs:1587-1634` | A device may be taken exactly if it sits in a known slot, no instance of the model has a device there, its size is known, and the declared bytes on the slot with the model's own exceed neither bound, or the model declares none |
| `Devices.PreferredExactly` | `src/scheduler.rs:1660-1690` | One device comes before another exactly if fewer devices are in use on its slot, or as many and some number of bytes more fits it and not the other, or neither is roomier and its index is lower |
| `Devices.SelectExactly` | `src/scheduler.rs:1483-1690` | So, from a list without repeats and in terms of the configuration and the snapshot alone: nothing is selected exactly if fewer than `gpus` devices may be taken, and otherwise the first `gpus` of them in that order |
| `Planner.CheckFeasible` | `src/scheduler.rs:678-705` | The dry run answers the feasibility predicate: cap, retiring and excluded instances not counted, and enough devices |
| `MakeRoom.DryRunIsExact` | `src/scheduler.rs:678-705` | Feasibility with a set excluded is what the spawn checks find once exactly those instances have left the registry |
| `MakeRoom.FeasibleExactly` | `src/scheduler.rs:678-705` | A spawn is feasible exactly if fewer than `max_instances` non-retiring instances of the model are left and, if it lists devices, at least `gpus` of them may be taken |
| `MakeRoom.FeasibleMonotone` | `src/scheduler.rs:678-705` | Taking more instances away never makes a feasible spawn infeasible |
| `Planner.NextMakeRoomVictim` | `src/scheduler.rs:788-881` | The three victim searches over the sorted snapshot pick the victim the plan laws are about |
| `MakeRoom.NextVictimExactly` | `src/scheduler.rs:788-881` | The victim is the least recently used of the instances that may be evicted and have another of their model, else the least recently used that may be evicted, else, where draining is allowed, the least busy one of another model that has another instance, the first in each case; none exactly if there is no such instance |
| `MakeRoom.IdleExactly` | `src/scheduler.rs:834-845` | An instance may be evicted exactly if it is Ready with nothing in flight and its model has no `idle_ttl` or it was last active at least that many times 1,000,000,000 nanoseconds ago |
| `MakeRoom.NoIdleLeft` | `src/scheduler.rs:834-860` | With idle eviction there is no next victim exactly if every instance that may be evicted is planned already |
| `Planner.PlanMakeRoom` | `src/scheduler.rs:751-780` | The planning loop terminates and returns the plan, or none; none whenever making room is off |
| `MakeRoom.PlanSound` | `src/scheduler.rs:751-780` | Once a plan's victims are gone the cap and device checks pass; victims are distinct registered instances; after any proper prefix the checks still fail |
| `MakeRoom.IdleEvictionComplete` | `src/scheduler.rs:834-860` | With idle eviction and frozen state there is no plan if and only if no set of instances that are Ready, have nothing in flight and have been idle for their model's `idle_ttl` seconds, if it has one, would let the model spawn |
| `MakeRoom.PlanOrdered` | `src/scheduler.rs:788-881` | Idle surplus victims come first, then idle last instances, then drained ones; idle classes by ascending last activity, drained ones by ascending in-flight count |
| `MakeRoom.VictimsAllowed` | `src/scheduler.rs:788-881` | No victim is loading or retiring; one not drained has nothing in flight and has been idle for its model's `idle_ttl` seconds, if there is one; a drained one is busy and of another model, and only when draining is allowed |
| `MakeRoom.DrainedModelsSurvive` | `src/scheduler.rs:861-881` | Every model with a drained victim keeps a non-retiring instance the plan does not take |
| `MakeRoom.DrainKeepsServing` | `src/scheduler.rs:788-881` | The search, however far it has to go, drains no model down to no Ready instance if and only if the registry shows it beforehand: the model is the requesting one, has nothing loading, has an idle instance still protected, or has nothing busy |
| `MakeRoom.PlanKeepsServing` | `src/scheduler.rs:751-881` | So every plan leaves a Ready instance, outside its victims, to each model it drains from and that is safe in this sense |
| `MakeRoom.DrainTakesLastServing` | `src/scheduler.rs:822-833` | Concrete registry on which the only Ready instance is drained because a Loading one makes it surplus |
| `MakeRoom.DrainSurplusNotExhaustive` | `src/scheduler.rs:861-881` | Concrete registry with two busy duplicates on which draining finds no plan although draining the other one alone is allowed and enough |
| `Draining.IdleTakesTheSpare` | `src/scheduler.rs:834-881` | Concrete registry with an idle and a busy instance of one model: the search takes the idle one, which makes the busy one the last, and finds no plan although draining the busy one alone is allowed and enough |
| `Draining.DrainNoneExactly` | `src/scheduler.rs:745-780` | With draining, giving up means that no allowed eviction suffices, for every monotone test of what suffices, if and only if each other model with a busy instance has an instance the search can never take (loading, or idle and protected) or has that one only |
| `Draining.DrainComplete` | `src/scheduler.rs:745-780` | So on such a registry, with the real dry run, no plan means that no allowed eviction whatever lets the model spawn |
| `Eviction.SnapsAreProper` | `src/scheduler.rs:788-820` | Registry order and slot limits, which every reachable state keeps, give the planner's snapshot distinct ids and no slot in use on a loading instance, as its laws ask |
| `Eviction.DryRunIsSpawn` | `src/scheduler.rs:678-705` | On the snapshot of a state, feasibility holds exactly if the spawn task's cap check and device selection both pass in it |
| `Eviction.PlanLetsSpawn` | `src/scheduler.rs:751-780` | After any run that removes exactly the first k victims, whatever requests, wake-ups and reapers do meanwhile, the spawn's cap check and device selection pass if and only if k is the whole plan |
| `MakingRoom.PlanCanBeCarriedOut` | `src/scheduler.rs:889-935` | From every reachable state there is a run that removes a plan's victims and no one else, idle ones at once and busy ones by drain, release and reap, after which the spawn's checks pass |
| `Waking.WakeClosedForm` | `src/scheduler.rs:1140-1181` | The pop, find, send, re-park loop is one of four outcomes: nothing, all vanished waiters passed over, or one live waiter handed a slot of the least-loaded instance |
| `Safety.FirstComeFirstServed` | `src/scheduler.rs:1140-1181` | In every reachable state a wake-up serves a waiter exactly if one is still waiting and a slot is free, and then the one pushed first; exactly those pushed after it stay in the queue; without capacity no queue changes |
| `Books.BooksStep` | `src/scheduler.rs:991-1902` | Every step without exception keeps the registry in order, the permit with the spawn from cap check to registration, and each poll on an instance of its own model |
| `Lifecycle.LifecycleStep` | `src/scheduler.rs:1748-1818` | Every step that reports readiness of loading instances only and forces out no busy one keeps it true that routable instances are registered and keep their child, that instances being killed or still polled hold no slot, and that reap candidates stay idle |
| `Lifecycle.LifecycleExact` | `src/scheduler.rs:1748-1818` | These two conditions are exact: a step keeps the invariant if and only if it meets both |
| `Lifecycle.LifecycleRun` | `src/scheduler.rs:991-1450` | The same over every run of such steps |
| `Lifecycle.MarkReadyExact` | `src/instance.rs:96-98` | Reporting readiness keeps the invariant if and only if the instance is still loading |
| `Lifecycle.ForceExact` | `src/scheduler.rs:2391-2418` | A forced removal of a collected handle keeps the invariant if and only if the instance is idle at that moment or its child has already died |
| `Slots.AcquireConserves` | `src/instance.rs:101-104` | Taking a slot together with its guard keeps the count equal to the live guards |
| `Slots.SlotsStep` | `src/instance.rs:101-122` | Every step keeps in-flight counts equal to the live guards, held by requests or sitting in a channel |
| `Slots.LimitsStep` | `src/instance.rs:124-127` | Every step, whatever readiness is reported of and whatever is forced out, keeps every in-flight count within `max_concurrent` and at zero while the instance is loading |
| `Slots.DropGuardConserves` | `src/instance.rs:113-122` | Dropping a guard never saturates at zero and announces exactly one release |
| `Slots.WaitersStep` | `src/scheduler.rs:1037-1181` | Every step keeps queues in the order of the pushes, each waiter parked in at most one place and served at most once, and a receiver for every slot in a channel |
| `Wakeups.StuckStep` | `src/scheduler.rs:1019-1024` | One step adds at most `max_concurrent - 1` servable waiters without a pending wake call, and only when an instance becomes ready |
| `Wakeups.StuckRun` | `src/scheduler.rs:1037-1181` | Over any run whatever, the servable waiters exceed the pending wake calls by no more than `max_concurrent - 1` per instance that became ready |
| `Wakeups.ParkedMeansFull` | `src/scheduler.rs:1037-1181` | With one slot per instance and no wake call pending, a parked waiter means that no registered ready instance has a free slot, in every reachable state |
| `Parking.FindReadyExactly` | `src/scheduler.rs:1184-1198` | The instance that serves is the first in registration order with the fewest requests among the Ready ones of the model below `max_concurrent`; none exactly if there is none of them |
| `Parking.WakeAccounts` | `src/scheduler.rs:1151-1180` | Every waiter that leaves the queue in a wake-up is sent a slot or leaves one release event behind |
| `Parking.ParkedStep` | `src/scheduler.rs:1041-1125` | In one step a parked waiter stays parked, is sent a slot or vanishes if and only if the step is not an unregistration clearing its model's queue |
| `Parking.PushedIsKept` | `src/scheduler.rs:1041-1071` | A request told to wait is parked last with a wake call to come, and on every run stays parked until it is sent a slot or gives up, as long as an instance of its model is registered and no unregistration was already about to clear the queue |
| `Parking.TimedOutIsForgotten` | `src/scheduler.rs:1080-1108` | A waiter that gives up is never sent a slot on any run, and once its entry has been removed it is in no queue |
| `Parking.SlotHandedOver` | `src/scheduler.rs:1140-1181` | A slot in a waiter's channel can be received, is then held by a request, can be released, and is then free again with exactly one release announced |
| `Parking.SpawnsOverlap` | `src/scheduler.rs:1364-1384` | Once a polled spawn lets go of the permit, a queued spawn of another model can take it and go on |
| `Resources.PortsStep` | `src/scheduler.rs:1235-1437` | Every step keeps the used ports equal to those of registered instances, of spawns holding one and of unfinished unregistrations, pairwise distinct |
| `Resources.KeepAliveStep` | `src/scheduler.rs:1328-1358` | Every step keeps each slot's reference count equal to the Vulkan and ROCm devices on it of registered and leaving instances |
| `Resources.KeepAliveReleased` | `src/scheduler.rs:1831-1902` | A release never finds fewer references than it gives back |
| `Resources.RefsExactly` | `src/scheduler.rs:1328-1358` | An instance holds one reference on a slot per device there, and none if its model lists CUDA devices |
| `Safety.KeptAwakeFor` | `src/scheduler.rs:1328-1358` | In every reachable state a slot has as many references as instances of Vulkan and ROCm models, registered or still leaving, have devices in it |
| `PlacementSafety.PlacementStep` | `src/scheduler.rs:1202-1326` | With duplicate-free pools every step keeps what registered instances declare on a slot within both bounds of some listed device there, instances of one model on disjoint slots, and a spawn's chosen devices eligible until it registers |
| `InstanceCap.CapStep` | `src/scheduler.rs:1202-1326` | Every step keeps non-retiring instances, the one a spawn may yet add included, within `max_instances`, also when readiness is reported of a retired instance |
| `Stranding.QueuesStep` | `src/scheduler.rs:1041-1125` | Every step keeps it true that a parked waiter's model has a registered instance or a queue drain still to come, and that no queue exceeds its depth |
| `Safety.Accounted` | `src/scheduler.rs:991-1902` | In every reachable state whatever: registry, slots and their limits, waiters, ports, keep-alive references and queues are in order |
| `Safety.PlacedSafely` | `src/scheduler.rs:1202-1326` | In every reachable state with duplicate-free pools, the bytes all registered instances declare on a slot, if any, exceed neither the configured nor the reported size of some device there that a configured model lists and whose size is known, and the instances of a model are on disjoint slots |
| `Safety.SpansItsDevices` | `src/scheduler.rs:1253-1273` | In every reachable state, repeats in the lists or not, a registered instance spans exactly `gpus` devices, all from its model's own list, or none if the model lists none |
| `Safety.WithinCap` | `src/scheduler.rs:1202-1326` | In no reachable state does a model have more non-retiring instances than its cap |
| `Safety.LivesProperly` | `src/scheduler.rs:1748-1818` | In every state reached with proper readiness reports and forced removals the lifecycle invariant holds |
| `Safety.NeverInterrupted` | `src/scheduler.rs:1748-1818` | Whatever step takes or finishes killing a child, no request holds and no channel contains a slot on its instance, before and after, if and only if it is not a forced removal that finds a collected instance busy and its child running |
| `Rollback.FailedSpawnRestores` | `src/scheduler.rs:1202-1326` | A spawn that gives up before registration, wherever it does, leaves exactly the state it started in |
| `Rollback.FailedStartupRestores` | `src/scheduler.rs:1385-1406` | An instance that never becomes ready, its child dead or alive, is taken back completely: registry, ports, keep-alive references, spawn entry, permit and guards are as before the spawn |
| `Rollback.FailedStartupReturns` | `src/scheduler.rs:1385-1437` | Among any other steps: after a failed poll the instance stays retired, nothing sets its removal back, one of at most six steps of its own can always be taken until it is unregistered, its port is free or another's, the references of every slot are those of other instances and its model's waiters are attended to by another, and the accounts are right all along |
| `Rollback.FailedStartupUnseen` | `src/scheduler.rs:1385-1437` | After any run that removes the instance of a failed start-up and no other, whatever requests and reapers do meanwhile, the dry run answers for every model as before the spawn |
| `Departure.CrashReturns` | `src/scheduler.rs:1914-1947` | The report of an exit of an instance in service retires it: on every run after it the instance is never routable again, and one of at most five steps of its own can always be taken until it is unregistered, its port is free or another's, the references of every slot are those of other instances and its model's waiters are attended to by another |
| `Departure.ExitIsNoticed` | `src/scheduler.rs:1914-1947` | A child that exits by itself stays dead on every run, and as long as nobody has taken it either the report can be handled or the spawn task still polls the instance |
| `Departure.RemovalReturns` | `src/scheduler.rs:1748-1796` | A removal that finds its instance idle, or a forced one, retires it: on every run after it that does not report readiness of the instance it is out of service, and at most six steps of its own, one of which can always be taken, return all it held |
| `Departure.DrainLeads` | `src/scheduler.rs:1748-1818` | A drained busy instance takes no new request on any run after it that does not report readiness of it; a step gives a slot back as long as one is in use, and then a reap collects and retires the instance |
| `Findings.KilledUnderRequest` | `src/instance.rs:96-98` | Concrete run: an unload drains a loading instance, readiness is reported all the same, and the child is killed under a request |
| `Findings.StrandedWhileServing` | `src/scheduler.rs:2391-2418` | Concrete run: an instance is collected while loading, becomes ready, takes a request, and the forced removal takes its running child |
| `Findings.GoneExact` | `src/scheduler.rs:1748-1796` | A step keeps `unregistered means the child is gone` if and only if it is not a removal that finds the child already taken by another one still shutting it down |
| `Findings.PortFreedWhileDying` | `src/scheduler.rs:1798-1818` | Concrete run: a reap during a drain's shutdown unregisters the instance and frees its port while the child still lives |
| `Findings.ClearedWhileLoading` | `src/scheduler.rs:1114-1125` | Concrete run: between an unregistration's check and its clearing of the queue the next instance registers and a request is parked behind it; the request is turned away although its instance is loading |
| `Findings.WakeBoundAttained` | `src/scheduler.rs:1019-1024` | For every `max_concurrent` there is a run that leaves `max_concurrent - 1` servable waiters parked with no wake call pending |
| `Manager.InstanceManager.FindReadyInstance` | `src/scheduler.rs:1184-1198` | The loop returns the first least-loaded ready instance of the model with a free slot, or none |
| `Manager.InstanceManager.TryAcquire` | `src/instance.rs:164-172` | A slot is taken, with its guard, exactly if one is free; otherwise nothing changes |
| `Manager.InstanceManager.ReleaseGuard` | `src/instance.rs:204-210` | Updates the fields to the machine's dropped-guard state: count down, release announced only if a slot was in use |
| `Manager.InstanceManager.WakeHead` | `src/scheduler.rs:1151-1180` | One round of the wake loop either finishes the wake-up or leaves a shorter queue with the same outcome still to reach |
| `Manager.InstanceManager.WakeOne` | `src/scheduler.rs:1140-1181` | The loop over the queue and the instances brings the object to the machine's state after a wake-up |
| `Manager.InstanceManager.Enqueue` | `src/scheduler.rs:1041-1071` | Parks exactly when a non-retiring instance is registered and the queue has room; the new state is the machine's, with one wake call owed |
| `Manager.InstanceManager.RemoveQueued` | `src/scheduler.rs:1104-1108` | Exactly that waiter leaves its queue; all other queues and the rest of the state stay |
| `Manager.InstanceManager.RemoveInstance` | `src/scheduler.rs:1748-1796` | A busy instance is left alone, marked or taken by mode, an idle one always taken; only the caller that got a running child shuts it down |
| `Manager.InstanceManager.CollectDrained` | `src/scheduler.rs:1798-1818` | The handles a reap collects are exactly the registered, retiring, idle ones of the model |
| `Manager.InstanceManager.CollectStranded` | `src/scheduler.rs:2391-2418` | The handles the second reaper collects are exactly the registered, loading ones of the model whose last activity lies too far back |
| `Manager.InstanceManager.Unregister` | `src/scheduler.rs:1837-1859` | Of several calls for one instance at most one finds it and goes on to clean up |
| `Manager.InstanceManager.ReturnPort` | `src/scheduler.rs:1861-1862` | The instance's port, and no other, is given back |
| `Manager.InstanceManager.CheckNoneLeft` | `src/scheduler.rs:1114-1125` | The queue drain goes ahead exactly if no instance of the model is registered, retiring ones included |
| `Manager.InstanceManager.ClearQueue` | `src/scheduler.rs:1114-1125` | All parked waiters of that model, and of no other, are let go |
| `Manager.InstanceManager.ReleaseKeepAlive` | `src/scheduler.rs:1866-1902` | One reference per Vulkan or ROCm device of the instance is released, none for CUDA |
| `Manager.InstanceManager.UnderCap` | `src/scheduler.rs:1209-1227` | The cap check counts the registered non-retiring instances of the model |
| `Manager.InstanceManager.EnsureSpawn` | `src/scheduler.rs:991-1007` | A spawn is started exactly if none is under way for the model |
| `Manager.InstanceManager.CheckCap` | `src/scheduler.rs:1209-1227` | Under the permit the spawn goes on below the cap and otherwise ends, the permit free again |
| `Manager.InstanceManager.SelectDevices` | `src/scheduler.rs:1253-1273` | The selection over the registry's current layout decides: devices chosen, or the port given back and the spawn given up |
| `Manager.InstanceManager.MarkReady` | `src/backend.rs:321-325` | The instance becomes Ready whatever removals did meanwhile, the permit is dropped and one wake call is owed |
| `Manager.InstanceManager.FailPoll` | `src/scheduler.rs:1385-1406` | An instance that did not become ready is retired; its child is shut down by this task only if no removal has it |
| `Manager.InstanceManager.HandleCrash` | `src/scheduler.rs:1914-1947` | An exit that a removal has already dealt with is ignored; otherwise the instance is retired and its unregistration owed |
| `Manager.InstanceManager.Register` | `src/scheduler.rs:1300-1358` | The new loading instance is listed last and holds one keep-alive reference per Vulkan or ROCm device |
| `Manager.InstanceManager.Drive` | `src/scheduler.rs:991-1902` | Any sequence of calls, one per step of a run, brings the object through that run and keeps the accounts and, on proper runs, the lifecycle invariant |
| `Manager.Operate` | `src/scheduler.rs:440-1902` | From a fresh scheduler every run of calls ends with the accounts in order |
| `Instances.Instance.TryAcquire` | `src/instance.rs:164-172` | A guard is handed out exactly when fewer than the limit are live, the live guards never exceed the limit, and the count stays the number of live guards |
| `Instances.SlotGuard.Drop` | `src/instance.rs:204-210` | Dropping a live guard frees one slot, announces exactly one release, leaves all other guards alone and keeps the count the number of live guards; a dropped guard cannot be dropped again |
| `PortAlloc.PortAllocator.AllocateRangeSync` | `src/port_alloc.rs:45-75` | Runs the cyclic scan and marks the port found; on a proper range the port is in it, free by the probe and previously unused, and none is found only if every port is used or busy |
| `PortAlloc.PortAllocator.Free` | `src/port_alloc.rs:119-121` | Exactly that port becomes unused; cursor and range stay, so the scan stays complete |
| `PortAlloc.PortAllocator.SetRange` | `src/port_alloc.rs:126-132` | Used ports stay tracked, the scan restarts at the new start and is complete there |
| `PortAlloc.EachVisitedOnce` | `src/port_alloc.rs:56-61` | From any reachable cursor the scan visits every port of the range exactly once and no other |
| `PortAlloc.ScanFindsFirst` | `src/port_alloc.rs:56-73` | The port found is the first usable one in visiting order; none is found only if none visited is usable |
| `PortAlloc.ScanComplete` | `src/port_alloc.rs:45-75` | No port is returned if and only if every port of the range is used or busy |
| `PortAlloc.ScanCursor` | `src/port_alloc.rs:57-61` | The cursor stays within the range or one past it |
| `PortAlloc.StaysInsideExactly` | `src/port_alloc.rs:57-61` | A scan looks at no port outside its range if and only if the range ends below 65535 or the cursor stands at its start |
| `PortAlloc.WrapLeavesRange` | `src/port_alloc.rs:57-61` | Concrete case: with the range 65535-65535 the second allocation returns port 0 |
| `KeepAlive.HeldIsBalance` | `src/keepalive.rs:53-88` | What is held on a slot is what was acquired less what was released, in any interleaving, if and only if no release came before its acquire |
| `KeepAlive.AllReturned` | `src/keepalive.rs:67-88` | With every reference paired and returned, nothing is held |
| `KeepAlive.KeepAliveManager.Acquire` | `src/keepalive.rs:53-63` | One more reference, and a task runs for every occupied known slot and for nothing else |
| `KeepAlive.KeepAliveManager.Release` | `src/keepalive.rs:67-88` | The slot's task stops with the last reference and not before; a release without a reference changes nothing |
| `KeepAlive.KeepAliveManager.StartTask` | `src/keepalive.rs:91-149` | No second task for a slot and none for an unknown slot |
| `KeepAlive.KeepAliveManager.StopTask` | `src/keepalive.rs:152-158` | Exactly the slot's task is cancelled |
| `KeepAlive.KeepAliveManager.StopAll` | `src/keepalive.rs:168-178` | No task is left running and no reference held |
| `Sse.FindDoubleNewline` | `src/handlers.rs:2477-2492` | The loop finds the first blank line in either line-ending style |
| `Sse.FirstSepExactly` | `src/handlers.rs:2477-2492` | The blank line found is the first place where the text goes on with two newlines or with two carriage returns and newlines; none only if there is no such place |
| `Sse.ParseLines` | `src/handlers.rs:2453-2462` | The loop collects what the field laws below are about: the data lines in order and the last event type |
| `Sse.ExtendStable` | `src/handlers.rs:2445-2492` | A separator found is found again at the same place and length however the text goes on |
| `Sse.EmitsPrefix` | `src/handlers.rs:2225-2300` | However the bytes are cut into chunks, what is emitted is a prefix of the events of the whole text, and never an unterminated tail |
| `Sse.ChunkingIrrelevantExactly` | `src/handlers.rs:2464-2466` | For every chunking the emitted events are those of the one-shot split if and only if no block without a data line comes before one with a data line |
| `SsePrint.TrimExactly` | `src/handlers.rs:2456-2462` | Trimming cuts off the white space at both ends, all of it and nothing else |
| `SsePrint.ExtractPrinted` | `src/handlers.rs:2445-2475` | A block written with any white space, none included, after `data:` and `event:` and around the values, any other lines mixed in and `event:` repeated, is extracted whole, with its data lines joined and the type its last `event:` line gives, and leaves exactly what follows it |
| `SsePrint.RoundTrip` | `src/handlers.rs:2445-2503` | Blocks written in this freedom and in either line-ending style and fed in any chunks come out exactly, in order; an unterminated tail does not |
| `SsePrint.CommentHidesEvent` | `src/handlers.rs:2464-2466` | An event that follows a comment block in the same last chunk is lost |
| `SsePrint.CommentAlone` | `src/handlers.rs:2464-2466` | The same bytes in two chunks yield the event |
| `SseStream.DrainEmits` | `src/handlers.rs:2225-2352` | With any chunks and pauses the forwarder's items are the emitted events, each once, then at most one error: truncation exactly if the stream ended without `[DONE]`, else the stream or idle-timeout error |
| `SseStream.ForwardsStream` | `src/handlers.rs:2225-2352` | A backend stream of such blocks reaches the client exactly, followed by nothing if one of the events is `[DONE]` and by the truncation error if none is |
| `SseStream.KeepsPayloads` | `src/handlers.rs:2235-2252` | All payloads are kept for the debug log, otherwise only the last one; `[DONE]` and empty data never |
| `SseStream.SseForwarder.ExtractSseEvent` | `src/handlers.rs:2445-2475` | Drains exactly one complete block off the buffer, or nothing |
| `SseStream.SseForwarder.PollNext` | `src/handlers.rs:2225-2352` | The poll loop brings the object to the state, and to the result, of the specified poll; a finished stream stays finished |
| `Text.FindSubslice` | `src/handlers.rs:1726-1728` | The first occurrence of the needle, or none if it does not occur |
| `Text.JoinSplit` | `src/handlers.rs:1684-1723` | Joining the segments of a body gives the body back |
| `Text.ResplitExactly` | `src/handlers.rs:1684-1723` | A list of segments survives joining and splitting if and only if no segment contains the delimiter or runs into the next one |
| `Multipart.RewriteMultipartField` | `src/handlers.rs:1684-1723` | The loop over segments computes split, rewrite of every segment that names the field, join |
| `Multipart.UnchangedWithoutField` | `src/handlers.rs:1684-1723` | The body is returned byte for byte when no segment's headers name the field |
| `Multipart.ResplitsExactly` | `src/handlers.rs:1684-1723` | Splitting the rewritten body gives the original segments except the rewritten ones, if and only if no segment names the field or the value does not contain the delimiter |
| `Multipart.ExtractMultipartField` | `src/handlers.rs:1656-1680` | The loop returns the content of the first part, the preamble not counted, that is no closing delimiter and names the field |
| `Multipart.ContentRewritten` | `src/handlers.rs:1656-1723` | Reading a rewritten part gives the value where something was read before, except in a part without header lines, which the rewriter does not recognise |
| `Multipart.ReadsBackExactly` | `src/handlers.rs:1656-1723` | What is read back from a rewritten body, for every body and every value without the delimiter |
| `Multipart.WriteIsReadExactly` | `src/handlers.rs:1656-1723` | Where something is there to be read, a value without the delimiter is read back if and only if the part it is read from has header lines or holds it already |
| `Multipart.HeaderlessKept` | `src/handlers.rs:1656-1723` | Concrete body with a part without header lines: the scanner reads the same content before and after every rewrite |
| `Multipart.WriteThenRead` | `src/handlers.rs:1656-1723` | On bodies whose parts have header lines, the value written is read back exactly if the field was there to be read |
| `Multipart.LastWriteWins` | `src/handlers.rs:1684-1723` | Rewriting twice is rewriting with the second value |
| `MultipartPrint.ReadsWritten` | `src/handlers.rs:1656-1680` | From a body as a client writes it (preamble, parts of header lines and content, closing delimiter, epilogue) the scanner reads the content of the first part that carries the field, whole, and nothing if none does |
| `MultipartPrint.RewritesWritten` | `src/handlers.rs:1684-1723` | The rewriter turns it into the same body with exactly the parts that carry the field given the new content |
| `MultipartPrint.HeaderNames` | `src/handlers.rs:1658-1674` | A part carries the field exactly if the field is a whole quoted string of its headers right behind a text that ends in `name=` |
| `MultipartPrint.FieldCarries` | `src/handlers.rs:1668-1674` | A form field carries its own name and no other: `model_id` is neither read nor rewritten for `model` |
| `MultipartPrint.UploadCarries` | `src/handlers.rs:1668-1674` | A file upload carries its name and also its file name |
| `MultipartPrint.UploadOverwritten` | `src/handlers.rs:1656-1723` | So an upload whose file name is the field's name is read as the field and has its content overwritten |
| `Metrics.ModelMetrics.Tick` | `src/scheduler.rs:140-180` | A tick extends the history by one sample: the averages over 60, 300 and 900 seconds are those of the whole history, every completion is counted, and activity and rates are updated |
| `Metrics.ClosedForm` | `src/scheduler.rs:140-180` | After any ticks in order an average is the sum, over the intervals, of the active count times the decay from the interval's end less the decay from its start; the first tick may be stamped before the entry's creation |
| `Metrics.Bounded` | `src/scheduler.rs:140-180` | An average stays between zero and the largest active count, in order or not |
| `Metrics.RefreshAnywhere` | `src/scheduler.rs:2301-2325` | A refresh that sees the same active count can be inserted anywhere without changing any later average |
| `Metrics.ShorterFollowsFaster` | `src/scheduler.rs:154-163` | In the same time the average over the shorter window comes closer to the active count |
| `Metrics.RateIsPerMinute` | `src/scheduler.rs:165-177` | A request rate decays towards 60 times the completions per second, and stays where it is once there |
| `Metrics.OutOfOrderExactly` | `src/scheduler.rs:146-152` | After a tick from the past the next average is right if and only if the tick was in order or the average already equals the new active count |
| `Autoscale.ModelScaler.Evaluate` | `src/scheduler.rs:2386-2576` | The evaluation, its two reapers and the early exits included, updates instances, cooldown and spawn flag as specified for every load and state |
| `Autoscale.EvaluateSafe` | `src/scheduler.rs:2386-2576` | No evaluation removes a busy instance, the last instance the reapers leave goes only when expired, and nothing scales during the cooldown |
| `Autoscale.UpExactly` | `src/scheduler.rs:2502-2550` | For any two load averages it scales up if and only if autoscaling is on, the cooldown over, there are instances the reapers leave and not just one that is idled out, no spawn is under way, one more is allowed and the five-minute load is above `scale_up_at` times the slots of those there are |
| `Autoscale.DownExactly` | `src/scheduler.rs:2502-2577` | It scales down if and only if, with the same first gates, the five-minute load does not ask for more, the fifteen-minute load is below `scale_down_at` times the slots one instance less would leave, there are two and one of them is idle |
| `Autoscale.EachLoadDecides` | `src/scheduler.rs:2514-2577` | The fifteen-minute load alone never makes or unmakes a scale-up, and the five-minute load alone never makes a scale-down where neither was due |
| `Autoscale.IdleOutExactly` | `src/scheduler.rs:2438-2502` | Whatever the load, the last instance is given up exactly when it has been Ready and idle for the whole time-out; without autoscaling as many are evicted as have been, but one stays |
| `Autoscale.ScalesByOne` | `src/scheduler.rs:2514-2577` | A scale-up starts one spawn and removes nothing, a scale-down removes one instance, and only these start the cooldown anew |
| `Autoscale.NoFlapping` | `src/scheduler.rs:2514-2577` | With the thresholds in order, no run of evaluations, spawns that succeed or fail, and traffic at a constant load scales both up and down |
| `Autoscale.FlapsExactly` | `src/scheduler.rs:2514-2577` | Some run at some constant load scales up and down if and only if autoscaling is enabled, the scale-down threshold is positive and above the scale-up one, and two instances are allowed |
| `Autoscale.Settles` | `src/scheduler.rs:2514-2577` | With the thresholds in order and spawns succeeding, every run at a constant load that despawns no last instance scales fewer than `max_instances` times, however long it is |
| `Candidates.AcquireForCandidates` | `src/scheduler.rs:481-612` | The passes over the resolved candidates compute the routing function, with its trace of actions |
| `Candidates.OnlyUsableServed` | `src/scheduler.rs:481-510` | Under either policy only candidates that are known and not blocked are tried, waited on and served; a request is turned away as blocked exactly if there is no such candidate and one is blocked |
| `Candidates.LoadedTakesWarm` | `src/scheduler.rs:515-521` | `prefer_loaded` serves the first usable candidate with a warm slot, if one has, and does nothing else |
| `Candidates.OrderTakesFirst` | `src/scheduler.rs:562-592` | `prefer_order` serves the first usable candidate if it is warm, or passes the gate, fits and comes up, whatever the others have |
| `Candidates.Round1Serves` | `src/scheduler.rs:522-533` | Without a warm slot `prefer_loaded` serves the first candidate that passes the gate, fits and comes up at its turn; all before it were tried in vain |
| `Candidates.OrderedServes` | `src/scheduler.rs:562-592` | `prefer_order` serves the first candidate for which a warm slot, a spawn or making room gets a slot at its turn |
| `Candidates.WaitsOnLoaded` | `src/scheduler.rs:593-612` | Where nobody is served at once the request waits on the first candidate with an instance in service, else on the first of all, and the queue's answer is the outcome |
| `Candidates.PoliciesAgreeExactly` | `src/scheduler.rs:512-592` | For one candidate the two policies agree in result, state and every action, unless room may be made and a failed spawn has just taken the candidate's room away |
| `Candidates.PoliciesAgreeOnOne` | `src/scheduler.rs:512-592` | They always agree for one candidate if failed spawns restore the state |
| `Candidates.LoadedEvictsLast` | `src/scheduler.rs:515-562` | `prefer_loaded` evicts only when no candidate had a warm slot and every candidate that passed the gate and fitted at its turn was tried and failed, all before the first eviction |
| `Candidates.EvictionsPay` | `src/scheduler.rs:534-592` | Every eviction in a trace was decided, by the plan of that moment, for a candidate that passed the gate and did not fit; if the spawn after it succeeds, that candidate is served |
| `Routing.FitsAfter` | `src/scheduler.rs:889-935` | After a plan has been carried out as far as its drains got, the candidate fits exactly if the dry run without the victims that left says so |
| `Routing.EvictsOnlyToFit` | `src/scheduler.rs:534-592` | With the real dry run, planner and placement: every eviction is for a candidate that does not fit, by a non-empty plan of which no proper prefix would do and which makes it fit; if all drains end in time and the backend comes up, that candidate is served |
| `Routing.WarmExactly` | `src/scheduler.rs:1184-1198` | A warm slot is one more request on the first least-loaded Ready instance of the model below `max_concurrent` |
| `Routing.PoliciesAgree` | `src/scheduler.rs:512-592` | With the real operations, a failed spawn leaving the registry as `Rollback` shows, the policies agree for one candidate in result, registry and every action |
| `Candidates.OrderEvictsPastWarm` | `src/scheduler.rs:563-592` | `prefer_order` evicts for a candidate although a later one has a warm slot, which `prefer_loaded` takes |

## Left out

Taken as one step, as their own locks do not make them so:

- `wake_one` pops and re-parks under separate locks; the model's wake-up is atomic, so a release between the failed find and the re-park is not modelled.
- Keep-alive changes a count and starts or stops the task in two critical sections; acquire and release are atomic here.
- Device selection reads the registry atomically, and registration and its keep-alive references are one step.

Fixed or abstract:

- Config reload during a run: device kinds, slot maps, VRAM and limits are fixed, so retirement by fingerprint and stale-spawn discarding are absent.
- Manager.InstanceManager.Register: instance records are kept in maps by identity; sharing of handles between the registry and other holders is not modelled, and the per-model registry vectors are one list in registration order.
- Placement.Tally: integers are unbounded; the 64-bit overflow of a declared VRAM of more than 16 exabytes is not modelled.
- Machine.Reapable: handles collected by reapers are one set that only grows, which allows more interleavings than the source has.
- Process spawning, health polling, signals, port probes and GPU metrics are outcomes chosen freely at each step or parameters of a call; a failing exit-status query counts as an exit.
- `last_active` and the clock are inputs of the planner and of `Instances`, and not part of the state machine.
- `execute_make_room` is not modelled as a loop with its drain time-out: its removals are steps of the machine, `Eviction.PlanLetsSpawn` and `MakingRoom.PlanCanBeCarriedOut` are about runs of them, and `Routing.FitsAfter` about drains that do not end in time.
- Waiters are numbered when they are pushed; the source draws its queue ids before it takes the lock, so they may be out of the order of the pushes, which is the order served.
- Candidates.AcquireForCandidates: other tasks do not interleave between the operations of one call.
- Routing.EvictsOnlyToFit: which drains end in time and which backends come up are parameters of the call.
- Metrics.ModelMetrics.Tick: floating-point rounding is not modelled, the exponential is any function that satisfies its law, and no closed form is claimed for the request rates, which divide by the tick gap.
- Autoscale.ModelScaler.Evaluate: instances by ascending load are taken as idle ones first in registration order, and nothing else happens during one evaluation (its removals await shutdowns in the source); the race between collecting and removing stranded instances is in `Machine`.
- Autoscale.NoFlapping: instances come and go only by the autoscaler and its spawns; retirement from outside, crashes and spawns started by requests change the count by themselves.
- Sse.FindDoubleNewline: bytes are ASCII characters; lossy UTF-8 decoding, non-ASCII white space and the encoding of an event by the HTTP library are not modelled.
- Multipart.WriteThenRead: the boundary contains no line break, as it comes from a header line; bodies are ASCII.
- SsePrint.RoundTrip: a printed line neither begins nor ends with a carriage return of its own.
- SseStream.SseForwarder.PollNext: the completion record, the debug log and the slot guard the forwarder carries are absent.

Not modelled:

- `shutdown_all`, which kills children under requests by design, and panics of spawn tasks.
- Ephemeral port mode: the operating system picks the port.
- Crash counting and blocking of models, request forwarding, authentication, configuration parsing, alias substitution, fingerprints and debug logs: plumbing, or members easier than those here.
