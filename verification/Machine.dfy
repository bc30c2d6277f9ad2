/** The scheduler as a state machine under a fixed configuration and GPU
    snapshot.  Every step is one critical section of the source; requests,
    spawns, removals, reaps, crashes and wake-ups interleave freely. */
module Machine {
  import opened Base
  import opened Sums
  import opened Types
  import opened Placement

  type WaiterId = nat
  type GuardId = nat

  /** The child process: running, exited by itself, taken by a remover that is
      shutting it down, or gone. */
  datatype Child = Running | Exited | Killing | Gone

  /** What registration fixes about an instance. */
  datatype Info = Info(model: ModelName, port: Port, gpus: seq<nat>)

  /** What changes: the source's `state`, `in_flight` and `child`, and how many
      `unregister_instance` calls are under way that have not yet looked at the
      registry. */
  datatype Life = Life(state: InstanceState, inFlight: nat, child: Child, unregs: nat)

  /** A slot guard is held by a request or sits in a parked waiter's channel. */
  datatype Holder = Request | Inbox(waiter: WaiterId)

  datatype Guard = Guard(inst: InstId, holder: Holder)

  /** Progress of the spawn task of a model. */
  datatype Phase =
    | Queued                                 // waiting for the spawn permit
    | Permitted                              // holds the permit
    | Capped                                 // passed the instance cap
    | HasPort(port: Port)
    | Selected(port: Port, gpus: seq<nat>)   // devices chosen, child not started
    | Polling(inst: InstId)                  // registered, waiting for readiness
    | Spawned(inst: InstId)                  // ready, wake-up still to come
    | Ending                                 // about to drop the in-flight entry

  /** What the one effective `unregister_instance` call still has to do. */
  datatype Cleanup = FreePort | DrainCheck | DrainClear | ReleaseKeepAlive

  /** Instances and their registration. */
  datatype Fleet = Fleet(
    info: map<InstId, Info>,             // every instance ever registered
    life: map<InstId, Life>,
    nextInst: InstId,
    registry: seq<InstId>,               // registered instances, in registration order
    leaving: seq<InstId>,                // removed from the registry, cleanup unfinished
    stage: map<InstId, Cleanup>,
    reaping: set<InstId>,                // handles collected by some reap filter
    stranded: set<InstId>)               // handles collected as stranded in `Loading`

  /** Parked waiters and the wake calls still to be made. */
  datatype Lobby = Lobby(
    queues: map<ModelName, seq<WaiterId>>,
    nextWaiter: WaiterId,
    gone: set<WaiterId>,                 // waiters whose receiver is dropped
    events: map<ModelName, nat>,         // undelivered release events
    pushWakes: map<ModelName, nat>)      // wake calls owed by `enqueue`

  datatype State = State(
    fleet: Fleet,
    lobby: Lobby,
    guards: map<GuardId, Guard>,
    nextGuard: GuardId,
    spawns: map<ModelName, Phase>,
    permit: Option<ModelName>,
    used: set<Port>,
    keepAlive: multiset<Slot>)

  function Init(): State {
    State(Fleet(map[], map[], 0, [], [], map[], {}, {}), Lobby(map[], 0, {}, map[], map[]),
          map[], 0, map[], None, {}, multiset{})
  }

  // ── Readers ─────────────────────────────────────────────────────────────

  function Limit(env: Env, m: ModelName): nat {
    if m in env.configs then env.configs[m].maxConcurrent else 0
  }

  function Queue(lobby: Lobby, m: ModelName): seq<WaiterId> {
    if m in lobby.queues then lobby.queues[m] else []
  }

  predicate IsOf(fleet: Fleet, i: InstId, m: ModelName) {
    i in fleet.info && fleet.info[i].model == m
  }

  predicate Known(fleet: Fleet, i: InstId) { i in fleet.life && i in fleet.info }

  /** A non-retiring registered instance of `m`. */
  predicate Routable(fleet: Fleet, i: InstId, m: ModelName) {
    i in fleet.registry && IsOf(fleet, i, m) && i in fleet.life && fleet.life[i].state != Failed
  }

  predicate HasCapacity(env: Env, fleet: Fleet, i: InstId) {
    Known(fleet, i) && fleet.life[i].state == Ready && fleet.life[i].inFlight < Limit(env, fleet.info[i].model)
  }

  /** The first least-loaded ready instance of `m` with a free slot. */
  function LeastLoaded(env: Env, fleet: Fleet, m: ModelName, list: seq<InstId>): (r: Option<InstId>)
    ensures r.Some? ==> r.value in list && IsOf(fleet, r.value, m) && HasCapacity(env, fleet, r.value)
    ensures forall i :: i in list && IsOf(fleet, i, m) && HasCapacity(env, fleet, i) ==>
              r.Some? && fleet.life[r.value].inFlight <= fleet.life[i].inFlight
  {
    if list == [] then None else
    var rest := LeastLoaded(env, fleet, m, list[1..]);
    if !(IsOf(fleet, list[0], m) && HasCapacity(env, fleet, list[0])) then rest
    else if rest.Some? && fleet.life[rest.value].inFlight < fleet.life[list[0]].inFlight then rest
    else Some(list[0])
  }

  function FindReady(env: Env, fleet: Fleet, m: ModelName): Option<InstId> {
    LeastLoaded(env, fleet, m, fleet.registry)
  }

  function At(info: map<InstId, Info>, i: InstId): Placed {
    if i in info then Placed(i, info[i].model, info[i].gpus) else Placed(i, "", [])
  }

  /** What placement sees of a list of instances. */
  function Layout(info: map<InstId, Info>, list: seq<InstId>): seq<Placed> {
    if list == [] then [] else [At(info, list[0])] + Layout(info, list[1..])
  }

  function ActiveOf(fleet: Fleet, m: ModelName): InstId -> nat {
    (i: InstId) => if IsOf(fleet, i, m) && i in fleet.life && fleet.life[i].state != Failed then 1 else 0
  }

  /** Registered, non-retiring instances of `m`. */
  function ActiveCount(fleet: Fleet, m: ModelName): nat {
    Sum(fleet.registry, ActiveOf(fleet, m))
  }

  /** The keep-alive references an instance on `gpus` holds, one per device. */
  function KeepAliveSlots(env: Env, m: ModelName, gpus: seq<nat>): multiset<Slot> {
    if gpus == [] || env.KindOf(m) == Cuda then multiset{} else
    (match env.SlotFor(m, gpus[0]) case Some(slot) => multiset{slot} case None => multiset{})
    + KeepAliveSlots(env, m, gpus[1..])
  }

  function Other(i: InstId): InstId -> bool { (j: InstId) => j != i }

  function Drop(list: seq<InstId>, i: InstId): seq<InstId> { Keep(list, Other(i)) }

  // ── Slots ───────────────────────────────────────────────────────────────

  function SetLife(s: State, i: InstId, l: Life): State {
    s.(fleet := s.fleet.(life := s.fleet.life[i := l]))
  }

  /** `try_acquire` succeeded: one more slot in use, and a guard for it. */
  function Acquire(s: State, i: InstId, holder: Holder): State
    requires i in s.fleet.life
  {
    var l := s.fleet.life[i];
    SetLife(s, i, l.(inFlight := l.inFlight + 1))
      .(guards := s.guards[s.nextGuard := Guard(i, holder)], nextGuard := s.nextGuard + 1)
  }

  predicate KnownGuard(s: State, g: GuardId) { g in s.guards && Known(s.fleet, s.guards[g].inst) }

  /** A guard is dropped: the count goes down, saturating at zero, and a
      release event is sent only if a slot was in use. */
  function DropGuard(s: State, g: GuardId): State
    requires KnownGuard(s, g)
  {
    var i := s.guards[g].inst;
    var l := s.fleet.life[i];
    SetLife(s, i, l.(inFlight := if l.inFlight > 0 then l.inFlight - 1 else 0))
      .(guards := s.guards - {g},
        lobby := if l.inFlight > 0 then s.lobby.(events := Bump(s.lobby.events, s.fleet.info[i].model, 1)) else s.lobby)
  }

  // ── Waking ──────────────────────────────────────────────────────────────

  function SetQueue(lobby: Lobby, m: ModelName, q: seq<WaiterId>): Lobby {
    lobby.(queues := lobby.queues[m := q])
  }

  /** One wake-up: pop waiters; a vanished one costs an acquire and a release,
      a live one is handed the slot, and without capacity the head stays. */
  function WakeOne(env: Env, s: State, m: ModelName): State
    decreases |Queue(s.lobby, m)|
  {
    var q := Queue(s.lobby, m);
    if m !in env.configs || q == [] then s else
    match FindReady(env, s.fleet, m)
    case None => s
    case Some(i) =>
      if q[0] in s.lobby.gone then
        WakeOne(env, s.(lobby := SetQueue(s.lobby, m, q[1..]).(events := Bump(s.lobby.events, m, 1))), m)
      else Acquire(s.(lobby := SetQueue(s.lobby, m, q[1..])), i, Inbox(q[0]))
  }

  // ── Removal ─────────────────────────────────────────────────────────────

  /** `state = Failed; child.take()`: whoever gets the running child shuts it
      down before unregistering, everyone else unregisters right away. */
  function TakeChild(l: Life): Life {
    match l.child
    case Running => l.(state := Failed, child := Killing)
    case Exited => l.(state := Failed, child := Gone, unregs := l.unregs + 1)
    case Killing => l.(state := Failed, unregs := l.unregs + 1)
    case Gone => l.(state := Failed, unregs := l.unregs + 1)
  }

  /** A spawn that ends before registering anything. */
  function GiveUp(s: State, m: ModelName): State {
    s.(spawns := s.spawns - {m}, permit := None)
  }

  function ReleasePermit(s: State, m: ModelName): State {
    if s.permit == Some(m) then s.(permit := None) else s
  }

  /** The candidates of a reap: retiring, registered, and idle. */
  function Reapable(fleet: Fleet, m: ModelName): set<InstId> {
    set i | i in fleet.registry && IsOf(fleet, i, m) && i in fleet.life
            && fleet.life[i].state == Failed && fleet.life[i].inFlight == 0
  }

  /** The candidates of the stranded-`Loading` reaper: registered and loading.
      `late` are the handles whose last activity lies far enough back. */
  function Straggling(fleet: Fleet, m: ModelName, late: set<InstId>): set<InstId> {
    set i | i in late && i in fleet.registry && IsOf(fleet, i, m) && i in fleet.life && fleet.life[i].state == Loading
  }

  function RegisterInstance(env: Env, s: State, m: ModelName, port: Port, gpus: seq<nat>): State {
    var i := s.fleet.nextInst;
    s.(fleet := s.fleet.(info := s.fleet.info[i := Info(m, port, gpus)],
                         life := s.fleet.life[i := Life(Loading, 0, Running, 0)],
                         nextInst := i + 1,
                         registry := s.fleet.registry + [i]),
       keepAlive := s.keepAlive + KeepAliveSlots(env, m, gpus),
       spawns := s.spawns[m := Polling(i)])
  }

  function UnregisterInstance(s: State, i: InstId): State
    requires i in s.fleet.life && s.fleet.life[i].unregs > 0
  {
    var t := SetLife(s, i, s.fleet.life[i].(unregs := s.fleet.life[i].unregs - 1));
    if i !in s.fleet.registry then t
    else t.(fleet := t.fleet.(registry := Drop(s.fleet.registry, i), leaving := s.fleet.leaving + [i],
                              stage := s.fleet.stage[i := FreePort]))
  }

  // ── Steps ───────────────────────────────────────────────────────────────

  datatype RequestStep =
    | Barge(i: InstId)                       // fast path: acquire on any instance with a free slot
    | Release(g: GuardId)                    // a request drops its guard
    | Push(m: ModelName)                     // `enqueue` checks and parks
    | VanishParked(w: WaiterId)              // receiver dropped before a slot was sent
    | VanishServed(g: GuardId)               // receiver dropped with a slot in its channel
    | RemoveQueued(m: ModelName, w: WaiterId)
    | Receive(g: GuardId)                    // waiter takes the guard out of its channel

  /** What a wake call is owed to. */
  datatype WakeSource = OnRelease | OnPush | OnSpawn

  datatype SpawnStep =
    | Start
    | TakePermit
    | CheckCap
    | AllocPort(port: Option<Port>)
    | Abort                                  // bad command, or the process did not start
    | SelectDevices
    | Register
    | DropPermit
    | MarkReady
    | Fail                                   // exited or timed out
    | End

  datatype RemoveStep =
    | IfIdle
    | Drain
    | Force                                  // second half of either reaper
    | Exits                                  // the child exits by itself
    | Killed                                 // a remover's shutdown of the child completes
    | Crash                                  // the monitor's report is handled
    | Unregister

  datatype Step =
    | Requesting(req: RequestStep)
    | Waking(model: ModelName, source: WakeSource)
    | Spawning(model: ModelName, spawn: SpawnStep)
    | Removing(inst: InstId, remove: RemoveStep)
    | Reaping(model: ModelName)              // first half of a reap: collect the handles
    | ReapingStranded(model: ModelName, late: set<InstId>)  // the same for instances stranded in `Loading`
    | Cleaning(inst: InstId)                 // next piece of `unregister_instance`

  predicate RequestEnabled(env: Env, s: State, req: RequestStep) {
    match req
    case Barge(i) => HasCapacity(env, s.fleet, i)
    case Release(g) => KnownGuard(s, g) && s.guards[g].holder == Request
    case Push(m) =>
      && m in env.configs && (exists i :: i in s.fleet.registry && Routable(s.fleet, i, m))
      && |Queue(s.lobby, m)| < env.configs[m].queueDepth
    case VanishParked(w) => w < s.lobby.nextWaiter && forall g :: g in s.guards ==> s.guards[g].holder != Inbox(w)
    case VanishServed(g) => KnownGuard(s, g) && s.guards[g].holder.Inbox?
    case RemoveQueued(m, w) => w in s.lobby.gone
    case Receive(g) => g in s.guards && s.guards[g].holder.Inbox?
  }

  function NotWaiter(w: WaiterId): WaiterId -> bool { (x: WaiterId) => x != w }

  function RequestNext(env: Env, s: State, req: RequestStep): State
    requires RequestEnabled(env, s, req)
  {
    match req
    case Barge(i) => Acquire(s, i, Request)
    case Release(g) => DropGuard(s, g)
    case Push(m) =>
      s.(lobby := SetQueue(s.lobby, m, Queue(s.lobby, m) + [s.lobby.nextWaiter])
                    .(nextWaiter := s.lobby.nextWaiter + 1, pushWakes := Bump(s.lobby.pushWakes, m, 1)))
    case VanishParked(w) => s.(lobby := s.lobby.(gone := s.lobby.gone + {w}))
    case VanishServed(g) =>
      var t := DropGuard(s, g);
      t.(lobby := t.lobby.(gone := s.lobby.gone + {s.guards[g].holder.waiter}))
    case RemoveQueued(m, w) =>
      s.(lobby := if m in s.lobby.queues then SetQueue(s.lobby, m, Keep(s.lobby.queues[m], NotWaiter(w))) else s.lobby)
    case Receive(g) => s.(guards := s.guards[g := s.guards[g].(holder := Request)])
  }

  predicate WakeEnabled(s: State, m: ModelName, source: WakeSource) {
    match source
    case OnRelease => Count(s.lobby.events, m) > 0
    case OnPush => Count(s.lobby.pushWakes, m) > 0
    case OnSpawn => m in s.spawns && s.spawns[m].Spawned?
  }

  /** The wake call is no longer owed. */
  function TakeWake(s: State, m: ModelName, source: WakeSource): State
    requires WakeEnabled(s, m, source)
  {
    match source
    case OnRelease => s.(lobby := s.lobby.(events := s.lobby.events[m := Count(s.lobby.events, m) - 1]))
    case OnPush => s.(lobby := s.lobby.(pushWakes := s.lobby.pushWakes[m := Count(s.lobby.pushWakes, m) - 1]))
    case OnSpawn => s.(spawns := s.spawns[m := Ending])
  }

  predicate SpawnEnabled(env: Env, s: State, m: ModelName, act: SpawnStep) {
    m in env.configs &&
    if act.Start? then m !in s.spawns else
    m in s.spawns &&
    var p := s.spawns[m];
    match act
    case Start => false
    case TakePermit => p == Queued && s.permit == None
    case CheckCap => p == Permitted
    case AllocPort(port) => p == Capped && (port.Some? ==> port.value !in s.used)
    case Abort => p.HasPort? || p.Selected?
    case SelectDevices => p.HasPort?
    case Register => p.Selected?
    case DropPermit => p.Polling? && s.permit == Some(m)
    case MarkReady => p.Polling? && p.inst in s.fleet.life
    case Fail => p.Polling? && p.inst in s.fleet.life
    case End => p == Ending
  }

  function SpawnNext(env: Env, s: State, m: ModelName, act: SpawnStep): State
    requires SpawnEnabled(env, s, m, act)
  {
    match act
    case Start => s.(spawns := s.spawns[m := Queued])
    case TakePermit => s.(spawns := s.spawns[m := Permitted], permit := Some(m))
    case CheckCap =>
      if ActiveCount(s.fleet, m) >= env.configs[m].maxInstances then GiveUp(s, m)
      else s.(spawns := s.spawns[m := Capped])
    case AllocPort(port) =>
      (match port
       case None => GiveUp(s, m)
       case Some(p) => s.(spawns := s.spawns[m := HasPort(p)], used := s.used + {p}))
    case Abort => GiveUp(s, m).(used := s.used - {s.spawns[m].port})
    case SelectDevices =>
      var cfg := env.configs[m];
      var gpus := Select(env, Layout(s.fleet.info, s.fleet.registry), {}, cfg);
      if cfg.HasPool() && |gpus| < cfg.gpus then GiveUp(s, m).(used := s.used - {s.spawns[m].port})
      else s.(spawns := s.spawns[m := Selected(s.spawns[m].port, gpus)])
    case Register => RegisterInstance(env, s, m, s.spawns[m].port, s.spawns[m].gpus)
    case DropPermit => s.(permit := None)
    case MarkReady =>
      var i := s.spawns[m].inst;
      ReleasePermit(SetLife(s, i, s.fleet.life[i].(state := Ready)), m).(spawns := s.spawns[m := Spawned(i)])
    case Fail =>
      var i := s.spawns[m].inst;
      ReleasePermit(SetLife(s, i, TakeChild(s.fleet.life[i])), m).(spawns := s.spawns[m := Ending])
    case End => s.(spawns := s.spawns - {m})
  }

  /** The spawn task of the instance's model is still polling it. */
  predicate Polled(s: State, i: InstId) {
    i in s.fleet.info && s.fleet.info[i].model in s.spawns && s.spawns[s.fleet.info[i].model] == Polling(i)
  }

  predicate RemoveEnabled(s: State, i: InstId, act: RemoveStep) {
    Known(s.fleet, i) &&
    match act
    case IfIdle => true
    case Drain => true
    case Force => i in s.fleet.reaping || i in s.fleet.stranded
    case Exits => s.fleet.life[i].child == Running
    case Killed => s.fleet.life[i].child == Killing
    case Crash => s.fleet.life[i].child == Exited && !Polled(s, i)
    case Unregister => s.fleet.life[i].unregs > 0
  }

  function RemoveNext(s: State, i: InstId, act: RemoveStep): State
    requires RemoveEnabled(s, i, act)
  {
    var l := s.fleet.life[i];
    match act
    case IfIdle => if l.inFlight > 0 then s else SetLife(s, i, TakeChild(l))
    case Drain => SetLife(s, i, if l.inFlight > 0 then l.(state := Failed) else TakeChild(l))
    case Force => SetLife(s, i, TakeChild(l))
    case Exits => SetLife(s, i, l.(child := Exited))
    case Killed => SetLife(s, i, l.(child := Gone, unregs := l.unregs + 1))
    case Crash => if l.state == Failed then s else SetLife(s, i, TakeChild(l))
    case Unregister => UnregisterInstance(s, i)
  }

  function SetStage(fleet: Fleet, i: InstId, c: Cleanup): Fleet {
    fleet.(stage := fleet.stage[i := c])
  }

  predicate CleanEnabled(s: State, i: InstId) { Known(s.fleet, i) && i in s.fleet.stage }

  function CleanNext(env: Env, s: State, i: InstId): State
    requires CleanEnabled(s, i)
  {
    var info := s.fleet.info[i];
    match s.fleet.stage[i]
    case FreePort => s.(used := s.used - {info.port}, fleet := SetStage(s.fleet, i, DrainCheck))
    case DrainCheck =>
      var none := forall j :: j in s.fleet.registry ==> !IsOf(s.fleet, j, info.model);
      s.(fleet := SetStage(s.fleet, i, if none then DrainClear else ReleaseKeepAlive))
    case DrainClear =>
      s.(lobby := if info.model in s.lobby.queues then SetQueue(s.lobby, info.model, []) else s.lobby,
         fleet := SetStage(s.fleet, i, ReleaseKeepAlive))
    case ReleaseKeepAlive =>
      s.(keepAlive := s.keepAlive - KeepAliveSlots(env, info.model, info.gpus),
         fleet := s.fleet.(leaving := Drop(s.fleet.leaving, i), stage := s.fleet.stage - {i}))
  }

  predicate Enabled(env: Env, s: State, step: Step) {
    match step
    case Requesting(req) => RequestEnabled(env, s, req)
    case Waking(m, source) => WakeEnabled(s, m, source)
    case Spawning(m, act) => SpawnEnabled(env, s, m, act)
    case Removing(i, act) => RemoveEnabled(s, i, act)
    case Reaping(m) => true
    case ReapingStranded(m, late) => true
    case Cleaning(i) => CleanEnabled(s, i)
  }

  function Next(env: Env, s: State, step: Step): State
    requires Enabled(env, s, step)
  {
    match step
    case Requesting(req) => RequestNext(env, s, req)
    case Waking(m, source) => WakeOne(env, TakeWake(s, m, source), m)
    case Spawning(m, act) => SpawnNext(env, s, m, act)
    case Removing(i, act) => RemoveNext(s, i, act)
    case Reaping(m) => s.(fleet := s.fleet.(reaping := s.fleet.reaping + Reapable(s.fleet, m)))
    case ReapingStranded(m, late) => s.(fleet := s.fleet.(stranded := s.fleet.stranded + Straggling(s.fleet, m, late)))
    case Cleaning(i) => CleanNext(env, s, i)
  }

  /** Readiness is reported of a loading instance.  The source assigns `Ready`
      unconditionally. */
  predicate ReadyFromLoading(s: State, step: Step) {
    step.Spawning? && step.spawn.MarkReady? && step.model in s.spawns && s.spawns[step.model].Polling?
    && s.spawns[step.model].inst in s.fleet.life ==>
      s.fleet.life[s.spawns[step.model].inst].state == Loading
  }

  /** A forced removal finds the instance idle, or its child already dead.  The
      source takes the child of whatever was collected. */
  predicate SparesBusy(s: State, step: Step) {
    step.Removing? && step.remove.Force? && step.inst in s.fleet.life ==>
      s.fleet.life[step.inst].inFlight == 0 || s.fleet.life[step.inst].child != Running
  }

  // ── Runs ────────────────────────────────────────────────────────────────

  /** Every step is enabled where it is taken. */
  predicate ValidRun(env: Env, s: State, steps: seq<Step>)
    decreases |steps|
  {
    steps == [] || (Enabled(env, s, steps[0]) && ValidRun(env, Next(env, s, steps[0]), steps[1..]))
  }

  /** A valid run on which readiness only ever arrives for loading instances
      and no forced removal hits a busy one. */
  predicate GoodRun(env: Env, s: State, steps: seq<Step>)
    ensures GoodRun(env, s, steps) ==> ValidRun(env, s, steps)
    decreases |steps|
  {
    steps == [] || (Enabled(env, s, steps[0]) && ReadyFromLoading(s, steps[0]) && SparesBusy(s, steps[0])
                    && GoodRun(env, Next(env, s, steps[0]), steps[1..]))
  }

  function Exec(env: Env, s: State, steps: seq<Step>): State
    requires ValidRun(env, s, steps)
    decreases |steps|
  {
    if steps == [] then s else Exec(env, Next(env, s, steps[0]), steps[1..])
  }

  ghost predicate Reachable(env: Env, s: State) {
    exists steps :: ValidRun(env, Init(), steps) && Exec(env, Init(), steps) == s
  }

  /** Reachable with readiness reported of loading instances only and no busy
      instance forced out. */
  ghost predicate WellReachable(env: Env, s: State) {
    exists steps :: GoodRun(env, Init(), steps) && Exec(env, Init(), steps) == s
  }

  // ── Extending runs ──────────────────────────────────────────────────────

  lemma {:induction false} RunOn(env: Env, s: State, steps: seq<Step>, step: Step)
    requires ValidRun(env, s, steps) && Enabled(env, Exec(env, s, steps), step)
    ensures ValidRun(env, s, steps + [step])
    ensures Exec(env, s, steps + [step]) == Next(env, Exec(env, s, steps), step)
    ensures GoodRun(env, s, steps) && ReadyFromLoading(Exec(env, s, steps), step) && SparesBusy(Exec(env, s, steps), step)
            ==> GoodRun(env, s, steps + [step])
    decreases |steps|
  {
    var all := steps + [step];
    if steps == [] {
      assert all == [step] && all[1..] == [];
    } else {
      RunOn(env, Next(env, s, steps[0]), steps[1..], step);
      assert all[1..] == steps[1..] + [step];
    }
  }

  lemma {:induction false} RunConcat(env: Env, s: State, a: seq<Step>, b: seq<Step>)
    requires ValidRun(env, s, a) && ValidRun(env, Exec(env, s, a), b)
    ensures ValidRun(env, s, a + b) && Exec(env, s, a + b) == Exec(env, Exec(env, s, a), b)
    decreases |a|
  {
    if a == [] {
      assert a + b == b;
    } else {
      RunConcat(env, Next(env, s, a[0]), a[1..], b);
      assert (a + b)[1..] == a[1..] + b;
    }
  }

  lemma Reach(env: Env, s: State, step: Step, t: State)
    requires Reachable(env, s) && Enabled(env, s, step) && Next(env, s, step) == t
    ensures Reachable(env, t)
  {
    var steps :| ValidRun(env, Init(), steps) && Exec(env, Init(), steps) == s;
    RunOn(env, Init(), steps, step);
  }

  lemma WellReach(env: Env, s: State, step: Step, t: State)
    requires WellReachable(env, s) && Enabled(env, s, step) && Next(env, s, step) == t
    requires ReadyFromLoading(s, step) && SparesBusy(s, step)
    ensures WellReachable(env, t)
  {
    var steps :| GoodRun(env, Init(), steps) && Exec(env, Init(), steps) == s;
    RunOn(env, Init(), steps, step);
  }

  lemma WellIsReachable(env: Env, s: State)
    requires WellReachable(env, s)
    ensures Reachable(env, s)
  {
  }
}
