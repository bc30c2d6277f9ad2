/** The scheduler object: its critical sections as methods that update the
    fields in place.  Any run of calls, with what other tasks and processes do
    in between, is a run of the state machine, and so keeps its invariants. */
module Manager {
  import opened Base
  import opened Sums
  import opened Types
  import opened Placement
  import opened Machine
  import opened Books
  import opened Lifecycle
  import opened InstanceCap
  import opened Slots
  import opened Safety

  class InstanceManager {
    const env: Env
    var info: map<InstId, Info>             // every instance created so far
    var life: map<InstId, Life>
    var nextInst: InstId
    var registry: seq<InstId>
    var queues: map<ModelName, seq<WaiterId>>
    var nextWaiter: WaiterId
    var gone: set<WaiterId>
    var events: map<ModelName, nat>         // release notifications not yet received
    var spawns: map<ModelName, Phase>
    var permit: Option<ModelName>
    var used: set<Port>
    var keepAlive: multiset<Slot>
    // Work under way in other tasks.
    var leaving: seq<InstId>
    var stage: map<InstId, Cleanup>
    var reaping: set<InstId>
    var stranded: set<InstId>
    var pushWakes: map<ModelName, nat>
    var guards: map<GuardId, Guard>
    var nextGuard: GuardId

    /** Every instance has a record, and guards are numbered in turn. */
    ghost predicate Valid()
      reads this`info, this`life, this`registry, this`guards, this`nextGuard
    {
      && (forall i :: i in info <==> i in life)
      && (forall i :: i in registry ==> i in info)
      && (forall g :: g in guards ==> g < nextGuard)
    }

    /** The state of the machine this object is in. */
    ghost function View(): State
      reads this
    {
      State(Fleet(info, life, nextInst, registry, leaving, stage, reaping, stranded),
            Lobby(queues, nextWaiter, gone, events, pushWakes),
            guards, nextGuard, spawns, permit, used, keepAlive)
    }

    ghost function LobbyView(): Lobby
      reads this
    {
      View().lobby
    }

    constructor (env: Env)
      ensures Valid() && View() == Init() && this.env == env
    {
      this.env := env;
      info, life, nextInst, registry := map[], map[], 0, [];
      queues, nextWaiter, gone, events := map[], 0, {}, map[];
      spawns, permit, used, keepAlive := map[], None, {}, multiset{};
      leaving, stage, reaping, stranded := [], map[], {}, {};
      pushWakes, guards, nextGuard := map[], map[], 0;
    }

    // ── Slots ─────────────────────────────────────────────────────────────

    predicate Free(i: InstId, m: ModelName)
      requires i in info && i in life
      reads this
    {
      info[i].model == m && life[i].state == Ready && life[i].inFlight < Limit(env, m)
    }

    /** A new record for one instance. */
    method Store(i: InstId, l: Life)
      requires Valid() && i in info
      modifies this`life
      ensures Valid() && View() == SetLife(old(View()), i, l)
    {
      life := life[i := l];
    }

    /** The first least-loaded ready instance with a free slot. */
    method FindReadyInstance(m: ModelName) returns (r: Option<InstId>)
      requires Valid()
      ensures r == FindReady(env, View().fleet, m)
      ensures r.Some? ==> r.value in info && Free(r.value, m)
    {
      r := None;
      ghost var f := View().fleet;
      for k := 0 to |registry|
        invariant r == LeastLoaded(env, f, m, registry[..k])
      {
        var i := registry[k];
        LeastLoadedPrefix(env, f, m, registry, k);
        if Free(i, m) && (r.None? || life[i].inFlight < life[r.value].inFlight) {
          r := Some(i);
        }
      }
      assert registry[..|registry|] == registry;
    }

    /** `try_acquire`: a slot and its guard, if the instance has one free. */
    method TryAcquire(i: InstId, holder: Holder) returns (ok: bool)
      requires Valid() && i in info
      modifies this`life, this`guards, this`nextGuard
      ensures Valid() && ok == Machine.HasCapacity(env, old(View()).fleet, i)
      ensures ok <==> old(life[i].state) == Ready && info[i].model in env.configs
                      && old(life[i].inFlight) < env.configs[info[i].model].maxConcurrent
      ensures View() == if ok then Acquire(old(View()), i, holder) else old(View())
    {
      ok := Free(i, info[i].model);
      if ok {
        Store(i, life[i].(inFlight := life[i].inFlight + 1));
        guards := guards[nextGuard := Guard(i, holder)];
        nextGuard := nextGuard + 1;
      }
    }

    /** `release_slot`, when a guard is dropped: saturating, and announced only
        if a slot was in use. */
    method ReleaseGuard(g: GuardId)
      requires Valid() && g in guards && guards[g].inst in info
      modifies this`life, this`guards, this`events
      ensures Valid() && View() == DropGuard(old(View()), g)
    {
      var i := guards[g].inst;
      var wasActive := life[i].inFlight > 0;
      Store(i, life[i].(inFlight := if wasActive then life[i].inFlight - 1 else 0));
      if wasActive {
        events := Bump(events, info[i].model, 1);
      }
      guards := guards - {g};
    }

    // ── Queueing ──────────────────────────────────────────────────────────

    /** One round of the loop of `wake_one`: pop the head waiter, find and take
        a slot, send it; go on if the waiter has vanished (its slot comes
        straight back), put it back if there is no slot. */
    method WakeHead(m: ModelName) returns (done: bool)
      requires Valid() && m in env.configs
      modifies this`queues, this`life, this`guards, this`nextGuard, this`events
      ensures Valid()
      ensures done ==> View() == Machine.WakeOne(env, old(View()), m)
      ensures !done ==> Machine.WakeOne(env, View(), m) == Machine.WakeOne(env, old(View()), m)
      ensures !done ==> |Queue(LobbyView(), m)| < |Queue(old(LobbyView()), m)|
    {
      ghost var s := View();
      if m !in queues || queues[m] == [] {
        return true;
      }
      var q := queues[m];
      queues := queues[m := q[1..]];
      ghost var popped := View();
      var found := FindReadyInstance(m);
      if found.None? {
        queues := queues[m := [q[0]] + queues[m]];
        assert [q[0]] + q[1..] == q;
        assert queues == s.lobby.queues;
        return true;
      }
      if q[0] in gone {
        TakeAndReturn(found.value, Inbox(q[0]));
      } else {
        var ok := TryAcquire(found.value, Inbox(q[0]));
      }
      done := q[0] !in gone;
    }

    /** The slot taken for a vanished waiter comes straight back: all that
        remains of it is one release notification. */
    method TakeAndReturn(i: InstId, holder: Holder)
      requires Valid() && i in info && Free(i, info[i].model)
      modifies this`life, this`guards, this`nextGuard, this`events
      ensures Valid()
      ensures View() == old(View()).(lobby := old(LobbyView()).(events := Bump(old(events), info[i].model, 1)))
    {
      var ok := TryAcquire(i, holder);
      ReleaseGuard(nextGuard - 1);
      nextGuard := nextGuard - 1;
      assert life == old(life) && guards == old(guards);
    }

    /** `wake_one`. */
    method WakeOne(m: ModelName)
      requires Valid()
      modifies this`queues, this`life, this`guards, this`nextGuard, this`events
      ensures Valid() && View() == Machine.WakeOne(env, old(View()), m)
    {
      if m !in env.configs {
        return;
      }
      var done := false;
      while !done
        invariant Valid()
        invariant done ==> View() == Machine.WakeOne(env, old(View()), m)
        invariant !done ==> Machine.WakeOne(env, View(), m) == Machine.WakeOne(env, old(View()), m)
        decreases !done, |Queue(LobbyView(), m)|
      {
        done := WakeHead(m);
      }
    }

    /** Some instance of the model is not retiring. */
    method AnyRoutable(m: ModelName) returns (any: bool)
      requires Valid()
      ensures any <==> exists i :: i in registry && Routable(View().fleet, i, m)
    {
      any := false;
      ghost var f := View().fleet;
      for k := 0 to |registry|
        invariant any ==> exists i :: i in registry && Routable(f, i, m)
        invariant forall j :: 0 <= j < k && Routable(f, registry[j], m) ==> any
      {
        var i := registry[k];
        if info[i].model == m && life[i].state != Failed {
          assert Routable(f, i, m);
          any := true;
        }
      }
    }

    /** `enqueue` up to the push: routable instance, room in the queue, park. */
    method Enqueue(m: ModelName) returns (w: Option<WaiterId>)
      requires Valid() && m in env.configs
      modifies this`queues, this`nextWaiter, this`pushWakes
      ensures Valid() && (w.Some? <==> RequestEnabled(env, old(View()), Push(m)))
      ensures w.Some? <==> |Queue(old(LobbyView()), m)| < env.configs[m].queueDepth
                           && exists i :: i in registry && i in info && i in life && info[i].model == m && life[i].state != Failed
      ensures View() == if w.Some? then RequestNext(env, old(View()), Push(m)) else old(View())
      ensures w.Some? ==> w.value == old(nextWaiter)
    {
      var hasInstances := AnyRoutable(m);
      var queue := if m in queues then queues[m] else [];
      if !hasInstances || |queue| >= env.configs[m].queueDepth {
        return None;
      }
      w := Some(nextWaiter);
      Park(m, queue);
    }

    /** The push and the wake call that has to follow it. */
    method Park(m: ModelName, queue: seq<WaiterId>)
      modifies this`queues, this`nextWaiter, this`pushWakes
      ensures View() == old(View()).(lobby := SetQueue(old(LobbyView()), m, queue + [old(nextWaiter)])
                          .(nextWaiter := old(nextWaiter) + 1, pushWakes := Bump(old(pushWakes), m, 1)))
    {
      queues := queues[m := queue + [nextWaiter]];
      nextWaiter := nextWaiter + 1;
      pushWakes := Bump(pushWakes, m, 1);
    }

    /** Drops one waiter's entry, wherever it stands in the queue. */
    method RemoveQueued(m: ModelName, w: WaiterId)
      requires Valid() && RequestEnabled(env, View(), RequestStep.RemoveQueued(m, w))
      modifies this`queues
      ensures Valid() && View() == RequestNext(env, old(View()), RequestStep.RemoveQueued(m, w))
    {
      if m in queues {
        var kept := Retained(queues[m], w);
        queues := queues[m := kept];
      }
    }

    static method Retained(q: seq<WaiterId>, w: WaiterId) returns (kept: seq<WaiterId>)
      ensures kept == Keep(q, NotWaiter(w))
    {
      kept := [];
      for k := 0 to |q|
        invariant kept == Keep(q[..k], NotWaiter(w))
      {
        KeepPrefix(q, k, NotWaiter(w));
        if q[k] != w {
          kept := kept + [q[k]];
        }
      }
      assert q[..|q|] == q;
    }

    // ── What requests do in between ───────────────────────────────────────

    /** A parked waiter's receiver is dropped. */
    method VanishParked(w: WaiterId)
      requires Valid() && RequestEnabled(env, View(), RequestStep.VanishParked(w))
      modifies this`gone
      ensures Valid() && View() == RequestNext(env, old(View()), RequestStep.VanishParked(w))
    {
      gone := gone + {w};
    }

    /** A receiver is dropped with a slot in its channel, which comes back. */
    method VanishServed(g: GuardId)
      requires Valid() && RequestEnabled(env, View(), RequestStep.VanishServed(g))
      modifies this`life, this`guards, this`events, this`gone
      ensures Valid() && View() == RequestNext(env, old(View()), RequestStep.VanishServed(g))
    {
      var w := guards[g].holder.waiter;
      ReleaseGuard(g);
      gone := gone + {w};
    }

    /** A waiter takes its guard out of the channel. */
    method Receive(g: GuardId)
      requires Valid() && RequestEnabled(env, View(), RequestStep.Receive(g))
      modifies this`guards
      ensures Valid() && View() == RequestNext(env, old(View()), RequestStep.Receive(g))
    {
      guards := guards[g := guards[g].(holder := Machine.Request)];
    }

    method PerformRequest(req: RequestStep)
      requires Valid() && RequestEnabled(env, View(), req)
      modifies this
      ensures Valid() && View() == RequestNext(env, old(View()), req)
    {
      match req
      case Barge(i) => var ok := TryAcquire(i, Machine.Request);
      case Release(g) => ReleaseGuard(g);
      case Push(m) => var w := Enqueue(m);
      case VanishParked(w) => VanishParked(w);
      case VanishServed(g) => VanishServed(g);
      case RemoveQueued(m, w) => RemoveQueued(m, w);
      case Receive(g) => Receive(g);
    }

    /** The wake call is made: it is no longer owed. */
    method ReceiveWake(m: ModelName, source: WakeSource)
      requires Valid() && WakeEnabled(View(), m, source)
      modifies this`events, this`pushWakes, this`spawns
      ensures Valid() && View() == TakeWake(old(View()), m, source)
    {
      match source
      case OnRelease => events := events[m := Count(events, m) - 1];
      case OnPush => pushWakes := pushWakes[m := Count(pushWakes, m) - 1];
      case OnSpawn => spawns := spawns[m := Ending];
    }

    method PerformWake(m: ModelName, source: WakeSource)
      requires Valid() && WakeEnabled(View(), m, source)
      modifies this
      ensures Valid() && View() == Machine.WakeOne(env, TakeWake(old(View()), m, source), m)
    {
      ReceiveWake(m, source);
      WakeOne(m);
    }

    // ── Removal ───────────────────────────────────────────────────────────

    /** The critical section of `remove_instance_impl`: a busy instance is left
        alone, marked, or taken, by mode; an idle one is always taken.  Tells
        whether this call got the child and has to shut it down. */
    method RemoveInstance(i: InstId, mode: RemoveStep) returns (removing: bool, mine: bool)
      requires Valid() && i in info && (mode.IfIdle? || mode.Drain? || mode.Force?)
      requires RemoveEnabled(View(), i, mode)
      modifies this`life
      ensures Valid() && View() == RemoveNext(old(View()), i, mode)
      ensures removing <==> mode.Force? || old(life[i].inFlight) == 0
      ensures mine <==> removing && old(life[i].child) == Running
      ensures i in life && (removing ==> life[i].state == Failed && (life[i].child == Killing || life[i].child == Gone))
      ensures life[i].unregs == old(life[i].unregs) + if removing && !mine then 1 else 0
      ensures !removing ==> life[i].child == old(life[i].child) && (mode.IfIdle? ==> life[i].state == old(life[i].state))
    {
      var l := life[i];
      if l.inFlight > 0 {
        if mode.IfIdle? {
          return false, false;
        }
        if mode.Drain? {
          life := life[i := l.(state := Failed)];
          return false, false;
        }
      }
      l := l.(state := Failed);
      removing, mine := true, l.child == Running;
      if mine {
        l := l.(child := Killing);
      } else {
        l := l.(child := if l.child == Exited then Gone else l.child, unregs := l.unregs + 1);
      }
      life := life[i := l];
    }

    /** First half of `reap_drained`: the retiring instances that are idle. */
    method CollectDrained(m: ModelName)
      requires Valid()
      modifies this`reaping
      ensures Valid() && View() == Next(env, old(View()), Reaping(m))
      ensures reaping == old(reaping) + set i | i in registry && i in info && i in life && info[i].model == m
                                                && life[i].state == Failed && life[i].inFlight == 0
    {
      var drained := {};
      ghost var f := View().fleet;
      for k := 0 to |registry|
        invariant drained == set i | i in registry[..k] && i in Reapable(f, m)
      {
        var i := registry[k];
        assert registry[..k + 1] == registry[..k] + [i];
        if info[i].model == m && life[i].state == Failed && life[i].inFlight == 0 {
          drained := drained + {i};
        }
      }
      assert registry[..|registry|] == registry;
      assert drained == Reapable(f, m);
      reaping := reaping + drained;
    }

    /** First half of the stranded reaper: the loading instances whose last
        activity, by the clock, lies too far back. */
    method CollectStranded(m: ModelName, late: set<InstId>)
      requires Valid()
      modifies this`stranded
      ensures Valid() && View() == Next(env, old(View()), ReapingStranded(m, late))
      ensures stranded == old(stranded) + set i | i in late && i in registry && i in info && i in life
                                                  && info[i].model == m && life[i].state == Loading
    {
      var found := {};
      ghost var f := View().fleet;
      for k := 0 to |registry|
        invariant found == set i | i in registry[..k] && i in Straggling(f, m, late)
      {
        var i := registry[k];
        assert registry[..k + 1] == registry[..k] + [i];
        if info[i].model == m && life[i].state == Loading && i in late {
          found := found + {i};
        }
      }
      assert registry[..|registry|] == registry;
      assert found == Straggling(f, m, late);
      stranded := stranded + found;
    }

    /** The child exits by itself. */
    method NoteExit(i: InstId)
      requires Valid() && RemoveEnabled(View(), i, Exits)
      modifies this`life
      ensures Valid() && View() == RemoveNext(old(View()), i, Exits)
    {
      Store(i, life[i].(child := Exited));
    }

    /** The shutdown of a child taken by a removal completes. */
    method NoteKilled(i: InstId)
      requires Valid() && RemoveEnabled(View(), i, Killed)
      modifies this`life
      ensures Valid() && View() == RemoveNext(old(View()), i, Killed)
    {
      Store(i, life[i].(child := Gone, unregs := life[i].unregs + 1));
    }

    method PerformRemoval(i: InstId, act: RemoveStep)
      requires Valid() && RemoveEnabled(View(), i, act)
      modifies this
      ensures Valid() && View() == RemoveNext(old(View()), i, act)
    {
      match act
      case Exits => NoteExit(i);
      case Killed => NoteKilled(i);
      case Crash => var handled := HandleCrash(i);
      case Unregister => var removed := Unregister(i);
      case _ => var removing, mine := RemoveInstance(i, act);
    }

    /** `retain` on handle identity. */
    static method Without(list: seq<InstId>, i: InstId) returns (kept: seq<InstId>)
      ensures kept == Drop(list, i)
    {
      kept := [];
      for k := 0 to |list|
        invariant kept == Drop(list[..k], i)
      {
        KeepPrefix(list, k, Other(i));
        if list[k] != i {
          kept := kept + [list[k]];
        }
      }
      assert list[..|list|] == list;
    }

    /** Takes the handle out of the registry, if it is still there. */
    method RemoveHandle(i: InstId) returns (removed: bool)
      requires Valid()
      modifies this`registry, this`leaving, this`stage
      ensures Valid() && removed == (i in old(registry))
      ensures !removed ==> View() == old(View())
      ensures removed ==> View() == old(View()).(fleet := old(View()).fleet.(registry := Drop(old(registry), i),
                                       leaving := old(leaving) + [i], stage := old(stage)[i := FreePort]))
    {
      var kept := Without(registry, i);
      removed := |kept| != |registry|;
      DropShortens(registry, i);
      if removed {
        KeepIn(registry, Other(i));
        registry := kept;
        leaving := leaving + [i];
        stage := stage[i := FreePort];
      }
    }

    /** `unregister_instance` as far as the registry: at most one call finds
        the handle, and that one goes on to clean up. */
    method Unregister(i: InstId) returns (removed: bool)
      requires Valid() && i in info && life[i].unregs > 0
      modifies this`life, this`registry, this`leaving, this`stage
      ensures Valid() && View() == UnregisterInstance(old(View()), i)
      ensures removed == (i in old(registry))
    {
      Store(i, life[i].(unregs := life[i].unregs - 1));
      removed := RemoveHandle(i);
    }

    /** The port of an unregistered instance is given back. */
    method ReturnPort(i: InstId)
      requires Valid() && i in info && i in stage && stage[i] == FreePort
      modifies this`used, this`stage
      ensures Valid() && View() == CleanNext(env, old(View()), i)
      ensures used == old(used) - {info[i].port}
    {
      used := used - {info[i].port};
      stage := stage[i := DrainCheck];
    }

    /** No instance of the model is registered. */
    method NoneRegistered(m: ModelName) returns (none: bool)
      requires Valid()
      ensures none <==> forall j :: j in registry ==> !IsOf(View().fleet, j, m)
    {
      none := true;
      ghost var f := View().fleet;
      for k := 0 to |registry|
        invariant none ==> forall j :: 0 <= j < k ==> !IsOf(f, registry[j], m)
        invariant !none ==> exists j :: j in registry && IsOf(f, j, m)
      {
        if info[registry[k]].model == m {
          assert IsOf(f, registry[k], m);
          none := false;
        }
      }
    }

    /** Whether no instance of the model is left, decided under the registry lock. */
    method CheckNoneLeft(i: InstId)
      requires Valid() && i in info && i in stage && stage[i] == DrainCheck
      modifies this`stage
      ensures Valid() && View() == CleanNext(env, old(View()), i)
      ensures i in stage
      ensures stage[i] == DrainClear <==> forall j :: j in registry && j in info ==> info[j].model != info[i].model
    {
      var none := NoneRegistered(info[i].model);
      stage := stage[i := if none then DrainClear else Cleanup.ReleaseKeepAlive];
    }

    /** The parked waiters of a model without instances are let go. */
    method ClearQueue(i: InstId)
      requires Valid() && i in info && i in stage && stage[i] == DrainClear
      modifies this`queues, this`stage
      ensures Valid() && View() == CleanNext(env, old(View()), i)
      ensures forall m :: Queue(LobbyView(), m) == if m == info[i].model then [] else Queue(old(LobbyView()), m)
    {
      if info[i].model in queues {
        queues := queues[info[i].model := []];
      }
      stage := stage[i := Cleanup.ReleaseKeepAlive];
    }

    /** The references `refs` less those of an instance on `gpus`, one at a time. */
    method Releasing(m: ModelName, gpus: seq<nat>, refs: multiset<Slot>) returns (left: multiset<Slot>)
      ensures left == refs - KeepAliveSlots(env, m, gpus)
    {
      left := refs;
      if env.KindOf(m) == Cuda {
        return;
      }
      for k := 0 to |gpus|
        invariant left - KeepAliveSlots(env, m, gpus[k..]) == refs - KeepAliveSlots(env, m, gpus)
      {
        assert gpus[k..][1..] == gpus[k + 1..];
        var slot := env.SlotFor(m, gpus[k]);
        if slot.Some? {
          left := left - multiset{slot.value};
        }
      }
    }

    /** The references `refs` with those of an instance on `gpus`, one at a time. */
    method Acquiring(m: ModelName, gpus: seq<nat>, refs: multiset<Slot>) returns (more: multiset<Slot>)
      ensures more == refs + KeepAliveSlots(env, m, gpus)
    {
      more := refs;
      if env.KindOf(m) == Cuda {
        return;
      }
      for k := 0 to |gpus|
        invariant more + KeepAliveSlots(env, m, gpus[k..]) == refs + KeepAliveSlots(env, m, gpus)
      {
        assert gpus[k..][1..] == gpus[k + 1..];
        var slot := env.SlotFor(m, gpus[k]);
        if slot.Some? {
          more := more + multiset{slot.value};
        }
      }
    }

    /** One reference per device of the instance is released. */
    method ReturnRefs(i: InstId)
      requires i in info
      modifies this`keepAlive
      ensures View() == old(View()).(keepAlive := old(keepAlive) - KeepAliveSlots(env, info[i].model, info[i].gpus))
    {
      keepAlive := Releasing(info[i].model, info[i].gpus, keepAlive);
    }

    /** The unregistration is over. */
    method Finish(i: InstId)
      modifies this`leaving, this`stage
      ensures View()
           == old(View()).(fleet := old(View()).fleet.(leaving := Drop(old(leaving), i), stage := old(stage) - {i}))
    {
      leaving := Without(leaving, i);
      stage := stage - {i};
    }

    /** The keep-alive references of an unregistered instance are given back. */
    method ReleaseKeepAlive(i: InstId)
      requires Valid() && i in info && i in stage && stage[i] == Cleanup.ReleaseKeepAlive
      modifies this`keepAlive, this`leaving, this`stage
      ensures Valid() && View() == CleanNext(env, old(View()), i)
    {
      ReturnRefs(i);
      Finish(i);
    }

    method PerformCleanup(i: InstId)
      requires Valid() && CleanEnabled(View(), i)
      modifies this
      ensures Valid() && View() == CleanNext(env, old(View()), i)
    {
      match stage[i]
      case FreePort => ReturnPort(i);
      case DrainCheck => CheckNoneLeft(i);
      case DrainClear => ClearQueue(i);
      case ReleaseKeepAlive => ReleaseKeepAlive(i);
    }

    // ── Spawning ──────────────────────────────────────────────────────────

    /** The instance cap, retiring instances not counted. */
    method UnderCap(m: ModelName) returns (ok: bool)
      requires Valid() && m in env.configs
      ensures ok <==> ActiveCount(View().fleet, m) < env.configs[m].maxInstances
      ensures ok <==> |ActivePositions(View().fleet, m)| < env.configs[m].maxInstances
    {
      var count := 0;
      ghost var f := View().fleet;
      for k := 0 to |registry|
        invariant count == Sum(registry[..k], ActiveOf(f, m))
      {
        SumPrefix(registry, k, ActiveOf(f, m));
        var i := registry[k];
        if info[i].model == m && life[i].state != Failed {
          count := count + 1;
        }
      }
      assert registry[..|registry|] == registry;
      ActiveExactly(f, m);
      ok := count < env.configs[m].maxInstances;
    }

    /** `ensure_spawn`: at most one spawn per model is under way. */
    method EnsureSpawn(m: ModelName) returns (started: bool)
      requires Valid() && m in env.configs
      modifies this`spawns
      ensures Valid() && (started <==> m !in old(spawns))
      ensures View() == if started then SpawnNext(env, old(View()), m, Start) else old(View())
    {
      started := m !in spawns;
      if started {
        spawns := spawns[m := Queued];
      }
    }

    /** Inside the permit: the spawn goes on only below the instance cap. */
    method CheckCap(m: ModelName) returns (ok: bool)
      requires Valid() && m in env.configs && m in spawns && spawns[m] == Permitted
      modifies this`spawns, this`permit
      ensures Valid() && (ok <==> m in spawns)
      ensures View() == SpawnNext(env, old(View()), m, SpawnStep.CheckCap)
    {
      ok := UnderCap(m);
      if ok {
        spawns := spawns[m := Capped];
      } else {
        spawns, permit := spawns - {m}, None;
      }
    }

    /** What placement reads, instance by instance. */
    method Placements() returns (placed: seq<Placed>)
      requires Valid()
      ensures placed == Layout(info, registry)
    {
      placed := [];
      for k := 0 to |registry|
        invariant placed == Layout(info, registry[..k])
      {
        var i := registry[k];
        LayoutPrefix(info, registry, k);
        placed := placed + [Placed(i, info[i].model, info[i].gpus)];
      }
      assert registry[..|registry|] == registry;
    }

    /** Devices are chosen, or the port given back and the spawn given up. */
    method SelectDevices(m: ModelName) returns (ok: bool)
      requires Valid() && m in env.configs && m in spawns && spawns[m].HasPort?
      modifies this`spawns, this`permit, this`used
      ensures Valid() && (ok <==> m in spawns)
      ensures View() == SpawnNext(env, old(View()), m, SpawnStep.SelectDevices)
    {
      var cfg := env.configs[m];
      var port := spawns[m].port;
      var placed := Placements();
      var gpus := SelectGpus(env, placed, {}, cfg);
      ok := !(cfg.HasPool() && |gpus| < cfg.gpus);
      if ok {
        spawns := spawns[m := Selected(port, gpus)];
      } else {
        GiveUpWith(m, port);
      }
    }

    /** The spawn ends without an instance, its port free again. */
    method GiveUpWith(m: ModelName, port: Port)
      modifies this`spawns, this`permit, this`used
      ensures View() == GiveUp(old(View()), m).(used := old(used) - {port})
    {
      spawns, permit, used := spawns - {m}, None, used - {port};
    }

    /** The poll of `m` is over: the permit, if still held, is dropped. */
    method LeavePoll(m: ModelName, p: Phase)
      modifies this`spawns, this`permit
      ensures View() == ReleasePermit(old(View()), m).(spawns := old(spawns)[m := p])
    {
      if permit == Some(m) {
        permit := None;
      }
      spawns := spawns[m := p];
    }

    /** Readiness is reported: the state is set whatever it was. */
    method MarkReady(m: ModelName)
      requires Valid() && m in env.configs && m in spawns && spawns[m].Polling? && spawns[m].inst in info
      modifies this`life, this`spawns, this`permit
      ensures Valid() && View() == SpawnNext(env, old(View()), m, SpawnStep.MarkReady)
      ensures var i := old(spawns[m].inst); i in life && life[i].state == Ready && m in spawns && spawns[m] == Spawned(i)
      ensures permit != Some(m)
    {
      var i := spawns[m].inst;
      Store(i, life[i].(state := Ready));
      LeavePoll(m, Spawned(i));
    }

    /** The child exited or the time is up: it is taken, if still there. */
    method FailPoll(m: ModelName)
      requires Valid() && m in env.configs && m in spawns && spawns[m].Polling? && spawns[m].inst in info
      modifies this`life, this`spawns, this`permit
      ensures Valid() && View() == SpawnNext(env, old(View()), m, Fail)
      ensures var i := old(spawns[m].inst); i in life && life[i].state == Failed && m in spawns && spawns[m] == Ending
      ensures permit != Some(m)
    {
      var i := spawns[m].inst;
      Store(i, TakeChild(life[i]));
      LeavePoll(m, Ending);
    }

    /** `handle_crash`: an exit some removal has already dealt with is ignored. */
    method HandleCrash(i: InstId) returns (handled: bool)
      requires Valid() && i in info && RemoveEnabled(View(), i, Crash)
      modifies this`life
      ensures Valid() && View() == RemoveNext(old(View()), i, Crash)
      ensures handled <==> old(life[i].state) != Failed
      ensures i in life && (!handled ==> life == old(life))
      ensures handled ==> life[i].state == Failed && life[i].child == Gone && life[i].unregs == old(life[i].unregs) + 1
    {
      handled := life[i].state != Failed;
      if handled {
        Store(i, life[i].(state := Failed, child := Gone, unregs := life[i].unregs + 1));
      }
    }

    /** One reference per device is acquired. */
    method TakeRefs(m: ModelName, gpus: seq<nat>)
      modifies this`keepAlive
      ensures View() == old(View()).(keepAlive := old(keepAlive) + KeepAliveSlots(env, m, gpus))
    {
      keepAlive := Acquiring(m, gpus, keepAlive);
    }

    /** The record of a new loading instance. */
    method AddRecord(about: Info) returns (i: InstId)
      requires Valid()
      modifies this`info, this`life, this`nextInst
      ensures Valid() && i == old(nextInst) && i in info
      ensures View() == old(View()).(fleet := old(View()).fleet.(info := old(info)[i := about],
                             life := old(life)[i := Life(Loading, 0, Running, 0)], nextInst := i + 1))
    {
      i := nextInst;
      info := info[i := about];
      life := life[i := Life(Loading, 0, Running, 0)];
      nextInst := nextInst + 1;
    }

    /** Listed last. */
    method List(i: InstId)
      requires Valid() && i in info
      modifies this`registry
      ensures Valid() && View() == old(View()).(fleet := old(View()).fleet.(registry := old(registry) + [i]))
    {
      registry := registry + [i];
    }

    /** Registration: a new instance, listed last, and its keep-alive references. */
    method Register(m: ModelName) returns (i: InstId)
      requires Valid() && m in env.configs && m in spawns && spawns[m].Selected?
      modifies this`info, this`life, this`nextInst, this`registry, this`keepAlive, this`spawns
      ensures Valid() && View() == SpawnNext(env, old(View()), m, SpawnStep.Register) && i == old(nextInst)
    {
      var p := spawns[m];
      i := AddRecord(Info(m, p.port, p.gpus));
      List(i);
      TakeRefs(m, p.gpus);
      spawns := spawns[m := Polling(i)];
    }

    /** The permit is taken. */
    method TakePermit(m: ModelName)
      requires Valid() && SpawnEnabled(env, View(), m, SpawnStep.TakePermit)
      modifies this`spawns, this`permit
      ensures Valid() && View() == SpawnNext(env, old(View()), m, SpawnStep.TakePermit)
    {
      spawns, permit := spawns[m := Permitted], Some(m);
    }

    /** The allocator's answer: an unused port, or none. */
    method TakePort(m: ModelName, port: Option<Port>)
      requires Valid() && SpawnEnabled(env, View(), m, AllocPort(port))
      modifies this`spawns, this`permit, this`used
      ensures Valid() && View() == SpawnNext(env, old(View()), m, AllocPort(port))
    {
      match port
      case None => spawns, permit := spawns - {m}, None;
      case Some(p) => spawns, used := spawns[m := HasPort(p)], used + {p};
    }

    /** The serialised window of the poll is over. */
    method DropPermit(m: ModelName)
      requires Valid() && SpawnEnabled(env, View(), m, SpawnStep.DropPermit)
      modifies this`permit
      ensures Valid() && View() == SpawnNext(env, old(View()), m, SpawnStep.DropPermit)
    {
      permit := None;
    }

    /** The spawn task ends and drops its entry. */
    method EndSpawn(m: ModelName)
      requires Valid() && SpawnEnabled(env, View(), m, End)
      modifies this`spawns
      ensures Valid() && View() == SpawnNext(env, old(View()), m, End)
    {
      spawns := spawns - {m};
    }

    method PerformSpawn(m: ModelName, act: SpawnStep)
      requires Valid() && SpawnEnabled(env, View(), m, act)
      modifies this
      ensures Valid() && View() == SpawnNext(env, old(View()), m, act)
    {
      match act
      case Start => var started := EnsureSpawn(m);
      case TakePermit => TakePermit(m);
      case CheckCap => var ok := CheckCap(m);
      case AllocPort(port) => TakePort(m, port);
      case Abort => GiveUpWith(m, spawns[m].port);
      case SelectDevices => var ok := SelectDevices(m);
      case Register => var i := Register(m);
      case DropPermit => DropPermit(m);
      case MarkReady => MarkReady(m);
      case Fail => FailPoll(m);
      case End => EndSpawn(m);
    }

    // ── Runs ──────────────────────────────────────────────────────────────

    /** Every step of the machine is a call on the object. */
    method Perform(step: Step)
      requires Valid() && Enabled(env, View(), step)
      modifies this
      ensures Valid() && View() == Next(env, old(View()), step)
    {
      match step
      case Requesting(req) => PerformRequest(req);
      case Waking(m, source) => PerformWake(m, source);
      case Spawning(m, act) => PerformSpawn(m, act);
      case Removing(i, act) => PerformRemoval(i, act);
      case Reaping(m) => CollectDrained(m);
      case ReapingStranded(m, late) => CollectStranded(m, late);
      case Cleaning(i) => PerformCleanup(i);
    }

    /** A run of calls brings the object through the run of the machine, and so
        keeps what every run keeps. */
    method Drive(steps: seq<Step>)
      requires Valid() && ValidRun(env, View(), steps)
      modifies this
      ensures Valid() && View() == Exec(env, old(View()), steps)
      ensures Accounts(env, old(View())) ==> Accounts(env, View())
      ensures LifecycleInv(env, old(View())) && GoodRun(env, old(View()), steps) ==> LifecycleInv(env, View())
    {
      ghost var start := View();
      for k := 0 to |steps|
        invariant Valid() && ValidRun(env, View(), steps[k..])
        invariant Exec(env, View(), steps[k..]) == Exec(env, start, steps)
      {
        assert steps[k..][1..] == steps[k + 1..];
        Perform(steps[k]);
      }
      RunKeeps(env, start, steps);
    }
  }

  lemma RunKeeps(env: Env, s: State, steps: seq<Step>)
    requires ValidRun(env, s, steps)
    ensures Accounts(env, s) ==> Accounts(env, Exec(env, s, steps))
    ensures LifecycleInv(env, s) && GoodRun(env, s, steps) ==> LifecycleInv(env, Exec(env, s, steps))
  {
    if Accounts(env, s) {
      AccountsRun(env, s, steps);
    }
    if LifecycleInv(env, s) && GoodRun(env, s, steps) {
      LifecycleRun(env, s, steps);
    }
  }

  /** From a fresh scheduler, whatever is called in whatever order: slots,
      waiters, ports, references and queues are in order, and with proper
      readiness reports and reapers no child is lost under a request. */
  method Operate(env: Env, steps: seq<Step>) returns (manager: InstanceManager)
    requires ValidRun(env, Init(), steps)
    ensures fresh(manager) && manager.View() == Exec(env, Init(), steps)
    ensures Accounts(env, manager.View())
    ensures GoodRun(env, Init(), steps) ==> LifecycleInv(env, manager.View())
  {
    AccountsInit(env);
    LifecycleInit(env);
    manager := new InstanceManager(env);
    manager.Drive(steps);
  }

  lemma {:induction false} LayoutPush(info: map<InstId, Info>, list: seq<InstId>, i: InstId)
    ensures Layout(info, list + [i]) == Layout(info, list) + [At(info, i)]
  {
    if list == [] {
      assert [i][1..] == [];
    } else {
      LayoutPush(info, list[1..], i);
      assert (list + [i])[1..] == list[1..] + [i];
    }
  }

  lemma LayoutPrefix(info: map<InstId, Info>, list: seq<InstId>, k: nat)
    requires k < |list|
    ensures Layout(info, list[..k + 1]) == Layout(info, list[..k]) + [At(info, list[k])]
  {
    assert list[..k + 1] == list[..k] + [list[k]];
    LayoutPush(info, list[..k], list[k]);
  }

  lemma LeastLoadedPrefix(env: Env, f: Fleet, m: ModelName, list: seq<InstId>, k: nat)
    requires k < |list|
    ensures var r := LeastLoaded(env, f, m, list[..k]);
            LeastLoaded(env, f, m, list[..k + 1]) ==
              if IsOf(f, list[k], m) && HasCapacity(env, f, list[k])
                 && (r.None? || f.life[list[k]].inFlight < f.life[r.value].inFlight)
              then Some(list[k]) else r
  {
    assert list[..k + 1] == list[..k] + [list[k]];
    LeastLoadedPush(env, f, m, list[..k], list[k]);
  }

  lemma {:induction false} LeastLoadedPush(env: Env, f: Fleet, m: ModelName, list: seq<InstId>, i: InstId)
    ensures var r := LeastLoaded(env, f, m, list);
            LeastLoaded(env, f, m, list + [i]) ==
              if IsOf(f, i, m) && HasCapacity(env, f, i) && (r.None? || f.life[i].inFlight < f.life[r.value].inFlight)
              then Some(i) else r
  {
    var all := list + [i];
    if list == [] {
      assert all[1..] == [];
    } else {
      LeastLoadedPush(env, f, m, list[1..], i);
      assert all[1..] == list[1..] + [i];
    }
  }

  lemma {:induction false} DropShortens(list: seq<InstId>, i: InstId)
    ensures |Drop(list, i)| == |list| <==> i !in list
  {
    if list != [] {
      DropShortens(list[1..], i);
      assert list == [list[0]] + list[1..];
    }
  }

}
