/** Slot conservation and waiting: an instance's in-flight count is the number
    of guards on it, a waiter is served at most once, and first come is first
    served. */
module Slots {
  import opened Base
  import opened Sums
  import opened Types
  import opened Machine
  import opened Waking
  import opened Books

  /** The live guards on an instance, held by requests or in a channel. */
  function GuardsOn(guards: map<GuardId, Guard>, i: InstId): set<GuardId> {
    set g | g in guards && guards[g].inst == i
  }

  ghost predicate GuardsKnown(s: State) {
    && s.fleet.info.Keys == s.fleet.life.Keys
    && (forall g :: g in s.guards ==> g < s.nextGuard && s.guards[g].inst in s.fleet.life)
  }

  ghost predicate Conserved(fleet: Fleet, guards: map<GuardId, Guard>) {
    forall i :: i in fleet.life ==> fleet.life[i].inFlight == |GuardsOn(guards, i)|
  }

  ghost predicate SlotsInv(s: State) {
    GuardsKnown(s) && Conserved(s.fleet, s.guards)
  }

  lemma AddGuard(guards: map<GuardId, Guard>, g: GuardId, guard: Guard, i: InstId)
    requires g !in guards
    ensures |GuardsOn(guards[g := guard], i)| == |GuardsOn(guards, i)| + if guard.inst == i then 1 else 0
  {
    var before, after := GuardsOn(guards, i), GuardsOn(guards[g := guard], i);
    assert after == if guard.inst == i then before + {g} else before;
  }

  lemma RemoveGuard(guards: map<GuardId, Guard>, g: GuardId, i: InstId)
    requires g in guards
    ensures |GuardsOn(guards - {g}, i)| + (if guards[g].inst == i then 1 else 0) == |GuardsOn(guards, i)|
  {
    var before, after := GuardsOn(guards, i), GuardsOn(guards - {g}, i);
    assert before == if guards[g].inst == i then after + {g} else after;
  }

  lemma AcquireConserves(s: State, i: InstId, h: Holder)
    requires SlotsInv(s) && i in s.fleet.life
    ensures SlotsInv(Acquire(s, i, h))
  {
    forall j | j in s.fleet.life
      ensures Acquire(s, i, h).fleet.life[j].inFlight == |GuardsOn(Acquire(s, i, h).guards, j)|
    {
      AddGuard(s.guards, s.nextGuard, Guard(i, h), j);
    }
  }

  /** Dropping a guard never saturates: a slot is in use whenever there is a
      guard to drop, so every drop sends exactly one release event. */
  lemma DropGuardConserves(s: State, g: GuardId)
    requires SlotsInv(s) && KnownGuard(s, g)
    ensures SlotsInv(DropGuard(s, g))
    ensures s.fleet.life[s.guards[g].inst].inFlight > 0
    ensures var m := s.fleet.info[s.guards[g].inst].model;
            Count(DropGuard(s, g).lobby.events, m) == Count(s.lobby.events, m) + 1
  {
    RemoveGuard(s.guards, g, s.guards[g].inst);
    assert g in GuardsOn(s.guards, s.guards[g].inst);
    forall j | j in s.fleet.life
      ensures DropGuard(s, g).fleet.life[j].inFlight == |GuardsOn(DropGuard(s, g).guards, j)|
    {
      RemoveGuard(s.guards, g, j);
    }
  }

  /** The step touched no slot. */
  ghost predicate SlotFrame(s: State, t: State) {
    && t.guards == s.guards && t.nextGuard == s.nextGuard
    && t.fleet.info.Keys == t.fleet.life.Keys
    && (forall i :: i in s.fleet.life ==> i in t.fleet.life && t.fleet.life[i].inFlight == s.fleet.life[i].inFlight)
    && (forall i :: i in t.fleet.life && i !in s.fleet.life ==> t.fleet.life[i].inFlight == 0)
  }

  lemma RegisterSlotFrame(env: Env, s: State, m: ModelName)
    requires RegistryOk(s.fleet) && SpawnEnabled(env, s, m, Register)
    ensures SlotFrame(s, SpawnNext(env, s, m, Register))
  {
    assert s.fleet.nextInst !in s.fleet.life;
  }

  lemma PollEndSlotFrame(env: Env, s: State, m: ModelName, act: SpawnStep)
    requires RegistryOk(s.fleet) && SpawnEnabled(env, s, m, act) && (act.MarkReady? || act.Fail?)
    ensures SlotFrame(s, SpawnNext(env, s, m, act))
  {
  }

  lemma SpawnSlotFrame(env: Env, s: State, m: ModelName, act: SpawnStep)
    requires RegistryOk(s.fleet) && SpawnEnabled(env, s, m, act)
    ensures SlotFrame(s, SpawnNext(env, s, m, act))
  {
    if act.Register? {
      RegisterSlotFrame(env, s, m);
    } else if act.MarkReady? || act.Fail? {
      PollEndSlotFrame(env, s, m, act);
    } else {
      assert SpawnNext(env, s, m, act).fleet == s.fleet;
    }
  }

  lemma RemoveSlotFrame(s: State, i: InstId, act: RemoveStep)
    requires RegistryOk(s.fleet) && RemoveEnabled(s, i, act)
    ensures SlotFrame(s, RemoveNext(s, i, act))
  {
    if !act.Unregister? {
      RemoveIsSetLife(s, i, act);
    }
  }

  lemma CleanSlotFrame(env: Env, s: State, i: InstId)
    requires RegistryOk(s.fleet) && CleanEnabled(s, i)
    ensures SlotFrame(s, CleanNext(env, s, i))
  {
    CleanFrame(env, s, i);
  }

  lemma FrameConserves(s: State, t: State)
    requires RegistryOk(s.fleet) && SlotsInv(s) && SlotFrame(s, t)
    ensures SlotsInv(t)
  {
    forall i | i in t.fleet.life ensures t.fleet.life[i].inFlight == |GuardsOn(t.guards, i)| {
      if i !in s.fleet.life {
        assert GuardsOn(s.guards, i) == {};
      }
    }
  }

  lemma ReceiveConserves(env: Env, s: State, g: GuardId)
    requires SlotsInv(s) && RequestEnabled(env, s, Receive(g))
    ensures SlotsInv(RequestNext(env, s, Receive(g)))
  {
    var t := RequestNext(env, s, Receive(g));
    forall i ensures GuardsOn(t.guards, i) == GuardsOn(s.guards, i) {}
  }

  lemma RequestConserves(env: Env, s: State, req: RequestStep)
    requires SlotsInv(s) && RequestEnabled(env, s, req)
    ensures SlotsInv(RequestNext(env, s, req))
  {
    match req
    case Barge(i) => AcquireConserves(s, i, Machine.Request);
    case Release(g) => DropGuardConserves(s, g);
    case VanishServed(g) => DropGuardConserves(s, g);
    case Receive(g) => ReceiveConserves(env, s, g);
    case _ =>
  }

  lemma WakeConserves(env: Env, u: State, m: ModelName)
    requires SlotsInv(u)
    ensures SlotsInv(WakeOne(env, u, m))
  {
    WakeCases(env, u, m);
    var v := u.(lobby := WakeOne(env, u, m).lobby);
    assert SlotsInv(v);
    if WakeHands(env, u, m) {
      var q := Queue(u.lobby, m);
      AcquireConserves(v, FindReady(env, u.fleet, m).value, Inbox(q[Vanished(q, u.lobby.gone)]));
    }
  }

  lemma SlotsStep(env: Env, s: State, step: Step)
    requires RegistryOk(s.fleet) && SlotsInv(s) && Enabled(env, s, step)
    ensures SlotsInv(Next(env, s, step))
  {
    var t := Next(env, s, step);
    match step
    case Requesting(req) => RequestConserves(env, s, req);
    case Waking(m, source) =>
      assert SlotsInv(TakeWake(s, m, source));
      WakeConserves(env, TakeWake(s, m, source), m);
    case Spawning(m, act) =>
      SpawnSlotFrame(env, s, m, act);
      FrameConserves(s, t);
    case Removing(i, act) =>
      RemoveSlotFrame(s, i, act);
      FrameConserves(s, t);
    case Reaping(m) => FrameConserves(s, t);
    case ReapingStranded(m, late) => FrameConserves(s, t);
    case Cleaning(i) =>
      CleanSlotFrame(env, s, i);
      FrameConserves(s, t);
  }

  // ── Limits ──────────────────────────────────────────────────────────────

  /** No instance has more slots in use than its model's `max_concurrent`, and
      one still loading has none. */
  ghost predicate LimitOk(env: Env, model: ModelName, l: Life) {
    l.inFlight <= Limit(env, model) && (l.state == Loading ==> l.inFlight == 0)
  }

  ghost predicate LimitsOk(env: Env, f: Fleet) {
    forall i :: Known(f, i) ==> LimitOk(env, f.info[i].model, f.life[i])
  }

  lemma LimitsSetLife(env: Env, s: State, i: InstId, l: Life)
    requires LimitsOk(env, s.fleet) && Known(s.fleet, i) && LimitOk(env, s.fleet.info[i].model, l)
    ensures LimitsOk(env, SetLife(s, i, l).fleet)
  {
  }

  lemma LimitsAcquire(env: Env, s: State, i: InstId, h: Holder)
    requires LimitsOk(env, s.fleet) && HasCapacity(env, s.fleet, i)
    ensures LimitsOk(env, Acquire(s, i, h).fleet)
  {
    var l := s.fleet.life[i];
    LimitsSetLife(env, s, i, l.(inFlight := l.inFlight + 1));
    assert Acquire(s, i, h).fleet == SetLife(s, i, l.(inFlight := l.inFlight + 1)).fleet;
  }

  lemma LimitsDropGuard(env: Env, s: State, g: GuardId)
    requires LimitsOk(env, s.fleet) && KnownGuard(s, g)
    ensures LimitsOk(env, DropGuard(s, g).fleet)
  {
    var i := s.guards[g].inst;
    assert LimitOk(env, s.fleet.info[i].model, s.fleet.life[i]);
  }

  lemma LimitsRequest(env: Env, s: State, req: RequestStep)
    requires LimitsOk(env, s.fleet) && RequestEnabled(env, s, req)
    ensures LimitsOk(env, RequestNext(env, s, req).fleet)
  {
    match req
    case Barge(i) => LimitsAcquire(env, s, i, Machine.Request);
    case Release(g) => LimitsDropGuard(env, s, g);
    case VanishServed(g) => LimitsDropGuard(env, s, g);
    case _ =>
  }

  lemma LimitsWake(env: Env, u: State, m: ModelName)
    requires LimitsOk(env, u.fleet)
    ensures LimitsOk(env, WakeOne(env, u, m).fleet)
  {
    WakeCases(env, u, m);
    if WakeHands(env, u, m) {
      var q := Queue(u.lobby, m);
      LimitsAcquire(env, u.(lobby := WakeOne(env, u, m).lobby), FindReady(env, u.fleet, m).value,
                    Inbox(q[Vanished(q, u.lobby.gone)]));
    }
  }

  lemma LimitsRegister(env: Env, s: State, m: ModelName)
    requires RegistryOk(s.fleet) && LimitsOk(env, s.fleet) && SpawnEnabled(env, s, m, Register)
    ensures LimitsOk(env, SpawnNext(env, s, m, Register).fleet)
  {
    assert s.fleet.nextInst !in s.fleet.info;
  }

  lemma LimitsPollEnd(env: Env, s: State, m: ModelName, act: SpawnStep)
    requires RegistryOk(s.fleet) && LimitsOk(env, s.fleet) && SpawnEnabled(env, s, m, act)
    requires (act.MarkReady? || act.Fail?)
    ensures LimitsOk(env, SpawnNext(env, s, m, act).fleet)
  {
    var i := s.spawns[m].inst;
    var l := SpawnNext(env, s, m, act).fleet.life[i];
    assert LimitOk(env, s.fleet.info[i].model, s.fleet.life[i]);
    LimitsSetLife(env, s, i, l);
    assert SpawnNext(env, s, m, act).fleet == SetLife(s, i, l).fleet;
  }

  lemma LimitsSpawn(env: Env, s: State, m: ModelName, act: SpawnStep)
    requires RegistryOk(s.fleet) && LimitsOk(env, s.fleet) && SpawnEnabled(env, s, m, act)
    ensures LimitsOk(env, SpawnNext(env, s, m, act).fleet)
  {
    if act.Register? {
      LimitsRegister(env, s, m);
    } else if act.MarkReady? || act.Fail? {
      LimitsPollEnd(env, s, m, act);
    } else {
      assert SpawnNext(env, s, m, act).fleet == s.fleet;
    }
  }

  lemma LimitsRemove(env: Env, s: State, i: InstId, act: RemoveStep)
    requires LimitsOk(env, s.fleet) && RemoveEnabled(s, i, act)
    ensures LimitsOk(env, RemoveNext(s, i, act).fleet)
  {
    assert LimitOk(env, s.fleet.info[i].model, s.fleet.life[i]);
    if !act.Unregister? {
      RemoveIsSetLife(s, i, act);
    }
  }

  lemma LimitsClean(env: Env, s: State, i: InstId)
    requires RegistryOk(s.fleet) && LimitsOk(env, s.fleet) && CleanEnabled(s, i)
    ensures LimitsOk(env, CleanNext(env, s, i).fleet)
  {
    CleanFrame(env, s, i);
  }

  /** Every step keeps the limits, whatever readiness is reported of and
      whatever is forced out. */
  lemma LimitsStep(env: Env, s: State, step: Step)
    requires RegistryOk(s.fleet) && LimitsOk(env, s.fleet) && Enabled(env, s, step)
    ensures LimitsOk(env, Next(env, s, step).fleet)
  {
    match step
    case Requesting(req) => LimitsRequest(env, s, req);
    case Waking(m, source) => LimitsWake(env, TakeWake(s, m, source), m);
    case Spawning(m, act) => LimitsSpawn(env, s, m, act);
    case Removing(i, act) => LimitsRemove(env, s, i, act);
    case Reaping(m) =>
    case ReapingStranded(m, late) =>
    case Cleaning(i) => LimitsClean(env, s, i);
  }

  // ── Waiters ─────────────────────────────────────────────────────────────

  ghost predicate Ascending(q: seq<WaiterId>) {
    forall i, j :: 0 <= i < j < |q| ==> q[i] < q[j]
  }

  lemma {:induction false} KeepAscending(q: seq<WaiterId>, p: WaiterId -> bool)
    requires Ascending(q)
    ensures Ascending(Keep(q, p)) && forall w :: w in Keep(q, p) <==> w in q && p(w)
  {
    KeepIn(q, p);
    if q != [] {
      assert Ascending(q[1..]);
      KeepAscending(q[1..], p);
      forall w | w in q[1..] ensures q[0] < w {}
      var rest := Keep(q[1..], p);
      forall k | 0 <= k < |rest| ensures q[0] < rest[k] {
        assert rest[k] in q[1..];
      }
    }
  }

  /** Queues are in the order of the pushes, by which waiters are numbered; a
      waiter is parked in at most one place, is parked no longer once a slot
      was sent to it, is sent at most one slot, and a slot in a channel always
      has a receiver. */
  ghost predicate WaitersInv(lobby: Lobby, guards: map<GuardId, Guard>) {
    && (forall m :: m in lobby.queues ==> Ascending(lobby.queues[m]))
    && (forall m, w :: m in lobby.queues && w in lobby.queues[m] ==> w < lobby.nextWaiter)
    && (forall m, n, w ::
          m in lobby.queues && n in lobby.queues && w in lobby.queues[m] && w in lobby.queues[n] ==> m == n)
    && (forall g :: g in guards && guards[g].holder.Inbox? ==> Served(lobby, guards[g].holder.waiter))
    && (forall g, h ::
          g in guards && h in guards && guards[g].holder.Inbox? && guards[g].holder == guards[h].holder ==> g == h)
  }

  ghost predicate Served(lobby: Lobby, w: WaiterId) {
    w < lobby.nextWaiter && w !in lobby.gone && forall m :: m in lobby.queues ==> w !in lobby.queues[m]
  }

  lemma WaitersDropGuard(s: State, g: GuardId)
    requires KnownGuard(s, g) && WaitersInv(s.lobby, s.guards)
    ensures WaitersInv(DropGuard(s, g).lobby, DropGuard(s, g).guards)
  {
    var t := DropGuard(s, g);
    forall h | h in t.guards && t.guards[h].holder.Inbox? ensures Served(t.lobby, t.guards[h].holder.waiter) {
      assert Served(s.lobby, s.guards[h].holder.waiter);
    }
  }

  /** Queues only lose waiters. */
  lemma WaitersShrink(lobby: Lobby, guards: map<GuardId, Guard>, m: ModelName, q: seq<WaiterId>, events: map<ModelName,
          nat>)
    requires WaitersInv(lobby, guards)
    requires Ascending(q) && forall w :: w in q ==> w in Queue(lobby, m)
    ensures WaitersInv(SetQueue(lobby, m, q).(events := events), guards)
  {
    var t := SetQueue(lobby, m, q).(events := events);
    forall g | g in guards && guards[g].holder.Inbox? ensures Served(t, guards[g].holder.waiter) {
      assert Served(lobby, guards[g].holder.waiter);
    }
  }

  lemma WaitersRequest(env: Env, s: State, req: RequestStep)
    requires GuardsKnown(s) && WaitersInv(s.lobby, s.guards) && RequestEnabled(env, s, req)
    ensures var t := RequestNext(env, s, req); WaitersInv(t.lobby, t.guards)
  {
    var t := RequestNext(env, s, req);
    match req
    case Barge(i) =>
    case Release(g) => WaitersDropGuard(s, g);
    case Push(m) => WaitersPush(env, s, m);
    case VanishParked(w) =>
      forall g | g in t.guards && t.guards[g].holder.Inbox? ensures Served(t.lobby, t.guards[g].holder.waiter) {
        assert Served(s.lobby, s.guards[g].holder.waiter);
      }
    case VanishServed(g) =>
      WaitersDropGuard(s, g);
      var u := DropGuard(s, g);
      forall h | h in t.guards && t.guards[h].holder.Inbox? ensures Served(t.lobby, t.guards[h].holder.waiter) {
        assert Served(u.lobby, u.guards[h].holder.waiter);
        assert s.guards[h].holder != s.guards[g].holder;
      }
    case RemoveQueued(m, w) =>
      var q := Queue(s.lobby, m);
      KeepAscending(q, NotWaiter(w));
      WaitersShrink(s.lobby, s.guards, m, Keep(q, NotWaiter(w)), s.lobby.events);
    case Receive(g) =>
  }

  lemma WaitersPush(env: Env, s: State, m: ModelName)
    requires WaitersInv(s.lobby, s.guards) && RequestEnabled(env, s, Push(m))
    ensures WaitersInv(RequestNext(env, s, Push(m)).lobby, s.guards)
  {
    var t := RequestNext(env, s, Push(m));
    var w := s.lobby.nextWaiter;
    var q := Queue(s.lobby, m);
    forall j | 0 <= j < |q| ensures q[j] < w {
      assert q[j] in q;
    }
    assert Ascending(q + [w]);
    assert forall n :: n in s.lobby.queues ==> w !in s.lobby.queues[n];
    forall g | g in s.guards && s.guards[g].holder.Inbox? ensures Served(t.lobby, s.guards[g].holder.waiter) {
      assert Served(s.lobby, s.guards[g].holder.waiter);
    }
  }

  lemma WaitersPass(lobby: Lobby, guards: map<GuardId, Guard>, m: ModelName, k: nat, served: nat)
    requires WaitersInv(lobby, guards) && k + served <= |Queue(lobby, m)|
    ensures WaitersInv(Passed(lobby, m, k, served), guards)
  {
    var q := Queue(lobby, m);
    WaitersShrink(lobby, guards, m, q[k + served..], AddEvents(lobby.events, m, k));
  }

  lemma WaitersServe(lobby: Lobby, guards: map<GuardId, Guard>, m: ModelName, k: nat, g: GuardId, i: InstId)
    requires WaitersInv(lobby, guards) && k < |Queue(lobby, m)| && Queue(lobby, m)[k] !in lobby.gone && g !in guards
    ensures WaitersInv(Passed(lobby, m, k, 1), guards[g := Guard(i, Inbox(Queue(lobby, m)[k]))])
  {
    var q := Queue(lobby, m);
    var w := q[k];
    WaitersPass(lobby, guards, m, k, 1);
    assert w in q;
    assert w !in q[k + 1..];
    assert Served(Passed(lobby, m, k, 1), w);
    forall h | h in guards ensures guards[h].holder != Inbox(w) {
      assert guards[h].holder.Inbox? ==> Served(lobby, guards[h].holder.waiter);
    }
  }

  lemma WaitersWake(env: Env, s: State, m: ModelName)
    requires GuardsKnown(s) && WaitersInv(s.lobby, s.guards)
    ensures var t := WakeOne(env, s, m); WaitersInv(t.lobby, t.guards)
  {
    WakeClosedForm(env, s, m);
    var q := Queue(s.lobby, m);
    var k := Vanished(q, s.lobby.gone);
    if k == |q| {
      WaitersPass(s.lobby, s.guards, m, k, 0);
    } else if FindReady(env, s.fleet, m).Some? {
      WaitersServe(s.lobby, s.guards, m, k, s.nextGuard, FindReady(env, s.fleet, m).value);
    }
  }

  lemma WaitersTakeWake(env: Env, s: State, m: ModelName, source: WakeSource)
    requires GuardsKnown(s) && WaitersInv(s.lobby, s.guards) && WakeEnabled(s, m, source)
    ensures var u := TakeWake(s, m, source); GuardsKnown(u) && WaitersInv(u.lobby, u.guards)
  {
    var u := TakeWake(s, m, source);
    forall g | g in u.guards && u.guards[g].holder.Inbox? ensures Served(u.lobby, u.guards[g].holder.waiter) {
      assert Served(s.lobby, s.guards[g].holder.waiter);
    }
  }

  /** Every step leaves each waiter in one place and served at most once. */
  lemma WaitersStep(env: Env, s: State, step: Step)
    requires RegistryOk(s.fleet) && GuardsKnown(s) && WaitersInv(s.lobby, s.guards) && Enabled(env, s, step)
    ensures var t := Next(env, s, step); WaitersInv(t.lobby, t.guards)
  {
    match step
    case Requesting(req) => WaitersRequest(env, s, req);
    case Waking(m, source) =>
      WaitersTakeWake(env, s, m, source);
      WaitersWake(env, TakeWake(s, m, source), m);
    case Cleaning(i) =>
    case _ => LobbyUntouched(env, s, step);
  }

  lemma LobbyUntouched(env: Env, s: State, step: Step)
    requires Enabled(env, s, step) && (step.Spawning? || step.Removing? || step.Reaping? || step.ReapingStranded?)
    ensures Next(env, s, step).lobby == s.lobby && Next(env, s, step).guards == s.guards
  {
    if step.Removing? && !step.remove.Unregister? {
      RemoveIsSetLife(s, step.inst, step.remove);
    }
  }

  // ── First come, first served ────────────────────────────────────────────

  /** The waiters of `q` that are still waiting. */
  ghost predicate Waiting(lobby: Lobby, m: ModelName, w: WaiterId) {
    w in Queue(lobby, m) && w !in lobby.gone
  }

  /** From `s` to `t` waiter `w` of `m` is handed a slot of `i`; it was pushed
      before all others still waiting, and exactly those pushed after it stay. */
  ghost predicate ServedFirst(s: State, t: State, m: ModelName, i: InstId, w: WaiterId) {
    && t.guards == s.guards[s.nextGuard := Guard(i, Inbox(w))]
    && Waiting(s.lobby, m, w)
    && (forall x :: Waiting(s.lobby, m, x) ==> w <= x)
    && (forall x :: x in Queue(t.lobby, m) <==> x in Queue(s.lobby, m) && x > w)
  }

  /** A waiter of `m` is served exactly when one is still waiting and a ready
      instance has a free slot, and then the first one.  Without capacity no
      queue changes. */
  ghost predicate ServedInTurn(env: Env, s: State, t: State, m: ModelName) {
    var ready := FindReady(env, s.fleet, m);
    if m in env.configs && ready.Some? && exists w :: Waiting(s.lobby, m, w)
    then exists w :: ServedFirst(s, t, m, ready.value, w)
    else t.guards == s.guards && t.fleet == s.fleet && (ready.None? ==> t.lobby.queues == s.lobby.queues)
  }

  lemma ServesEarliest(env: Env, s: State, m: ModelName)
    requires WaitersInv(s.lobby, s.guards)
    ensures ServedInTurn(env, s, WakeOne(env, s, m), m)
  {
    WakeClosedForm(env, s, m);
    var q := Queue(s.lobby, m);
    var k := Vanished(q, s.lobby.gone);
    if w: WaiterId :| Waiting(s.lobby, m, w) {
      var j :| 0 <= j < |q| && q[j] == w;
      assert k <= j;
      if m in env.configs && FindReady(env, s.fleet, m).Some? {
        ServedSplits(q, s.lobby.gone, k);
        ServesHead(env, s, m, k);
      }
    } else {
      assert k < |q| ==> Waiting(s.lobby, m, q[k]);
    }
  }

  /** What else the state holds does not matter. */
  lemma ServedAlike(env: Env, s: State, u: State, t: State, m: ModelName)
    requires s.fleet == u.fleet && s.guards == u.guards && s.nextGuard == u.nextGuard
    requires s.lobby.queues == u.lobby.queues && s.lobby.gone == u.lobby.gone
    requires ServedInTurn(env, u, t, m)
    ensures ServedInTurn(env, s, t, m)
  {
    assert forall w :: Waiting(u.lobby, m, w) == Waiting(s.lobby, m, w);
    assert forall i, w :: ServedFirst(u, t, m, i, w) ==> ServedFirst(s, t, m, i, w);
  }

  lemma ServesHead(env: Env, s: State, m: ModelName, k: nat)
    requires m in env.configs && FindReady(env, s.fleet, m).Some?
    requires var q := Queue(s.lobby, m);
             && k == Vanished(q, s.lobby.gone) && k < |q|
             && (forall x :: x in q && x !in s.lobby.gone ==> q[k] <= x)
             && (forall x :: x in q[k + 1..] <==> x in q && x > q[k])
    ensures ServedFirst(s, WakeResult(env, s, m), m, FindReady(env, s.fleet, m).value, Queue(s.lobby, m)[k])
  {
    var q := Queue(s.lobby, m);
    assert Waiting(s.lobby, m, q[k]);
    assert Queue(WakeResult(env, s, m).lobby, m) == q[k + 1..];
  }

  lemma ServedSplits(q: seq<WaiterId>, gone: set<WaiterId>, k: nat)
    requires Ascending(q) && k == Vanished(q, gone) && k < |q|
    ensures forall x :: x in q && x !in gone ==> q[k] <= x
    ensures forall x :: x in q[k + 1..] <==> x in q && x > q[k]
  {
    forall x | x in q
      ensures x !in gone ==> q[k] <= x
      ensures x > q[k] ==> x in q[k + 1..]
    {
      var j :| 0 <= j < |q| && q[j] == x;
      if j > k {
        assert q[k + 1..][j - k - 1] == x;
      }
    }
    forall x | x in q[k + 1..] ensures x in q && x > q[k] {
      var j :| 0 <= j < |q| - k - 1 && q[k + 1..][j] == x;
      assert q[k + 1 + j] == x;
    }
  }
}
