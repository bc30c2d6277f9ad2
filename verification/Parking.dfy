/** A waiter's whole stay in the queue: it is kept until it is served or gives
    up, and forgotten when it does. */
module Parking {
  import opened Base
  import opened Sums
  import opened Types
  import opened Machine
  import opened Waking
  import opened Books
  import opened Slots
  import opened Safety

  // ── Which instance serves ───────────────────────────────────────────────

  /** Ready, with fewer requests than its model may have at once. */
  predicate Takes(env: Env, f: Fleet, m: ModelName, i: InstId) {
    && i in f.info && i in f.life && f.info[i].model == m && f.life[i].state == Ready
    && m in env.configs && f.life[i].inFlight < env.configs[m].maxConcurrent
  }

  /** The first, in registration order, of those with the fewest requests. */
  ghost predicate ServesNext(env: Env, f: Fleet, m: ModelName, k: nat) {
    && k < |f.registry| && Takes(env, f, m, f.registry[k])
    && forall j :: 0 <= j < |f.registry| && Takes(env, f, m, f.registry[j]) ==>
         var a, b := f.life[f.registry[k]].inFlight, f.life[f.registry[j]].inFlight; a < b || (a == b && k <= j)
  }

  lemma {:induction false} LeastLoadedExactly(env: Env, f: Fleet, m: ModelName, list: seq<InstId>)
    ensures forall k: nat :: ServesNext(env, f.(registry := list), m, k) ==> LeastLoaded(env, f, m, list) == Some(list[k])
  {
    if list != [] {
      var rest := list[1..];
      LeastLoadedExactly(env, f, m, rest);
      forall k: nat | ServesNext(env, f.(registry := list), m, k) ensures LeastLoaded(env, f, m, list) == Some(list[k]) {
        if k > 0 {
          forall j | 0 <= j < |rest| && Takes(env, f, m, rest[j])
            ensures f.life[list[k]].inFlight < f.life[rest[j]].inFlight
                    || (f.life[list[k]].inFlight == f.life[rest[j]].inFlight && k - 1 <= j)
          {
            assert rest[j] == list[j + 1];
          }
          assert ServesNext(env, f.(registry := rest), m, k - 1);
        } else {
          LeastIsHead(env, f, m, list);
        }
      }
    }
  }

  lemma LeastIsHead(env: Env, f: Fleet, m: ModelName, list: seq<InstId>)
    requires list != [] && ServesNext(env, f.(registry := list), m, 0)
    ensures LeastLoaded(env, f, m, list) == Some(list[0])
  {
    var rest := LeastLoaded(env, f, m, list[1..]);
    if rest.Some? {
      var j :| 0 <= j < |list[1..]| && list[1..][j] == rest.value;
      assert list[j + 1] == rest.value;
      assert Takes(env, f, m, rest.value);
    }
  }

  /** The search finds exactly that instance, and none exactly if none of the
      model's instances can take a request. */
  lemma FindReadyExactly(env: Env, f: Fleet, m: ModelName)
    ensures forall k: nat :: ServesNext(env, f, m, k) ==> FindReady(env, f, m) == Some(f.registry[k])
    ensures FindReady(env, f, m).None? <==> forall i :: i in f.registry ==> !Takes(env, f, m, i)
  {
    assert f.(registry := f.registry) == f;
    LeastLoadedExactly(env, f, m, f.registry);
    assert forall i :: Takes(env, f, m, i) <==> IsOf(f, i, m) && HasCapacity(env, f, i);
  }

  // ── Kept until served ───────────────────────────────────────────────────

  /** A slot is in the waiter's channel. */
  ghost predicate Sent(s: State, w: WaiterId) {
    exists g :: g in s.guards && s.guards[g].holder == Inbox(w)
  }

  ghost predicate Parked(s: State, m: ModelName, w: WaiterId) {
    m in s.lobby.queues && w in s.lobby.queues[m] && w !in s.lobby.gone
  }

  /** An unregistration clears the model's queue, having found no instance of
      it registered a moment ago. */
  predicate Clears(s: State, step: Step, m: ModelName) {
    step.Cleaning? && step.inst in s.fleet.stage && s.fleet.stage[step.inst] == DrainClear && IsOf(s.fleet, step.inst, m)
  }

  lemma ParkedRequest(env: Env, s: State, req: RequestStep, m: ModelName, w: WaiterId)
    requires WaitersInv(s.lobby, s.guards) && RequestEnabled(env, s, req) && Parked(s, m, w)
    ensures var t := RequestNext(env, s, req); Parked(t, m, w) || w in t.lobby.gone
  {
    match req
    case RemoveQueued(n, x) =>
      if n in s.lobby.queues {
        KeepIn(s.lobby.queues[n], NotWaiter(x));
      }
    case _ =>
  }

  lemma ParkedWake(env: Env, u: State, n: ModelName, m: ModelName, w: WaiterId)
    requires WaitersInv(u.lobby, u.guards) && Parked(u, m, w)
    ensures var t := WakeOne(env, u, n); Parked(t, m, w) || Sent(t, w)
  {
    WakeClosedForm(env, u, n);
    if m == n && m in env.configs && FindReady(env, u.fleet, m).Some? {
      var q := Queue(u.lobby, m);
      var k := Vanished(q, u.lobby.gone);
      var j :| 0 <= j < |q| && q[j] == w;
      assert k <= j;
      if j == k {
        var t := WakeOne(env, u, n);
        assert t.guards[u.nextGuard].holder == Inbox(w);
      } else {
        assert q[k + 1..][j - k - 1] == w;
      }
    }
  }

  /** In one step a parked waiter stays parked, is sent a slot or vanishes,
      except, exactly, when its model's queue is cleared. */
  lemma ParkedStep(env: Env, s: State, step: Step, m: ModelName, w: WaiterId)
    requires RegistryOk(s.fleet) && GuardsKnown(s) && WaitersInv(s.lobby, s.guards) && Enabled(env, s, step)
    requires Parked(s, m, w)
    ensures var t := Next(env, s, step);
            Parked(t, m, w) || Sent(t, w) || w in t.lobby.gone <==> !Clears(s, step, m)
  {
    match step
    case Requesting(req) => ParkedRequest(env, s, req, m, w);
    case Waking(n, source) =>
      WaitersTakeWake(env, s, n, source);
      ParkedWake(env, TakeWake(s, n, source), n, m, w);
    case Cleaning(i) =>
      forall g | g in s.guards ensures s.guards[g].holder != Inbox(w) {
        assert s.guards[g].holder.Inbox? ==> Served(s.lobby, s.guards[g].holder.waiter);
      }
    case _ => LobbyUntouched(env, s, step);
  }

  ghost predicate Staffed(f: Fleet, m: ModelName) {
    exists i :: i in f.registry && IsOf(f, i, m)
  }

  /** No unregistration has found the model without instances and is about to clear its queue. */
  ghost predicate NoneClears(f: Fleet, m: ModelName) {
    forall i :: i in f.stage && IsOf(f, i, m) ==> f.stage[i] != DrainClear
  }

  /** The step moved no cleanup. */
  lemma NoneClearsSame(f: Fleet, f': Fleet, m: ModelName)
    requires NoneClears(f, m) && f'.stage == f.stage
    requires forall i :: i in f.stage && IsOf(f', i, m) ==> IsOf(f, i, m)
    ensures NoneClears(f', m)
  {
  }

  lemma NoneClearsSpawn(env: Env, s: State, n: ModelName, act: SpawnStep, m: ModelName)
    requires BooksOk(s) && NoneClears(s.fleet, m) && SpawnEnabled(env, s, n, act)
    ensures NoneClears(SpawnNext(env, s, n, act).fleet, m)
  {
    var f' := SpawnNext(env, s, n, act).fleet;
    if act.Register? {
      assert f'.info == s.fleet.info[s.fleet.nextInst := Info(n, s.spawns[n].port, s.spawns[n].gpus)];
      assert s.fleet.nextInst !in s.fleet.stage;
    }
    NoneClearsSame(s.fleet, f', m);
  }

  lemma NoneClearsRemove(s: State, i: InstId, act: RemoveStep, m: ModelName)
    requires NoneClears(s.fleet, m) && RemoveEnabled(s, i, act)
    ensures NoneClears(RemoveNext(s, i, act).fleet, m)
  {
    if !act.Unregister? {
      RemoveIsSetLife(s, i, act);
      NoneClearsSame(s.fleet, RemoveNext(s, i, act).fleet, m);
    }
  }

  lemma NoneClearsClean(env: Env, s: State, i: InstId, m: ModelName)
    requires NoneClears(s.fleet, m) && Staffed(s.fleet, m) && CleanEnabled(s, i)
    ensures NoneClears(CleanNext(env, s, i).fleet, m)
  {
    var f' := CleanNext(env, s, i).fleet;
    assert f'.info == s.fleet.info;
    assert forall j :: j in f'.stage && j != i ==> j in s.fleet.stage && f'.stage[j] == s.fleet.stage[j];
  }

  lemma NoneClearsStep(env: Env, s: State, step: Step, m: ModelName)
    requires BooksOk(s) && NoneClears(s.fleet, m) && Staffed(s.fleet, m) && Enabled(env, s, step)
    ensures NoneClears(Next(env, s, step).fleet, m)
  {
    match step
    case Requesting(req) => NoneClearsSame(s.fleet, RequestNext(env, s, req).fleet, m);
    case Spawning(n, act) => NoneClearsSpawn(env, s, n, act, m);
    case Removing(i, act) => NoneClearsRemove(s, i, act, m);
    case Waking(n, source) =>
      WakeShortens(env, TakeWake(s, n, source), n, m);
      NoneClearsSame(s.fleet, Next(env, s, step).fleet, m);
    case Cleaning(i) => NoneClearsClean(env, s, i, m);
    case _ =>
  }

  /** At every state of the run an instance of the model is registered, and the
      waiter has neither been sent a slot nor vanished. */
  ghost predicate StillWaits(env: Env, s: State, steps: seq<Step>, m: ModelName, w: WaiterId)
    requires ValidRun(env, s, steps)
    decreases |steps|
  {
    && Staffed(s.fleet, m) && !Sent(s, w) && w !in s.lobby.gone
    && (steps == [] || StillWaits(env, Next(env, s, steps[0]), steps[1..], m, w))
  }

  lemma {:induction false} ParkedRun(env: Env, s: State, steps: seq<Step>, m: ModelName, w: WaiterId)
    requires Accounts(env, s) && ValidRun(env, s, steps) && StillWaits(env, s, steps, m, w)
    requires Parked(s, m, w) && NoneClears(s.fleet, m)
    ensures Parked(Exec(env, s, steps), m, w)
    decreases |steps|
  {
    if steps != [] {
      ParkedStep(env, s, steps[0], m, w);
      NoneClearsStep(env, s, steps[0], m);
      AccountsStep(env, s, steps[0]);
      ParkedRun(env, Next(env, s, steps[0]), steps[1..], m, w);
    }
  }

  /** A request that is told to wait is parked last, with a wake call to come,
      and stays parked on every run until it is sent a slot or gives up, as long
      as an instance of its model is registered, unless an unregistration was
      already about to clear the queue when it came. */
  lemma PushedIsKept(env: Env, s: State, m: ModelName, steps: seq<Step>)
    requires Reachable(env, s) && RequestEnabled(env, s, Push(m)) && NoneClears(s.fleet, m)
    requires ValidRun(env, Next(env, s, Requesting(Push(m))), steps)
    ensures var w, t := s.lobby.nextWaiter, Next(env, s, Requesting(Push(m)));
            && Queue(t.lobby, m) == Queue(s.lobby, m) + [w] && WakeEnabled(t, m, OnPush)
            && (StillWaits(env, t, steps, m, w) ==> Parked(Exec(env, t, steps), m, w))
  {
    var w, t := s.lobby.nextWaiter, Next(env, s, Requesting(Push(m)));
    Accounted(env, s);
    AccountsStep(env, s, Requesting(Push(m)));
    assert w in Queue(t.lobby, m);
    if StillWaits(env, t, steps, m, w) {
      ParkedRun(env, t, steps, m, w);
    }
  }

  // ── Forgotten when it gives up ──────────────────────────────────────────

  /** The waiter has vanished and is parked for no model but, perhaps, `m`. */
  ghost predicate Left(s: State, m: Option<ModelName>, w: WaiterId) {
    && w in s.lobby.gone && w < s.lobby.nextWaiter
    && forall n :: n in s.lobby.queues && w in s.lobby.queues[n] ==> m == Some(n)
  }

  lemma LeftRequest(env: Env, s: State, req: RequestStep, m: Option<ModelName>, w: WaiterId)
    requires Left(s, m, w) && RequestEnabled(env, s, req)
    ensures Left(RequestNext(env, s, req), m, w)
  {
    if req.RemoveQueued? && req.m in s.lobby.queues {
      KeepIn(s.lobby.queues[req.m], NotWaiter(req.w));
    }
  }

  lemma LeftWake(env: Env, s: State, n: ModelName, m: Option<ModelName>, w: WaiterId)
    requires Left(s, m, w)
    ensures Left(WakeOne(env, s, n), m, w)
  {
    WakeClosedForm(env, s, n);
  }

  lemma LeftClean(env: Env, s: State, i: InstId, m: Option<ModelName>, w: WaiterId)
    requires Left(s, m, w) && CleanEnabled(s, i)
    ensures Left(CleanNext(env, s, i), m, w)
  {
  }

  lemma LeftStep(env: Env, s: State, step: Step, m: Option<ModelName>, w: WaiterId)
    requires RegistryOk(s.fleet) && Left(s, m, w) && Enabled(env, s, step)
    ensures Left(Next(env, s, step), m, w)
  {
    match step
    case Requesting(req) => LeftRequest(env, s, req, m, w);
    case Waking(n, source) => LeftWake(env, TakeWake(s, n, source), n, m, w);
    case Cleaning(i) => LeftClean(env, s, i, m, w);
    case _ => LobbyUntouched(env, s, step);
  }

  lemma {:induction false} LeftRun(env: Env, s: State, steps: seq<Step>, m: Option<ModelName>, w: WaiterId)
    requires Accounts(env, s) && Left(s, m, w) && ValidRun(env, s, steps)
    ensures Left(Exec(env, s, steps), m, w) && Accounts(env, Exec(env, s, steps))
    decreases |steps|
  {
    if steps != [] {
      LeftStep(env, s, steps[0], m, w);
      AccountsStep(env, s, steps[0]);
      LeftRun(env, Next(env, s, steps[0]), steps[1..], m, w);
    }
  }

  lemma NeverSent(s: State, w: WaiterId)
    requires WaitersInv(s.lobby, s.guards) && w in s.lobby.gone
    ensures !Sent(s, w)
  {
    forall g | g in s.guards ensures s.guards[g].holder != Inbox(w) {
      assert s.guards[g].holder.Inbox? ==> Served(s.lobby, s.guards[g].holder.waiter);
    }
  }

  /** A parked waiter whose time is up: its receiver is dropped, and some time
      later its queue entry is removed.  From the first on it is never sent a
      slot, and from the second on it is in no queue, on any run. */
  lemma TimedOutIsForgotten(env: Env, s: State, m: ModelName, w: WaiterId, between: seq<Step>, after: seq<Step>)
    requires Reachable(env, s) && Parked(s, m, w) && RequestEnabled(env, s, VanishParked(w))
    requires var t := Next(env, s, Requesting(VanishParked(w)));
             && ValidRun(env, t, between) && RequestEnabled(env, Exec(env, t, between), RemoveQueued(m, w))
             && ValidRun(env, Next(env, Exec(env, t, between), Requesting(RemoveQueued(m, w))), after)
    ensures var u := Exec(env, Next(env, s, Requesting(VanishParked(w))), between);
            var v := Exec(env, Next(env, u, Requesting(RemoveQueued(m, w))), after);
            && !Sent(u, w) && !Sent(v, w)
            && forall n :: n in v.lobby.queues ==> w !in v.lobby.queues[n]
  {
    var t := Next(env, s, Requesting(VanishParked(w)));
    Accounted(env, s);
    AccountsStep(env, s, Requesting(VanishParked(w)));
    LeftRun(env, t, between, Some(m), w);
    var u := Exec(env, t, between);
    NeverSent(u, w);
    AccountsStep(env, u, Requesting(RemoveQueued(m, w)));
    RemovedLeaves(env, u, m, w);
    LeftRun(env, Next(env, u, Requesting(RemoveQueued(m, w))), after, None, w);
    NeverSent(Exec(env, Next(env, u, Requesting(RemoveQueued(m, w))), after), w);
  }

  lemma RemovedLeaves(env: Env, s: State, m: ModelName, w: WaiterId)
    requires Left(s, Some(m), w) && RequestEnabled(env, s, RemoveQueued(m, w))
    ensures Left(Next(env, s, Requesting(RemoveQueued(m, w))), None, w)
  {
    if m in s.lobby.queues {
      KeepIn(s.lobby.queues[m], NotWaiter(w));
    }
  }

  // ── Handed over and given back ──────────────────────────────────────────

  /** From `s` to `u` guard `g` on `i` is gone and its slot free, announced. */
  ghost predicate GivenBack(s: State, u: State, g: GuardId, i: InstId) {
    && i in s.fleet.life && i in u.fleet.life && i in s.fleet.info && u.guards == s.guards - {g}
    && u.fleet.life[i].inFlight == s.fleet.life[i].inFlight - 1
    && Count(u.lobby.events, s.fleet.info[i].model) == Count(s.lobby.events, s.fleet.info[i].model) + 1
  }

  /** A slot in a waiter's channel can be received, is then held by a request,
      can be released, and is then free again, with one wake call to come. */
  lemma SlotHandedOver(env: Env, s: State, g: GuardId)
    requires Reachable(env, s) && g in s.guards && s.guards[g].holder.Inbox?
    ensures RequestEnabled(env, s, Receive(g))
    ensures var i, t := s.guards[g].inst, Next(env, s, Requesting(Receive(g)));
            && t == s.(guards := s.guards[g := Guard(i, Machine.Request)]) && RequestEnabled(env, t, Release(g))
            && GivenBack(s, Next(env, t, Requesting(Release(g))), g, i)
  {
    ReachableSlots(env, s);
    var t := Next(env, s, Requesting(Receive(g)));
    ReceiveConserves(env, s, g);
    ReleaseGives(t, g);
    assert t.guards - {g} == s.guards - {g};
  }

  lemma ReachableSlots(env: Env, s: State)
    requires Reachable(env, s)
    ensures SlotsInv(s)
  {
    Accounted(env, s);
  }

  lemma ReleaseGives(t: State, g: GuardId)
    requires SlotsInv(t) && KnownGuard(t, g)
    ensures GivenBack(t, DropGuard(t, g), g, t.guards[g].inst)
  {
    DropGuardConserves(t, g);
  }

  lemma PassedAccounts(lobby: Lobby, m: ModelName, k: nat, served: nat)
    requires k + served <= |Queue(lobby, m)|
    ensures |Queue(Passed(lobby, m, k, served), m)| == |Queue(lobby, m)| - k - served
    ensures Count(Passed(lobby, m, k, served).events, m) == Count(lobby.events, m) + k
  {
  }

  /** Every waiter that leaves the queue in a wake-up is sent a slot or has
      vanished; one that has vanished leaves a release event behind, as its slot
      was taken and came straight back. */
  lemma WakeAccounts(env: Env, s: State, m: ModelName)
    ensures var t := WakeOne(env, s, m);
            |Queue(s.lobby, m)| - |Queue(t.lobby, m)|
            == (t.nextGuard - s.nextGuard) + (Count(t.lobby.events, m) - Count(s.lobby.events, m))
  {
    WakeClosedForm(env, s, m);
    var q := Queue(s.lobby, m);
    var k := Vanished(q, s.lobby.gone);
    PassedAccounts(s.lobby, m, k, if k == |q| then 0 else 1);
  }

  // ── Spawns side by side ─────────────────────────────────────────────────

  /** Once a spawn has registered its instance and lets go of the permit, the
      next one can go on while the first is still polled for readiness. */
  lemma SpawnsOverlap(env: Env, s: State, m: ModelName, n: ModelName)
    requires SpawnEnabled(env, s, m, DropPermit) && n in env.configs && n in s.spawns && s.spawns[n] == Queued
    ensures var t := Next(env, s, Spawning(m, DropPermit));
            && t.spawns[m].Polling? && SpawnEnabled(env, t, n, TakePermit)
            && SpawnEnabled(env, Next(env, t, Spawning(n, TakePermit)), n, CheckCap)
  {
  }
}
