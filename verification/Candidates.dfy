/** Multi-candidate routing: the two alias policies over an abstract scheduler
    whose operations are given as functions of its state. */
module Candidates {
  import opened Base
  import opened Types

  /** The scheduler as routing sees it.  `warm`: a slot taken on a ready
      instance; `spawn`: spawn and acquire; `plan`, `execute`: make room. */
  datatype Ops<!W, !P> = Ops(
    blocked: (W, ModelName) -> bool,
    known: (W, ModelName) -> bool,
    warm: (W, ModelName) -> Option<W>,
    gate: (W, ModelName) -> bool,
    feasible: (W, ModelName) -> bool,
    spawn: (W, ModelName) -> (bool, W),
    plan: (W, ModelName) -> Option<P>,
    execute: (W, P) -> W,
    routable: (W, ModelName) -> bool,
    enqueue: (W, ModelName) -> (Option<QueueError>, W))

  datatype Policy = PreferLoaded | PreferOrder

  datatype QueueError = NoInstances | QueueFull | Timeout

  datatype Outcome = Served(model: ModelName) | Blocked | Unavailable | NoCapacity

  /** What was done on the way, an eviction with the state it was decided in. */
  datatype Event<W, P> =
    | TookWarm(model: ModelName)
    | Spawned(model: ModelName, ok: bool)
    | MadeRoom(model: ModelName, plan: P, at: W)
    | Queued(model: ModelName)

  /** How far a pass got: served, or nobody so far. */
  datatype Pass<W, P> = Pass(served: Option<ModelName>, world: W, trace: seq<Event<W, P>>)

  function Before<W, P>(trace: seq<Event<W, P>>, p: Pass<W, P>): Pass<W, P> {
    p.(trace := trace + p.trace)
  }

  // ── The passes ──────────────────────────────────────────────────────────

  function Resolve<W, P>(ops: Ops<W, P>, w: W, names: seq<ModelName>): seq<ModelName> {
    if names == [] then [] else
    if !ops.blocked(w, names[0]) && ops.known(w, names[0]) then [names[0]] + Resolve(ops, w, names[1..])
    else Resolve(ops, w, names[1..])
  }

  /** First candidate with a warm slot. */
  function PassA<W, P>(ops: Ops<W, P>, w: W, cs: seq<ModelName>): Pass<W, P> {
    if cs == [] then Pass(None, w, []) else
    match ops.warm(w, cs[0])
    case Some(taken) => Pass(Some(cs[0]), taken, [TookWarm(cs[0])])
    case None => PassA(ops, w, cs[1..])
  }

  function TrySpawn<W, P>(ops: Ops<W, P>, w: W, c: ModelName): Pass<W, P> {
    var (ok, after) := ops.spawn(w, c);
    Pass(if ok then Some(c) else None, after, [Spawned(c, ok)])
  }

  /** Room is made by plan, then the spawn is tried. */
  function TryMakeRoom<W, P>(ops: Ops<W, P>, w: W, c: ModelName): Pass<W, P> {
    match ops.plan(w, c)
    case None => Pass(None, w, [])
    case Some(plan) => Before([MadeRoom(c, plan, w)], TrySpawn(ops, ops.execute(w, plan), c))
  }

  /** First candidate that can be spawned without eviction. */
  function Round1<W, P>(ops: Ops<W, P>, w: W, cs: seq<ModelName>): Pass<W, P> {
    if cs == [] then Pass(None, w, []) else
    if !ops.gate(w, cs[0]) || !ops.feasible(w, cs[0]) then Round1(ops, w, cs[1..]) else
    var p := TrySpawn(ops, w, cs[0]);
    if p.served.Some? then p else Before(p.trace, Round1(ops, p.world, cs[1..]))
  }

  /** First candidate that can be spawned with eviction; those that fit were
      tried in round 1. */
  function Round2<W, P>(ops: Ops<W, P>, w: W, cs: seq<ModelName>): Pass<W, P> {
    if cs == [] then Pass(None, w, []) else
    if !ops.gate(w, cs[0]) || ops.feasible(w, cs[0]) then Round2(ops, w, cs[1..]) else
    var p := TryMakeRoom(ops, w, cs[0]);
    if p.served.Some? then p else Before(p.trace, Round2(ops, p.world, cs[1..]))
  }

  function Loaded<W, P>(ops: Ops<W, P>, w: W, cs: seq<ModelName>, makeRoom: bool): Pass<W, P> {
    var a := PassA(ops, w, cs);
    if a.served.Some? then a else
    var b := Round1(ops, w, cs);
    if b.served.Some? || !makeRoom then b else Before(b.trace, Round2(ops, b.world, cs))
  }

  /** One candidate tried fully: warm slot, spawn, make room. */
  function TryOne<W, P>(ops: Ops<W, P>, w: W, c: ModelName, makeRoom: bool): Pass<W, P> {
    match ops.warm(w, c)
    case Some(taken) => Pass(Some(c), taken, [TookWarm(c)])
    case None =>
      if !ops.gate(w, c) then Pass(None, w, [])
      else if ops.feasible(w, c) then TrySpawn(ops, w, c)
      else if makeRoom then TryMakeRoom(ops, w, c)
      else Pass(None, w, [])
  }

  function Ordered<W, P>(ops: Ops<W, P>, w: W, cs: seq<ModelName>, makeRoom: bool): Pass<W, P> {
    if cs == [] then Pass(None, w, []) else
    var p := TryOne(ops, w, cs[0], makeRoom);
    if p.served.Some? then p else Before(p.trace, Ordered(ops, p.world, cs[1..], makeRoom))
  }

  /** The candidate to wait on: the first loaded one, else the first. */
  function QueueOn<W, P>(ops: Ops<W, P>, w: W, cs: seq<ModelName>, first: ModelName): ModelName {
    if cs == [] then first else if ops.routable(w, cs[0]) then cs[0] else QueueOn(ops, w, cs[1..], first)
  }

  datatype Result<W, P> = Result(outcome: Outcome, world: W, trace: seq<Event<W, P>>)

  function Finish<W, P>(ops: Ops<W, P>, p: Pass<W, P>, cs: seq<ModelName>): Result<W, P>
    requires cs != []
  {
    match p.served
    case Some(c) => Result(Served(c), p.world, p.trace)
    case None =>
      var c := QueueOn(ops, p.world, cs, cs[0]);
      var (error, after) := ops.enqueue(p.world, c);
      var outcome := match error
        case None => Served(c)
        case Some(NoInstances) => Unavailable
        case Some(_) => NoCapacity;
      Result(outcome, after, p.trace + [Queued(c)])
  }

  function Acquire<W, P>(ops: Ops<W, P>, w: W, names: seq<ModelName>, policy: Policy, makeRoom: bool): Result<W, P> {
    var cs := Resolve(ops, w, names);
    if cs == [] then
      Result(if exists k :: 0 <= k < |names| && ops.blocked(w, names[k]) then Blocked else Unavailable, w, [])
    else
      Finish(ops, if policy == PreferLoaded then Loaded(ops, w, cs, makeRoom) else Ordered(ops, w, cs, makeRoom), cs)
  }

  // ── One candidate ───────────────────────────────────────────────────────

  /** The spawn without eviction fails and leaves the scheduler in a state in
      which the same candidate no longer fits, passes the gate, and could be
      given room. */
  predicate SpawnLosesRoom<W, P>(ops: Ops<W, P>, w: W, c: ModelName) {
    ops.warm(w, c).None? && ops.gate(w, c) && ops.feasible(w, c) && !ops.spawn(w, c).0
    && var after := ops.spawn(w, c).1; ops.gate(after, c) && !ops.feasible(after, c) && ops.plan(after, c).Some?
  }

  /** For one candidate the policies agree, in result, state and every action,
      if and only if no failed spawn takes its room away. */
  lemma PoliciesAgreeExactly<W, P>(ops: Ops<W, P>, w: W, c: ModelName, makeRoom: bool)
    ensures Loaded(ops, w, [c], makeRoom) == Ordered(ops, w, [c], makeRoom)
            <==> !(makeRoom && SpawnLosesRoom(ops, w, c))
  {
    OneElement(ops, w, c, makeRoom);
    var after := ops.spawn(w, c).1;
    OneElement(ops, after, c, makeRoom);
    if ops.warm(w, c).None? && ops.gate(w, c) {
      if ops.feasible(w, c) && !ops.spawn(w, c).0 && makeRoom {
        var failed: Event<W, P> := Spawned(c, false);
        var room := Round2(ops, after, [c]);
        assert Loaded(ops, w, [c], makeRoom).trace == [failed] + room.trace;
        assert room.trace == [] ==> [failed] + room.trace == [failed];
      } else if !ops.feasible(w, c) {
        var room := Round2(ops, w, [c]);
        assert [] + room.trace == room.trace;
      }
    }
  }

  lemma OneElement<W, P>(ops: Ops<W, P>, w: W, c: ModelName, makeRoom: bool)
    ensures ops.warm(w, c).None? ==> PassA(ops, w, [c]) == Pass(None, w, [])
    ensures ops.warm(w, c).Some? ==> PassA(ops, w, [c]) == Pass(Some(c), ops.warm(w, c).value, [TookWarm(c)])
    ensures Round1(ops, w, [c]) ==
              if ops.gate(w, c) && ops.feasible(w, c) then TrySpawn(ops, w, c) else Pass(None, w, [])
    ensures Round2(ops, w, [c]) ==
              if ops.gate(w, c) && !ops.feasible(w, c) then TryMakeRoom(ops, w, c) else Pass(None, w, [])
    ensures Ordered(ops, w, [c], makeRoom) == TryOne(ops, w, c, makeRoom)
  {
    assert [c][1..] == [];
    var p, q, r := TrySpawn(ops, w, c), TryMakeRoom(ops, w, c), TryOne(ops, w, c, makeRoom);
    assert p.trace + [] == p.trace && q.trace + [] == q.trace && r.trace + [] == r.trace;
  }

  /** A failed spawn leaves the scheduler as it was. */
  ghost predicate Restoring<W(!new), P>(ops: Ops<W, P>) {
    forall w, c :: !ops.spawn(w, c).0 ==> ops.spawn(w, c).1 == w
  }

  lemma PoliciesAgreeOnOne<W(!new), P>(ops: Ops<W, P>, w: W, c: ModelName, makeRoom: bool)
    requires Restoring(ops)
    ensures Loaded(ops, w, [c], makeRoom) == Ordered(ops, w, [c], makeRoom)
  {
    PoliciesAgreeExactly(ops, w, c, makeRoom);
  }

  // ── Evictions ───────────────────────────────────────────────────────────

  /** The eviction was decided in a proper state for a candidate that passed
      the gate and did not fit, by the plan of that moment; and if the spawn
      after it succeeds, that candidate is served. */
  ghost predicate Pays<W(!new), P>(ops: Ops<W, P>, proper: W -> bool, served: Option<ModelName>, e: Event<W, P>) {
    e.MadeRoom? ==>
      && proper(e.at) && ops.gate(e.at, e.model) && !ops.feasible(e.at, e.model)
      && ops.plan(e.at, e.model) == Some(e.plan)
      && (ops.spawn(ops.execute(e.at, e.plan), e.model).0 ==> served == Some(e.model))
  }

  ghost predicate AllPay<W(!new), P>(ops: Ops<W, P>, proper: W -> bool, p: Pass<W, P>) {
    forall e :: e in p.trace ==> Pays(ops, proper, p.served, e)
  }

  /** Spawns and evictions lead from proper states to proper states. */
  ghost predicate Preserves<W(!new), P>(ops: Ops<W, P>, proper: W -> bool) {
    && (forall w, c :: proper(w) ==> proper(ops.spawn(w, c).1))
    && (forall w, c :: proper(w) && ops.plan(w, c).Some? ==> proper(ops.execute(w, ops.plan(w, c).value)))
  }

  lemma {:induction false} Round1Proper<W(!new), P>(ops: Ops<W, P>, proper: W -> bool, w: W, cs: seq<ModelName>)
    requires Preserves(ops, proper) && proper(w)
    ensures proper(Round1(ops, w, cs).world)
    decreases |cs|
  {
    if cs != [] {
      Round1Proper(ops, proper, w, cs[1..]);
      Round1Proper(ops, proper, TrySpawn(ops, w, cs[0]).world, cs[1..]);
    }
  }

  lemma MakeRoomPays<W(!new), P>(ops: Ops<W, P>, proper: W -> bool, w: W, c: ModelName)
    requires Preserves(ops, proper) && proper(w) && ops.gate(w, c) && !ops.feasible(w, c)
    ensures AllPay(ops, proper, TryMakeRoom(ops, w, c)) && proper(TryMakeRoom(ops, w, c).world)
  {
  }

  /** A pass that served nobody, followed by another one. */
  lemma PayTogether<W(!new), P>(ops: Ops<W, P>, proper: W -> bool, p: Pass<W, P>, q: Pass<W, P>)
    requires AllPay(ops, proper, p) && p.served.None? && AllPay(ops, proper, q)
    ensures AllPay(ops, proper, Before(p.trace, q))
  {
    forall e | e in p.trace + q.trace ensures Pays(ops, proper, q.served, e) {
      assert if e in p.trace then Pays(ops, proper, p.served, e) else Pays(ops, proper, q.served, e);
    }
  }

  lemma {:induction false} Round2Pays<W(!new), P>(ops: Ops<W, P>, proper: W -> bool, w: W, cs: seq<ModelName>)
    requires Preserves(ops, proper) && proper(w)
    ensures AllPay(ops, proper, Round2(ops, w, cs))
    decreases |cs|
  {
    if cs != [] {
      if !ops.gate(w, cs[0]) || ops.feasible(w, cs[0]) {
        Round2Pays(ops, proper, w, cs[1..]);
      } else {
        var p := TryMakeRoom(ops, w, cs[0]);
        MakeRoomPays(ops, proper, w, cs[0]);
        if p.served.None? {
          Round2Pays(ops, proper, p.world, cs[1..]);
          PayTogether(ops, proper, p, Round2(ops, p.world, cs[1..]));
        }
      }
    }
  }

  lemma TryOnePays<W(!new), P>(ops: Ops<W, P>, proper: W -> bool, w: W, c: ModelName, makeRoom: bool)
    requires Preserves(ops, proper) && proper(w)
    ensures var p := TryOne(ops, w, c, makeRoom); AllPay(ops, proper, p) && (p.served.None? ==> proper(p.world))
  {
    if ops.warm(w, c).None? && ops.gate(w, c) && !ops.feasible(w, c) {
      MakeRoomPays(ops, proper, w, c);
    }
  }

  lemma {:induction false} OrderedPays<W(!new), P>(ops: Ops<W, P>, proper: W -> bool, w: W, cs: seq<ModelName>,
          makeRoom: bool)
    requires Preserves(ops, proper) && proper(w)
    ensures AllPay(ops, proper, Ordered(ops, w, cs, makeRoom))
    decreases |cs|
  {
    if cs != [] {
      var p := TryOne(ops, w, cs[0], makeRoom);
      TryOnePays(ops, proper, w, cs[0], makeRoom);
      if p.served.None? {
        OrderedPays(ops, proper, p.world, cs[1..], makeRoom);
        PayTogether(ops, proper, p, Ordered(ops, p.world, cs[1..], makeRoom));
      }
    }
  }

  lemma {:induction false} PassAQuiet<W, P>(ops: Ops<W, P>, w: W, cs: seq<ModelName>)
    ensures var a := PassA(ops, w, cs);
            && (a.served.None? <==> forall k :: 0 <= k < |cs| ==> ops.warm(w, cs[k]).None?)
            && (a.served.None? ==> a.world == w && a.trace == [])
            && (forall e :: e in a.trace ==> e.TookWarm?)
    decreases |cs|
  {
    if cs != [] {
      PassAQuiet(ops, w, cs[1..]);
    }
  }

  lemma LoadedPays<W(!new), P>(ops: Ops<W, P>, proper: W -> bool, w: W, cs: seq<ModelName>, makeRoom: bool)
    requires Preserves(ops, proper) && proper(w)
    ensures AllPay(ops, proper, Loaded(ops, w, cs, makeRoom))
  {
    PassAQuiet(ops, w, cs);
    var b := Round1(ops, w, cs);
    Round1Proper(ops, proper, w, cs);
    Round1Spawns(ops, w, cs);
    assert AllPay(ops, proper, b);
    Round2Pays(ops, proper, b.world, cs);
    if b.served.None? {
      PayTogether(ops, proper, b, Round2(ops, b.world, cs));
    }
  }

  /** Whatever the policy, every eviction was called for, and if it helps its
      candidate to an instance, that candidate is the one served. */
  lemma EvictionsPay<W(!new), P>(ops: Ops<W, P>, proper: W -> bool, w: W, names: seq<ModelName>, policy: Policy,
          makeRoom: bool)
    requires Preserves(ops, proper) && proper(w)
    ensures var r := Acquire(ops, w, names, policy, makeRoom);
            forall e :: e in r.trace && e.MadeRoom? ==>
              Pays(ops, proper, if r.outcome.Served? then Some(r.outcome.model) else None, e)
  {
    var cs := Resolve(ops, w, names);
    LoadedPays(ops, proper, w, cs, makeRoom);
    OrderedPays(ops, proper, w, cs, makeRoom);
  }

  /** The state in which round 1 comes to its `k`-th candidate, if it has
      served none before. */
  function Round1At<W, P>(ops: Ops<W, P>, w: W, cs: seq<ModelName>, k: nat): W
    requires k <= |cs|
  {
    if k == 0 then w else
    Round1At(ops, if ops.gate(w, cs[0]) && ops.feasible(w, cs[0]) then ops.spawn(w, cs[0]).1 else w, cs[1..], k - 1)
  }

  /** In round 1 the `k`-th candidate is held back by the gate, does not fit, or
      its spawn fails, each at that moment. */
  ghost predicate TriedInVain<W, P>(ops: Ops<W, P>, w: W, cs: seq<ModelName>, k: nat)
    requires k < |cs|
  {
    var v := Round1At(ops, w, cs, k);
    ops.gate(v, cs[k]) && ops.feasible(v, cs[k]) ==> !ops.spawn(v, cs[k]).0
  }

  lemma {:induction false} Round1Fails<W, P>(ops: Ops<W, P>, w: W, cs: seq<ModelName>)
    requires Round1(ops, w, cs).served.None?
    ensures Round1(ops, w, cs).world == Round1At(ops, w, cs, |cs|)
    ensures forall e :: e in Round1(ops, w, cs).trace ==> e.Spawned? && !e.ok
    ensures forall k :: 0 <= k < |cs| ==> TriedInVain(ops, w, cs, k)
    decreases |cs|
  {
    if cs != [] {
      var next := if ops.gate(w, cs[0]) && ops.feasible(w, cs[0]) then ops.spawn(w, cs[0]).1 else w;
      Round1Fails(ops, next, cs[1..]);
      forall k | 0 <= k < |cs| ensures TriedInVain(ops, w, cs, k) {
        if k > 0 {
          assert TriedInVain(ops, next, cs[1..], k - 1);
        }
      }
    }
  }

  ghost predicate Evicts<W, P>(trace: seq<Event<W, P>>) {
    exists e :: e in trace && e.MadeRoom?
  }

  /** `prefer_loaded` evicts only when no candidate had a warm slot and every
      candidate that passed the gate and fitted at its turn was tried and
      failed, all of them before the first eviction. */
  lemma LoadedEvictsLast<W, P>(ops: Ops<W, P>, w: W, cs: seq<ModelName>, makeRoom: bool)
    requires Evicts(Loaded(ops, w, cs, makeRoom).trace)
    ensures makeRoom
    ensures forall k :: 0 <= k < |cs| ==> ops.warm(w, cs[k]).None?
    ensures forall k :: 0 <= k < |cs| ==> TriedInVain(ops, w, cs, k)
    ensures Loaded(ops, w, cs, makeRoom)
         == Before(Round1(ops, w, cs).trace, Round2(ops, Round1At(ops, w, cs, |cs|), cs))
    ensures !Evicts(Round1(ops, w, cs).trace)
  {
    PassAQuiet(ops, w, cs);
    Round1Spawns(ops, w, cs);
    Round1Fails(ops, w, cs);
  }

  lemma {:induction false} Round1Spawns<W, P>(ops: Ops<W, P>, w: W, cs: seq<ModelName>)
    ensures forall e :: e in Round1(ops, w, cs).trace ==> e.Spawned?
    decreases |cs|
  {
    if cs != [] {
      Round1Spawns(ops, w, cs[1..]);
      Round1Spawns(ops, TrySpawn(ops, w, cs[0]).world, cs[1..]);
    }
  }

  /** `prefer_order` gives up a later warm slot for an eviction that
      `prefer_loaded` does not make. */
  lemma OrderEvictsPastWarm<W, P>(ops: Ops<W, P>, w: W, c: ModelName, d: ModelName)
    requires ops.warm(w, c).None? && ops.gate(w, c) && !ops.feasible(w, c) && ops.plan(w, c).Some?
    requires ops.warm(w, d).Some?
    ensures Evicts(Ordered(ops, w, [c, d], true).trace)
    ensures !Evicts(Loaded(ops, w, [c, d], true).trace) && Loaded(ops, w, [c, d], true).served == Some(d)
  {
    var cs := [c, d];
    assert cs[1..] == [d];
    PassAQuiet(ops, w, cs);
    assert PassA(ops, w, cs) == PassA(ops, w, [d]);
    var p := TryOne(ops, w, c, true);
    assert p.trace[0] == MadeRoom(c, ops.plan(w, c).value, w);
    assert Ordered(ops, w, cs, true).trace[0] == p.trace[0];
  }

  // ── Who is served ───────────────────────────────────────────────────────

  /** Known and not blocked. */
  predicate Usable<W, P>(ops: Ops<W, P>, w: W, m: ModelName) { ops.known(w, m) && !ops.blocked(w, m) }

  lemma {:induction false} ResolveExactly<W, P>(ops: Ops<W, P>, w: W, names: seq<ModelName>)
    ensures forall m :: m in Resolve(ops, w, names) <==> m in names && Usable(ops, w, m)
  {
    if names != [] {
      ResolveExactly(ops, w, names[1..]);
      assert names == [names[0]] + names[1..];
    }
  }

  /** The pass served, and tried anything with, candidates of the list only. */
  ghost predicate Among<W, P>(p: Pass<W, P>, cs: seq<ModelName>) {
    (p.served.Some? ==> p.served.value in cs) && forall e :: e in p.trace ==> e.model in cs
  }

  lemma AmongTogether<W, P>(p: Pass<W, P>, q: Pass<W, P>, cs: seq<ModelName>, more: seq<ModelName>)
    requires Among(p, cs) && Among(q, more) && forall m :: m in more ==> m in cs
    ensures Among(Before(p.trace, q), cs)
  {
  }

  lemma {:induction false} PassAAmong<W, P>(ops: Ops<W, P>, w: W, cs: seq<ModelName>)
    ensures Among(PassA(ops, w, cs), cs)
    decreases |cs|
  {
    if cs != [] {
      PassAAmong(ops, w, cs[1..]);
    }
  }

  lemma {:induction false} Round1Among<W, P>(ops: Ops<W, P>, w: W, cs: seq<ModelName>)
    ensures Among(Round1(ops, w, cs), cs)
    decreases |cs|
  {
    if cs != [] {
      var p := TrySpawn(ops, w, cs[0]);
      Round1Among(ops, w, cs[1..]);
      Round1Among(ops, p.world, cs[1..]);
      AmongTogether(p, Round1(ops, p.world, cs[1..]), cs, cs[1..]);
    }
  }

  lemma {:induction false} Round2Among<W, P>(ops: Ops<W, P>, w: W, cs: seq<ModelName>)
    ensures Among(Round2(ops, w, cs), cs)
    decreases |cs|
  {
    if cs != [] {
      var p := TryMakeRoom(ops, w, cs[0]);
      Round2Among(ops, w, cs[1..]);
      Round2Among(ops, p.world, cs[1..]);
      AmongTogether(p, Round2(ops, p.world, cs[1..]), cs, cs[1..]);
    }
  }

  lemma {:induction false} OrderedAmong<W, P>(ops: Ops<W, P>, w: W, cs: seq<ModelName>, makeRoom: bool)
    ensures Among(Ordered(ops, w, cs, makeRoom), cs)
    decreases |cs|
  {
    if cs != [] {
      var p := TryOne(ops, w, cs[0], makeRoom);
      OrderedAmong(ops, p.world, cs[1..], makeRoom);
      AmongTogether(p, Ordered(ops, p.world, cs[1..], makeRoom), cs, cs[1..]);
    }
  }

  lemma {:induction false} QueueOnExactly<W, P>(ops: Ops<W, P>, w: W, cs: seq<ModelName>, first: ModelName)
    ensures forall k :: 0 <= k < |cs| && ops.routable(w, cs[k]) && (forall j :: 0 <= j < k ==> !ops.routable(w, cs[j]))
              ==> QueueOn(ops, w, cs, first) == cs[k]
    ensures (forall k :: 0 <= k < |cs| ==> !ops.routable(w, cs[k])) ==> QueueOn(ops, w, cs, first) == first
    ensures QueueOn(ops, w, cs, first) in cs + [first]
  {
    if cs != [] && !ops.routable(w, cs[0]) {
      QueueOnExactly(ops, w, cs[1..], first);
      forall k | 0 <= k < |cs| && ops.routable(w, cs[k]) && (forall j :: 0 <= j < k ==> !ops.routable(w, cs[j]))
        ensures QueueOn(ops, w, cs, first) == cs[k]
      {
        assert cs[1..][k - 1] == cs[k];
        assert forall j :: 0 <= j < k - 1 ==> cs[1..][j] == cs[j + 1];
      }
    }
  }

  lemma AcquireAmong<W, P>(ops: Ops<W, P>, w: W, cs: seq<ModelName>, policy: Policy, makeRoom: bool)
    ensures Among(if policy == PreferLoaded then Loaded(ops, w, cs, makeRoom) else Ordered(ops, w, cs, makeRoom), cs)
  {
    PassAAmong(ops, w, cs);
    Round1Among(ops, w, cs);
    var b := Round1(ops, w, cs);
    Round2Among(ops, b.world, cs);
    AmongTogether(b, Round2(ops, b.world, cs), cs, cs);
    OrderedAmong(ops, w, cs, makeRoom);
  }

  /** Under either policy only candidates that are known and not blocked are
      tried, waited on and served; and a request is turned away as blocked if
      and only if no candidate is of that kind and one is blocked. */
  lemma OnlyUsableServed<W, P>(ops: Ops<W, P>, w: W, names: seq<ModelName>, policy: Policy, makeRoom: bool)
    ensures var r := Acquire(ops, w, names, policy, makeRoom);
            && (r.outcome.Served? ==> r.outcome.model in names && Usable(ops, w, r.outcome.model))
            && (forall e :: e in r.trace ==> e.model in names && Usable(ops, w, e.model))
            && (r.outcome == Blocked <==>
                  (forall m :: m in names ==> !Usable(ops, w, m)) && exists m :: m in names && ops.blocked(w, m))
  {
    var cs := Resolve(ops, w, names);
    ResolveExactly(ops, w, names);
    if cs == [] {
      assert forall m :: m in names ==> m !in cs;
    } else {
      assert cs[0] in cs;
      AcquireAmong(ops, w, cs, policy, makeRoom);
      var p := if policy == PreferLoaded then Loaded(ops, w, cs, makeRoom) else Ordered(ops, w, cs, makeRoom);
      QueueOnExactly(ops, p.world, cs, cs[0]);
    }
  }

  lemma {:induction false} PassAExactly<W, P>(ops: Ops<W, P>, w: W, cs: seq<ModelName>, k: nat)
    requires k < |cs| && ops.warm(w, cs[k]).Some? && forall j :: 0 <= j < k ==> ops.warm(w, cs[j]).None?
    ensures PassA(ops, w, cs) == Pass(Some(cs[k]), ops.warm(w, cs[k]).value, [TookWarm(cs[k])])
  {
    if k > 0 {
      PassAExactly(ops, w, cs[1..], k - 1);
    }
  }

  /** `prefer_loaded` serves the first usable candidate with a warm slot, if one
      has, and does nothing else. */
  lemma LoadedTakesWarm<W, P>(ops: Ops<W, P>, w: W, names: seq<ModelName>, makeRoom: bool, k: nat)
    requires var cs := Resolve(ops, w, names);
             k < |cs| && ops.warm(w, cs[k]).Some? && forall j :: 0 <= j < k ==> ops.warm(w, cs[j]).None?
    ensures var c := Resolve(ops, w, names)[k];
            Acquire(ops, w, names, PreferLoaded, makeRoom)
            == Result(Served(c), ops.warm(w, c).value, [TookWarm(c)])
  {
    PassAExactly(ops, w, Resolve(ops, w, names), k);
  }

  /** `prefer_order` serves the first usable candidate if it has a warm slot, or
      if it passes the gate, fits and its spawn succeeds, whatever the others have. */
  lemma OrderTakesFirst<W, P>(ops: Ops<W, P>, w: W, names: seq<ModelName>, makeRoom: bool)
    requires Resolve(ops, w, names) != []
    ensures var c := Resolve(ops, w, names)[0];
            && (ops.warm(w, c).Some? ==> Acquire(ops, w, names, PreferOrder, makeRoom)
                                         == Result(Served(c), ops.warm(w, c).value, [TookWarm(c)]))
            && (ops.warm(w, c).None? && ops.gate(w, c) && ops.feasible(w, c) && ops.spawn(w, c).0 ==>
                  Acquire(ops, w, names, PreferOrder, makeRoom) == Result(Served(c), ops.spawn(w, c).1, [Spawned(c, true)]))
  {
  }

  /** Round 1 serves the first candidate that passes the gate, fits and comes up
      when it is its turn; all before it were tried in vain. */
  lemma {:induction false} Round1Serves<W, P>(ops: Ops<W, P>, w: W, cs: seq<ModelName>) returns (k: nat)
    requires Round1(ops, w, cs).served.Some?
    ensures k < |cs| && Round1(ops, w, cs).served == Some(cs[k])
    ensures var v := Round1At(ops, w, cs, k); ops.gate(v, cs[k]) && ops.feasible(v, cs[k]) && ops.spawn(v, cs[k]).0
    ensures forall j :: 0 <= j < k ==> TriedInVain(ops, w, cs, j)
    decreases |cs|
  {
    var next := if ops.gate(w, cs[0]) && ops.feasible(w, cs[0]) then ops.spawn(w, cs[0]).1 else w;
    k := 0;
    if !(ops.gate(w, cs[0]) && ops.feasible(w, cs[0]) && ops.spawn(w, cs[0]).0) {
      k := Round1Serves(ops, next, cs[1..]);
      forall j | 0 < j < k + 1 ensures TriedInVain(ops, w, cs, j) {
        assert TriedInVain(ops, next, cs[1..], j - 1);
      }
      k := k + 1;
    }
  }

  /** The state in which `prefer_order` comes to its `k`-th candidate. */
  function OrderedAt<W, P>(ops: Ops<W, P>, w: W, cs: seq<ModelName>, makeRoom: bool, k: nat): W
    requires k <= |cs|
    decreases k
  {
    if k == 0 then w else OrderedAt(ops, TryOne(ops, w, cs[0], makeRoom).world, cs[1..], makeRoom, k - 1)
  }

  /** `prefer_order` serves the first candidate for which trying everything at
      its turn gets a slot. */
  lemma {:induction false} OrderedServes<W, P>(ops: Ops<W, P>, w: W, cs: seq<ModelName>, makeRoom: bool)
    returns (k: nat)
    requires Ordered(ops, w, cs, makeRoom).served.Some?
    ensures k < |cs| && Ordered(ops, w, cs, makeRoom).served == Some(cs[k])
    ensures TryOne(ops, OrderedAt(ops, w, cs, makeRoom, k), cs[k], makeRoom).served.Some?
    ensures forall j :: 0 <= j < k ==> TryOne(ops, OrderedAt(ops, w, cs, makeRoom, j), cs[j], makeRoom).served.None?
    decreases |cs|
  {
    var p := TryOne(ops, w, cs[0], makeRoom);
    k := 0;
    if p.served.None? {
      k := OrderedServes(ops, p.world, cs[1..], makeRoom);
      forall j | 0 < j < k + 1 ensures TryOne(ops, OrderedAt(ops, w, cs, makeRoom, j), cs[j], makeRoom).served.None? {
        assert OrderedAt(ops, w, cs, makeRoom, j) == OrderedAt(ops, p.world, cs[1..], makeRoom, j - 1);
      }
      k := k + 1;
    }
  }

  /** Where nobody is served at once, the request waits on the first candidate
      that has an instance in service, else on the first of all, and what the
      queue answers is the outcome. */
  lemma WaitsOnLoaded<W, P>(ops: Ops<W, P>, p: Pass<W, P>, cs: seq<ModelName>, k: nat)
    requires p.served.None? && k < |cs| && forall j :: 0 <= j < k ==> !ops.routable(p.world, cs[j])
    requires ops.routable(p.world, cs[k]) || (k == 0 && forall j :: 0 <= j < |cs| ==> !ops.routable(p.world, cs[j]))
    ensures var r := Finish(ops, p, cs);
            var (error, after) := ops.enqueue(p.world, cs[k]);
            && r.world == after && r.trace == p.trace + [Queued(cs[k])]
            && (r.outcome == Served(cs[k]) <==> error == None)
            && (r.outcome == Unavailable <==> error == Some(NoInstances))
            && (r.outcome == NoCapacity <==> error == Some(QueueFull) || error == Some(Timeout))
  {
    QueueOnExactly(ops, p.world, cs, cs[0]);
    assert QueueOn(ops, p.world, cs, cs[0]) == cs[k];
    match ops.enqueue(p.world, cs[k]).0 {
      case None =>
      case Some(NoInstances) =>
      case Some(QueueFull) =>
      case Some(Timeout) =>
    }
  }

  // ── The loops ───────────────────────────────────────────────────────────

  method ResolveCandidates<W, P>(ops: Ops<W, P>, w: W, names: seq<ModelName>)
    returns (resolved: seq<ModelName>, anyBlocked: bool)
    ensures resolved == Resolve(ops, w, names)
    ensures anyBlocked <==> exists k :: 0 <= k < |names| && ops.blocked(w, names[k])
  {
    resolved, anyBlocked := [], false;
    for k := 0 to |names|
      invariant resolved + Resolve(ops, w, names[k..]) == Resolve(ops, w, names)
      invariant anyBlocked <==> exists j :: 0 <= j < k && ops.blocked(w, names[j])
    {
      assert names[k..][1..] == names[k + 1..];
      if ops.blocked(w, names[k]) {
        anyBlocked := true;
        continue;
      }
      if ops.known(w, names[k]) {
        resolved := resolved + [names[k]];
      }
    }
  }

  method FirstWarm<W, P>(ops: Ops<W, P>, w: W, cs: seq<ModelName>) returns (p: Pass<W, P>)
    ensures p == PassA(ops, w, cs)
  {
    for k := 0 to |cs|
      invariant PassA(ops, w, cs[k..]) == PassA(ops, w, cs)
    {
      assert cs[k..][1..] == cs[k + 1..];
      var taken := ops.warm(w, cs[k]);
      if taken.Some? {
        return Pass(Some(cs[k]), taken.value, [TookWarm(cs[k])]);
      }
    }
    p := Pass(None, w, []);
  }

  method SpawnFreely<W, P>(ops: Ops<W, P>, w: W, cs: seq<ModelName>) returns (p: Pass<W, P>)
    ensures p == Round1(ops, w, cs)
  {
    p := Pass(None, w, []);
    for k := 0 to |cs|
      invariant p.served.None?
      invariant Before(p.trace, Round1(ops, p.world, cs[k..])) == Round1(ops, w, cs)
    {
      assert cs[k..][1..] == cs[k + 1..];
      if !ops.gate(p.world, cs[k]) {
        continue;
      }
      if !ops.feasible(p.world, cs[k]) {
        continue;
      }
      BeforeTwice(p.trace, [Spawned(cs[k], false)], Round1(ops, ops.spawn(p.world, cs[k]).1, cs[k + 1..]));
      var (ok, after) := ops.spawn(p.world, cs[k]);
      p := Pass(if ok then Some(cs[k]) else None, after, p.trace + [Spawned(cs[k], ok)]);
      if ok {
        return;
      }
    }
  }

  lemma BeforeTwice<W, P>(a: seq<Event<W, P>>, b: seq<Event<W, P>>, p: Pass<W, P>)
    ensures Before(a, Before(b, p)) == Before(a + b, p)
  {
    assert a + (b + p.trace) == a + b + p.trace;
  }

  method SpawnWithEviction<W, P>(ops: Ops<W, P>, w: W, cs: seq<ModelName>) returns (p: Pass<W, P>)
    ensures p == Round2(ops, w, cs)
  {
    p := Pass(None, w, []);
    for k := 0 to |cs|
      invariant p.served.None?
      invariant Before(p.trace, Round2(ops, p.world, cs[k..])) == Round2(ops, w, cs)
    {
      assert cs[k..][1..] == cs[k + 1..];
      if !ops.gate(p.world, cs[k]) {
        continue;
      }
      if ops.feasible(p.world, cs[k]) {
        continue;
      }
      var q := MakeRoomFor(ops, p.world, cs[k]);
      BeforeTwice(p.trace, q.trace, Round2(ops, q.world, cs[k + 1..]));
      p := Before(p.trace, q);
      if p.served.Some? {
        return;
      }
    }
  }

  method MakeRoomFor<W, P>(ops: Ops<W, P>, w: W, c: ModelName) returns (p: Pass<W, P>)
    ensures p == TryMakeRoom(ops, w, c)
  {
    var plan := ops.plan(w, c);
    if plan.None? {
      return Pass(None, w, []);
    }
    var (ok, after) := ops.spawn(ops.execute(w, plan.value), c);
    p := Pass(if ok then Some(c) else None, after, [MadeRoom(c, plan.value, w), Spawned(c, ok)]);
  }

  method EachInTurn<W, P>(ops: Ops<W, P>, w: W, cs: seq<ModelName>, makeRoom: bool) returns (p: Pass<W, P>)
    ensures p == Ordered(ops, w, cs, makeRoom)
  {
    p := Pass(None, w, []);
    for k := 0 to |cs|
      invariant p.served.None?
      invariant Before(p.trace, Ordered(ops, p.world, cs[k..], makeRoom)) == Ordered(ops, w, cs, makeRoom)
    {
      assert cs[k..][1..] == cs[k + 1..];
      var q := TryOne(ops, p.world, cs[k], makeRoom);
      BeforeTwice(p.trace, q.trace, Ordered(ops, q.world, cs[k + 1..], makeRoom));
      p := Before(p.trace, q);
      if p.served.Some? {
        return;
      }
    }
  }

  method AcquireForCandidates<W, P>(ops: Ops<W, P>, w: W, names: seq<ModelName>, policy: Policy, makeRoom: bool)
    returns (r: Result<W, P>)
    ensures r == Acquire(ops, w, names, policy, makeRoom)
  {
    var resolved, anyBlocked := ResolveCandidates(ops, w, names);
    if resolved == [] {
      return Result(if anyBlocked then Blocked else Unavailable, w, []);
    }
    var p: Pass<W, P>;
    match policy {
      case PreferLoaded =>
        p := FirstWarm(ops, w, resolved);
        if p.served.None? {
          PassAQuiet(ops, w, resolved);
          p := SpawnFreely(ops, w, resolved);
          if p.served.None? && makeRoom {
            var q := SpawnWithEviction(ops, p.world, resolved);
            p := Before(p.trace, q);
          }
        }
      case PreferOrder =>
        p := EachInTurn(ops, w, resolved, makeRoom);
    }
    r := Finish(ops, p, resolved);
  }
}
