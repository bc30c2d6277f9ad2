/** One model's autoscaler: what an evaluation does, and over which runs of
    evaluations, spawns and traffic it can flap. */
module Autoscale {
  import opened Base
  import opened Sums
  import opened Types

  datatype Thresholds = Thresholds(
    enabled: bool,
    scaleUpAt: real,
    scaleDownAt: real,
    cooldownSecs: nat,
    maxInstances: nat,
    maxConcurrent: nat,
    drainIdle: nat,        // the global idle time-out, seconds
    spawnTimeout: nat)

  /** What an evaluation reads of an instance; `idleFor`: seconds since its
      last activity. */
  datatype Inst = Inst(state: InstanceState, inFlight: nat, idleFor: nat)

  datatype Action = Stay | Up | Down | Despawn | Evict(n: nat)

  /** The model's spawn task: none, not registered yet, or registered. */
  datatype Spawn = NoSpawn | Starting | Waiting

  datatype Scaler = Scaler(instances: seq<Inst>, lastAction: Option<nat>, spawn: Spawn)

  /** The load averages of a model that has a metrics entry. */
  datatype Loads = Loads(m5: real, m15: real)

  function Steadily(load: real): Option<Loads> { Some(Loads(load, load)) }

  /** Loading instances cannot hold slots. */
  ghost predicate Sane(xs: seq<Inst>) {
    forall x :: x in xs && x.state == Loading ==> x.inFlight == 0
  }

  // ── The decision ────────────────────────────────────────────────────────

  predicate WantsUp(a: Thresholds, n: nat, load5: real) {
    n < a.maxInstances && load5 > a.scaleUpAt * (a.maxConcurrent * n) as real
  }

  predicate WantsDown(a: Thresholds, n: nat, load15: real) {
    n > 1 && load15 < a.scaleDownAt * (a.maxConcurrent * (n - 1)) as real
  }

  predicate Cooling(a: Thresholds, last: Option<nat>, now: nat) {
    last.Some? && now - last.value < a.cooldownSecs
  }

  predicate Busy(x: Inst) { x.inFlight > 0 }

  function IsBusy(): Inst -> bool { (x: Inst) => x.inFlight > 0 }

  predicate Expired(a: Thresholds, x: Inst) {
    x.inFlight == 0 && x.state == Ready && x.idleFor >= a.drainIdle
  }

  /** Neither drained and idle, nor stranded in `Loading`. */
  function Stays(a: Thresholds): Inst -> bool {
    (x: Inst) => !(x.state == Failed && x.inFlight == 0) && !(x.state == Loading && x.idleFor > 2 * a.spawnTimeout)
  }

  /** What the two reapers at the head of an evaluation leave. */
  function Swept(a: Thresholds, xs: seq<Inst>): seq<Inst> { Keep(xs, Stays(a)) }

  /** The list without its first idle instance: what the loop over the
      instances by ascending load removes. */
  function LessOneIdle(xs: seq<Inst>): seq<Inst> {
    if xs == [] then [] else if !Busy(xs[0]) then xs[1..] else [xs[0]] + LessOneIdle(xs[1..])
  }

  /** Expired instances evicted while more than one is left. */
  function LessSurplus(a: Thresholds, xs: seq<Inst>, n: nat): seq<Inst> {
    if xs == [] then [] else
    if n > 1 && Expired(a, xs[0]) then LessSurplus(a, xs[1..], n - 1) else [xs[0]] + LessSurplus(a, xs[1..], n)
  }

  /** One evaluation: reaping, then nothing for a model without instances or
      metrics, idle despawn of the last instance, surplus eviction without
      autoscaling, else cooldown, scale-up, scale-down. */
  function Evaluated(a: Thresholds, scaler: Scaler, now: nat, loads: Option<Loads>): (Scaler, Action) {
    var s := scaler.(instances := Swept(a, scaler.instances));
    var n := |s.instances|;
    if n == 0 || loads.None? then (s, Stay)
    else if n == 1 && Expired(a, s.instances[0]) then (s.(instances := []), Despawn)
    else if !a.enabled then
      var left := LessSurplus(a, s.instances, n);
      (s.(instances := left), Evict(if |left| <= n then n - |left| else 0))
    else if Cooling(a, s.lastAction, now) then (s, Stay)
    else if WantsUp(a, n, loads.value.m5) then
      (if s.spawn != NoSpawn then (s, Stay) else (s.(spawn := Starting, lastAction := Some(now)), Up))
    else if WantsDown(a, n, loads.value.m15) then
      var left := LessOneIdle(s.instances);
      (if left == s.instances then (s, Stay) else (s.(instances := left, lastAction := Some(now)), Down))
    else (s, Stay)
  }

  // ── What an evaluation never does ───────────────────────────────────────

  lemma {:induction false} LessOneIdleKeeps(xs: seq<Inst>)
    ensures Keep(LessOneIdle(xs), IsBusy()) == Keep(xs, IsBusy())
    ensures |xs| - 1 <= |LessOneIdle(xs)| <= |xs|
    ensures |LessOneIdle(xs)| == |xs| ==> LessOneIdle(xs) == xs
    ensures forall x :: x in LessOneIdle(xs) ==> x in xs
  {
    if xs != [] && Busy(xs[0]) {
      LessOneIdleKeeps(xs[1..]);
      assert LessOneIdle(xs)[1..] == LessOneIdle(xs[1..]);
    }
  }

  lemma {:induction false} FirstIdleRemoved(xs: seq<Inst>, k: nat)
    requires k < |xs| && !Busy(xs[k]) && forall j :: 0 <= j < k ==> Busy(xs[j])
    ensures LessOneIdle(xs) == xs[..k] + xs[k + 1..]
  {
    if k > 0 {
      FirstIdleRemoved(xs[1..], k - 1);
      assert xs[..k] == [xs[0]] + xs[1..][..k - 1] && xs[1..][k - 1 + 1..] == xs[k + 1..];
    }
  }

  lemma {:induction false} AllBusyKept(xs: seq<Inst>)
    requires forall j :: 0 <= j < |xs| ==> Busy(xs[j])
    ensures LessOneIdle(xs) == xs
  {
    if xs != [] {
      AllBusyKept(xs[1..]);
    }
  }

  lemma {:induction false} LessSurplusKeeps(a: Thresholds, xs: seq<Inst>, n: nat)
    requires n >= |xs|
    ensures Keep(LessSurplus(a, xs, n), IsBusy()) == Keep(xs, IsBusy())
    ensures |LessSurplus(a, xs, n)| <= |xs|
    ensures |xs| - |LessSurplus(a, xs, n)| <= Max(0, n - 1)
    ensures forall x :: x in LessSurplus(a, xs, n) ==> x in xs
  {
    if xs != [] {
      if n > 1 && Expired(a, xs[0]) {
        LessSurplusKeeps(a, xs[1..], n - 1);
      } else {
        LessSurplusKeeps(a, xs[1..], n);
        assert LessSurplus(a, xs, n)[1..] == LessSurplus(a, xs[1..], n);
      }
    }
  }

  lemma SweptKeepsBusy(a: Thresholds, xs: seq<Inst>)
    requires Sane(xs)
    ensures Keep(Swept(a, xs), IsBusy()) == Keep(xs, IsBusy())
  {
    KeepKeep(xs, Stays(a), IsBusy(), IsBusy());
  }

  /** No evaluation removes a busy instance, in whatever state; a model keeps
      one of the instances the reapers leave unless that one has been idle for
      the whole time-out; and no scaling happens during the cooldown. */
  lemma EvaluateSafe(a: Thresholds, s: Scaler, now: nat, loads: Option<Loads>)
    requires Sane(s.instances)
    ensures var (t, action) := Evaluated(a, s, now, loads);
            && Keep(t.instances, IsBusy()) == Keep(s.instances, IsBusy())
            && |t.instances| <= |s.instances|
            && (t.instances == [] && Swept(a, s.instances) != [] ==>
                  action == Despawn && exists x :: Swept(a, s.instances) == [x] && Expired(a, x))
            && (action == Up || action == Down ==>
                  a.enabled && !Cooling(a, s.lastAction, now) && t.lastAction == Some(now))
  {
    var xs := Swept(a, s.instances);
    SweptKeepsBusy(a, s.instances);
    LessOneIdleKeeps(xs);
    LessSurplusKeeps(a, xs, |xs|);
    if |xs| == 1 && Expired(a, xs[0]) {
      assert xs == [xs[0]];
      assert xs[1..] == [];
    }
  }

  // ── What decides ────────────────────────────────────────────────────────

  /** Neither drained and idle nor loading for more than twice the spawn time-out. */
  predicate IsLeft(a: Thresholds, x: Inst) {
    (x.state != Failed || x.inFlight > 0) && (x.state != Loading || x.idleFor <= 2 * a.spawnTimeout)
  }

  /** The positions of the instances an evaluation decides on. */
  ghost function Left(a: Thresholds, xs: seq<Inst>): set<nat> {
    set k: nat | k < |xs| && IsLeft(a, xs[k])
  }

  /** Ready, without a request, and that for the whole idle time-out. */
  predicate IdleOut(a: Thresholds, x: Inst) {
    x.state == Ready && x.inFlight == 0 && x.idleFor >= a.drainIdle
  }

  /** The last instance is given up whatever the load. */
  ghost predicate GivesUpLast(a: Thresholds, xs: seq<Inst>) {
    |Left(a, xs)| == 1 && forall k :: k in Left(a, xs) ==> IdleOut(a, xs[k])
  }

  /** Autoscaling is on, the cooldown is over, and there are instances to decide on. */
  ghost predicate MayScale(a: Thresholds, s: Scaler, now: nat) {
    && a.enabled && (s.lastAction.Some? ==> now >= s.lastAction.value + a.cooldownSecs)
    && |Left(a, s.instances)| > 0 && !GivesUpLast(a, s.instances)
  }

  /** The five-minute load is above the threshold's share of all slots, and one
      more instance is allowed. */
  ghost predicate Overloaded(a: Thresholds, s: Scaler, m5: real) {
    var n := |Left(a, s.instances)|;
    n < a.maxInstances && m5 > a.scaleUpAt * (a.maxConcurrent * n) as real
  }

  /** The fifteen-minute load is below the threshold's share of the slots that
      one instance less would leave. */
  ghost predicate Underloaded(a: Thresholds, s: Scaler, m15: real) {
    var n := |Left(a, s.instances)|;
    n > 1 && m15 < a.scaleDownAt * (a.maxConcurrent * (n - 1)) as real
  }

  lemma SweptSize(a: Thresholds, xs: seq<Inst>)
    ensures |Swept(a, xs)| == |Left(a, xs)|
  {
    KeepCounts(xs, Stays(a));
    assert Where(xs, Stays(a)) == Left(a, xs);
  }

  lemma SweptIn(a: Thresholds, xs: seq<Inst>)
    ensures forall x :: x in Swept(a, xs) <==> exists k :: k in Left(a, xs) && xs[k] == x
  {
    KeepIn(xs, Stays(a));
  }

  lemma GivesUpExactly(a: Thresholds, xs: seq<Inst>)
    ensures GivesUpLast(a, xs) <==> |Swept(a, xs)| == 1 && Expired(a, Swept(a, xs)[0])
  {
    SweptSize(a, xs);
    SweptIn(a, xs);
    if |Swept(a, xs)| == 1 {
      var x := Swept(a, xs)[0];
      assert Swept(a, xs) == [x];
      assert x in Swept(a, xs);
      assert forall k :: k in Left(a, xs) ==> xs[k] in Swept(a, xs);
    }
  }

  lemma {:induction false} SomeIdle(xs: seq<Inst>)
    ensures LessOneIdle(xs) != xs <==> exists x :: x in xs && x.inFlight == 0
  {
    if exists x :: x in xs && x.inFlight == 0 {
      if Busy(xs[0]) {
        assert xs == [xs[0]] + xs[1..];
        SomeIdle(xs[1..]);
        assert LessOneIdle(xs)[1..] == LessOneIdle(xs[1..]);
      } else {
        assert |LessOneIdle(xs)| < |xs|;
      }
    } else {
      AllBusyKept(xs);
    }
  }

  lemma SomeIdleLeft(a: Thresholds, xs: seq<Inst>)
    ensures LessOneIdle(Swept(a, xs)) != Swept(a, xs) <==> exists k :: k in Left(a, xs) && xs[k].inFlight == 0
  {
    SomeIdle(Swept(a, xs));
    SweptIn(a, xs);
  }

  /** It scales up if and only if the five-minute load asks for it, the model
      may have one more instance and no spawn is under way. */
  lemma UpExactly(a: Thresholds, s: Scaler, now: nat, loads: Option<Loads>)
    ensures Evaluated(a, s, now, loads).1 == Up
            <==> loads.Some? && MayScale(a, s, now) && s.spawn == NoSpawn && Overloaded(a, s, loads.value.m5)
  {
    SweptSize(a, s.instances);
    GivesUpExactly(a, s.instances);
  }

  lemma DownGates(a: Thresholds, s: Scaler, now: nat, loads: Option<Loads>)
    ensures var xs := Swept(a, s.instances);
            Evaluated(a, s, now, loads).1 == Down
            <==> && loads.Some? && a.enabled && !Cooling(a, s.lastAction, now)
                 && |xs| > 0 && !(|xs| == 1 && Expired(a, xs[0]))
                 && !WantsUp(a, |xs|, loads.value.m5) && WantsDown(a, |xs|, loads.value.m15) && LessOneIdle(xs) != xs
  {
  }

  /** It scales down if and only if the fifteen-minute load asks for it, the
      five-minute load does not ask for more, and some instance is idle. */
  lemma DownExactly(a: Thresholds, s: Scaler, now: nat, loads: Option<Loads>)
    ensures Evaluated(a, s, now, loads).1 == Down
            <==> && loads.Some? && MayScale(a, s, now)
                 && !Overloaded(a, s, loads.value.m5) && Underloaded(a, s, loads.value.m15)
                 && exists k :: k in Left(a, s.instances) && s.instances[k].inFlight == 0
  {
    DownGates(a, s, now, loads);
    SweptSize(a, s.instances);
    GivesUpExactly(a, s.instances);
    SomeIdleLeft(a, s.instances);
  }

  /** The fifteen-minute load alone never makes or unmakes a scale-up, and the
      five-minute load alone never makes a scale-down where none was due to
      begin with and no scale-up either. */
  lemma EachLoadDecides(a: Thresholds, s: Scaler, now: nat, m5: real, m15: real, other: real)
    ensures Evaluated(a, s, now, Some(Loads(m5, m15))).1 == Up <==> Evaluated(a, s, now, Some(Loads(m5, other))).1 == Up
    ensures Evaluated(a, s, now, Some(Loads(other, m15))).1 == Down && !Overloaded(a, s, m5) ==>
              Evaluated(a, s, now, Some(Loads(m5, m15))).1 == Down
  {
    UpExactly(a, s, now, Some(Loads(m5, m15)));
    UpExactly(a, s, now, Some(Loads(m5, other)));
    DownExactly(a, s, now, Some(Loads(m5, m15)));
    DownExactly(a, s, now, Some(Loads(other, m15)));
  }

  /** A scale-up starts one spawn and removes nothing, a scale-down removes one
      instance; only these two start the cooldown anew. */
  lemma ScalesByOne(a: Thresholds, s: Scaler, now: nat, loads: Option<Loads>)
    ensures var (t, action) := Evaluated(a, s, now, loads);
            && (action == Up ==> t.spawn == Starting && |t.instances| == |Left(a, s.instances)|)
            && (action == Down ==> |t.instances| == |Left(a, s.instances)| - 1)
            && (action == Up || action == Down ==> t.lastAction == Some(now))
            && (action != Up ==> t.spawn == s.spawn)
            && (action != Up && action != Down ==> t.lastAction == s.lastAction)
  {
    SweptSize(a, s.instances);
    LessOneIdleKeeps(Swept(a, s.instances));
  }

  lemma {:induction false} SurplusSize(a: Thresholds, xs: seq<Inst>, n: nat)
    requires n >= |xs|
    ensures |xs| - |LessSurplus(a, xs, n)|
         == Min(|Where(xs, (x: Inst) => IdleOut(a, x))|, if n == 0 then 0 else n - 1)
  {
    var p := (x: Inst) => IdleOut(a, x);
    KeepCounts(xs, p);
    if xs != [] {
      KeepCounts(xs[1..], p);
      var rest: nat := if n > 1 && Expired(a, xs[0]) then n - 1 else n;
      SurplusSize(a, xs[1..], rest);
    }
  }

  /** Whatever the load, the last instance is given up exactly when it has been
      idle for the whole time-out; and without autoscaling as many are evicted
      as have been, all but one at most. */
  lemma IdleOutExactly(a: Thresholds, s: Scaler, now: nat, loads: Loads)
    ensures Evaluated(a, s, now, Some(loads)).1 == Despawn <==> GivesUpLast(a, s.instances)
    ensures var n := |Left(a, s.instances)|;
            !a.enabled && n > 0 && !GivesUpLast(a, s.instances) ==>
              Evaluated(a, s, now, Some(loads)).1
              == Evict(Min(|set k | k in Left(a, s.instances) && IdleOut(a, s.instances[k])|, n - 1) as nat)
  {
    var xs := s.instances;
    SweptSize(a, xs);
    GivesUpExactly(a, xs);
    var p := (x: Inst) => IdleOut(a, x);
    var both := (x: Inst) => IsLeft(a, x) && IdleOut(a, x);
    SurplusSize(a, Swept(a, xs), |Swept(a, xs)|);
    KeepCounts(Swept(a, xs), p);
    KeepKeep(xs, Stays(a), p, both);
    KeepCounts(xs, both);
    assert Where(xs, both) == set k | k in Left(a, xs) && IdleOut(a, xs[k]);
  }

  // ── Runs ────────────────────────────────────────────────────────────────

  /** What happens around a model at one constant load: evaluations, the
      progress of the spawn one of them started, and traffic. */
  datatype Event =
    | Evaluate(after: nat)
    | Registered
    | SpawnFailed
    | SpawnReady
    | Traffic(instances: seq<Inst>)

  datatype World = World(scaler: Scaler, clock: nat)

  /** Nothing retires instances from outside, and a spawn is over before its
      instance counts as stranded. */
  ghost predicate Steady(a: Thresholds, xs: seq<Inst>) {
    forall x :: x in xs ==>
      x.state != Failed && (x.state == Loading ==> x.inFlight == 0 && x.idleFor <= 2 * a.spawnTimeout)
  }

  function IsLoaded(): Inst -> bool { (x: Inst) => x.state != Loading }

  function Readied(xs: seq<Inst>): (r: seq<Inst>)
    ensures |r| == |xs|
    ensures forall k :: 0 <= k < |xs| ==> r[k] == xs[k].(state := if xs[k].state == Loading then Ready else xs[k].state)
  {
    if xs == [] then [] else [xs[0].(state := if xs[0].state == Loading then Ready else xs[0].state)] + Readied(xs[1..])
  }

  ghost predicate Allowed(a: Thresholds, w: World, e: Event) {
    match e
    case Evaluate(_) => true
    case Registered => w.scaler.spawn == Starting
    case SpawnFailed => w.scaler.spawn != NoSpawn
    case SpawnReady => w.scaler.spawn == Waiting
    case Traffic(xs) =>
      && |xs| == |w.scaler.instances| && Steady(a, xs)
      && forall k :: 0 <= k < |xs| ==> xs[k].state == w.scaler.instances[k].state
  }

  /** Requests arrive and end, instances age, spawns go on, and the autoscaler
      evaluates; nothing else adds or removes instances. */
  function After(a: Thresholds, load: real, w: World, e: Event): World {
    var s := w.scaler;
    match e
    case Evaluate(d) => World(Evaluated(a, s, w.clock + d, Steadily(load)).0, w.clock + d)
    case Registered => w.(scaler := s.(instances := s.instances + [Inst(Loading, 0, 0)], spawn := Waiting))
    case SpawnFailed =>
      var left := if s.spawn == Waiting then Keep(s.instances, IsLoaded()) else s.instances;
      w.(scaler := s.(instances := left, spawn := NoSpawn))
    case SpawnReady => w.(scaler := s.(instances := Readied(s.instances), spawn := NoSpawn))
    case Traffic(xs) => w.(scaler := s.(instances := xs))
  }

  function ActionOf(a: Thresholds, load: real, w: World, e: Event): Action {
    if e.Evaluate? then Evaluated(a, w.scaler, w.clock + e.after, Steadily(load)).1 else Stay
  }

  ghost predicate Runs(a: Thresholds, load: real, w: World, events: seq<Event>)
    decreases |events|
  {
    events == [] || (Allowed(a, w, events[0]) && Runs(a, load, After(a, load, w, events[0]), events[1..]))
  }

  /** What the autoscaler does along a run. */
  function Actions(a: Thresholds, load: real, w: World, events: seq<Event>): seq<Action>
    decreases |events|
  {
    if events == [] then [] else
    [ActionOf(a, load, w, events[0])] + Actions(a, load, After(a, load, w, events[0]), events[1..])
  }

  /** A start: no spawn under way, every instance ready. */
  ghost predicate Start(a: Thresholds, w: World) {
    w.scaler.spawn == NoSpawn && forall x :: x in w.scaler.instances ==> x.state == Ready
  }

  lemma SteadyIsSwept(a: Thresholds, xs: seq<Inst>)
    requires Steady(a, xs)
    ensures Swept(a, xs) == xs
  {
    KeepAll(xs, Stays(a));
  }

  lemma EvaluatedStaysSteady(a: Thresholds, s: Scaler, now: nat, loads: Option<Loads>)
    requires Steady(a, s.instances)
    ensures Steady(a, Evaluated(a, s, now, loads).0.instances)
  {
    SteadyIsSwept(a, s.instances);
    LessOneIdleKeeps(s.instances);
    LessSurplusKeeps(a, s.instances, |s.instances|);
  }

  lemma StaysSteady(a: Thresholds, load: real, w: World, e: Event)
    requires Steady(a, w.scaler.instances) && Allowed(a, w, e)
    ensures Steady(a, After(a, load, w, e).scaler.instances)
  {
    match e
    case Evaluate(d) => EvaluatedStaysSteady(a, w.scaler, w.clock + d, Steadily(load));
    case SpawnFailed => KeepIn(w.scaler.instances, IsLoaded());
    case SpawnReady =>
      var r := Readied(w.scaler.instances);
      forall x | x in r ensures x.state != Failed && x.state != Loading {
        var k :| 0 <= k < |r| && r[k] == x;
        assert w.scaler.instances[k] in w.scaler.instances;
      }
    case _ =>
  }

  /** Instances, and the one about to be registered. */
  function Total(w: World): nat { |w.scaler.instances| + if w.scaler.spawn == Starting then 1 else 0 }

  /** What an evaluation in a steady world comes to. */
  lemma EvaluationIs(a: Thresholds, load: real, w: World, e: Event)
    requires Steady(a, w.scaler.instances) && e.Evaluate?
    ensures var n, t, act := |w.scaler.instances|, After(a, load, w, e).scaler, ActionOf(a, load, w, e);
            && (act == Up ==> a.enabled && n > 0 && WantsUp(a, n, load) && w.scaler.spawn == NoSpawn)
            && (act == Up ==> t == w.scaler.(spawn := Starting, lastAction := t.lastAction))
            && (act == Down ==> a.enabled && WantsDown(a, n, load))
            && (act == Down ==> |t.instances| == n - 1 && t.spawn == w.scaler.spawn)
            && (act == Despawn ==> n == 1 && t.instances == [] && t.spawn == w.scaler.spawn)
            && (act == Stay ==> t == w.scaler)
            && (act.Evict? ==> !a.enabled && |t.instances| <= n && t.spawn == w.scaler.spawn)
  {
    SteadyIsSwept(a, w.scaler.instances);
    LessOneIdleKeeps(w.scaler.instances);
    LessSurplusKeeps(a, w.scaler.instances, |w.scaler.instances|);
  }

  // ── Flapping ────────────────────────────────────────────────────────────

  lemma Scales(x: real, y: real, j: nat, k: nat)
    requires x <= y && j <= k && (x >= 0.0 || j == k)
    ensures x * j as real <= y * k as real
  {
    var u, v := j as real, k as real;
    assert x * u <= x * v by { assert (v - u) * x >= 0.0; }
    assert x * v <= y * v by { assert (y - x) * v >= 0.0; }
  }

  lemma ScalesBy(c: nat, j: nat, k: nat)
    requires j <= k
    ensures c * j <= c * k
  {
  }

  /** After a scale-up at `k` instances the load is too high for a scale-down. */
  lemma TooHighToGoDown(a: Thresholds, load: real, k: nat, n: nat)
    requires a.scaleDownAt <= a.scaleUpAt && load >= 0.0
    requires load > a.scaleUpAt * (a.maxConcurrent * k) as real && n <= k + 1
    ensures !WantsDown(a, n, load)
  {
    if n > 1 {
      ScalesBy(a.maxConcurrent, n - 1, k);
      if a.scaleDownAt >= 0.0 {
        Scales(a.scaleDownAt, a.scaleUpAt, a.maxConcurrent * (n - 1), a.maxConcurrent * k);
      } else {
        Scales(a.scaleDownAt, 0.0, a.maxConcurrent * (n - 1), a.maxConcurrent * (n - 1));
      }
    }
  }

  /** After a scale-down to `j` instances it is too low for a scale-up. */
  lemma TooLowToGoUp(a: Thresholds, load: real, j: nat, n: nat)
    requires a.scaleDownAt <= a.scaleUpAt && load >= 0.0
    requires load < a.scaleDownAt * (a.maxConcurrent * j) as real && j <= n
    ensures !WantsUp(a, n, load)
  {
    ScalesBy(a.maxConcurrent, j, n);
    Scales(a.scaleDownAt, a.scaleUpAt, a.maxConcurrent * j, a.maxConcurrent * n);
  }

  /** Scaled up at `k` instances, and at most one more than these. */
  ghost predicate Raised(a: Thresholds, load: real, w: World, k: nat) {
    && Steady(a, w.scaler.instances)
    && load > a.scaleUpAt * (a.maxConcurrent * k) as real && Total(w) <= k + 1
  }

  lemma UpRaises(a: Thresholds, load: real, w: World, e: Event)
    requires Steady(a, w.scaler.instances) && Allowed(a, w, e) && ActionOf(a, load, w, e) == Up
    ensures Raised(a, load, After(a, load, w, e), |w.scaler.instances|)
  {
    StaysSteady(a, load, w, e);
    EvaluationIs(a, load, w, e);
  }

  lemma TotalFalls(a: Thresholds, load: real, w: World, e: Event)
    requires Steady(a, w.scaler.instances) && Allowed(a, w, e) && ActionOf(a, load, w, e) != Up
    ensures Total(After(a, load, w, e)) <= Total(w)
  {
    if e.Evaluate? {
      EvaluationIs(a, load, w, e);
    }
  }

  lemma RaisedNotDown(a: Thresholds, load: real, w: World, k: nat, e: Event)
    requires a.scaleDownAt <= a.scaleUpAt && load >= 0.0
    requires Raised(a, load, w, k) && Allowed(a, w, e)
    ensures ActionOf(a, load, w, e) != Down
  {
    if e.Evaluate? {
      EvaluationIs(a, load, w, e);
      TooHighToGoDown(a, load, k, |w.scaler.instances|);
    }
  }

  lemma RaisedStays(a: Thresholds, load: real, w: World, t: World, k: nat)
    requires Raised(a, load, w, k) && Steady(a, t.scaler.instances) && Total(t) <= Total(w)
    ensures Raised(a, load, t, k)
  {
  }

  lemma RaisedStep(a: Thresholds, load: real, w: World, k: nat, e: Event) returns (more: nat)
    requires a.scaleDownAt <= a.scaleUpAt && load >= 0.0
    requires Raised(a, load, w, k) && Allowed(a, w, e)
    ensures ActionOf(a, load, w, e) != Down && Raised(a, load, After(a, load, w, e), more)
  {
    RaisedNotDown(a, load, w, k, e);
    more := k;
    if ActionOf(a, load, w, e) == Up {
      more := |w.scaler.instances|;
      UpRaises(a, load, w, e);
    } else {
      StaysSteady(a, load, w, e);
      TotalFalls(a, load, w, e);
      RaisedStays(a, load, w, After(a, load, w, e), k);
    }
  }

  lemma {:induction false} AfterUp(a: Thresholds, load: real, w: World, k: nat, events: seq<Event>)
    requires a.scaleDownAt <= a.scaleUpAt && load >= 0.0
    requires Raised(a, load, w, k) && Runs(a, load, w, events)
    ensures Down !in Actions(a, load, w, events)
    decreases |events|
  {
    if events != [] {
      var more := RaisedStep(a, load, w, k, events[0]);
      AfterUp(a, load, After(a, load, w, events[0]), more, events[1..]);
    }
  }

  /** No spawn under way, and at least the `j` instances a scale-down left, or
      none since the last one was despawned. */
  ghost predicate Lowered(a: Thresholds, load: real, w: World, j: nat) {
    && Steady(a, w.scaler.instances) && w.scaler.spawn == NoSpawn
    && j >= 1 && load < a.scaleDownAt * (a.maxConcurrent * j) as real
    && (|w.scaler.instances| >= j || (w.scaler.instances == [] && j == 1))
  }

  lemma DownLowers(a: Thresholds, load: real, w: World, e: Event)
    requires Steady(a, w.scaler.instances) && w.scaler.spawn == NoSpawn
    requires Allowed(a, w, e) && ActionOf(a, load, w, e) == Down
    ensures a.enabled && |w.scaler.instances| >= 1 && Lowered(a, load, After(a, load, w, e), |w.scaler.instances| - 1)
  {
    StaysSteady(a, load, w, e);
    EvaluationIs(a, load, w, e);
  }

  /** Without a scaling action and without a spawn, instances go only by the
      despawn of the last one. */
  lemma CountStays(a: Thresholds, load: real, w: World, e: Event)
    requires Steady(a, w.scaler.instances) && w.scaler.spawn == NoSpawn && Allowed(a, w, e)
    requires a.enabled && ActionOf(a, load, w, e) != Up && ActionOf(a, load, w, e) != Down
    ensures var t := After(a, load, w, e).scaler;
            && t.spawn == NoSpawn
            && (|t.instances| == |w.scaler.instances| || (|w.scaler.instances| == 1 && t.instances == []))
  {
    if e.Evaluate? {
      EvaluationIs(a, load, w, e);
    }
  }

  lemma LoweredNotUp(a: Thresholds, load: real, w: World, j: nat, e: Event)
    requires a.scaleDownAt <= a.scaleUpAt && load >= 0.0
    requires Lowered(a, load, w, j) && Allowed(a, w, e)
    ensures ActionOf(a, load, w, e) != Up
  {
    if e.Evaluate? {
      EvaluationIs(a, load, w, e);
      if |w.scaler.instances| >= j {
        TooLowToGoUp(a, load, j, |w.scaler.instances|);
      }
    }
  }

  lemma LoweredStep(a: Thresholds, load: real, w: World, j: nat, e: Event) returns (less: nat)
    requires a.scaleDownAt <= a.scaleUpAt && load >= 0.0 && a.enabled
    requires Lowered(a, load, w, j) && Allowed(a, w, e)
    ensures ActionOf(a, load, w, e) != Up && Lowered(a, load, After(a, load, w, e), less)
  {
    LoweredNotUp(a, load, w, j, e);
    less := j;
    if ActionOf(a, load, w, e) == Down {
      DownLowers(a, load, w, e);
      less := |w.scaler.instances| - 1;
    } else {
      StaysSteady(a, load, w, e);
      CountStays(a, load, w, e);
    }
  }

  lemma {:induction false} AfterDown(a: Thresholds, load: real, w: World, j: nat, events: seq<Event>)
    requires a.scaleDownAt <= a.scaleUpAt && load >= 0.0 && a.enabled
    requires Lowered(a, load, w, j) && Runs(a, load, w, events)
    ensures Up !in Actions(a, load, w, events)
    decreases |events|
  {
    if events != [] {
      var less := LoweredStep(a, load, w, j, events[0]);
      AfterDown(a, load, After(a, load, w, events[0]), less, events[1..]);
    }
  }

  /** With the thresholds in order, no run at a constant load goes both up and
      down, whether spawns succeed or fail and whatever the traffic does. */
  lemma {:induction false} NoFlapping(a: Thresholds, load: real, w: World, events: seq<Event>)
    requires a.scaleDownAt <= a.scaleUpAt && load >= 0.0
    requires Steady(a, w.scaler.instances) && w.scaler.spawn == NoSpawn && Runs(a, load, w, events)
    ensures !(Up in Actions(a, load, w, events) && Down in Actions(a, load, w, events))
    decreases |events|
  {
    if events != [] {
      var e := events[0];
      var next := After(a, load, w, e);
      if ActionOf(a, load, w, e) == Up {
        UpRaises(a, load, w, e);
        AfterUp(a, load, next, |w.scaler.instances|, events[1..]);
      } else if ActionOf(a, load, w, e) == Down {
        DownLowers(a, load, w, e);
        AfterDown(a, load, next, |w.scaler.instances| - 1, events[1..]);
      } else {
        QuietStart(a, load, w, e);
        NoFlapping(a, load, next, events[1..]);
      }
    }
  }

  lemma QuietStart(a: Thresholds, load: real, w: World, e: Event)
    requires Steady(a, w.scaler.instances) && w.scaler.spawn == NoSpawn && Allowed(a, w, e)
    requires ActionOf(a, load, w, e) != Up && ActionOf(a, load, w, e) != Down
    ensures var t := After(a, load, w, e).scaler; Steady(a, t.instances) && t.spawn == NoSpawn
  {
    StaysSteady(a, load, w, e);
    if e.Evaluate? {
      EvaluationIs(a, load, w, e);
    }
  }

  /** Some run at some constant load goes up as well as down. */
  ghost predicate CanFlap(a: Thresholds) {
    exists load: real, w: World, events: seq<Event> :: Flapping(a, load, w, events)
  }

  ghost predicate Flapping(a: Thresholds, load: real, w: World, events: seq<Event>) {
    && load >= 0.0 && Start(a, w) && Runs(a, load, w, events)
    && Up in Actions(a, load, w, events) && Down in Actions(a, load, w, events)
  }

  /** Without autoscaling nothing scales, without a positive threshold nothing
      goes down, and with one instance allowed nothing goes up. */
  lemma {:induction false} OneWayOnly(a: Thresholds, load: real, w: World, events: seq<Event>)
    requires !a.enabled || a.scaleDownAt <= 0.0 || a.maxInstances < 2
    requires load >= 0.0 && Steady(a, w.scaler.instances) && Runs(a, load, w, events)
    ensures !a.enabled || a.scaleDownAt <= 0.0 ==> Down !in Actions(a, load, w, events)
    ensures !a.enabled || a.maxInstances < 2 ==> Up !in Actions(a, load, w, events)
    decreases |events|
  {
    if events != [] {
      var e := events[0];
      StaysSteady(a, load, w, e);
      if e.Evaluate? {
        EvaluationIs(a, load, w, e);
        if a.scaleDownAt <= 0.0 && |w.scaler.instances| > 1 {
          var k := a.maxConcurrent * (|w.scaler.instances| - 1);
          Scales(a.scaleDownAt, 0.0, k, k);
        }
      }
      OneWayOnly(a, load, After(a, load, w, e), events[1..]);
    }
  }

  lemma AtLeastOne(x: nat, y: nat)
    requires x >= 1 && y >= 1
    ensures x * y >= 1
  {
  }

  lemma StrictlyScales(x: real, y: real, k: real)
    requires x < y && k >= 1.0
    ensures x * k < y * k
  {
  }

  function Busies(n: nat): (r: seq<Inst>)
    ensures |r| == n && forall k :: 0 <= k < n ==> r[k] == Inst(Ready, 1, 0)
  {
    if n == 0 then [] else Busies(n - 1) + [Inst(Ready, 1, 0)]
  }

  /** The run of one flap: up, the spawn succeeds, and after the cooldown down
      again, the new instance being idle. */
  lemma FlapsAt(a: Thresholds, load: real, n: nat)
    requires a.enabled && n >= 1 && a.maxInstances == n + 1 && WantsUp(a, n, load) && WantsDown(a, n + 1, load)
    requires load >= 0.0
    ensures CanFlap(a)
  {
    var w := World(Scaler(Busies(n), None, NoSpawn), 0);
    var events := [Evaluate(0), Registered, SpawnReady, Evaluate(a.cooldownSecs)];
    var one := After(a, load, w, events[0]);
    var two := After(a, load, one, events[1]);
    var three := After(a, load, two, events[2]);
    FirstGoesUp(a, load, w, n);
    assert one == World(Scaler(Busies(n), Some(0), Starting), 0);
    assert three.scaler.instances == Busies(n) + [Inst(Ready, 0, 0)];
    ThenGoesDown(a, load, three, n);
    assert events[1..] == [Registered, SpawnReady, Evaluate(a.cooldownSecs)];
    assert events[1..][1..] == [SpawnReady, Evaluate(a.cooldownSecs)];
    assert events[1..][1..][1..] == [Evaluate(a.cooldownSecs)];
    FlapActions(a, load, w, one, two, three, events);
    assert Flapping(a, load, w, events);
  }

  lemma FirstGoesUp(a: Thresholds, load: real, w: World, n: nat)
    requires a.enabled && n >= 1 && WantsUp(a, n, load) && w == World(Scaler(Busies(n), None, NoSpawn), 0)
    ensures Evaluated(a, w.scaler, 0, Steadily(load)) == (Scaler(Busies(n), Some(0), Starting), Up)
  {
    assert Steady(a, w.scaler.instances);
    SteadyIsSwept(a, w.scaler.instances);
  }

  lemma ThenGoesDown(a: Thresholds, load: real, w: World, n: nat)
    requires a.enabled && n >= 1 && a.maxInstances == n + 1 && WantsDown(a, n + 1, load)
    requires w.scaler.instances == Busies(n) + [Inst(Ready, 0, 0)] && w.scaler.lastAction == Some(0) && w.clock == 0
    ensures ActionOf(a, load, w, Evaluate(a.cooldownSecs)) == Down
  {
    var xs := w.scaler.instances;
    assert Steady(a, xs);
    SteadyIsSwept(a, xs);
    FirstIdleRemoved(xs, n);
    assert |xs| == n + 1 && |LessOneIdle(xs)| == n;
  }

  lemma FlapActions(a: Thresholds, load: real, w: World, one: World, two: World, three: World, events: seq<Event>)
    requires |events| == 4 && Allowed(a, w, events[0]) && one == After(a, load, w, events[0])
    requires ActionOf(a, load, w, events[0]) == Up
    requires Allowed(a, one, events[1]) && two == After(a, load, one, events[1])
    requires Allowed(a, two, events[2]) && three == After(a, load, two, events[2])
    requires Allowed(a, three, events[3]) && ActionOf(a, load, three, events[3]) == Down
    ensures Runs(a, load, w, events) && Up in Actions(a, load, w, events) && Down in Actions(a, load, w, events)
  {
    var rest := events[1..];
    var last := rest[1..][1..];
    assert last[0] == events[3] && last[1..] == [];
    assert Actions(a, load, three, last)[0] == Down;
    assert Runs(a, load, three, last);
    assert Actions(a, load, two, rest[1..]) == [ActionOf(a, load, two, events[2])] + Actions(a, load, three, last);
    assert Runs(a, load, two, rest[1..]);
    assert Actions(a, load, one, rest) == [ActionOf(a, load, one, events[1])] + Actions(a, load, two, rest[1..]);
    assert Runs(a, load, one, rest);
    assert Actions(a, load, w, events) == [Up] + Actions(a, load, one, rest);
  }

  lemma Flaps(a: Thresholds)
    requires a.enabled && a.maxConcurrent >= 1 && a.maxInstances >= 2 && a.scaleDownAt > a.scaleUpAt
    requires a.scaleDownAt > 0.0
    ensures CanFlap(a)
  {
    var low := if a.scaleUpAt > 0.0 then a.scaleUpAt else 0.0;
    var middle := (low + a.scaleDownAt) / 2.0;
    var n: nat := a.maxInstances - 1;
    AtLeastOne(a.maxConcurrent, n);
    var k := (a.maxConcurrent * n) as real;
    StrictlyScales(a.scaleUpAt, middle, k);
    StrictlyScales(middle, a.scaleDownAt, k);
    StrictlyScales(0.0, middle, k);
    FlapsAt(a, middle * k, n);
  }

  /** The exact condition, which the configuration check does not impose: some
      run at one constant load goes up and down if and only if autoscaling is
      on, the scale-down threshold is positive and above the scale-up one, and
      the model may have more than one instance. */
  lemma FlapsExactly(a: Thresholds)
    requires a.maxConcurrent >= 1
    ensures CanFlap(a) <==> a.enabled && a.scaleDownAt > a.scaleUpAt && a.scaleDownAt > 0.0 && a.maxInstances >= 2
  {
    if a.enabled && a.scaleDownAt > a.scaleUpAt && a.scaleDownAt > 0.0 && a.maxInstances >= 2 {
      Flaps(a);
    } else {
      forall load: real, w: World, events: seq<Event> ensures !Flapping(a, load, w, events) {
        if load >= 0.0 && Start(a, w) && Runs(a, load, w, events) {
          if a.scaleDownAt <= a.scaleUpAt {
            NoFlapping(a, load, w, events);
          } else {
            OneWayOnly(a, load, w, events);
          }
        }
      }
    }
  }

  // ── Settling ────────────────────────────────────────────────────────────

  /** How often the autoscaler scaled. */
  function Scalings(actions: seq<Action>): nat {
    if actions == [] then 0 else (if actions[0] == Up || actions[0] == Down then 1 else 0) + Scalings(actions[1..])
  }

  lemma ScalingsCons(x: Action, rest: seq<Action>)
    ensures Scalings([x] + rest) == (if x == Up || x == Down then 1 else 0) + Scalings(rest)
  {
    assert ([x] + rest)[1..] == rest;
  }

  lemma {:induction false} UpsBounded(a: Thresholds, load: real, w: World, events: seq<Event>)
    requires a.enabled && Steady(a, w.scaler.instances) && Runs(a, load, w, events) && SpawnFailed !in events
    requires Down !in Actions(a, load, w, events) && Despawn !in Actions(a, load, w, events)
    requires Total(w) <= a.maxInstances
    ensures Scalings(Actions(a, load, w, events)) <= a.maxInstances - Total(w)
    decreases |events|
  {
    if events != [] {
      var e := events[0];
      assert e in events;
      StaysSteady(a, load, w, e);
      if e.Evaluate? {
        EvaluationIs(a, load, w, e);
      }
      var rest := Actions(a, load, After(a, load, w, e), events[1..]);
      ScalingsCons(ActionOf(a, load, w, e), rest);
      assert forall x :: x in rest ==> x in Actions(a, load, w, events);
      assert forall x :: x in events[1..] ==> x in events;
      assert ActionOf(a, load, w, e) in Actions(a, load, w, events);
      UpsBounded(a, load, After(a, load, w, e), events[1..]);
    }
  }

  lemma {:induction false} DownsBounded(a: Thresholds, load: real, w: World, events: seq<Event>)
    requires a.enabled && Steady(a, w.scaler.instances) && Runs(a, load, w, events) && w.scaler.spawn == NoSpawn
    requires Up !in Actions(a, load, w, events)
    ensures Scalings(Actions(a, load, w, events)) <= Max(0, |w.scaler.instances| - 1)
    decreases |events|
  {
    if events != [] {
      var e := events[0];
      StaysSteady(a, load, w, e);
      if e.Evaluate? {
        EvaluationIs(a, load, w, e);
      }
      var rest := Actions(a, load, After(a, load, w, e), events[1..]);
      ScalingsCons(ActionOf(a, load, w, e), rest);
      assert forall x :: x in rest ==> x in Actions(a, load, w, events);
      assert ActionOf(a, load, w, e) in Actions(a, load, w, events);
      DownsBounded(a, load, After(a, load, w, e), events[1..]);
    }
  }

  /** With the thresholds in order the autoscaler settles at any constant load:
      as long as spawns succeed and the last instance is not despawned, it
      scales fewer than `max_instances` times in all, however long the run. */
  lemma Settles(a: Thresholds, load: real, w: World, events: seq<Event>)
    requires a.scaleDownAt <= a.scaleUpAt && load >= 0.0
    requires Start(a, w) && 1 <= |w.scaler.instances| <= a.maxInstances && Runs(a, load, w, events)
    requires SpawnFailed !in events && Despawn !in Actions(a, load, w, events)
    ensures Scalings(Actions(a, load, w, events)) < a.maxInstances
  {
    NoFlapping(a, load, w, events);
    if !a.enabled {
      OneWayOnly(a, load, w, events);
      NoScalings(Actions(a, load, w, events));
    } else if Down in Actions(a, load, w, events) {
      DownsBounded(a, load, w, events);
    } else {
      UpsBounded(a, load, w, events);
    }
  }

  lemma {:induction false} NoScalings(actions: seq<Action>)
    requires Up !in actions && Down !in actions
    ensures Scalings(actions) == 0
  {
    if actions != [] {
      assert actions[0] in actions;
      assert forall x :: x in actions[1..] ==> x in actions;
      NoScalings(actions[1..]);
    }
  }

  // ── The evaluation loop ─────────────────────────────────────────────────

  class ModelScaler {
    const a: Thresholds
    var instances: seq<Inst>
    var lastScaleAction: Option<nat>
    var spawn: Spawn

    function View(): Scaler
      reads this
    {
      Scaler(instances, lastScaleAction, spawn)
    }

    constructor (a: Thresholds)
      ensures this.a == a && View() == Scaler([], None, NoSpawn)
    {
      this.a := a;
      instances, lastScaleAction, spawn := [], None, NoSpawn;
    }

    /** The two reapers: drained instances that are idle, and those stranded in `Loading`. */
    method Sweep()
      modifies this`instances
      ensures instances == Swept(a, old(instances))
    {
      var kept := [];
      for k := 0 to |instances|
        invariant instances == old(instances) && kept == Swept(a, instances[..k])
      {
        KeepPrefix(instances, k, Stays(a));
        var x := instances[k];
        if !(x.state == Failed && x.inFlight == 0) && !(x.state == Loading && x.idleFor > 2 * a.spawnTimeout) {
          kept := kept + [x];
        }
      }
      assert instances[..|instances|] == instances;
      instances := kept;
    }

    /** Removes the first instance that is idle; busy ones refuse. */
    method RemoveOneIdle() returns (removed: bool)
      modifies this`instances
      ensures instances == LessOneIdle(old(instances)) && removed == (instances != old(instances))
    {
      for k := 0 to |instances|
        invariant instances == old(instances)
        invariant forall j :: 0 <= j < k ==> Busy(instances[j])
      {
        if instances[k].inFlight == 0 {
          FirstIdleRemoved(instances, k);
          instances := instances[..k] + instances[k + 1..];
          return true;
        }
      }
      AllBusyKept(instances);
      removed := false;
    }

    /** Evicts expired instances as long as more than one is left. */
    method EvictSurplus()
      modifies this`instances
      ensures instances == LessSurplus(a, old(instances), |old(instances)|)
    {
      var n: nat := |instances|;
      var kept := [];
      var list := instances;
      for k := 0 to |list|
        invariant kept + LessSurplus(a, list[k..], n) == LessSurplus(a, list, |list|)
      {
        assert list[k..][1..] == list[k + 1..];
        if n > 1 && Expired(a, list[k]) {
          n := n - 1;
        } else {
          kept := kept + [list[k]];
        }
      }
      instances := kept;
    }

    method Evaluate(now: nat, loads: Option<Loads>) returns (action: Action)
      modifies this
      ensures (View(), action) == Evaluated(a, old(View()), now, loads)
    {
      Sweep();
      var num := |instances|;
      if num == 0 {
        return Stay;
      }
      if loads.None? {
        return Stay;
      }
      if num == 1 && Expired(a, instances[0]) {
        instances := [];
        return Despawn;
      }
      if !a.enabled {
        LessSurplusKeeps(a, instances, num);
        EvictSurplus();
        return Evict(num - |instances|);
      }
      if Cooling(a, lastScaleAction, now) {
        return Stay;
      }
      if WantsUp(a, num, loads.value.m5) {
        if spawn != NoSpawn {
          return Stay;
        }
        spawn := Starting;
        lastScaleAction := Some(now);
        return Up;
      }
      if WantsDown(a, num, loads.value.m15) {
        var removed := RemoveOneIdle();
        if removed {
          lastScaleAction := Some(now);
          return Down;
        }
      }
      action := Stay;
    }
  }
}
