/** The planner and the state machine meet: the snapshot the planner works on,
    taken in a reachable state, and what a plan means for the spawn steps. */
module Eviction {
  import opened Base
  import opened Sums
  import opened Types
  import opened Placement
  import opened MakeRoom
  import opened Machine
  import opened Books
  import opened Slots

  function SnapOf(f: Fleet, used: map<InstId, nat>, i: InstId): Snap {
    if i in f.life then Snap(At(f.info, i), f.life[i].state, f.life[i].inFlight, Count(used, i))
    else Snap(At(f.info, i), Failed, 0, 0)
  }

  /** The registry as the planner reads it; `used` gives the last activity times. */
  function Snaps(f: Fleet, used: map<InstId, nat>, list: seq<InstId>): (r: seq<Snap>)
    ensures |r| == |list| && forall k :: 0 <= k < |list| ==> r[k] == SnapOf(f, used, list[k])
  {
    if list == [] then [] else [SnapOf(f, used, list[0])] + Snaps(f, used, list[1..])
  }

  lemma {:induction false} SnapsPlaces(f: Fleet, used: map<InstId, nat>, list: seq<InstId>)
    ensures Places(Snaps(f, used, list)) == Layout(f.info, list)
  {
    if list != [] {
      SnapsPlaces(f, used, list[1..]);
      assert Snaps(f, used, list)[1..] == Snaps(f, used, list[1..]);
    }
  }

  function Outside(gone: set<InstId>): InstId -> bool { (i: InstId) => i !in gone }

  lemma {:induction false} SnapsLive(f: Fleet, used: map<InstId, nat>, list: seq<InstId>, m: ModelName,
          ids: set<InstId>)
    requires forall i :: i in list ==> i in f.info && i in f.life
    ensures LiveCount(Snaps(f, used, list), m, ids) == Sum(Keep(list, Outside(ids)), ActiveOf(f, m))
  {
    if list != [] {
      assert list[0] in list;
      SnapsLive(f, used, list[1..], m, ids);
      assert Snaps(f, used, list)[1..] == Snaps(f, used, list[1..]);
      if list[0] !in ids {
        assert Keep(list, Outside(ids))[1..] == Keep(list[1..], Outside(ids));
      }
    }
  }

  lemma {:induction false} LayoutOutside(info: map<InstId, Info>, list: seq<InstId>, ids: set<InstId>)
    ensures Layout(info, Keep(list, Outside(ids))) == Without(Layout(info, list), ids)
  {
    if list != [] {
      LayoutOutside(info, list[1..], ids);
      assert Layout(info, list)[1..] == Layout(info, list[1..]);
      if list[0] !in ids {
        assert Keep(list, Outside(ids))[1..] == Keep(list[1..], Outside(ids));
      }
    }
  }

  /** What every run keeps is what the planner's results ask of its input:
      distinct ids, and no slot in use on a loading instance. */
  lemma SnapsAreProper(env: Env, s: State, used: map<InstId, nat>)
    requires RegistryOk(s.fleet) && LimitsOk(env, s.fleet)
    ensures ProperSnaps(Snaps(s.fleet, used, s.fleet.registry))
  {
    var snaps := Snaps(s.fleet, used, s.fleet.registry);
    assert UniqueIds(snaps);
    forall k | 0 <= k < |snaps| && snaps[k].state == Loading ensures snaps[k].inFlight == 0 {
    }
  }

  /** The dry run asks exactly what the cap check and the device selection of
      the spawn task will find. */
  lemma DryRunIsSpawn(env: Env, s: State, used: map<InstId, nat>, m: ModelName)
    requires env.Valid() && RegistryOk(s.fleet) && m in env.configs
    ensures SpawnFeasible(env, Snaps(s.fleet, used, s.fleet.registry), {}, env.configs[m])
            <==> CapPasses(env, s, m) && DevicesPass(env, s, m)
  {
    SnapsLive(s.fleet, used, s.fleet.registry, m, {});
    KeepAll(s.fleet.registry, Outside({}));
    SnapsPlaces(s.fleet, used, s.fleet.registry);
  }

  /** The spawn task of `m`, at the cap check, goes on. */
  ghost predicate CapPasses(env: Env, s: State, m: ModelName)
    requires m in env.configs
  {
    var t := s.(spawns := s.spawns[m := Permitted]);
    m in SpawnNext(env, t, m, CheckCap).spawns
  }

  /** The spawn task of `m`, holding a port, is given its devices. */
  ghost predicate DevicesPass(env: Env, s: State, m: ModelName)
    requires m in env.configs
  {
    var t := s.(spawns := s.spawns[m := HasPort(0)]);
    m in SpawnNext(env, t, m, SelectDevices).spawns
  }

  // ── Making room ─────────────────────────────────────────────────────────

  /** While room is made, instances are removed among `ids` only and no spawn
      moves; requests, wake-ups, reap filters and cleanups go on as they like. */
  predicate RoomStep(step: Step, ids: set<InstId>) {
    !step.Spawning? && (step.Removing? ==> step.inst in ids)
  }

  predicate RoomRun(steps: seq<Step>, ids: set<InstId>) {
    forall k :: 0 <= k < |steps| ==> RoomStep(steps[k], ids)
  }

  /** From `s` to `t` exactly the instances in `gone` have left, and those
      outside `ids` stand as they did. */
  ghost predicate Thinned(s: State, t: State, gone: set<InstId>, ids: set<InstId>) {
    && gone <= ids && t.fleet.info == s.fleet.info && t.fleet.life.Keys == s.fleet.life.Keys
    && t.fleet.registry == Keep(s.fleet.registry, Outside(gone))
    && forall i :: i in s.fleet.life && i !in ids ==> t.fleet.life[i].state == s.fleet.life[i].state
  }

  lemma ThinnedMore(s: State, t: State, gone: set<InstId>, ids: set<InstId>, i: InstId, act: RemoveStep)
    returns (more: set<InstId>)
    requires Thinned(s, t, gone, ids) && i in ids && RemoveEnabled(t, i, act)
    ensures Thinned(s, RemoveNext(t, i, act), more, ids)
  {
    more := gone;
    if act.Unregister? {
      if i in t.fleet.registry {
        more := gone + {i};
        KeepKeep(s.fleet.registry, Outside(gone), Other(i), Outside(more));
      }
    } else {
      RemoveIsSetLife(t, i, act);
    }
  }

  lemma {:induction false} RoomThins(env: Env, s: State, t: State, gone: set<InstId>, ids: set<InstId>,
          steps: seq<Step>)
    returns (left: set<InstId>)
    requires BooksOk(t) && Thinned(s, t, gone, ids) && ValidRun(env, t, steps) && RoomRun(steps, ids)
    ensures Thinned(s, Exec(env, t, steps), left, ids)
    decreases |steps|
  {
    left := gone;
    if steps != [] {
      var u := Next(env, t, steps[0]);
      var more := gone;
      assert RoomStep(steps[0], ids);
      if steps[0].Removing? {
        more := ThinnedMore(s, t, gone, ids, steps[0].inst, steps[0].remove);
      } else {
        CalmStanding(env, t, steps[0]);
      }
      BooksStep(env, t, steps[0]);
      assert RoomRun(steps[1..], ids);
      left := RoomThins(env, s, u, more, ids, steps[1..]);
    }
  }

  lemma {:induction false} KeepSame(list: seq<InstId>, p: InstId -> bool, q: InstId -> bool)
    requires forall i :: i in list ==> p(i) == q(i)
    ensures Keep(list, p) == Keep(list, q)
  {
    if list != [] {
      assert list[0] in list;
      KeepSame(list[1..], p, q);
    }
  }

  lemma AllGone(s: State, t: State, gone: set<InstId>, ids: set<InstId>)
    requires Thinned(s, t, gone, ids) && forall i :: i in ids ==> i !in t.fleet.registry
    ensures Thinned(s, t, ids, ids)
  {
    KeepIn(s.fleet.registry, Outside(gone));
    KeepSame(s.fleet.registry, Outside(gone), Outside(ids));
  }

  lemma LiveThinned(s: State, t: State, used: map<InstId, nat>, ids: set<InstId>, m: ModelName)
    requires RegistryOk(s.fleet) && Thinned(s, t, ids, ids)
    ensures LiveCount(Snaps(t.fleet, used, t.fleet.registry), m, {})
         == LiveCount(After(Snaps(s.fleet, used, s.fleet.registry), ids), m, {})
  {
    var snaps := Snaps(s.fleet, used, s.fleet.registry);
    KeepIn(s.fleet.registry, Outside(ids));
    SumKeep(snaps, Survives(ids), LiveOf(m, {}), LiveOf(m, ids));
    SnapsLive(s.fleet, used, s.fleet.registry, m, ids);
    SnapsLive(t.fleet, used, t.fleet.registry, m, {});
    KeepAll(t.fleet.registry, Outside({}));
    ActiveThinned(s, t, ids, m);
  }

  lemma ActiveThinned(s: State, t: State, ids: set<InstId>, m: ModelName)
    requires Thinned(s, t, ids, ids)
    ensures Sum(t.fleet.registry, ActiveOf(t.fleet, m)) == Sum(t.fleet.registry, ActiveOf(s.fleet, m))
  {
    KeepIn(s.fleet.registry, Outside(ids));
    SumSame(t.fleet.registry, ActiveOf(s.fleet, m), ActiveOf(t.fleet, m));
  }

  /** The planner's view of what is left. */
  lemma FeasibleThinned(env: Env, s: State, t: State, used: map<InstId, nat>, ids: set<InstId>, cfg: ModelConfig)
    requires RegistryOk(s.fleet) && Thinned(s, t, ids, ids)
    ensures SpawnFeasible(env, Snaps(t.fleet, used, t.fleet.registry), {}, cfg)
            <==> SpawnFeasible(env, After(Snaps(s.fleet, used, s.fleet.registry), ids), {}, cfg)
  {
    LiveThinned(s, t, used, ids, cfg.name);
    SnapsPlaces(t.fleet, used, t.fleet.registry);
    SnapsPlaces(s.fleet, used, s.fleet.registry);
    PlacesAfter(Snaps(s.fleet, used, s.fleet.registry), ids);
    LayoutOutside(s.fleet.info, s.fleet.registry, ids);
  }

  /** A run that removes all of `ids`, and others not at all, thins by `ids`. */
  lemma RoomThinned(env: Env, s: State, ids: set<InstId>, steps: seq<Step>)
    requires BooksOk(s) && ValidRun(env, s, steps) && RoomRun(steps, ids)
    requires forall i :: i in ids ==> i !in Exec(env, s, steps).fleet.registry
    ensures Thinned(s, Exec(env, s, steps), ids, ids)
  {
    KeepAll(s.fleet.registry, Outside({}));
    var gone := RoomThins(env, s, s, {}, ids, steps);
    AllGone(s, Exec(env, s, steps), gone, ids);
  }

  /** After such a run, the spawn finds what the planner foresaw. */
  lemma RoomMade(env: Env, s: State, used: map<InstId, nat>, m: ModelName, ids: set<InstId>, steps: seq<Step>)
    requires env.Valid() && BooksOk(s) && m in env.configs && ValidRun(env, s, steps) && RoomRun(steps, ids)
    requires forall i :: i in ids ==> i !in Exec(env, s, steps).fleet.registry
    ensures var t := Exec(env, s, steps);
            CapPasses(env, t, m) && DevicesPass(env, t, m)
            <==> SpawnChecksPass(env, After(Snaps(s.fleet, used, s.fleet.registry), ids), env.configs[m])
  {
    var t := Exec(env, s, steps);
    RoomThinned(env, s, ids, steps);
    BooksRun(env, s, steps);
    FeasibleThinned(env, s, t, used, ids, env.configs[m]);
    DryRunIsSpawn(env, t, used, m);
  }

  /** Make-room plans work: after any run that removes the first `k` victims,
      whatever else requests and reapers do meanwhile, the cap check and the
      device selection of the spawn both pass if and only if these are all the
      victims. */
  lemma PlanLetsSpawn(env: Env, s: State, used: map<InstId, nat>, now: nat, m: ModelName, mode: Mode, k: nat,
          steps: seq<Step>)
    requires env.Valid() && BooksOk(s) && m in env.configs && ValidRun(env, s, steps)
    requires var plan := Plan(env, Snaps(s.fleet, used, s.fleet.registry), now, env.configs[m], mode);
             && plan.Some? && k <= |plan.value| && RoomRun(steps, Ids(plan.value[..k]))
             && forall i :: i in Ids(plan.value[..k]) ==> i !in Exec(env, s, steps).fleet.registry
    ensures var plan := Plan(env, Snaps(s.fleet, used, s.fleet.registry), now, env.configs[m], mode).value;
            var t := Exec(env, s, steps);
            CapPasses(env, t, m) && DevicesPass(env, t, m) <==> k == |plan|
  {
    var snaps := Snaps(s.fleet, used, s.fleet.registry);
    var plan := Plan(env, snaps, now, env.configs[m], mode).value;
    RoomMade(env, s, used, m, Ids(plan[..k]), steps);
    PlanSound(env, snaps, now, env.configs[m], mode);
    assert plan[..|plan|] == plan;
  }
}
