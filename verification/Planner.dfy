/** The planning code as the source runs it: loops over the registry, a sort,
    and the greedy loop, each computing the planner's specification. */
module Planner {
  import opened Base
  import opened Sums
  import opened Types
  import opened Placement
  import opened MakeRoom

  /** Stable insertion, least recently active first. */
  function InsertByAge(s: Snap, sorted: seq<Snap>): seq<Snap> {
    if sorted == [] || s.lastActive <= sorted[0].lastActive then [s] + sorted
    else [sorted[0]] + InsertByAge(s, sorted[1..])
  }

  /** The library's stable sort by `last_active`. */
  function SortByAge(xs: seq<Snap>): seq<Snap> {
    if xs == [] then [] else InsertByAge(xs[0], SortByAge(xs[1..]))
  }

  /** The first element of a sorted list that satisfies `p` is the first least
      one of those that do. */
  lemma {:induction false} FirstAfterInsert(s: Snap, sorted: seq<Snap>, p: Snap -> bool)
    ensures LeastBy(Keep(InsertByAge(s, sorted), p), ByLastActive())
         == LeastBy(Keep([s] + sorted, p), ByLastActive())
  {
    if sorted == [] || s.lastActive <= sorted[0].lastActive {
    } else {
      FirstAfterInsert(s, sorted[1..], p);
      var t := sorted[0];
      var r := InsertByAge(s, sorted);
      assert r[1..] == InsertByAge(s, sorted[1..]);
      assert sorted == [t] + sorted[1..];
      KeepCons(t, InsertByAge(s, sorted[1..]), p);
      KeepCons(s, sorted, p);
      KeepCons(t, sorted[1..], p);
      KeepCons(s, sorted[1..], p);
      var rest := Keep(sorted[1..], p);
      if p(t) {
        if p(s) {
          assert Keep([s] + sorted, p) == [s] + ([t] + rest);
        }
      }
    }
  }

  lemma KeepCons(s: Snap, xs: seq<Snap>, p: Snap -> bool)
    ensures Keep([s] + xs, p) == (if p(s) then [s] else []) + Keep(xs, p)
  {
    assert ([s] + xs)[1..] == xs;
  }


  lemma {:induction false} SortKeepsLeast(xs: seq<Snap>, p: Snap -> bool)
    ensures LeastBy(Keep(SortByAge(xs), p), ByLastActive()) == LeastBy(Keep(xs, p), ByLastActive())
  {
    if xs != [] {
      SortKeepsLeast(xs[1..], p);
      FirstAfterInsert(xs[0], SortByAge(xs[1..]), p);
      KeepCons(xs[0], SortByAge(xs[1..]), p);
      KeepCons(xs[0], xs[1..], p);
      assert xs == [xs[0]] + xs[1..];
      if p(xs[0]) {
      }
    }
  }

  ghost predicate SortedByAge(xs: seq<Snap>) {
    forall i, j :: 0 <= i <= j < |xs| ==> xs[i].lastActive <= xs[j].lastActive
  }

  lemma {:induction false} InsertByAgeSorted(s: Snap, xs: seq<Snap>)
    requires SortedByAge(xs)
    ensures SortedByAge(InsertByAge(s, xs))
    ensures forall x :: x in InsertByAge(s, xs) ==> x == s || x in xs
  {
    if xs == [] || s.lastActive <= xs[0].lastActive {
    } else {
      InsertByAgeSorted(s, xs[1..]);
      var tail := InsertByAge(s, xs[1..]);
      forall k | 0 <= k < |tail| ensures xs[0].lastActive <= tail[k].lastActive {
        if tail[k] != s {
          assert tail[k] in xs[1..];
        }
      }
    }
  }

  lemma {:induction false} SortByAgeSorted(xs: seq<Snap>)
    ensures SortedByAge(SortByAge(xs))
  {
    if xs != [] {
      SortByAgeSorted(xs[1..]);
      InsertByAgeSorted(xs[0], SortByAge(xs[1..]));
    }
  }

  lemma {:induction false} FirstIsLeast(sorted: seq<Snap>, p: Snap -> bool, k: nat)
    requires SortedByAge(sorted) && k < |sorted| && p(sorted[k])
    requires forall j :: 0 <= j < k ==> !p(sorted[j])
    ensures LeastBy(Keep(sorted, p), ByLastActive()) == Some(sorted[k])
  {
    assert sorted == [sorted[0]] + sorted[1..];
    KeepCons(sorted[0], sorted[1..], p);
    if k > 0 {
      FirstIsLeast(sorted[1..], p, k - 1);
    } else {
      KeepIn(sorted[1..], p);
    }
  }

  function LivePred(excluding: set<InstId>): Snap -> bool { (s: Snap) => Live(s, excluding) }

  function IdlePred(env: Env, now: nat): Snap -> bool { (s: Snap) => Idle(env, now, s) }

  function CountedTwice(snaps: seq<Snap>, excluding: set<InstId>): Snap -> bool {
    (s: Snap) => LiveCount(snaps, s.at.model, excluding) >= 2
  }

  lemma KeepSnoc(xs: seq<Snap>, i: nat, p: Snap -> bool)
    requires i < |xs|
    ensures Keep(xs[..i + 1], p) == Keep(xs[..i], p) + (if p(xs[i]) then [xs[i]] else [])
  {
    assert xs[..i + 1] == xs[..i] + [xs[i]];
    KeepConcat(xs[..i], [xs[i]], p);
    assert [xs[i]][1..] == [];
  }

  /** Non-retiring, unplanned instances and how many each model has. */
  method CollectLive(snaps: seq<Snap>, excluding: set<InstId>) returns (live: seq<Snap>, counts: map<ModelName, nat>)
    ensures live == Keep(snaps, LivePred(excluding))
    ensures forall m :: Count(counts, m) == LiveCount(snaps, m, excluding)
  {
    live, counts := [], map[];
    for i := 0 to |snaps|
      invariant live == Keep(snaps[..i], LivePred(excluding))
      invariant forall m :: Count(counts, m) == LiveCount(snaps[..i], m, excluding)
    {
      KeepSnoc(snaps, i, LivePred(excluding));
      assert snaps[..i + 1] == snaps[..i] + [snaps[i]];
      forall m
        ensures LiveCount(snaps[..i + 1], m, excluding) == LiveCount(snaps[..i], m, excluding) + LiveOf(m, excluding)(snaps[i])
      {
        SumPush(snaps[..i], snaps[i], LiveOf(m, excluding));
      }
      if snaps[i].state == Failed || snaps[i].at.id in excluding {
        continue;
      }
      live := live + [snaps[i]];
      counts := Bump(counts, snaps[i].at.model, 1);
    }
    assert snaps[..|snaps|] == snaps;
  }

  method CollectIdle(env: Env, live: seq<Snap>, now: nat) returns (idle: seq<Snap>)
    ensures idle == Keep(live, IdlePred(env, now))
  {
    idle := [];
    for i := 0 to |live|
      invariant idle == Keep(live[..i], IdlePred(env, now))
    {
      KeepSnoc(live, i, IdlePred(env, now));
      if Idle(env, now, live[i]) {
        idle := idle + [live[i]];
      }
    }
    assert live[..|live|] == live;
  }

  /** The first least-busy surplus instance of another model. */
  method LeastBusySurplus(snaps: seq<Snap>, excluding: set<InstId>, live: seq<Snap>, counts: map<ModelName, nat>,
          requesting: ModelName)
    returns (best: Option<Snap>)
    requires live == Keep(snaps, LivePred(excluding))
    requires forall m :: Count(counts, m) == LiveCount(snaps, m, excluding)
    ensures best == LeastBy(Keep(snaps, BusySurplus(snaps, requesting, excluding)), ByInFlight())
  {
    var p := BusySurplus(snaps, requesting, excluding);
    best := None;
    var i := |live|;
    while i > 0
      invariant 0 <= i <= |live|
      invariant best == LeastBy(Keep(live[i..], p), ByInFlight())
    {
      i := i - 1;
      var s := live[i];
      assert live[i..] == [s] + live[i + 1..];
      KeepCons(s, live[i + 1..], p);
      KeepIn(snaps, LivePred(excluding));
      assert s in live;
      assert p(s) <==> s.at.model != requesting && s.inFlight > 0 && Count(counts, s.at.model) >= 2;
      if s.at.model != requesting && s.inFlight > 0 && Count(counts, s.at.model) >= 2 {
        assert ([s] + Keep(live[i + 1..], p))[1..] == Keep(live[i + 1..], p);
        best := match best
          case None => Some(s)
          case Some(y) => if s.inFlight <= y.inFlight then Some(s) else Some(y);
      }
    }
    assert live[0..] == live;
    KeepKeep(snaps, LivePred(excluding), p, p);
  }

  /** The victim choice as the source runs it. */
  method NextMakeRoomVictim(env: Env, snaps: seq<Snap>, now: nat, requesting: ModelName, mode: Mode,
          excluding: set<InstId>)
    returns (victim: Option<Victim>)
    ensures victim == NextVictim(env, snaps, now, requesting, mode, excluding)
  {
    var live, counts := CollectLive(snaps, excluding);
    var unsorted := CollectIdle(env, live, now);
    KeepKeep(snaps, LivePred(excluding), IdlePred(env, now), IdleVictims(env, now, excluding));
    var idle := SortByAge(unsorted);
    SortByAgeSorted(unsorted);
    var twice := CountedTwice(snaps, excluding);
    SortKeepsLeast(unsorted, twice);
    KeepKeep(snaps, IdleVictims(env, now, excluding), twice, IdleSurplus(env, snaps, now, excluding));
    for k := 0 to |idle|
      invariant forall j :: 0 <= j < k ==> !twice(idle[j])
    {
      if Count(counts, idle[k].at.model) >= 2 {
        FirstIsLeast(idle, twice, k);
        return Some(Victim(idle[k], false));
      }
    }
    EmptyKeep(idle, twice);
    SortKeepsLeast(unsorted, IdleVictims(env, now, excluding));
    SortByAgeMembers(unsorted);
    KeepIn(snaps, IdleVictims(env, now, excluding));
    KeepAll(unsorted, IdleVictims(env, now, excluding));
    KeepAll(idle, IdleVictims(env, now, excluding));
    if idle != [] {
      FirstIsLeast(idle, IdleVictims(env, now, excluding), 0);
      return Some(Victim(idle[0], false));
    }
    if mode == DrainSurplus {
      var best := LeastBusySurplus(snaps, excluding, live, counts, requesting);
      return match best case Some(s) => Some(Victim(s, true)) case None => None;
    }
    victim := None;
  }

  lemma {:induction false} SortByAgeMembers(xs: seq<Snap>)
    ensures forall x :: x in SortByAge(xs) ==> x in xs
  {
    if xs != [] {
      SortByAgeMembers(xs[1..]);
      SortByAgeSorted(xs[1..]);
      InsertByAgeSorted(xs[0], SortByAge(xs[1..]));
    }
  }

  /** The spawn-feasibility dry run as the source runs it. */
  method CheckFeasible(env: Env, snaps: seq<Snap>, excluding: set<InstId>, cfg: ModelConfig) returns (ok: bool)
    ensures ok == SpawnFeasible(env, snaps, excluding, cfg)
  {
    var active := 0;
    var placed: seq<Placed> := [];
    var i := |snaps|;
    while i > 0
      invariant 0 <= i <= |snaps|
      invariant active == LiveCount(snaps[i..], cfg.name, excluding)
      invariant placed == Places(snaps[i..])
    {
      i := i - 1;
      var s := snaps[i];
      assert snaps[i..][1..] == snaps[i + 1..];
      if s.at.model == cfg.name && s.state != Failed && s.at.id !in excluding {
        active := active + 1;
      }
      placed := [s.at] + placed;
    }
    assert snaps[0..] == snaps;
    if active >= cfg.maxInstances {
      return false;
    }
    if !cfg.HasPool() {
      return true;
    }
    var chosen := SelectGpus(env, placed, excluding, cfg);
    ok := |chosen| >= cfg.gpus;
  }

  function Behind(sofar: seq<Victim>, r: Option<seq<Victim>>): Option<seq<Victim>> {
    match r case None => None case Some(rest) => Some(sofar + rest)
  }

  lemma BehindStep(sofar: seq<Victim>, v: Victim, r: Option<seq<Victim>>)
    ensures Behind(sofar, match r case None => None case Some(rest) => Some([v] + rest)) == Behind(sofar + [v], r)
  {
    if r.Some? {
      assert sofar + ([v] + r.value) == (sofar + [v]) + r.value;
    }
  }

  lemma BehindEnds(sofar: seq<Victim>, r: Option<seq<Victim>>)
    ensures Behind([], r) == r
    ensures Behind(sofar, Some([])) == Some(sofar)
  {
    assert r.Some? ==> [] + r.value == r.value;
    assert sofar + [] == sofar;
  }

  /** The planning loop: add the next victim until the dry run succeeds. */
  method PlanMakeRoom(env: Env, snaps: seq<Snap>, now: nat, cfg: ModelConfig,
          mode: Mode) returns (plan: Option<seq<Victim>>)
    ensures plan == Plan(env, snaps, now, cfg, mode) && (mode == NoRoom ==> plan.None?)
  {
    if mode == NoRoom {
      return None;
    }
    NextIsFresh(env, snaps, now, cfg.name, mode);
    plan := PlanLoop(env, snaps, now, cfg, mode, FeasibleWith(env, snaps, cfg), NextWith(env, snaps, now, cfg.name, mode));
  }

  method PlanLoop(env: Env, snaps: seq<Snap>, now: nat, cfg: ModelConfig, mode: Mode,
                  ghost feasible: set<InstId> -> bool, ghost next: set<InstId> -> Option<Victim>)
    returns (plan: Option<seq<Victim>>)
    requires forall x :: feasible(x) == SpawnFeasible(env, snaps, x, cfg)
    requires forall x :: next(x) == NextVictim(env, snaps, now, cfg.name, mode, x)
    requires Fresh(next, AllIds(snaps))
    ensures plan == Greedy(feasible, next, AllIds(snaps), {})
  {
    ghost var all := AllIds(snaps);
    var excluding: set<InstId> := {};
    var sofar: seq<Victim> := [];
    ghost var result := Greedy(feasible, next, all, {});
    BehindEnds([], result);
    while true
      invariant result == Behind(sofar, Greedy(feasible, next, all, excluding))
      decreases |all - excluding|
    {
      var ok := CheckFeasible(env, snaps, excluding, cfg);
      assert ok == feasible(excluding);
      if ok {
        BehindEnds(sofar, None);
        return Some(sofar);
      }
      var victim := NextMakeRoomVictim(env, snaps, now, cfg.name, mode, excluding);
      assert victim == next(excluding);
      if victim.None? {
        return None;
      }
      var id := victim.value.snap.at.id;
      FewerLeft(all, excluding, id);
      BehindStep(sofar, victim.value, Greedy(feasible, next, all, excluding + {id}));
      excluding := excluding + {id};
      sofar := sofar + [victim.value];
    }
  }
}
