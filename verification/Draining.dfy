/** When "no plan" can be believed although busy duplicates may be drained:
    exactly what makes the greedy search exhaustive. */
module Draining {
  import opened Base
  import opened Sums
  import opened Types
  import opened Placement
  import opened MakeRoom

  // ── Allowed evictions ───────────────────────────────────────────────────

  /** An idle instance past its protection. */
  predicate Evictable(env: Env, now: nat, s: Snap) { Live(s, {}) && Idle(env, now, s) }

  /** A busy instance of another model. */
  predicate Drainable(requesting: ModelName, s: Snap) { Live(s, {}) && s.at.model != requesting && s.inFlight > 0 }

  /** Every model with a drained member keeps an instance that is not taken. */
  ghost predicate KeepsOne(snaps: seq<Snap>, gone: set<InstId>, s: Snap) {
    exists t :: t in snaps && t.at.model == s.at.model && Live(t, gone)
  }

  /** What the rules of draining let an eviction take, in whatever order: idle
      instances, and busy ones of other models as long as one of each stays. */
  ghost predicate Allowed(env: Env, snaps: seq<Snap>, now: nat, requesting: ModelName, gone: set<InstId>) {
    && gone <= AllIds(snaps)
    && forall s :: s in snaps && s.at.id in gone ==>
         Evictable(env, now, s) || (Drainable(requesting, s) && KeepsOne(snaps, gone, s))
  }

  ghost predicate Monotone(feasible: set<InstId> -> bool) {
    forall x, y :: x <= y && feasible(x) ==> feasible(y)
  }

  /** The search with draining, for any monotone test of what suffices. */
  function Search(env: Env, snaps: seq<Snap>, now: nat, requesting: ModelName, feasible: set<InstId> -> bool)
    : Option<seq<Victim>>
  {
    NextIsFresh(env, snaps, now, requesting, DrainSurplus);
    Greedy(feasible, NextWith(env, snaps, now, requesting, DrainSurplus), AllIds(snaps), {})
  }

  /** Where the search gives up, no allowed eviction would have sufficed. */
  ghost predicate NoneIsRight(env: Env, snaps: seq<Snap>, now: nat, requesting: ModelName,
          feasible: set<InstId> -> bool) {
    Monotone(feasible) && Search(env, snaps, now, requesting, feasible).None? ==>
      forall gone :: Allowed(env, snaps, now, requesting, gone) ==> !feasible(gone)
  }

  // ── What makes the search exhaustive ────────────────────────────────────

  /** Live, and never a victim: loading, or idle and still protected. */
  predicate Untakeable(env: Env, now: nat, s: Snap) {
    s.state == Loading || (s.state == Ready && s.inFlight == 0 && !Idle(env, now, s))
  }

  /** The model of `busy` has an instance the search can never take, or no
      other live one at all. */
  ghost predicate Settled(env: Env, snaps: seq<Snap>, now: nat, busy: Snap) {
    || (exists s :: s in snaps && s.at.model == busy.at.model && Untakeable(env, now, s))
    || LiveCount(snaps, busy.at.model, {}) == 1
  }

  ghost predicate Exhaustive(env: Env, snaps: seq<Snap>, now: nat, requesting: ModelName) {
    forall busy :: busy in snaps && Drainable(requesting, busy) ==> Settled(env, snaps, now, busy)
  }

  /** The search at its end. */
  ghost predicate Ended(env: Env, snaps: seq<Snap>, now: nat, requesting: ModelName, plan: seq<Victim>) {
    && Chosen(NextWith(env, snaps, now, requesting, DrainSurplus), {}, plan)
    && NextVictim(env, snaps, now, requesting, DrainSurplus, Ids(plan)).None?
  }

  // ── If it is, "none" is right ───────────────────────────────────────────

  lemma UntakeableStays(env: Env, snaps: seq<Snap>, now: nat, requesting: ModelName, plan: seq<Victim>, s: Snap)
    requires ProperSnaps(snaps) && Ended(env, snaps, now, requesting, plan)
    requires s in snaps && Untakeable(env, now, s)
    ensures Live(s, Ids(plan))
  {
    if s.at.id in Ids(plan) {
      var k := PlannedIsVictim(env, snaps, now, requesting, DrainSurplus, plan, s);
      VictimIs(env, snaps, now, requesting, DrainSurplus, plan, k);
      assert false;
    }
  }

  lemma EvictableTaken(env: Env, snaps: seq<Snap>, now: nat, requesting: ModelName, plan: seq<Victim>, s: Snap)
    requires Ended(env, snaps, now, requesting, plan) && s in snaps && Evictable(env, now, s)
    ensures s.at.id in Ids(plan)
  {
    NextVictimFacts(env, snaps, now, requesting, DrainSurplus, Ids(plan));
    assert !IdleVictims(env, now, Ids(plan))(s);
  }

  /** A busy instance is left at the end only as the last one of its model. */
  lemma DrainableTaken(env: Env, snaps: seq<Snap>, now: nat, requesting: ModelName, plan: seq<Victim>, s: Snap, t: Snap)
    requires ProperSnaps(snaps) && Ended(env, snaps, now, requesting, plan)
    requires s in snaps && Drainable(requesting, s)
    requires t in snaps && t.at.model == s.at.model && t.at.id != s.at.id && Live(t, Ids(plan))
    ensures s.at.id in Ids(plan)
  {
    var gone := Ids(plan);
    if s.at.id !in gone {
      UniqueCount(snaps, s.at.model, gone, s);
      SumMember(snaps, t, LiveOf(s.at.model, gone + {s.at.id}));
      EmptyKeep(snaps, BusySurplus(snaps, requesting, gone));
      assert false;
    }
  }

  /** The only live instance of a model is in no allowed eviction that would drain it. */
  lemma LastNotAllowed(env: Env, snaps: seq<Snap>, now: nat, requesting: ModelName, gone: set<InstId>, s: Snap)
    requires ProperSnaps(snaps) && s in snaps && s.at.id in gone && Live(s, {})
    requires LiveCount(snaps, s.at.model, {}) == 1
    ensures !KeepsOne(snaps, gone, s)
  {
    if t :| t in snaps && t.at.model == s.at.model && Live(t, gone) {
      UniqueCount(snaps, s.at.model, {}, s);
      assert {} + {s.at.id} == {s.at.id};
      SumMember(snaps, t, LiveOf(s.at.model, {s.at.id}));
    }
  }

  lemma AllowedTaken(env: Env, snaps: seq<Snap>, now: nat, requesting: ModelName, plan: seq<Victim>, gone: set<InstId>)
    requires ProperSnaps(snaps) && Ended(env, snaps, now, requesting, plan)
    requires Exhaustive(env, snaps, now, requesting) && Allowed(env, snaps, now, requesting, gone)
    ensures gone <= Ids(plan)
  {
    forall id | id in gone ensures id in Ids(plan) {
      var s :| s in snaps && s.at.id == id;
      if Evictable(env, now, s) {
        EvictableTaken(env, snaps, now, requesting, plan, s);
      } else {
        assert Settled(env, snaps, now, s);
        if LiveCount(snaps, s.at.model, {}) == 1 {
          LastNotAllowed(env, snaps, now, requesting, gone, s);
        } else {
          var t :| t in snaps && t.at.model == s.at.model && Untakeable(env, now, t);
          UntakeableStays(env, snaps, now, requesting, plan, t);
          DrainableTaken(env, snaps, now, requesting, plan, s, t);
        }
      }
    }
  }

  lemma ExhaustiveIsRight(env: Env, snaps: seq<Snap>, now: nat, requesting: ModelName, feasible: set<InstId> -> bool)
    requires ProperSnaps(snaps) && Exhaustive(env, snaps, now, requesting)
    ensures NoneIsRight(env, snaps, now, requesting, feasible)
  {
    if Monotone(feasible) && Search(env, snaps, now, requesting, feasible).None? {
      NextIsFresh(env, snaps, now, requesting, DrainSurplus);
      var plan := GreedyStuck(feasible, NextWith(env, snaps, now, requesting, DrainSurplus), AllIds(snaps), {});
      IdsNone(plan, {});
      forall gone | Allowed(env, snaps, now, requesting, gone) ensures !feasible(gone) {
        AllowedTaken(env, snaps, now, requesting, plan, gone);
      }
    }
  }

  // ── If it is not, some test is passed over ──────────────────────────────

  /** A test that only the victims left out would pass is never passed. */
  lemma {:induction false} GreedyFollows(feasible: set<InstId> -> bool, next: set<InstId> -> Option<Victim>,
          all: set<InstId>, excluding: set<InstId>, plan: seq<Victim>)
    requires Fresh(next, all) && Chosen(next, excluding, plan) && Monotone(feasible)
    requires !feasible(excluding + Ids(plan)) && next(excluding + Ids(plan)).None?
    ensures Greedy(feasible, next, all, excluding).None?
    decreases |plan|
  {
    IdsNone(plan, excluding);
    assert excluding <= excluding + Ids(plan);
    if plan != [] {
      var v := plan[0];
      var more := excluding + {v.snap.at.id};
      assert ChosenAt(next, excluding, plan, 0);
      assert plan == [v] + plan[1..];
      IdsCons(v, plan[1..], excluding);
      forall k | 0 <= k < |plan| - 1 ensures ChosenAt(next, more, plan[1..], k) {
        assert ChosenAt(next, excluding, plan, k + 1);
        assert plan[..k + 1] == [v] + plan[1..][..k];
        IdsCons(v, plan[1..][..k], excluding);
      }
      FewerLeft(all, excluding, v.snap.at.id);
      GreedyFollows(feasible, next, all, more, plan[1..]);
    }
  }

  lemma SearchEnds(env: Env, snaps: seq<Snap>, now: nat, requesting: ModelName) returns (plan: seq<Victim>)
    ensures Ended(env, snaps, now, requesting, plan)
  {
    var next := NextWith(env, snaps, now, requesting, DrainSurplus);
    NextIsFresh(env, snaps, now, requesting, DrainSurplus);
    GreedyNever(next, AllIds(snaps), {});
    plan := GreedyStuck((x: set<InstId>) => false, next, AllIds(snaps), {});
    IdsNone(plan, {});
  }

  /** Of a model in which everything live can be taken, the search leaves a
      busy instance. */
  lemma BusyLeft(env: Env, snaps: seq<Snap>, now: nat, requesting: ModelName, plan: seq<Victim>, busy: Snap)
    returns (left: Snap)
    requires ProperSnaps(snaps) && Ended(env, snaps, now, requesting, plan)
    requires busy in snaps && Drainable(requesting, busy)
    requires forall s :: s in snaps && s.at.model == busy.at.model ==> !Untakeable(env, now, s)
    ensures left in snaps && left.at.model == busy.at.model && Drainable(requesting, left) && left.at.id !in Ids(plan)
  {
    left := busy;
    if busy.at.id in Ids(plan) {
      var k := PlannedIsVictim(env, snaps, now, requesting, DrainSurplus, plan, busy);
      VictimIs(env, snaps, now, requesting, DrainSurplus, plan, k);
      ModelSurvives(env, snaps, now, requesting, DrainSurplus, plan, k);
      left :| left in snaps && left.at.model == busy.at.model && left.state != Failed && left.at.id !in Ids(plan);
      if Evictable(env, now, left) {
        EvictableTaken(env, snaps, now, requesting, plan, left);
      }
      assert !Untakeable(env, now, left);
    }
  }

  /** Taking one instance alone leaves its model another one. */
  lemma AloneIsAllowed(env: Env, snaps: seq<Snap>, now: nat, requesting: ModelName, s: Snap)
    requires ProperSnaps(snaps) && s in snaps && Drainable(requesting, s) && LiveCount(snaps, s.at.model, {}) >= 2
    ensures Allowed(env, snaps, now, requesting, {s.at.id})
  {
    UniqueCount(snaps, s.at.model, {}, s);
    assert {} + {s.at.id} == {s.at.id};
    SumWitness(snaps, LiveOf(s.at.model, {s.at.id}));
    assert KeepsOne(snaps, {s.at.id}, s);
    forall t | t in snaps && t.at.id == s.at.id ensures t == s {
      SameId(snaps, s, t);
    }
  }

  lemma PassedOver(env: Env, snaps: seq<Snap>, now: nat, requesting: ModelName, busy: Snap)
    returns (feasible: set<InstId> -> bool)
    requires ProperSnaps(snaps) && busy in snaps && Drainable(requesting, busy) && !Settled(env, snaps, now, busy)
    ensures !NoneIsRight(env, snaps, now, requesting, feasible)
  {
    var plan := SearchEnds(env, snaps, now, requesting);
    var left := BusyLeft(env, snaps, now, requesting, plan, busy);
    SumMember(snaps, busy, LiveOf(busy.at.model, {}));
    AloneIsAllowed(env, snaps, now, requesting, left);
    feasible := (x: set<InstId>) => left.at.id in x;
    NextIsFresh(env, snaps, now, requesting, DrainSurplus);
    IdsNone(plan, {});
    GreedyFollows(feasible, NextWith(env, snaps, now, requesting, DrainSurplus), AllIds(snaps), {}, plan);
    assert feasible({left.at.id});
  }

  /** "None means no allowed eviction gets there", with draining: right for
      every test of what suffices if and only if each other model with a busy
      instance has one the search can never take, or has that one only. */
  lemma DrainNoneExactly(env: Env, snaps: seq<Snap>, now: nat, requesting: ModelName)
    requires ProperSnaps(snaps)
    ensures (forall feasible :: NoneIsRight(env, snaps, now, requesting, feasible))
            <==> Exhaustive(env, snaps, now, requesting)
  {
    if Exhaustive(env, snaps, now, requesting) {
      forall feasible ensures NoneIsRight(env, snaps, now, requesting, feasible) {
        ExhaustiveIsRight(env, snaps, now, requesting, feasible);
      }
    } else {
      var busy :| busy in snaps && Drainable(requesting, busy) && !Settled(env, snaps, now, busy);
      var feasible := PassedOver(env, snaps, now, requesting, busy);
    }
  }

  /** So with the real dry run: on an exhaustive registry, no plan means that no
      allowed eviction whatever lets the model spawn. */
  lemma DrainComplete(env: Env, snaps: seq<Snap>, now: nat, cfg: ModelConfig)
    requires cfg.gpus >= 1 && ProperSnaps(snaps) && Exhaustive(env, snaps, now, cfg.name)
    requires Plan(env, snaps, now, cfg, DrainSurplus).None?
    ensures forall gone :: Allowed(env, snaps, now, cfg.name, gone) ==> !SpawnFeasible(env, snaps, gone, cfg)
  {
    var feasible := FeasibleWith(env, snaps, cfg);
    forall x, y | x <= y && feasible(x) ensures feasible(y) {
      FeasibleMonotone(env, snaps, x, y, cfg);
    }
    ExhaustiveIsRight(env, snaps, now, cfg.name, feasible);
    forall gone | Allowed(env, snaps, now, cfg.name, gone) ensures !SpawnFeasible(env, snaps, gone, cfg) {
      assert !feasible(gone);
    }
  }

  // ── A registry on which "none" is wrong ─────────────────────────────────

  /** The search takes the idle instance, which leaves the busy one the last. */
  lemma IdleTakenFirst(idle: Snap, busy: Snap)
    requires idle == Snap(Placed(0, "a", [0]), Ready, 0, 0)
    requires busy == Snap(Placed(1, "a", [1]), Ready, 1, 0)
    ensures NextVictim(TwoGpus([1]), [idle, busy], 0, "b", DrainSurplus, {}) == Some(Victim(idle, false))
    ensures NextVictim(TwoGpus([1]), [idle, busy], 0, "b", DrainSurplus, {0}) == None
  {
    var env := TwoGpus([1]);
    var snaps := [idle, busy];
    assert "a" != "b" by { assert "a"[0] != "b"[0]; }
    SumTwo(idle, busy, LiveOf("a", {}));
    SumTwo(idle, busy, LiveOf("a", {0}));
    KeepTwo(idle, busy, IdleSurplus(env, snaps, 0, {}));
    KeepTwo(idle, busy, IdleSurplus(env, snaps, 0, {0}));
    KeepTwo(idle, busy, IdleVictims(env, 0, {0}));
    KeepTwo(idle, busy, BusySurplus(snaps, "b", {0}));
    assert [idle][1..] == [];
  }

  lemma BusyAlone(idle: Snap, busy: Snap)
    requires idle == Snap(Placed(0, "a", [0]), Ready, 0, 0)
    requires busy == Snap(Placed(1, "a", [1]), Ready, 1, 0)
    ensures Allowed(TwoGpus([1]), [idle, busy], 0, "b", {1})
  {
    assert "a" != "b" by { assert "a"[0] != "b"[0]; }
    SumTwo(idle, busy, LiveOf("a", {}));
    assert busy in [idle, busy];
    AloneIsAllowed(TwoGpus([1]), [idle, busy], 0, "b", busy);
  }

  /** An idle and a busy instance of one model: no plan is returned, although
      draining the busy one alone is allowed and would have been enough. */
  lemma IdleTakesTheSpare(idle: Snap, busy: Snap)
    requires idle == Snap(Placed(0, "a", [0]), Ready, 0, 0)
    requires busy == Snap(Placed(1, "a", [1]), Ready, 1, 0)
    ensures var env := TwoGpus([1]);
            && Plan(env, [idle, busy], 0, env.configs["b"], DrainSurplus).None?
            && Allowed(env, [idle, busy], 0, "b", {1})
            && SpawnFeasible(env, [idle, busy], {1}, env.configs["b"])
  {
    var env := TwoGpus([1]);
    var snaps := [idle, busy];
    var feasible, next := FeasibleWith(env, snaps, env.configs["b"]), NextWith(env, snaps, 0, "b", DrainSurplus);
    TwoGpusFeasible(env, idle, busy, 1, {});
    TwoGpusFeasible(env, idle, busy, 1, {0});
    TwoGpusFeasible(env, idle, busy, 1, {1});
    IdleTakenFirst(idle, busy);
    NextIsFresh(env, snaps, 0, "b", DrainSurplus);
    assert {} + {0} == {0};
    assert Greedy(feasible, next, AllIds(snaps), {0}) == None;
    BusyAlone(idle, busy);
  }
}
