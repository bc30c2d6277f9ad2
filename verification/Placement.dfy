/** Device selection and the spawn-feasibility dry run.

    Registered instances are given as a list; its order stands for the
    unspecified iteration order of the registry's hash map. */
module Placement {
  import opened Base
  import opened Sums
  import opened Types

  // ── Accounting ──────────────────────────────────────────────────────────

  /** How many of the devices `gpus` of a `model` instance lie on `slot`. */
  function Touches(env: Env, model: ModelName, gpus: seq<nat>, slot: Slot): nat {
    Sum(gpus, OnSlot(env, model, slot, 1))
  }

  /** Weight `w` for every device index that translates to `slot`. */
  function OnSlot(env: Env, model: ModelName, slot: Slot, w: nat): nat -> nat {
    idx => if env.SlotFor(model, idx) == Some(slot) then w else 0
  }

  /** The full declared VRAM of an instance counts on every device it spans. */
  function VramOn(env: Env, slot: Slot, excluding: set<InstId>): Placed -> nat {
    (p: Placed) =>
      if p.id in excluding then 0 else Sum(p.gpus, OnSlot(env, p.model, slot, env.VramOf(p.model)))
  }

  function CountOn(env: Env, slot: Slot, excluding: set<InstId>): Placed -> nat {
    (p: Placed) => if p.id in excluding then 0 else Touches(env, p.model, p.gpus, slot)
  }

  function VramUsed(env: Env, placed: seq<Placed>, excluding: set<InstId>, slot: Slot): nat {
    Sum(placed, VramOn(env, slot, excluding))
  }

  function InstanceCount(env: Env, placed: seq<Placed>, excluding: set<InstId>, slot: Slot): nat {
    Sum(placed, CountOn(env, slot, excluding))
  }

  /** Some device of the instance lies on `slot`. */
  predicate Holds(env: Env, model: ModelName, gpus: seq<nat>, slot: Slot) {
    exists k :: 0 <= k < |gpus| && env.SlotFor(model, gpus[k]) == Some(slot)
  }

  /** An instance of `model` itself already sits on `slot`. */
  predicate Occupied(env: Env, placed: seq<Placed>, excluding: set<InstId>, model: ModelName, slot: Slot) {
    exists p :: p in placed && p.model == model && p.id !in excluding && Holds(env, p.model, p.gpus, slot)
  }

  function FindGpu(gpus: seq<Gpu>, slot: Slot): Option<Gpu> {
    if gpus == [] then None
    else if gpus[0].slot == slot then Some(gpus[0])
    else FindGpu(gpus[1..], slot)
  }

  /** Capacity of a device: the reported total capped by the configured value;
      only a CUDA device may fall back on its configured value alone. */
  function Capacity(env: Env, kind: DeviceKind, idx: nat, slot: Slot): Option<nat> {
    var static_ := env.StaticVram(kind);
    match FindGpu(env.snapshot, slot)
    case Some(g) => Some(if idx in static_ then Min(static_[idx], g.vramTotal) as nat else g.vramTotal)
    case None => if kind == Cuda && idx in static_ then Some(static_[idx]) else None
  }

  // ── Candidates and their order ──────────────────────────────────────────

  datatype Candidate = Candidate(idx: nat, free: nat, count: nat)

  /** Least instances on the slot, then most free VRAM, then lowest index. */
  predicate Before(a: Candidate, b: Candidate) {
    a.count < b.count
    || (a.count == b.count && (a.free > b.free || (a.free == b.free && a.idx < b.idx)))
  }

  predicate AtMost(a: Candidate, b: Candidate) { a == b || Before(a, b) }

  /** The candidate a pool device gives rise to, if it is eligible: its slot
      is known, no instance of the same model sits there, its capacity is
      known, and enough VRAM is free. */
  function CandidateFor(env: Env, placed: seq<Placed>, excluding: set<InstId>, cfg: ModelConfig, idx: nat)
    : Option<Candidate>
  {
    match env.SlotOf(cfg.Kind(), idx)
    case None => None
    case Some(slot) =>
      if Occupied(env, placed, excluding, cfg.name, slot) then None else
      match Capacity(env, cfg.Kind(), idx, slot)
      case None => None
      case Some(capacity) =>
        var free := Max(0, capacity - VramUsed(env, placed, excluding, slot)) as nat;
        if free < cfg.VramBytes() then None
        else Some(Candidate(idx, free, InstanceCount(env, placed, excluding, slot)))
  }

  predicate Eligible(env: Env, placed: seq<Placed>, excluding: set<InstId>, cfg: ModelConfig, idx: nat) {
    CandidateFor(env, placed, excluding, cfg, idx).Some?
  }

  function Candidates(env: Env, placed: seq<Placed>, excluding: set<InstId>, cfg: ModelConfig, pool: seq<nat>)
    : seq<Candidate>
  {
    if pool == [] then [] else
    match CandidateFor(env, placed, excluding, cfg, pool[0])
    case Some(c) => [c] + Candidates(env, placed, excluding, cfg, pool[1..])
    case None => Candidates(env, placed, excluding, cfg, pool[1..])
  }

  function Insert(c: Candidate, sorted: seq<Candidate>): seq<Candidate> {
    if sorted == [] || !Before(sorted[0], c) then [c] + sorted
    else [sorted[0]] + Insert(c, sorted[1..])
  }

  /** The library sort: a stable sort by `Before`. */
  function Sort(cs: seq<Candidate>): seq<Candidate> {
    if cs == [] then [] else Insert(cs[0], Sort(cs[1..]))
  }

  function Indices(cs: seq<Candidate>): (r: seq<nat>)
    ensures |r| == |cs|
    ensures forall k :: 0 <= k < |cs| ==> r[k] == cs[k].idx
  {
    if cs == [] then [] else [cs[0].idx] + Indices(cs[1..])
  }

  /** Selection from an explicit pool listing. */
  function SelectFrom(env: Env, placed: seq<Placed>, excluding: set<InstId>, cfg: ModelConfig, pool: seq<nat>)
    : seq<nat>
  {
    if pool == [] || env.Slots(cfg.Kind()) == map[] then [] else
    var cs := Candidates(env, placed, excluding, cfg, pool);
    if |cs| < cfg.gpus then [] else
    SortSize(cs);
    Indices(Sort(cs)[..cfg.gpus])
  }

  function Select(env: Env, placed: seq<Placed>, excluding: set<InstId>, cfg: ModelConfig): seq<nat> {
    SelectFrom(env, placed, excluding, cfg, cfg.Pool())
  }

  // ── The sort ────────────────────────────────────────────────────────────

  ghost predicate Sorted(cs: seq<Candidate>) {
    forall i, j :: 0 <= i <= j < |cs| ==> AtMost(cs[i], cs[j])
  }

  lemma {:induction false} InsertMultiset(c: Candidate, cs: seq<Candidate>)
    ensures multiset(Insert(c, cs)) == multiset(cs) + multiset{c}
  {
    if cs == [] || !Before(cs[0], c) {
    } else {
      InsertMultiset(c, cs[1..]);
      assert cs == [cs[0]] + cs[1..];
    }
  }

  lemma {:induction false} InsertSorted(c: Candidate, cs: seq<Candidate>)
    requires Sorted(cs)
    ensures Sorted(Insert(c, cs))
  {
    if cs == [] || !Before(cs[0], c) {
      var r := [c] + cs;
      forall i, j | 0 <= i <= j < |r| ensures AtMost(r[i], r[j]) {
        if i > 0 {
          assert AtMost(cs[i - 1], cs[j - 1]);
        } else if j > 0 {
          assert AtMost(cs[0], cs[j - 1]);
        }
      }
    } else {
      InsertSorted(c, cs[1..]);
      InsertMultiset(c, cs[1..]);
      var tail := Insert(c, cs[1..]);
      var r := [cs[0]] + tail;
      forall i, j | 0 <= i <= j < |r| ensures AtMost(r[i], r[j]) {
        if i > 0 {
          assert AtMost(tail[i - 1], tail[j - 1]);
        } else if j > 0 {
          var x := tail[j - 1];
          assert x in multiset(tail);
          if x != c {
            assert x in cs[1..];
            var k :| 0 <= k < |cs[1..]| && cs[1..][k] == x;
            assert AtMost(cs[0], cs[k + 1]);
          }
        }
      }
    }
  }

  lemma {:induction false} SortMultiset(cs: seq<Candidate>)
    ensures multiset(Sort(cs)) == multiset(cs)
  {
    if cs != [] {
      SortMultiset(cs[1..]);
      InsertMultiset(cs[0], Sort(cs[1..]));
      assert cs == [cs[0]] + cs[1..];
    }
  }

  lemma SortSize(cs: seq<Candidate>)
    ensures |Sort(cs)| == |cs|
  {
    SortMultiset(cs);
    assert |multiset(Sort(cs))| == |Sort(cs)|;
    assert |multiset(cs)| == |cs|;
  }

  lemma {:induction false} SortSorted(cs: seq<Candidate>)
    ensures Sorted(Sort(cs))
  {
    if cs != [] {
      SortSorted(cs[1..]);
      InsertSorted(cs[0], Sort(cs[1..]));
    }
  }

  /** A multiset of candidates has one sorted listing. */
  lemma {:induction false} SortedUnique(a: seq<Candidate>, b: seq<Candidate>)
    requires Sorted(a) && Sorted(b) && multiset(a) == multiset(b)
    ensures a == b
    decreases |a|
  {
    assert |multiset(a)| == |a| && |multiset(b)| == |b|;
    if a != [] {
      SameHead(a, b);
      assert a == [a[0]] + a[1..] && b == [b[0]] + b[1..];
      assert multiset(a[1..]) == multiset(a) - multiset{a[0]};
      assert multiset(b[1..]) == multiset(b) - multiset{b[0]};
      SortedUnique(a[1..], b[1..]);
    }
  }

  lemma SameHead(a: seq<Candidate>, b: seq<Candidate>)
    requires Sorted(a) && Sorted(b) && multiset(a) == multiset(b) && a != [] && b != []
    ensures a[0] == b[0]
  {
    assert a[0] in multiset(b) && b[0] in multiset(a);
    var i :| 0 <= i < |b| && b[i] == a[0];
    var j :| 0 <= j < |a| && a[j] == b[0];
    assert AtMost(b[0], b[i]) && AtMost(a[0], a[j]);
  }

  // ── What selection promises ─────────────────────────────────────────────

  lemma {:induction false} CandidatesIn(env: Env, placed: seq<Placed>, excluding: set<InstId>, cfg: ModelConfig,
          pool: seq<nat>)
    ensures forall c :: c in Candidates(env, placed, excluding, cfg, pool)
              <==> c.idx in pool && CandidateFor(env, placed, excluding, cfg, c.idx) == Some(c)
  {
    if pool != [] {
      CandidatesIn(env, placed, excluding, cfg, pool[1..]);
      assert pool == [pool[0]] + pool[1..];
    }
  }

  function EligiblePred(env: Env, placed: seq<Placed>, excluding: set<InstId>, cfg: ModelConfig): nat -> bool {
    (idx: nat) => Eligible(env, placed, excluding, cfg, idx)
  }

  lemma {:induction false} CandidatesSize(env: Env, placed: seq<Placed>, excluding: set<InstId>, cfg: ModelConfig,
          pool: seq<nat>)
    ensures |Candidates(env, placed, excluding, cfg, pool)| == |Keep(pool, EligiblePred(env, placed, excluding, cfg))|
    ensures Indices(Candidates(env, placed, excluding, cfg, pool))
         == Keep(pool, EligiblePred(env, placed, excluding, cfg))
  {
    if pool != [] {
      CandidatesSize(env, placed, excluding, cfg, pool[1..]);
      var c := CandidateFor(env, placed, excluding, cfg, pool[0]);
      if c.Some? {
        assert Candidates(env, placed, excluding, cfg, pool)[1..] == Candidates(env, placed, excluding, cfg, pool[1..]);
      }
    }
  }

  lemma {:induction false} CandidatesNoDup(env: Env, placed: seq<Placed>, excluding: set<InstId>, cfg: ModelConfig,
          pool: seq<nat>)
    requires NoDup(pool)
    ensures NoDup(Candidates(env, placed, excluding, cfg, pool))
  {
    if pool != [] {
      assert NoDup(pool[1..]);
      CandidatesNoDup(env, placed, excluding, cfg, pool[1..]);
      CandidatesIn(env, placed, excluding, cfg, pool[1..]);
      var rest := Candidates(env, placed, excluding, cfg, pool[1..]);
      forall k | 0 <= k < |rest| ensures rest[k].idx != pool[0] {
        assert rest[k] in rest;
      }
    }
  }

  /** Both devices are eligible and `a` is preferred to `b`. */
  ghost predicate Preferred(env: Env, placed: seq<Placed>, excluding: set<InstId>, cfg: ModelConfig, a: nat, b: nat) {
    var ca, cb := CandidateFor(env, placed, excluding, cfg, a), CandidateFor(env, placed, excluding, cfg, b);
    ca.Some? && cb.Some? && Before(ca.value, cb.value)
  }

  /** `r` lists `cfg.gpus` distinct eligible pool devices, in order, and every
      other eligible pool device comes after all of them. */
  ghost predicate BestChoice(env: Env, placed: seq<Placed>, excluding: set<InstId>, cfg: ModelConfig, pool: seq<nat>,
          r: seq<nat>) {
    && |r| == cfg.gpus
    && (forall i :: 0 <= i < |r| ==> r[i] in pool && Eligible(env, placed, excluding, cfg, r[i]))
    && (forall i, j :: 0 <= i < j < |r| ==> Preferred(env, placed, excluding, cfg, r[i], r[j]))
    && (forall i, x :: 0 <= i < |r| && x in pool && x !in r && Eligible(env, placed, excluding, cfg, x) ==>
          Preferred(env, placed, excluding, cfg, r[i], x))
  }

  lemma {:induction false} SortNoDup(cs: seq<Candidate>)
    requires NoDup(cs)
    ensures NoDup(Sort(cs))
  {
    SortMultiset(cs);
    NoDupMultiset(cs);
    MultisetNoDup(Sort(cs));
  }

  lemma {:induction false} NoDupMultiset<T>(xs: seq<T>)
    requires NoDup(xs)
    ensures forall x :: multiset(xs)[x] <= 1
  {
    if xs != [] {
      assert NoDup(xs[1..]);
      NoDupMultiset(xs[1..]);
      assert xs == [xs[0]] + xs[1..];
      assert multiset(xs) == multiset{xs[0]} + multiset(xs[1..]);
      assert xs[0] !in xs[1..];
    }
  }

  lemma {:induction false} MultisetNoDup<T>(xs: seq<T>)
    requires forall x :: multiset(xs)[x] <= 1
    ensures NoDup(xs)
  {
    if xs != [] {
      assert xs == [xs[0]] + xs[1..];
      assert multiset(xs) == multiset{xs[0]} + multiset(xs[1..]);
      forall x ensures multiset(xs[1..])[x] <= 1 {
        assert multiset(xs)[x] <= 1;
      }
      MultisetNoDup(xs[1..]);
      assert multiset(xs)[xs[0]] <= 1;
      assert xs[0] !in multiset(xs[1..]);
      forall k | 0 <= k < |xs[1..]| ensures xs[0] != xs[1..][k] {
        assert xs[1..][k] in multiset(xs[1..]);
      }
    }
  }

  /** Selection refines its specification: with a duplicate-free pool the
      result is empty exactly when fewer than `gpus` devices are eligible, and
      otherwise it is the best choice. */
  lemma SelectMeetsSpec(env: Env, placed: seq<Placed>, excluding: set<InstId>, cfg: ModelConfig, pool: seq<nat>)
    requires cfg.gpus >= 1 && NoDup(pool)
    ensures var r := SelectFrom(env, placed, excluding, cfg, pool);
            var eligible := Keep(pool, EligiblePred(env, placed, excluding, cfg));
            if |eligible| < cfg.gpus then r == [] else BestChoice(env, placed, excluding, cfg, pool, r)
  {
    CandidatesSize(env, placed, excluding, cfg, pool);
    NoSlotsNoneEligible(env, placed, excluding, cfg, pool);
    if pool != [] && env.Slots(cfg.Kind()) != map[] && |Candidates(env, placed, excluding, cfg, pool)| >= cfg.gpus {
      SelectIsBest(env, placed, excluding, cfg, pool);
    }
  }

  lemma {:induction false} NoSlotsNoneEligible(env: Env, placed: seq<Placed>, excluding: set<InstId>, cfg: ModelConfig,
          pool: seq<nat>)
    ensures env.Slots(cfg.Kind()) == map[] ==> Candidates(env, placed, excluding, cfg, pool) == []
  {
    if pool != [] {
      NoSlotsNoneEligible(env, placed, excluding, cfg, pool[1..]);
    }
  }

  /** The first `n` of a sorted listing of distinct candidates are the `n` least. */
  lemma SortPrefix(cs: seq<Candidate>, n: nat)
    requires NoDup(cs) && n <= |cs|
    ensures |Sort(cs)| == |cs|
    ensures forall k :: 0 <= k < |cs| ==> Sort(cs)[k] in cs
    ensures forall i, j :: 0 <= i < j < n ==> Before(Sort(cs)[i], Sort(cs)[j])
    ensures forall i, c :: 0 <= i < n && c in cs && c !in Sort(cs)[..n] ==> Before(Sort(cs)[i], c)
  {
    var s := Sort(cs);
    SortSize(cs);
    SortSorted(cs);
    SortMultiset(cs);
    SortNoDup(cs);
    forall k | 0 <= k < |s| ensures s[k] in cs {
      assert s[k] in multiset(s);
    }
    forall i, j | 0 <= i < j < n ensures Before(s[i], s[j]) {
      assert AtMost(s[i], s[j]);
    }
    forall i, c | 0 <= i < n && c in cs && c !in s[..n] ensures Before(s[i], c) {
      assert c in multiset(s);
      var k :| 0 <= k < |s| && s[k] == c;
      assert AtMost(s[i], s[k]);
    }
  }

  lemma OutsideIsLater(cs: seq<Candidate>, n: nat, c: Candidate)
    requires NoDup(cs) && n <= |cs| && c in cs
    ensures |Sort(cs)| == |cs|
    ensures c.idx !in Indices(Sort(cs)[..n]) ==> forall i :: 0 <= i < n ==> Before(Sort(cs)[i], c)
  {
    SortPrefix(cs, n);
    var r := Indices(Sort(cs)[..n]);
    if c.idx !in r {
      forall k | 0 <= k < n ensures Sort(cs)[..n][k] != c {
        assert r[k] in r;
      }
    }
  }

  lemma SelectIsBest(env: Env, placed: seq<Placed>, excluding: set<InstId>, cfg: ModelConfig, pool: seq<nat>)
    requires NoDup(pool) && pool != [] && env.Slots(cfg.Kind()) != map[]
    requires |Candidates(env, placed, excluding, cfg, pool)| >= cfg.gpus
    ensures BestChoice(env, placed, excluding, cfg, pool, SelectFrom(env, placed, excluding, cfg, pool))
  {
    var cs := Candidates(env, placed, excluding, cfg, pool);
    CandidatesNoDup(env, placed, excluding, cfg, pool);
    SortPrefix(cs, cfg.gpus);
    CandidatesIn(env, placed, excluding, cfg, pool);
    var s := Sort(cs);
    var r := SelectFrom(env, placed, excluding, cfg, pool);
    assert r == Indices(s[..cfg.gpus]);
    forall k | 0 <= k < |r| ensures r[k] in pool && CandidateFor(env, placed, excluding, cfg, r[k]) == Some(s[k]) {
      assert s[k] in cs;
    }
    forall i, x | 0 <= i < |r| && x in pool && x !in r && Eligible(env, placed, excluding, cfg, x)
      ensures Preferred(env, placed, excluding, cfg, r[i], x)
    {
      var c := CandidateFor(env, placed, excluding, cfg, x).value;
      assert c.idx == x;
      assert c in cs;
      OutsideIsLater(cs, cfg.gpus, c);
      assert Before(s[i], c);
    }
  }

  /** The specification has one solution. */
  lemma BestChoiceUnique(env: Env, placed: seq<Placed>, excluding: set<InstId>, cfg: ModelConfig, pool: seq<nat>,
          r: seq<nat>, r': seq<nat>)
    requires BestChoice(env, placed, excluding, cfg, pool, r)
    requires BestChoice(env, placed, excluding, cfg, pool, r')
    ensures r == r'
  {
    forall k: nat | k < |r| && r[..k] == r'[..k] ensures r[k] == r'[k] {
      SameOrWorse(env, placed, excluding, cfg, pool, r, r', k);
      SameOrWorse(env, placed, excluding, cfg, pool, r', r, k);
    }
    AgreeFrom(r, r', 0);
  }

  lemma {:induction false} AgreeFrom(r: seq<nat>, r': seq<nat>, k: nat)
    requires |r| == |r'| && k <= |r| && r[..k] == r'[..k]
    requires forall k: nat :: k < |r| && r[..k] == r'[..k] ==> r[k] == r'[k]
    ensures r == r'
    decreases |r| - k
  {
    if k < |r| {
      assert r[k] == r'[k];
      assert r[..k + 1] == r[..k] + [r[k]] && r'[..k + 1] == r'[..k] + [r'[k]];
      AgreeFrom(r, r', k + 1);
    }
  }

  /** After a common beginning, the other choice's next device is the same or
      preferred to it. */
  lemma SameOrWorse(env: Env, placed: seq<Placed>, excluding: set<InstId>, cfg: ModelConfig, pool: seq<nat>,
          r: seq<nat>, r': seq<nat>, k: nat)
    requires BestChoice(env, placed, excluding, cfg, pool, r)
    requires BestChoice(env, placed, excluding, cfg, pool, r')
    requires k < |r| && r[..k] == r'[..k]
    ensures r[k] == r'[k] || Preferred(env, placed, excluding, cfg, r'[k], r[k])
  {
    assert r[k] in pool && Eligible(env, placed, excluding, cfg, r[k]);
    forall j | 0 <= j < k ensures r'[j] != r[k] {
      assert r'[..k][j] == r[..k][j];
      assert Preferred(env, placed, excluding, cfg, r[j], r[k]);
    }
    if r[k] in r' {
      var j :| 0 <= j < |r'| && r'[j] == r[k];
      assert j == k || Preferred(env, placed, excluding, cfg, r'[k], r'[j]);
    }
  }

  /** The listing order of the pool is irrelevant. */
  lemma PoolOrderIrrelevant(env: Env, placed: seq<Placed>, excluding: set<InstId>, cfg: ModelConfig, pool: seq<nat>,
          pool': seq<nat>)
    requires multiset(pool) == multiset(pool')
    ensures SelectFrom(env, placed, excluding, cfg, pool) == SelectFrom(env, placed, excluding, cfg, pool')
  {
    assert |multiset(pool)| == |pool| && |multiset(pool')| == |pool'|;
    var cs, cs' := Candidates(env, placed, excluding, cfg, pool), Candidates(env, placed, excluding, cfg, pool');
    CandidatesPermutation(env, placed, excluding, cfg, pool, pool');
    assert |multiset(cs)| == |cs| && |multiset(cs')| == |cs'|;
    SortMultiset(cs);
    SortMultiset(cs');
    SortSorted(cs);
    SortSorted(cs');
    SortedUnique(Sort(cs), Sort(cs'));
  }

  lemma {:induction false} CandidatesConcat(env: Env, placed: seq<Placed>, excluding: set<InstId>, cfg: ModelConfig,
          a: seq<nat>, b: seq<nat>)
    ensures Candidates(env, placed, excluding, cfg, a + b)
         == Candidates(env, placed, excluding, cfg, a) + Candidates(env, placed, excluding, cfg, b)
  {
    if a == [] {
      assert a + b == b;
    } else {
      CandidatesConcat(env, placed, excluding, cfg, a[1..], b);
      assert (a + b)[1..] == a[1..] + b && (a + b)[0] == a[0];
    }
  }

  lemma CandidatesRotate(env: Env, placed: seq<Placed>, excluding: set<InstId>, cfg: ModelConfig, pool: seq<nat>,
          k: nat)
    requires k < |pool|
    ensures multiset(Candidates(env, placed, excluding, cfg, pool))
         == multiset(Candidates(env, placed, excluding, cfg, [pool[k]]))
          + multiset(Candidates(env, placed, excluding, cfg, pool[..k] + pool[k + 1..]))
  {
    CandidatesConcat(env, placed, excluding, cfg, pool[..k], pool[k + 1..]);
    CandidatesConcat(env, placed, excluding, cfg, pool[..k], [pool[k]] + pool[k + 1..]);
    CandidatesConcat(env, placed, excluding, cfg, [pool[k]], pool[k + 1..]);
    assert pool == pool[..k] + ([pool[k]] + pool[k + 1..]);
  }

  lemma {:induction false} CandidatesPermutation(env: Env, placed: seq<Placed>, excluding: set<InstId>,
          cfg: ModelConfig, pool: seq<nat>, pool': seq<nat>)
    requires multiset(pool) == multiset(pool')
    ensures multiset(Candidates(env, placed, excluding, cfg, pool))
         == multiset(Candidates(env, placed, excluding, cfg, pool'))
    decreases |pool|
  {
    assert |multiset(pool)| == |pool| && |multiset(pool')| == |pool'|;
    if |pool| > 0 {
      var k := TakeOut(pool, pool');
      CandidatesPermutation(env, placed, excluding, cfg, pool[1..], pool'[..k] + pool'[k + 1..]);
      CandidatesRotate(env, placed, excluding, cfg, pool', k);
    }
  }

  /** Nor is the order in which the registry's hash map is walked. */
  lemma RegistryOrderIrrelevant(env: Env, placed: seq<Placed>, placed': seq<Placed>, excluding: set<InstId>,
          cfg: ModelConfig)
    requires multiset(placed) == multiset(placed')
    ensures Select(env, placed, excluding, cfg) == Select(env, placed', excluding, cfg)
  {
    forall idx: nat ensures CandidateFor(env, placed, excluding, cfg, idx) == CandidateFor(env, placed', excluding, cfg, idx) {
      match env.SlotOf(cfg.Kind(), idx)
      case None =>
      case Some(slot) =>
        SumPermutation(placed, placed', VramOn(env, slot, excluding));
        SumPermutation(placed, placed', CountOn(env, slot, excluding));
        assert forall p :: p in placed <==> p in multiset(placed);
        assert forall p :: p in placed' <==> p in multiset(placed');
    }
    CandidatesSame(env, placed, placed', excluding, excluding, cfg, cfg.Pool());
  }

  lemma {:induction false} CandidatesSame(env: Env, placed: seq<Placed>, placed': seq<Placed>, excluding: set<InstId>,
          excluding': set<InstId>, cfg: ModelConfig, pool: seq<nat>)
    requires forall idx: nat :: CandidateFor(env, placed, excluding, cfg, idx) == CandidateFor(env, placed', excluding', cfg, idx)
    ensures Candidates(env, placed, excluding, cfg, pool) == Candidates(env, placed', excluding', cfg, pool)
  {
    if pool != [] {
      CandidatesSame(env, placed, placed', excluding, excluding', cfg, pool[1..]);
    }
  }

  // ── Distinct devices ────────────────────────────────────────────────────

  lemma {:induction false} Roster(cfg: ModelConfig, pool: seq<nat>, d: nat, idx: nat)
    requires idx in pool
    ensures FindGpu(FavouringSnapshot(cfg, pool, d), SlotName(idx)) == Some(FavouringGpu(cfg, d, idx))
  {
    if pool[0] != idx {
      assert |SlotName(pool[0])| != |SlotName(idx)|;
      Roster(cfg, pool[1..], d, idx);
    }
  }

  /** One slot name per device index. */
  function SlotName(idx: nat): Slot { seq(idx, _ => 'x') }

  function FavouringGpu(cfg: ModelConfig, d: nat, idx: nat): Gpu {
    Gpu(SlotName(idx), cfg.VramBytes() + if idx == d then 1 else 0)
  }

  function FavouringSnapshot(cfg: ModelConfig, pool: seq<nat>, d: nat): seq<Gpu> {
    if pool == [] then [] else [FavouringGpu(cfg, d, pool[0])] + FavouringSnapshot(cfg, pool[1..], d)
  }

  /** Every pool device just fits the model; device `d` has one byte more. */
  function Favouring(cfg: ModelConfig, pool: seq<nat>, d: nat): Env {
    var slots := map i | i in pool :: SlotName(i);
    Env(map[cfg.name := cfg], slots, slots, slots, map[], map[], FavouringSnapshot(cfg, pool, d))
  }

  lemma {:induction false} FavouringCandidates(cfg: ModelConfig, pool: seq<nat>, d: nat, part: seq<nat>)
    requires forall i :: i in part ==> i in pool
    ensures var cs := Candidates(Favouring(cfg, pool, d), [], {}, cfg, part);
            |cs| == |part| && forall k :: 0 <= k < |part| ==>
              cs[k] == Candidate(part[k], cfg.VramBytes() + if part[k] == d then 1 else 0, 0)
  {
    if part != [] {
      Roster(cfg, pool, d, part[0]);
      FavouringCandidates(cfg, pool, d, part[1..]);
    }
  }

  lemma AgainAfterFirst(s: seq<Candidate>, c: Candidate) returns (b: nat)
    requires multiset(s)[c] >= 2
    ensures b < |s[1..]| && s[1..][b] == c
  {
    assert s == [s[0]] + s[1..];
    assert multiset(s) == multiset{s[0]} + multiset(s[1..]);
    assert c in s[1..];
    b :| 0 <= b < |s[1..]| && s[1..][b] == c;
  }

  /** A candidate listed twice and before all others is sorted to the first two places. */
  lemma TwiceFirst(cs: seq<Candidate>, c: Candidate, i: nat, j: nat)
    requires i < j < |cs| && cs[i] == c && cs[j] == c
    requires forall k :: 0 <= k < |cs| ==> AtMost(c, cs[k])
    ensures |Sort(cs)| == |cs| && Sort(cs)[0] == c && Sort(cs)[1] == c
  {
    var s := Sort(cs);
    SortMultiset(cs);
    SortSorted(cs);
    SortSize(cs);
    assert cs == cs[..i] + [c] + cs[i + 1..j] + [c] + cs[j + 1..];
    assert multiset(s)[c] >= 2;
    forall k | 0 <= k < |s| ensures AtMost(c, s[k]) {
      assert s[k] in multiset(s);
      assert s[k] in cs;
    }
    assert c in s;
    var a :| 0 <= a < |s| && s[a] == c;
    assert AtMost(s[0], s[a]);
    var b := AgainAfterFirst(s, c);
    assert AtMost(s[1], s[b + 1]);
  }

  /** A device listed twice can be chosen twice. */
  lemma RepeatedChosen(cfg: ModelConfig)
    requires 1 < cfg.gpus <= |cfg.Pool()| && !NoDup(cfg.Pool()) && cfg.maxInstances >= 1 && cfg.maxConcurrent >= 1
    ensures exists env, placed, excluding :: !ChoosesDistinct(env, placed, excluding, cfg)
  {
    var pool := cfg.Pool();
    var i, j :| 0 <= i < j < |pool| && pool[i] == pool[j];
    var d := pool[i];
    var env := Favouring(cfg, pool, d);
    FavouringCandidates(cfg, pool, d, pool);
    var cs := Candidates(env, [], {}, cfg, pool);
    TwiceFirst(cs, cs[i], i, j);
    assert d in env.Slots(cfg.Kind());
    var r := Select(env, [], {}, cfg);
    assert r[0] == d && r[1] == d;
    FavouringValid(cfg, pool, d);
    assert !ChoosesDistinct(env, [], {}, cfg);
  }

  lemma FavouringValid(cfg: ModelConfig, pool: seq<nat>, d: nat)
    requires 1 <= cfg.gpus <= |cfg.Pool()| && cfg.maxInstances >= 1 && cfg.maxConcurrent >= 1
    ensures Favouring(cfg, pool, d).Valid()
  {
    var env := Favouring(cfg, pool, d);
    forall kind, i, j | i in env.Slots(kind) && j in env.Slots(kind) && i != j
      ensures env.Slots(kind)[i] != env.Slots(kind)[j]
    {
      assert |SlotName(i)| != |SlotName(j)|;
    }
  }

  /** In a valid configuration with this model, selection gives distinct devices. */
  ghost predicate ChoosesDistinct(env: Env, placed: seq<Placed>, excluding: set<InstId>, cfg: ModelConfig) {
    env.Valid() && cfg.name in env.configs && env.configs[cfg.name] == cfg ==> NoDup(Select(env, placed, excluding, cfg))
  }

  lemma ChosenDistinct(env: Env, placed: seq<Placed>, excluding: set<InstId>, cfg: ModelConfig)
    requires 1 <= cfg.gpus && (NoDup(cfg.Pool()) || cfg.gpus == 1)
    ensures NoDup(Select(env, placed, excluding, cfg))
  {
    if NoDup(cfg.Pool()) {
      SelectMeetsSpec(env, placed, excluding, cfg, cfg.Pool());
      var r := Select(env, placed, excluding, cfg);
      forall i, j | 0 <= i < j < |r| ensures r[i] != r[j] {
        assert Preferred(env, placed, excluding, cfg, r[i], r[j]);
      }
    }
  }

  /** In valid configurations, selection always returns distinct devices exactly
      when the pool lists no device twice or the model spans one device.
      Validation only bounds `gpus` by the pool length. */
  lemma DistinctDevices(cfg: ModelConfig)
    requires 1 <= cfg.gpus <= |cfg.Pool()| && cfg.maxInstances >= 1 && cfg.maxConcurrent >= 1
    ensures (forall env, placed, excluding :: ChoosesDistinct(env, placed, excluding, cfg))
            <==> NoDup(cfg.Pool()) || cfg.gpus == 1
  {
    if NoDup(cfg.Pool()) || cfg.gpus == 1 {
      forall env, placed, excluding ensures ChoosesDistinct(env, placed, excluding, cfg) {
        ChosenDistinct(env, placed, excluding, cfg);
      }
    } else {
      RepeatedChosen(cfg);
    }
  }

  // ── Simulated removal ───────────────────────────────────────────────────

  function NotIn(excluding: set<InstId>): Placed -> bool { (p: Placed) => p.id !in excluding }

  /** The registry with the instances in `excluding` gone. */
  function Without(placed: seq<Placed>, excluding: set<InstId>): seq<Placed> {
    Keep(placed, NotIn(excluding))
  }

  /** Ignoring instances is the same as not having them. */
  lemma ExclusionIsRemoval(env: Env, placed: seq<Placed>, excluding: set<InstId>, cfg: ModelConfig, idx: nat)
    ensures CandidateFor(env, placed, excluding, cfg, idx)
         == CandidateFor(env, Without(placed, excluding), {}, cfg, idx)
  {
    KeepIn(placed, NotIn(excluding));
    match env.SlotOf(cfg.Kind(), idx)
    case None =>
    case Some(slot) =>
      SumKeep(placed, NotIn(excluding), VramOn(env, slot, {}), VramOn(env, slot, excluding));
      SumKeep(placed, NotIn(excluding), CountOn(env, slot, {}), CountOn(env, slot, excluding));
  }

  lemma SelectExclusionIsRemoval(env: Env, placed: seq<Placed>, excluding: set<InstId>, cfg: ModelConfig)
    ensures Select(env, placed, excluding, cfg) == Select(env, Without(placed, excluding), {}, cfg)
  {
    forall idx: nat
      ensures CandidateFor(env, placed, excluding, cfg, idx) == CandidateFor(env, Without(placed, excluding), {}, cfg, idx)
    {
      ExclusionIsRemoval(env, placed, excluding, cfg, idx);
    }
    CandidatesSame(env, placed, Without(placed, excluding), excluding, {}, cfg, cfg.Pool());
  }

  /** Removing more instances keeps every eligible device eligible. */
  lemma EligibleMonotone(env: Env, placed: seq<Placed>, less: set<InstId>, more: set<InstId>, cfg: ModelConfig,
          idx: nat)
    requires less <= more
    requires Eligible(env, placed, less, cfg, idx)
    ensures Eligible(env, placed, more, cfg, idx)
  {
    var slot := env.SlotOf(cfg.Kind(), idx).value;
    SumLe(placed, VramOn(env, slot, more), VramOn(env, slot, less));
  }

  lemma {:induction false} KeepGrows<T(!new)>(xs: seq<T>, p: T -> bool, q: T -> bool)
    requires forall x :: x in xs && p(x) ==> q(x)
    ensures |Keep(xs, p)| <= |Keep(xs, q)|
  {
    if |xs| > 0 {
      assert xs[0] in xs;
      KeepGrows(xs[1..], p, q);
    }
  }

  // ── The selection loops ─────────────────────────────────────────────────

  lemma OccupiedSnoc(env: Env, placed: seq<Placed>, i: nat, excluding: set<InstId>, model: ModelName, slot: Slot)
    requires i < |placed|
    ensures Occupied(env, placed[..i + 1], excluding, model, slot)
         <==> Occupied(env, placed[..i], excluding, model, slot)
              || (placed[i].model == model && placed[i].id !in excluding && Holds(env, model, placed[i].gpus, slot))
  {
    assert placed[..i + 1] == placed[..i] + [placed[i]];
  }

  /** Slots already taken by an instance of `model`. */
  method OccupiedSlots(env: Env, placed: seq<Placed>, excluding: set<InstId>,
          model: ModelName) returns (occupied: set<Slot>)
    ensures forall slot :: slot in occupied <==> Occupied(env, placed, excluding, model, slot)
  {
    occupied := {};
    for i := 0 to |placed|
      invariant forall slot :: slot in occupied <==> Occupied(env, placed[..i], excluding, model, slot)
    {
      var p := placed[i];
      forall slot {
        OccupiedSnoc(env, placed, i, excluding, model, slot);
      }
      if p.model == model && p.id !in excluding {
        ghost var before := occupied;
        for j := 0 to |p.gpus|
          invariant forall slot :: slot in occupied <==>
                      slot in before || exists k :: 0 <= k < j && env.SlotFor(model, p.gpus[k]) == Some(slot)
        {
          match env.SlotFor(model, p.gpus[j])
          case Some(slot) => occupied := occupied + {slot};
          case None =>
        }
      }
    }
    assert placed[..|placed|] == placed;
  }

  /** Adds an instance's weight to every slot it touches. */
  method Charge(env: Env, model: ModelName, gpus: seq<nat>, w: nat, tally: map<Slot, nat>) returns (r: map<Slot, nat>)
    ensures forall slot :: Count(r, slot) == Count(tally, slot) + Sum(gpus, OnSlot(env, model, slot, w))
  {
    r := tally;
    for j := 0 to |gpus|
      invariant forall slot :: Count(r, slot) == Count(tally, slot) + Sum(gpus[..j], OnSlot(env, model, slot, w))
    {
      var at := env.SlotFor(model, gpus[j]);
      forall slot
        ensures Sum(gpus[..j + 1], OnSlot(env, model, slot, w))
             == Sum(gpus[..j], OnSlot(env, model, slot, w)) + (if at == Some(slot) then w else 0)
      {
        SumPrefix(gpus, j, OnSlot(env, model, slot, w));
      }
      if at.Some? {
        r := Bump(r, at.value, w);
      }
    }
    assert gpus[..|gpus|] == gpus;
  }

  /** Declared VRAM and instance count per slot, over all registered instances. */
  method Tally(env: Env, placed: seq<Placed>, excluding: set<InstId>) returns (used: map<Slot, nat>, counts: map<Slot,
          nat>)
    ensures forall slot :: Count(used, slot) == VramUsed(env, placed, excluding, slot)
    ensures forall slot :: Count(counts, slot) == InstanceCount(env, placed, excluding, slot)
  {
    used, counts := map[], map[];
    for i := 0 to |placed|
      invariant forall slot :: Count(used, slot) == VramUsed(env, placed[..i], excluding, slot)
      invariant forall slot :: Count(counts, slot) == InstanceCount(env, placed[..i], excluding, slot)
    {
      var p := placed[i];
      assert placed[..i + 1] == placed[..i] + [p];
      forall slot
        ensures VramUsed(env, placed[..i + 1], excluding, slot)
             == VramUsed(env, placed[..i], excluding, slot) + VramOn(env, slot, excluding)(p)
        ensures InstanceCount(env, placed[..i + 1], excluding, slot)
             == InstanceCount(env, placed[..i], excluding, slot) + CountOn(env, slot, excluding)(p)
      {
        SumPush(placed[..i], p, VramOn(env, slot, excluding));
        SumPush(placed[..i], p, CountOn(env, slot, excluding));
      }
      if p.id !in excluding {
        used := Charge(env, p.model, p.gpus, env.VramOf(p.model), used);
        counts := Charge(env, p.model, p.gpus, 1, counts);
      }
    }
    assert placed[..|placed|] == placed;
  }

  /** The selection as the source runs it: tallies per slot, one pass over the
      pool, then the sort. */
  method SelectGpus(env: Env, placed: seq<Placed>, excluding: set<InstId>, cfg: ModelConfig) returns (chosen: seq<nat>)
    ensures chosen == Select(env, placed, excluding, cfg)
  {
    var pool, slots := cfg.Pool(), env.Slots(cfg.Kind());
    if pool == [] || slots == map[] {
      return [];
    }
    var occupied := OccupiedSlots(env, placed, excluding, cfg.name);
    var used, counts := Tally(env, placed, excluding);
    var candidates: seq<Candidate> := [];
    for i := 0 to |pool|
      invariant candidates == Candidates(env, placed, excluding, cfg, pool[..i])
    {
      var idx := pool[i];
      CandidatesConcat(env, placed, excluding, cfg, pool[..i], [idx]);
      assert [idx][1..] == [];
      assert pool[..i + 1] == pool[..i] + [idx];
      if idx !in slots || slots[idx] in occupied {
        continue;
      }
      var slot := slots[idx];
      match Capacity(env, cfg.Kind(), idx, slot)
      case None => continue;
      case Some(capacity) =>
        var free := Max(0, capacity - Count(used, slot)) as nat;
        if free < cfg.VramBytes() {
          continue;
        }
        candidates := candidates + [Candidate(idx, free, Count(counts, slot))];
    }
    assert pool[..|pool|] == pool;
    if |candidates| < cfg.gpus {
      return [];
    }
    SortSize(candidates);
    chosen := Indices(Sort(candidates)[..cfg.gpus]);
  }
}
