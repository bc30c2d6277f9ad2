/** The tickless load averages: their closed form, bounds and refresh
    invariance, over exact reals with an abstract decay. */
module Metrics {
  import opened Base

  // ── Decay ───────────────────────────────────────────────────────────────

  /** `D(x + y) == D(x) * D(y)`, the law of an exponential. */
  ghost predicate Multiplies(D: real -> real, x: real, y: real) {
    D(x + y) == D(x) * D(y)
  }

  ghost predicate Positive(D: real -> real, x: real) {
    0.0 < D(x) <= 1.0
  }

  ghost predicate Decay(D: real -> real) {
    && (forall x, y :: x >= 0.0 && y >= 0.0 ==> Multiplies(D, x, y))
    && (forall x :: x >= 0.0 ==> Positive(D, x))
  }

  type Decaying = D: real -> real | Decay(D) witness (x: real) => 1.0

  /** The decay of an average over a window of so many seconds. */
  function Over(D: real -> real, seconds: real): real -> real
    requires seconds > 0.0
  {
    (x: real) => D(x / seconds)
  }

  lemma OverDecays(D: Decaying, seconds: real)
    requires seconds > 0.0
    ensures Decay(Over(D, seconds))
  {
    var e := Over(D, seconds);
    forall x, y | x >= 0.0 && y >= 0.0 ensures Multiplies(e, x, y) {
      assert x / seconds >= 0.0 && y / seconds >= 0.0;
      assert (x + y) / seconds == x / seconds + y / seconds;
      assert Multiplies(D, x / seconds, y / seconds);
    }
    forall x | x >= 0.0 ensures Positive(e, x) {
      assert x / seconds >= 0.0;
      assert Positive(D, x / seconds);
    }
  }

  /** Time really makes it smaller. */
  ghost predicate Strict(D: real -> real) {
    forall x :: x > 0.0 ==> D(x) < 1.0
  }

  lemma NoDecayAtZero(D: Decaying)
    ensures D(0.0) == 1.0
  {
    ZeroTwice(D);
    assert Positive(D, 0.0);
    OwnSquare(D(0.0));
  }

  lemma ZeroTwice(D: Decaying)
    ensures D(0.0) * D(0.0) == D(0.0)
  {
    assert Multiplies(D, 0.0, 0.0);
    assert 0.0 + 0.0 == 0.0;
  }

  lemma OwnSquare(d: real)
    requires d > 0.0 && d * d == d
    ensures d == 1.0
  {
    assert (d - 1.0) * d == 0.0;
  }

  lemma NotNegative(x: real, y: real)
    requires x >= 0.0 && y >= 0.0
    ensures x * y >= 0.0
  {
  }

  // ── One average ─────────────────────────────────────────────────────────

  /** A load average with the time and the active count of the last tick. */
  datatype Meter = Meter(load: real, lastUpdate: real, lastActive: nat)

  datatype Sample = Sample(at: real, active: nat, delta: nat)

  /** Time that has passed; a tick from the past counts as no time. */
  function Elapsed(now: real, since: real): real {
    if now > since then now - since else 0.0
  }

  /** The average decays with the active count of the interval that ends here. */
  function Blend(D: real -> real, load: real, active: real, dt: real): real {
    load * D(dt) + active * (1.0 - D(dt))
  }

  function Advance(D: real -> real, m: Meter, t: Sample): Meter {
    var dt := Elapsed(t.at, m.lastUpdate);
    Meter(if dt > 0.0 then Blend(D, m.load, m.lastActive as real, dt) else m.load, t.at, t.active)
  }

  function Run(D: real -> real, m: Meter, ticks: seq<Sample>): Meter {
    if ticks == [] then m else Advance(D, Run(D, m, ticks[..|ticks| - 1]), ticks[|ticks| - 1])
  }

  /** Ticks do not go back in time. */
  ghost predicate InOrder(ticks: seq<Sample>) {
    forall i, j :: 0 <= i <= j < |ticks| ==> ticks[i].at <= ticks[j].at
  }

  // ── Closed form ─────────────────────────────────────────────────────────

  /** What the active count of one interval contributes at a later time. */
  function Share(D: real -> real, active: nat, from: real, until: real, now: real): real {
    active as real * (D(now - until) - D(now - from))
  }

  /** All the intervals between the ticks, seen from `now`. */
  function Shares(D: real -> real, ticks: seq<Sample>, now: real): real {
    if |ticks| <= 1 then 0.0
    else Share(D, ticks[0].active, ticks[0].at, ticks[1].at, now) + Shares(D, ticks[1..], now)
  }

  lemma Mixed(load: real, active: real, x: real, y: real)
    ensures (load * x + active * (1.0 - x)) * y == load * (x * y) + active * (y - x * y)
  {
    var a, b := load * x, active * (1.0 - x);
    assert (a + b) * y == a * y + b * y;
    Associate(load, x, y);
    Associate(active, 1.0 - x, y);
    assert (1.0 - x) * y == y - x * y;
  }

  lemma Associate(a: real, x: real, y: real)
    ensures a * x * y == a * (x * y)
  {
  }

  /** One interval more in front: its old average fades with the rest, and its
      active count contributes its share. */
  lemma Interval(D: Decaying, load: real, active: nat, from: real, until: real, now: real)
    requires from <= until <= now
    ensures Blend(D, load, active as real, until - from) * D(now - until)
         == load * D(now - from) + Share(D, active, from, until, now)
  {
    var x, y := D(until - from), D(now - until);
    assert Multiplies(D, until - from, now - until);
    assert (until - from) + (now - until) == now - from;
    Mixed(load, active as real, x, y);
  }

  ghost predicate Comes(D: real -> real, load: real, ticks: seq<Sample>, now: real)
    requires ticks != []
  {
    Run(D, Meter(load, ticks[0].at, ticks[0].active), ticks[1..]).load
      == load * D(now - ticks[0].at) + Shares(D, ticks, now)
  }

  lemma OneTick(D: Decaying, load: real, ticks: seq<Sample>)
    requires |ticks| == 1
    ensures Comes(D, load, ticks, ticks[0].at)
  {
    NoDecayAtZero(D);
    assert ticks[0].at - ticks[0].at == 0.0;
  }

  lemma OneMore(D: Decaying, load: real, ticks: seq<Sample>, now: real)
    requires |ticks| > 1 && ticks[0].at <= ticks[1].at <= now
    requires Comes(D, Blend(D, load, ticks[0].active as real, ticks[1].at - ticks[0].at), ticks[1..], now)
    ensures Comes(D, load, ticks, now)
  {
    var m := Meter(load, ticks[0].at, ticks[0].active);
    RunFirst(D, m, ticks[1..]);
    AdvanceLoad(D, m, ticks[1]);
    Interval(D, load, ticks[0].active, ticks[0].at, ticks[1].at, now);
  }

  /** From the first tick on: the average there fades, and every interval
      contributes its share. */
  lemma {:induction false} Onward(D: Decaying, load: real, ticks: seq<Sample>)
    requires ticks != [] && InOrder(ticks)
    ensures Comes(D, load, ticks, ticks[|ticks| - 1].at)
    decreases |ticks|
  {
    if |ticks| == 1 {
      OneTick(D, load, ticks);
    } else {
      assert ticks[0].at <= ticks[1].at <= ticks[|ticks| - 1].at;
      Onward(D, Blend(D, load, ticks[0].active as real, ticks[1].at - ticks[0].at), ticks[1..]);
      OneMore(D, load, ticks, ticks[|ticks| - 1].at);
    }
  }

  /** After any ticks in order, the average is the sum of what the active count
      of every interval contributes, decayed to now; the first tick may even be
      stamped before the entry was created. */
  lemma ClosedForm(D: Decaying, start: real, ticks: seq<Sample>)
    requires ticks != [] && InOrder(ticks)
    ensures Run(D, Meter(0.0, start, 0), ticks).load == Shares(D, ticks, ticks[|ticks| - 1].at)
  {
    RunFirst(D, Meter(0.0, start, 0), ticks);
    assert Advance(D, Meter(0.0, start, 0), ticks[0]) == Meter(0.0, ticks[0].at, ticks[0].active);
    Onward(D, 0.0, ticks);
  }

  // ── Bounds ──────────────────────────────────────────────────────────────

  lemma BlendBetween(D: Decaying, load: real, active: real, dt: real, bound: real)
    requires dt >= 0.0 && 0.0 <= load <= bound && 0.0 <= active <= bound
    ensures 0.0 <= Blend(D, load, active, dt) <= bound
  {
    assert Positive(D, dt);
    var d := D(dt);
    var e := 1.0 - d;
    NotNegative(load, d);
    NotNegative(active, e);
    NotNegative(bound - load, d);
    NotNegative(bound - active, e);
    assert (bound - load) * d + (bound - active) * e == bound - Blend(D, load, active, dt);
  }

  /** The average stays between zero and the largest active count, whatever
      the ticks, in order or not. */
  lemma {:induction false} Bounded(D: Decaying, m: Meter, ticks: seq<Sample>, most: nat)
    requires 0.0 <= m.load <= most as real && m.lastActive <= most
    requires forall t :: t in ticks ==> t.active <= most
    ensures 0.0 <= Run(D, m, ticks).load <= most as real && Run(D, m, ticks).lastActive <= most
  {
    if ticks != [] {
      var front, last := ticks[..|ticks| - 1], ticks[|ticks| - 1];
      assert last in ticks;
      forall t | t in front ensures t.active <= most { assert t in ticks; }
      Bounded(D, m, front, most);
      var u := Run(D, m, front);
      BlendBetween(D, u.load, u.lastActive as real, Elapsed(last.at, u.lastUpdate), most as real);
    }
  }

  // ── Refreshing ──────────────────────────────────────────────────────────

  /** Two intervals with the same active count are one. */
  lemma BlendTwice(D: Decaying, load: real, active: real, x: real, y: real)
    requires x >= 0.0 && y >= 0.0
    ensures Blend(D, Blend(D, load, active, x), active, y) == Blend(D, load, active, x + y)
  {
    assert Multiplies(D, x, y);
    var p, q := D(x), D(y);
    assert (load * p + active * (1.0 - p)) * q + active * (1.0 - q) == load * (p * q) + active * (1.0 - p * q);
  }

  lemma BlendNothing(D: Decaying, load: real, active: real)
    ensures Blend(D, load, active, 0.0) == load
  {
    NoDecayAtZero(D);
  }

  /** A refresh that sees the same active count, made at any time before the
      next tick, changes no later average. */
  lemma RefreshInvisible(D: Decaying, m: Meter, at: real, next: Sample)
    requires m.lastUpdate <= at <= next.at
    ensures Advance(D, Advance(D, m, Sample(at, m.lastActive, 0)), next) == Advance(D, m, next)
  {
    var a := m.lastActive as real;
    BlendTwice(D, m.load, a, at - m.lastUpdate, next.at - at);
    assert (at - m.lastUpdate) + (next.at - at) == next.at - m.lastUpdate;
    BlendNothing(D, m.load, a);
    BlendNothing(D, Blend(D, m.load, a, at - m.lastUpdate), a);
  }

  lemma {:induction false} RunConcat(D: real -> real, m: Meter, a: seq<Sample>, b: seq<Sample>)
    ensures Run(D, m, a + b) == Run(D, Run(D, m, a), b)
    decreases |b|
  {
    if b == [] {
      assert a + b == a;
    } else {
      RunConcat(D, m, a, b[..|b| - 1]);
      assert (a + b)[..|a + b| - 1] == a + b[..|b| - 1];
    }
  }

  lemma RunFirst(D: real -> real, m: Meter, ticks: seq<Sample>)
    requires ticks != []
    ensures Run(D, m, ticks) == Run(D, Advance(D, m, ticks[0]), ticks[1..])
  {
    assert ticks == [ticks[0]] + ticks[1..];
    RunConcat(D, m, [ticks[0]], ticks[1..]);
    assert [ticks[0]][..0] == [];
  }

  lemma RefreshFromHere(D: Decaying, u: Meter, at: real, after: seq<Sample>)
    requires after != [] && u.lastUpdate <= at <= after[0].at
    ensures Run(D, u, [Sample(at, u.lastActive, 0)] + after) == Run(D, u, after)
  {
    var refresh := Sample(at, u.lastActive, 0);
    RunConcat(D, u, [refresh], after);
    RunOne(D, u, refresh);
    RunFirst(D, Advance(D, u, refresh), after);
    RunFirst(D, u, after);
    RefreshInvisible(D, u, at, after[0]);
  }

  lemma RunOne(D: real -> real, m: Meter, t: Sample)
    ensures Run(D, m, [t]) == Advance(D, m, t)
  {
    assert [t][..0] == [];
  }

  /** Over whole histories: refreshes can be inserted anywhere. */
  lemma RefreshAnywhere(D: Decaying, m: Meter, before: seq<Sample>, at: real, after: seq<Sample>)
    requires after != []
    requires Run(D, m, before).lastUpdate <= at <= after[0].at
    ensures Run(D, m, before + [Sample(at, Run(D, m, before).lastActive, 0)] + after) == Run(D, m, before + after)
  {
    var u := Run(D, m, before);
    var rest := [Sample(at, u.lastActive, 0)] + after;
    RefreshFromHere(D, u, at, after);
    RunConcat(D, m, before, after);
    RunConcat(D, m, before, rest);
    assert before + [Sample(at, u.lastActive, 0)] + after == before + rest;
  }

  // ── Windows ─────────────────────────────────────────────────────────────

  lemma Fades(D: Decaying, x: real, y: real)
    requires 0.0 <= x <= y
    ensures D(y) <= D(x)
  {
    assert Multiplies(D, x, y - x) && Positive(D, x) && Positive(D, y - x);
    assert x + (y - x) == y;
    NotNegative(D(x), 1.0 - D(y - x));
  }

  /** A greater step towards the sample comes closer to it. */
  lemma Closer(load: real, active: real, a: real, b: real)
    requires load <= active && 0.0 <= a <= b <= 1.0
    ensures load <= Ema(load, active, a) && Ema(load, active, a) <= Ema(load, active, b)
    ensures Ema(load, active, b) <= active
  {
    var gap := active - load;
    NotNegative(gap, a);
    NotNegative(gap, b - a);
    NotNegative(gap, 1.0 - b);
    assert Ema(load, active, a) == load + gap * a && Ema(load, active, b) == load + gap * b;
    assert gap * b == gap * a + gap * (b - a) && gap * 1.0 == gap * b + gap * (1.0 - b);
  }

  /** The shorter the window, the closer the average comes to the active count
      in the same time. */
  lemma ShorterFollowsFaster(D: Decaying, short: real, long: real, load: real, active: real, dt: real)
    requires 0.0 < short <= long && dt >= 0.0 && load <= active
    ensures load <= Blend(Over(D, long), load, active, dt) <= Blend(Over(D, short), load, active, dt) <= active
  {
    LongerIsLess(dt, short, long);
    Fades(D, dt / long, dt / short);
    assert Positive(D, dt / long) && Positive(D, dt / short);
    Closer(load, active, 1.0 - D(dt / long), 1.0 - D(dt / short));
    EmaIsBlend(Over(D, long), load, active, dt);
    EmaIsBlend(Over(D, short), load, active, dt);
  }

  lemma SignOfFactor(x: real, y: real)
    requires y > 0.0 && x * y >= 0.0
    ensures x >= 0.0
  {
  }

  lemma LongerIsLess(x: real, short: real, long: real)
    requires x >= 0.0 && 0.0 < short <= long
    ensures 0.0 <= x / long <= x / short
  {
    var a, b := x / long, x / short;
    assert a * long == x && b * short == x;
    SignOfFactor(a, long);
    SignOfFactor(b, short);
    NotNegative(b, long - short);
    assert (b - a) * long == b * short + b * (long - short) - a * long;
    SignOfFactor(b - a, long);
  }

  // ── Ticks out of order ──────────────────────────────────────────────────

  /** What a tick that comes late should do: count as made now. */
  function AdvanceClamped(D: real -> real, m: Meter, t: Sample): Meter {
    Advance(D, m, t.(at := if t.at < m.lastUpdate then m.lastUpdate else t.at))
  }

  lemma NonzeroProduct(x: real, y: real)
    requires y < 0.0
    ensures x * y == 0.0 <==> x == 0.0
  {
  }

  lemma MixDiffers(load: real, active: real, p: real, s: real)
    requires s < p
    ensures load * s + active * (1.0 - s) == load * p + active * (1.0 - p) <==> load == active
  {
    assert load * s + active * (1.0 - s) - (load * p + active * (1.0 - p)) == (load - active) * (s - p);
    NonzeroProduct(load - active, s - p);
  }

  /** More time makes a difference unless the average is already there. */
  lemma BlendDiffers(D: Decaying, load: real, active: real, x: real, y: real)
    requires Strict(D) && x >= 0.0 && y > 0.0
    ensures Blend(D, load, active, x + y) == Blend(D, load, active, x) <==> load == active
  {
    assert Multiplies(D, x, y) && Positive(D, x);
    MixDiffers(load, active, D(x), D(x + y));
  }

  lemma AdvanceLoad(D: Decaying, m: Meter, t: Sample)
    requires m.lastUpdate <= t.at
    ensures Advance(D, m, t) == Meter(Blend(D, m.load, m.lastActive as real, t.at - m.lastUpdate), t.at, t.active)
  {
    BlendNothing(D, m.load, m.lastActive as real);
  }

  /** A tick from the past moves the clock back, so the time since then is
      counted a second time: the next average is right if and only if the tick
      was in order or the average already equals the new active count. */
  lemma OutOfOrderExactly(D: Decaying, m: Meter, t: Sample, next: Sample)
    requires Strict(D) && m.lastUpdate <= next.at && t.at <= next.at
    ensures Advance(D, Advance(D, m, t), next) == Advance(D, AdvanceClamped(D, m, t), next)
            <==> t.at >= m.lastUpdate || m.load == t.active as real
  {
    if t.at < m.lastUpdate {
      var x, y := next.at - m.lastUpdate, m.lastUpdate - t.at;
      AdvanceLoad(D, Meter(m.load, t.at, t.active), next);
      AdvanceLoad(D, Meter(m.load, m.lastUpdate, t.active), next);
      assert next.at - t.at == x + y;
      BlendDiffers(D, m.load, t.active as real, x, y);
    }
  }

  // ── The metrics of a model ──────────────────────────────────────────────

  function Deltas(ticks: seq<Sample>): nat {
    if ticks == [] then 0 else Deltas(ticks[..|ticks| - 1]) + ticks[|ticks| - 1].delta
  }

  const MINUTE := 60.0

  class ModelMetrics {
    const exp: Decaying               // one over the exponential function
    const created: real
    var loadM1: real
    var loadM5: real
    var loadM15: real
    var reqRateM1: real
    var reqRateM5: real
    var reqRateM15: real
    var completionsTotal: nat
    var lastActivity: real
    var lastUpdate: real
    var lastActive: nat
    ghost var ticks: seq<Sample>

    ghost function Start(): Meter { Meter(0.0, created, 0) }

    /** The averages are those of the ticks so far, and every completion is counted. */
    ghost predicate Valid()
      reads this
    {
      && Meter(loadM1, lastUpdate, lastActive) == Run(Over(exp, 60.0), Start(), ticks)
      && Meter(loadM5, lastUpdate, lastActive) == Run(Over(exp, 300.0), Start(), ticks)
      && Meter(loadM15, lastUpdate, lastActive) == Run(Over(exp, 900.0), Start(), ticks)
      && completionsTotal == Deltas(ticks)
    }

    constructor (now: real, exp: Decaying)
      ensures Valid() && ticks == [] && created == now && lastActivity == now && this.exp == exp
    {
      this.exp, created := exp, now;
      loadM1, loadM5, loadM15, reqRateM1, reqRateM5, reqRateM15 := 0.0, 0.0, 0.0, 0.0, 0.0, 0.0;
      completionsTotal, lastActivity, lastUpdate, lastActive, ticks := 0, now, now, 0, [];
    }

    method Tick(now: real, active: nat, completionsDelta: nat)
      requires Valid()
      modifies this
      ensures Valid() && ticks == old(ticks) + [Sample(now, active, completionsDelta)]
      ensures lastActivity == if active > 0 || completionsDelta > 0 then now else old(lastActivity)
      ensures reqRateM1 == RateAfter(Over(exp, 60.0), old(reqRateM1), completionsDelta, Elapsed(now, old(lastUpdate)))
      ensures reqRateM5 == RateAfter(Over(exp, 300.0), old(reqRateM5), completionsDelta, Elapsed(now, old(lastUpdate)))
      ensures reqRateM15 == RateAfter(Over(exp, 900.0), old(reqRateM15), completionsDelta, Elapsed(now, old(lastUpdate)))
    {
      ghost var t := Sample(now, active, completionsDelta);
      Pushed(Over(exp, 60.0), Start(), ticks, t);
      Pushed(Over(exp, 300.0), Start(), ticks, t);
      Pushed(Over(exp, 900.0), Start(), ticks, t);
      ticks := ticks + [t];
      if active > 0 || completionsDelta > 0 {
        lastActivity := now;
      }
      completionsTotal := completionsTotal + completionsDelta;
      AdvanceTo(now, active, completionsDelta);
    }

    /** Brings the averages and rates to `now`. */
    method AdvanceTo(now: real, active: nat, completionsDelta: nat)
      modifies this`loadM1, this`loadM5, this`loadM15, this`lastUpdate, this`lastActive
      modifies this`reqRateM1, this`reqRateM5, this`reqRateM15
      ensures Meter(loadM1, lastUpdate, lastActive)
           == Advance(Over(exp, 60.0), old(Meter(loadM1, lastUpdate, lastActive)), Sample(now, active, completionsDelta))
      ensures Meter(loadM5, lastUpdate, lastActive)
           == Advance(Over(exp, 300.0), old(Meter(loadM5, lastUpdate, lastActive)), Sample(now, active, completionsDelta))
      ensures Meter(loadM15, lastUpdate, lastActive)
           == Advance(Over(exp, 900.0), old(Meter(loadM15, lastUpdate, lastActive)), Sample(now, active, completionsDelta))
      ensures reqRateM1 == RateAfter(Over(exp, 60.0), old(reqRateM1), completionsDelta, Elapsed(now, old(lastUpdate)))
      ensures reqRateM5 == RateAfter(Over(exp, 300.0), old(reqRateM5), completionsDelta, Elapsed(now, old(lastUpdate)))
      ensures reqRateM15 == RateAfter(Over(exp, 900.0), old(reqRateM15), completionsDelta, Elapsed(now, old(lastUpdate)))
    {
      var dt := Elapsed(now, lastUpdate);
      if dt > 0.0 {
        UpdateRates(completionsDelta, dt);
        UpdateLoads(lastActive as real, dt);
      }
      lastUpdate := now;
      lastActive := active;
    }

    /** The averages decay with the old active count. */
    method UpdateLoads(activeF: real, dt: real)
      modifies this`loadM1, this`loadM5, this`loadM15
      ensures loadM1 == Blend(Over(exp, 60.0), old(loadM1), activeF, dt)
      ensures loadM5 == Blend(Over(exp, 300.0), old(loadM5), activeF, dt)
      ensures loadM15 == Blend(Over(exp, 900.0), old(loadM15), activeF, dt)
    {
      var alpha1, alpha5, alpha15 := 1.0 - exp(dt / 60.0), 1.0 - exp(dt / 300.0), 1.0 - exp(dt / 900.0);
      EmaIsBlend(Over(exp, 60.0), loadM1, activeF, dt);
      EmaIsBlend(Over(exp, 300.0), loadM5, activeF, dt);
      EmaIsBlend(Over(exp, 900.0), loadM15, activeF, dt);
      loadM1 := Ema(loadM1, activeF, alpha1);
      loadM5 := Ema(loadM5, activeF, alpha5);
      loadM15 := Ema(loadM15, activeF, alpha15);
    }

    /** Rates decay, and rise by the completions of the interval per minute. */
    method UpdateRates(completionsDelta: nat, dt: real)
      requires dt > 0.0
      modifies this`reqRateM1, this`reqRateM5, this`reqRateM15
      ensures reqRateM1 == RateAfter(Over(exp, 60.0), old(reqRateM1), completionsDelta, dt)
      ensures reqRateM5 == RateAfter(Over(exp, 300.0), old(reqRateM5), completionsDelta, dt)
      ensures reqRateM15 == RateAfter(Over(exp, 900.0), old(reqRateM15), completionsDelta, dt)
    {
      var alpha1, alpha5, alpha15 := 1.0 - exp(dt / 60.0), 1.0 - exp(dt / 300.0), 1.0 - exp(dt / 900.0);
      if completionsDelta > 0 {
        var ratePerMin := completionsDelta as real / (dt / MINUTE);
        EmaIsBlend(Over(exp, 60.0), reqRateM1, ratePerMin, dt);
        EmaIsBlend(Over(exp, 300.0), reqRateM5, ratePerMin, dt);
        EmaIsBlend(Over(exp, 900.0), reqRateM15, ratePerMin, dt);
        reqRateM1 := Ema(reqRateM1, ratePerMin, alpha1);
        reqRateM5 := Ema(reqRateM5, ratePerMin, alpha5);
        reqRateM15 := Ema(reqRateM15, ratePerMin, alpha15);
      } else {
        OnlyFades(Over(exp, 60.0), reqRateM1, dt);
        OnlyFades(Over(exp, 300.0), reqRateM5, dt);
        OnlyFades(Over(exp, 900.0), reqRateM15, dt);
        reqRateM1 := reqRateM1 * (1.0 - alpha1);
        reqRateM5 := reqRateM5 * (1.0 - alpha5);
        reqRateM15 := reqRateM15 * (1.0 - alpha15);
      }
    }
  }

  /** A rate decays towards the completions of the interval per minute. */
  function RateAfter(D: real -> real, rate: real, delta: nat, dt: real): real {
    if dt > 0.0 then Blend(D, rate, delta as real / (dt / MINUTE), dt) else rate
  }

  /** Without completions a rate only decays. */
  lemma OnlyFades(D: real -> real, rate: real, dt: real)
    requires dt > 0.0
    ensures RateAfter(D, rate, 0, dt) == rate * (1.0 - (1.0 - D(dt)))
  {
    var none := 0 as real / (dt / MINUTE);
    assert none * (dt / MINUTE) == 0.0;
    assert none == 0.0;
    assert none * (1.0 - D(dt)) == 0.0;
  }

  lemma PerMinute(delta: real, dt: real)
    requires dt > 0.0
    ensures delta / (dt / 60.0) == 60.0 * (delta / dt)
  {
    var r := delta / dt;
    assert r * dt == delta;
    assert 60.0 * r * (dt / 60.0) == delta;
  }

  /** A rate is in completions per minute: it stays where it is exactly while
      that many are completed, and between the two otherwise. */
  lemma RateIsPerMinute(D: Decaying, rate: real, delta: nat, dt: real)
    requires dt > 0.0
    ensures RateAfter(D, rate, delta, dt) == rate * D(dt) + 60.0 * (delta as real / dt) * (1.0 - D(dt))
    ensures rate == 60.0 * (delta as real / dt) ==> RateAfter(D, rate, delta, dt) == rate
  {
    PerMinute(delta as real, dt);
    var d := D(dt);
    assert rate * d + rate * (1.0 - d) == rate;
  }

  /** The usual step of an exponential moving average. */
  function Ema(average: real, sample: real, alpha: real): real {
    average * (1.0 - alpha) + sample * alpha
  }

  lemma Pushed(D: real -> real, m: Meter, ticks: seq<Sample>, t: Sample)
    ensures Run(D, m, ticks + [t]) == Advance(D, Run(D, m, ticks), t)
    ensures Deltas(ticks + [t]) == Deltas(ticks) + t.delta
  {
    assert (ticks + [t])[..|ticks|] == ticks;
  }

  lemma EmaIsBlend(D: real -> real, load: real, active: real, dt: real)
    ensures Ema(load, active, 1.0 - D(dt)) == Blend(D, load, active, dt)
  {
    assert 1.0 - (1.0 - D(dt)) == D(dt);
  }
}
