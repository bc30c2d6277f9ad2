/** What one wake-up does: the loop's closed form. */
module Waking {
  import opened Base
  import opened Types
  import opened Machine

  /** How many waiters at the head of a queue have vanished. */
  function Vanished(q: seq<WaiterId>, gone: set<WaiterId>): (k: nat)
    ensures k <= |q|
    ensures forall j :: 0 <= j < k ==> q[j] in gone
    ensures k < |q| ==> q[k] !in gone
  {
    if q == [] || q[0] !in gone then 0 else 1 + Vanished(q[1..], gone)
  }

  function AddEvents(events: map<ModelName, nat>, m: ModelName, k: nat): map<ModelName, nat> {
    if k == 0 then events else Bump(events, m, k)
  }

  /** The lobby after `k` vanished head waiters and `served` more have left
      the queue; every vanished one cost a phantom release event. */
  function Passed(lobby: Lobby, m: ModelName, k: nat, served: nat): Lobby
    requires k + served <= |Queue(lobby, m)|
  {
    SetQueue(lobby, m, Queue(lobby, m)[k + served..]).(events := AddEvents(lobby.events, m, k))
  }

  /** Without a waiter or without capacity nothing changes; otherwise the
      vanished waiters at the head are passed over and the earliest-pushed
      waiter that is still there is handed a slot of the least-loaded ready
      instance. */
  function WakeResult(env: Env, s: State, m: ModelName): State {
    var q := Queue(s.lobby, m);
    if m !in env.configs || q == [] || FindReady(env, s.fleet, m).None? then s else
    var k := Vanished(q, s.lobby.gone);
    if k == |q| then s.(lobby := Passed(s.lobby, m, k, 0))
    else Acquire(s.(lobby := Passed(s.lobby, m, k, 1)), FindReady(env, s.fleet, m).value, Inbox(q[k]))
  }

  lemma {:induction false} WakeClosedForm(env: Env, s: State, m: ModelName)
    ensures WakeOne(env, s, m) == WakeResult(env, s, m)
    decreases |Queue(s.lobby, m)|
  {
    var q := Queue(s.lobby, m);
    if m in env.configs && q != [] && FindReady(env, s.fleet, m).Some? {
      if q[0] in s.lobby.gone {
        var t := s.(lobby := SetQueue(s.lobby, m, q[1..]).(events := Bump(s.lobby.events, m, 1)));
        WakeClosedForm(env, t, m);
        PassOne(s.lobby, t.lobby, m);
      } else {
        assert Passed(s.lobby, m, 0, 1) == SetQueue(s.lobby, m, q[1..]);
      }
    }
  }

  /** Passing one waiter and then `k - 1` more is passing `k`. */
  lemma PassMore(lobby: Lobby, next: Lobby, m: ModelName, k: nat, served: nat)
    requires k > 0 && k + served <= |Queue(lobby, m)|
    requires next == SetQueue(lobby, m, Queue(lobby, m)[1..]).(events := Bump(lobby.events, m, 1))
    ensures k - 1 + served <= |Queue(next, m)| && Passed(lobby, m, k, served) == Passed(next, m, k - 1, served)
  {
    var q := Queue(lobby, m);
    assert q[1..][k - 1 + served..] == q[k + served..];
    assert AddEvents(next.events, m, k - 1) == AddEvents(lobby.events, m, k);
  }

  lemma PassOne(lobby: Lobby, next: Lobby, m: ModelName)
    requires Queue(lobby, m) != [] && Queue(lobby, m)[0] in lobby.gone
    requires next == SetQueue(lobby, m, Queue(lobby, m)[1..]).(events := Bump(lobby.events, m, 1))
    ensures var k := Vanished(Queue(lobby, m), lobby.gone);
            && k > 0 && Vanished(Queue(next, m), next.gone) == k - 1
            && Queue(next, m) == Queue(lobby, m)[1..]
            && Passed(lobby, m, k, 0) == Passed(next, m, k - 1, 0)
            && (k < |Queue(lobby, m)| ==> Passed(lobby, m, k, 1) == Passed(next, m, k - 1, 1))
            && (Queue(next, m) == [] ==> Passed(next, m, k - 1, 0) == next)
  {
    var q := Queue(lobby, m);
    var k := Vanished(q, lobby.gone);
    PassMore(lobby, next, m, k, 0);
    if k < |q| {
      PassMore(lobby, next, m, k, 1);
    }
    if |q| == 1 {
    }
  }

  /** A wake either changes the lobby only, or also hands one slot to a waiter. */
  predicate WakeHands(env: Env, s: State, m: ModelName) {
    var q := Queue(s.lobby, m);
    m in env.configs && q != [] && FindReady(env, s.fleet, m).Some? && Vanished(q, s.lobby.gone) < |q|
  }

  lemma WakeCases(env: Env, s: State, m: ModelName)
    ensures var t := WakeOne(env, s, m);
            if WakeHands(env, s, m)
            then t == Acquire(s.(lobby := t.lobby), FindReady(env, s.fleet, m).value,
                              Inbox(Queue(s.lobby, m)[Vanished(Queue(s.lobby, m), s.lobby.gone)]))
            else t == s.(lobby := t.lobby)
  {
    WakeClosedForm(env, s, m);
  }

  /** A wake lengthens no queue and moves no instance. */
  lemma WakeShortens(env: Env, s: State, m: ModelName, n: ModelName)
    ensures var t := WakeOne(env, s, m);
            && |Queue(t.lobby, n)| <= |Queue(s.lobby, n)|
            && t.fleet.info == s.fleet.info && t.fleet.registry == s.fleet.registry && t.fleet.stage == s.fleet.stage
  {
    WakeClosedForm(env, s, m);
  }
}
