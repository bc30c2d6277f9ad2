/** The per-GPU keep-alive manager: reference counts, and one live task per
    occupied slot, against the references a history of calls leaves held. */
module KeepAlive {
  import opened Base
  import opened Types

  type TaskId = nat

  // ── What a history of calls leaves held ─────────────────────────────────

  datatype Call = Acquire(slot: Slot) | Release(slot: Slot)

  /** References held on a slot; a release that finds none is ignored. */
  function Held(calls: seq<Call>, s: Slot): nat {
    if calls == [] then 0 else
    var before := Held(calls[..|calls| - 1], s);
    if calls[|calls| - 1] == Acquire(s) then before + 1
    else if calls[|calls| - 1] == Release(s) && before > 0 then before - 1
    else before
  }

  function Acquired(calls: seq<Call>, s: Slot): nat {
    if calls == [] then 0 else Acquired(calls[..|calls| - 1], s) + (if calls[|calls| - 1] == Acquire(s) then 1 else 0)
  }

  function Released(calls: seq<Call>, s: Slot): nat {
    if calls == [] then 0 else Released(calls[..|calls| - 1], s) + (if calls[|calls| - 1] == Release(s) then 1 else 0)
  }

  /** At no time were more references of the slot released than acquired. */
  ghost predicate Paired(calls: seq<Call>, s: Slot) {
    forall k :: 0 <= k <= |calls| ==> Released(calls[..k], s) <= Acquired(calls[..k], s)
  }

  lemma PairedFront(calls: seq<Call>, s: Slot)
    requires calls != []
    ensures Paired(calls, s) <==> Paired(calls[..|calls| - 1], s) && Released(calls, s) <= Acquired(calls, s)
  {
    var front := calls[..|calls| - 1];
    assert calls[..|calls|] == calls;
    assert forall k :: 0 <= k <= |front| ==> front[..k] == calls[..k];
    if Paired(front, s) && Released(calls, s) <= Acquired(calls, s) {
      forall k | 0 <= k <= |calls| ensures Released(calls[..k], s) <= Acquired(calls[..k], s) {
        assert k < |calls| ==> calls[..k] == front[..k];
      }
    }
    if Paired(calls, s) {
      forall k | 0 <= k <= |front| ensures Released(front[..k], s) <= Acquired(front[..k], s) {
        assert calls[..k] == front[..k];
      }
      assert Released(calls[..|calls|], s) <= Acquired(calls[..|calls|], s);
    }
  }

  /** What is held is what was acquired less what was released, whatever the
      interleaving, if and only if releases were always paired with earlier
      acquires; otherwise too much stays held. */
  lemma {:induction false} HeldIsBalance(calls: seq<Call>, s: Slot)
    ensures Held(calls, s) == Acquired(calls, s) - Released(calls, s) <==> Paired(calls, s)
    ensures Held(calls, s) >= Acquired(calls, s) - Released(calls, s)
    decreases |calls|
  {
    if calls == [] {
      assert forall k :: 0 <= k <= |calls| ==> calls[..k] == [];
    } else {
      HeldIsBalance(calls[..|calls| - 1], s);
      PairedFront(calls, s);
    }
  }

  /** Everything released: nothing is held. */
  lemma AllReturned(calls: seq<Call>, s: Slot)
    requires Paired(calls, s) && Acquired(calls, s) == Released(calls, s)
    ensures Held(calls, s) == 0
  {
    HeldIsBalance(calls, s);
  }

  // ── The manager ─────────────────────────────────────────────────────────

  class KeepAliveManager {
    const known: set<Slot>             // slots with a sysfs card index
    var refcounts: map<Slot, nat>
    var tasks: map<Slot, TaskId>
    var running: map<TaskId, Slot>     // background tasks not cancelled, and the slot each serves
    var nextTask: TaskId
    ghost var calls: seq<Call>         // since construction or the last `StopAll`

    /** A running task is the one filed under the slot it serves. */
    ghost predicate TasksOk()
      reads this`tasks, this`running, this`nextTask
    {
      && (forall s :: s in tasks ==> tasks[s] in running && running[tasks[s]] == s)
      && (forall t :: t in running ==> t < nextTask && running[t] in tasks && tasks[running[t]] == t)
    }

    ghost predicate CountsOk()
      reads this`refcounts, this`calls
    {
      && (forall s :: s in refcounts ==> refcounts[s] > 0)
      && (forall s :: Count(refcounts, s) == Held(calls, s))
    }

    /** The counts are the references held, and a task runs for every occupied
        known slot and for nothing else. */
    ghost predicate Valid()
      reads this
    {
      TasksOk() && CountsOk() && forall s :: s in tasks <==> s in refcounts && s in known
    }

    constructor (known: set<Slot>)
      ensures Valid() && calls == [] && this.known == known
    {
      this.known := known;
      refcounts, tasks, running, nextTask, calls := map[], map[], map[], 0, [];
    }

    /** Starts a task unless the slot is unknown or has one. */
    method StartTask(slot: Slot)
      requires TasksOk()
      modifies this`tasks, this`running, this`nextTask
      ensures TasksOk()
      ensures tasks.Keys == if slot in known then old(tasks).Keys + {slot} else old(tasks).Keys
      ensures forall s :: s in old(tasks) ==> tasks[s] == old(tasks)[s]
    {
      if slot !in known {
        return;
      }
      if slot in tasks {
        return;
      }
      tasks := tasks[slot := nextTask];
      running := running[nextTask := slot];
      nextTask := nextTask + 1;
    }

    /** Cancels the task of the slot, if there is one. */
    method StopTask(slot: Slot)
      requires TasksOk()
      modifies this`tasks, this`running
      ensures TasksOk() && tasks == old(tasks) - {slot}
    {
      if slot in tasks {
        running := running - {tasks[slot]};
        tasks := tasks - {slot};
      }
    }

    method Acquire(slot: Slot)
      requires Valid()
      modifies this
      ensures Valid() && calls == old(calls) + [Call.Acquire(slot)]
      ensures tasks.Keys == if slot in known then old(tasks).Keys + {slot} else old(tasks).Keys
    {
      calls := calls + [Call.Acquire(slot)];
      assert calls[..|calls| - 1] == old(calls);
      refcounts := Bump(refcounts, slot, 1);
      if refcounts[slot] == 1 {
        StartTask(slot);
      }
    }

    /** The task stops with the last reference, and not before. */
    method Release(slot: Slot)
      requires Valid()
      modifies this
      ensures Valid() && calls == old(calls) + [Call.Release(slot)]
      ensures tasks.Keys == if Held(old(calls), slot) <= 1 then old(tasks).Keys - {slot} else old(tasks).Keys
    {
      calls := calls + [Call.Release(slot)];
      assert calls[..|calls| - 1] == old(calls);
      if slot !in refcounts {
        return;
      }
      if refcounts[slot] > 1 {
        refcounts := refcounts[slot := refcounts[slot] - 1];
      } else {
        refcounts := refcounts - {slot};
        StopTask(slot);
      }
    }

    /** Every task is cancelled and every reference forgotten. */
    method StopAll()
      requires Valid()
      modifies this
      ensures Valid() && calls == [] && running == map[] && refcounts == map[]
    {
      while tasks != map[]
        invariant TasksOk()
        decreases tasks.Keys
      {
        var slot :| slot in tasks;
        StopTask(slot);
      }
      refcounts, calls := map[], [];
    }
  }
}
