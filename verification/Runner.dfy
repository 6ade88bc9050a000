/** n2's task runner: how many commands are out, and the thread slot each one holds. */
module Runner {
  import opened BuildGraph
  import opened Sequences

  /** Each task holds a claimed slot of its own, and every claimed slot is held. */
  ghost predicate Claimed(slots: seq<bool>, tasks: map<BuildId, nat>) {
    && (forall b | b in tasks :: tasks[b] < |slots| && slots[tasks[b]])
    && (forall b, c | b in tasks && c in tasks && b != c :: tasks[b] != tasks[c])
    && (forall i | 0 <= i < |slots| && slots[i] :: i in tasks.Values)
  }

  lemma ClaimedStart(slots: seq<bool>, tasks: map<BuildId, nat>, id: BuildId, tid: nat, slots': seq<bool>)
    requires Claimed(slots, tasks) && id !in tasks
    requires tid == |slots| || (tid < |slots| && !slots[tid])
    requires slots' == if tid == |slots| then slots + [true] else slots[tid := true]
    ensures Claimed(slots', tasks[id := tid])
  {
    var tasks' := tasks[id := tid];
    assert tasks'[id] == tid;
    forall i | 0 <= i < |slots'| && slots'[i]
      ensures i in tasks'.Values
    {
      if i != tid {
        var b :| b in tasks && tasks[b] == i;
        assert tasks'[b] == i;
      }
    }
  }

  lemma ClaimedFinish(slots: seq<bool>, tasks: map<BuildId, nat>, id: BuildId)
    requires Claimed(slots, tasks) && id in tasks
    ensures Claimed(slots[tasks[id] := false], tasks - {id})
  {
    forall i | 0 <= i < |slots| && slots[tasks[id] := false][i]
      ensures i in (tasks - {id}).Values
    {
      var b :| b in tasks && tasks[b] == i;
      assert (tasks - {id})[b] == i;
    }
  }

  lemma {:induction false} FewerValues(tasks: map<BuildId, nat>)
    ensures |tasks.Values| <= |tasks|
    decreases |tasks|
  {
    if tasks != map[] {
      var b :| b in tasks;
      var rest := tasks - {b};
      assert tasks.Keys == rest.Keys + {b};
      FewerValues(rest);
      forall v | v in tasks.Values
        ensures v in rest.Values + {tasks[b]}
      {
        var c :| c in tasks && tasks[c] == v;
        assert c != b ==> rest[c] == v;
      }
      SubsetCardinality(tasks.Values, rest.Values + {tasks[b]});
    }
  }

  /** The lowest slot that no task holds. */
  ghost predicate LowestFree(tasks: map<BuildId, nat>, tid: nat) {
    tid !in tasks.Values && forall i: nat | i < tid :: i in tasks.Values
  }

  lemma TakenBelow(slots: seq<bool>, tasks: map<BuildId, nat>, tid: nat)
    requires Claimed(slots, tasks) && tid <= |slots| && forall i | 0 <= i < tid :: slots[i]
    ensures forall i: nat | i < tid :: i in tasks.Values
  {
  }

  /** When every slot is claimed there are no more slots than tasks. */
  lemma AllClaimed(slots: seq<bool>, tasks: map<BuildId, nat>)
    requires Claimed(slots, tasks) && forall i | 0 <= i < |slots| :: slots[i]
    ensures |slots| <= |tasks|
  {
    FewerValues(tasks);
    SubsetCardinality(Upto(|slots|), tasks.Values);
  }

  class Runner {
    const parallelism: nat
    var running: nat
    /** Slot i is claimed by a running task. */
    var slots: seq<bool>
    /** The tasks that are out, with the slot each one claimed. */
    var tasks: map<BuildId, nat>

    ghost predicate Valid()
      reads this
    {
      running == |tasks| <= parallelism && |slots| <= parallelism && Claimed(slots, tasks)
    }

    constructor (parallelism: nat)
      ensures Valid() && tasks == map[] && this.parallelism == parallelism
    {
      this.parallelism := parallelism;
      running := 0;
      slots := [];
      tasks := map[];
    }

    predicate CanStartMore()
      reads this
    {
      running < parallelism
    }

    /** Starts a task in the lowest free slot; there are never more slots than tasks allowed. */
    method Start(id: BuildId)
      requires Valid() && CanStartMore() && id !in tasks
      modifies this
      ensures Valid()
      ensures exists tid: nat :: tasks == old(tasks)[id := tid] && LowestFree(old(tasks), tid)
    {
      hide Claimed;
      var tid: nat := 0;
      while tid < |slots| && slots[tid]
        invariant tid <= |slots| && forall i | 0 <= i < tid :: slots[i]
      {
        tid := tid + 1;
      }
      if tid == |slots| {
        AllClaimed(slots, tasks);
      }
      FreeSlot(slots, tasks, tid);
      TakenBelow(slots, tasks, tid);
      assert LowestFree(tasks, tid);
      ghost var slots0 := slots;
      slots := if tid == |slots| then slots + [true] else slots[tid := true];
      ClaimedStart(slots0, tasks, id, tid, slots);
      running := running + 1;
      tasks := tasks[id := tid];
      assert LowestFree(old(tasks), tid) && tasks == old(tasks)[id := tid];
    }

    /** The report of a finished task: its slot is free again. */
    method Finish(id: BuildId)
      requires Valid() && id in tasks
      modifies this
      ensures Valid() && tasks == old(tasks) - {id}
    {
      ClaimedFinish(slots, tasks, id);
      hide Claimed;
      slots := slots[tasks[id] := false];
      running := running - 1;
      assert tasks.Keys == (tasks - {id}).Keys + {id};
      tasks := tasks - {id};
    }
  }

  lemma FreeSlot(slots: seq<bool>, tasks: map<BuildId, nat>, tid: nat)
    requires Claimed(slots, tasks) && (tid >= |slots| || !slots[tid])
    ensures tid !in tasks.Values
  {
  }
}
