/**
 n2's BuildStates: the state map, its redundant ready queue, the pools, and
 the counters, all updated by one method, Set.
 */
module N2States {
  import opened Wrappers
  import opened BuildGraph
  import opened Counting
  import opened Ordering
  import opened Sequences
  import opened WantWalk

  datatype BuildState = Unknown | Want | Ready | Queued | Running | Done | Failed

  /** States of builds the run still owes. */
  const PENDING: set<BuildState> := {Want, Ready, Queued, Running}

  /** The slot of a state in the counter array; Unknown has none. */
  function Slot(s: BuildState): (i: nat)
    requires s != Unknown
    ensures i < 6
  {
    match s
    case Want => 0
    case Ready => 1
    case Queued => 2
    case Running => 3
    case Done => 4
    case Failed => 5
  }

  datatype PoolState = PoolState(name: string, queued: seq<BuildId>, running: nat, depth: nat)
  {
    predicate HasRoom() {
      depth == 0 || running < depth
    }
  }

  /** The builds that run a command; the user-facing counters skip the others. */
  ghost function Commands(g: Graph): set<BuildId> {
    set b | b in AllBuilds(g) && !g.builds[b].Phony()
  }

  ghost function Members(g: Graph, pool: string): set<BuildId> {
    set b | b in AllBuilds(g) && g.builds[b].PoolName() == pool
  }

  // ---- What the redundant bookkeeping has to agree with. ----
  // `loose` holds builds taken off a queue whose state has yet to change.

  ghost predicate Counted(g: Graph, states: seq<BuildState>, counts: seq<nat>, totalPending: nat) {
    && |states| == |g.builds|
    && |counts| == 6
    && totalPending == |In(states, AllBuilds(g), PENDING)|
    && forall s: BuildState | s != Unknown :: counts[Slot(s)] == |In(states, Commands(g), {s})|
  }

  ghost predicate ReadyListed(g: Graph, states: seq<BuildState>, loose: set<BuildId>, ready: seq<BuildId>)
    requires |states| == |g.builds|
  {
    && NoDup(ready)
    && forall b: nat :: b in ready <==> b < |states| && b !in loose && states[b] == Ready
  }

  ghost predicate PoolAgrees(g: Graph, states: seq<BuildState>, loose: set<BuildId>, pool: PoolState)
    requires |states| == |g.builds|
  {
    && NoDup(pool.queued)
    && (forall b: nat :: b in pool.queued <==>
                         b < |states| && b !in loose && states[b] == Queued && g.builds[b].PoolName() == pool.name)
    && pool.running == |In(states, Members(g, pool.name), {Running})|
    && (pool.depth == 0 || pool.running <= pool.depth)
  }

  predicate HasPool(pools: seq<PoolState>, name: string) {
    exists k | 0 <= k < |pools| :: pools[k].name == name
  }

  ghost predicate PoolsAgree(g: Graph, states: seq<BuildState>, loose: set<BuildId>, pools: seq<PoolState>)
    requires |states| == |g.builds|
  {
    && (forall i, j | 0 <= i < j < |pools| :: pools[i].name != pools[j].name)
    && (forall k | 0 <= k < |pools| :: PoolAgrees(g, states, loose, pools[k]))
    && (forall b | 0 <= b < |states| && (states[b] == Running || (states[b] == Queued && b !in loose)) ::
          HasPool(pools, g.builds[b].PoolName()))
  }

  // ---- What the states mean for the order of the builds. ----

  ghost predicate Ordered(g: WfGraph, states: seq<BuildState>, order: seq<BuildId>) {
    && |states| == |g.builds|
    && Topological(g, order)
    && forall b: nat :: b in order <==> b < |states| && states[b] != Unknown
  }

  ghost predicate AllDone(states: seq<BuildState>, ps: set<BuildId>) {
    forall p | p in ps :: p < |states| && states[p] == Done
  }

  /**
   A build past Want has all its ordering inputs' producers Done, and a Want
   build has one that is not; `stale` holds Want builds still to be rechecked.
   */
  ghost predicate Progressed(g: WfGraph, states: seq<BuildState>, stale: set<BuildId>)
    requires |states| == |g.builds|
  {
    forall b | 0 <= b < |states| ::
      && (states[b] !in {Unknown, Want} ==> AllDone(states, Deps(g, b)))
      && (states[b] == Want && b !in stale ==> !AllDone(states, Deps(g, b)))
  }

  /** How a walk may change the state map: it wants builds within `limit`, and nothing else. */
  ghost predicate OnlyWants(before: seq<BuildState>, after: seq<BuildState>, limit: set<BuildId>) {
    && |before| == |after|
    && forall b | 0 <= b < |before| ::
         after[b] == before[b] || (b in limit && before[b] == Unknown && after[b] in {Want, Ready})
  }

  /** A pool of this name replaces an earlier one, as in a list-backed map. */
  function InsertPool(pools: seq<PoolState>, p: PoolState): (r: seq<PoolState>)
    ensures forall name :: HasPool(r, name) <==> HasPool(pools, name) || name == p.name
    ensures (forall i, j | 0 <= i < j < |pools| :: pools[i].name != pools[j].name) ==>
              forall i, j | 0 <= i < j < |r| :: r[i].name != r[j].name
    ensures forall q | q in r :: q == p || (q in pools && q.name != p.name)
  {
    if HasPool(pools, p.name) then
      var r := seq(|pools|, i requires 0 <= i < |pools| => if pools[i].name == p.name then p else pools[i]);
      assert forall i | 0 <= i < |r| :: r[i].name == pools[i].name;
      r
    else
      var r := pools + [p];
      assert r[|pools|] == p && forall i | 0 <= i < |pools| :: r[i] == pools[i];
      r
  }

  // ---- One state change, seen by each part of the bookkeeping. ----

  lemma PoolMoves(g: Graph, states: seq<BuildState>, loose: set<BuildId>, loose': set<BuildId>,
                  pool: PoolState, pool': PoolState, id: BuildId, state: BuildState)
    requires |states| == |g.builds| && id < |states|
    requires PoolAgrees(g, states, loose, pool)
    requires id in loose || states[id] != Queued
    requires loose - {id} == loose' - {id} && (state == Queued ==> id in loose')
    requires pool' == pool.(running := pool'.running)
    requires var member := g.builds[id].PoolName() == pool.name;
             pool'.running + Bit(member && states[id] == Running) == pool.running + Bit(member && state == Running)
    requires pool.depth == 0 || pool'.running <= pool.depth
    ensures PoolAgrees(g, states[id := state], loose', pool')
  {
    Moved(states, Members(g, pool.name), {Running}, id, state);
    forall b: nat
      ensures b in pool.queued <==>
              b < |states| && b !in loose' && states[id := state][b] == Queued && g.builds[b].PoolName() == pool.name
    {
      if b != id {
        assert b in loose <==> b in loose - {id};
        assert b in loose' <==> b in loose' - {id};
      }
    }
  }

  lemma PoolsMove(g: Graph, states: seq<BuildState>, loose: set<BuildId>, loose': set<BuildId>,
                  pools: seq<PoolState>, pools': seq<PoolState>, id: BuildId, state: BuildState)
    requires |states| == |g.builds| && id < |states|
    requires PoolsAgree(g, states, loose, pools)
    requires id in loose || states[id] != Queued
    requires loose - {id} == loose' - {id} && (state == Queued ==> id in loose')
    requires state == Running ==> HasPool(pools, g.builds[id].PoolName())
    requires |pools'| == |pools| && forall k | 0 <= k < |pools| ::
               var member := g.builds[id].PoolName() == pools[k].name;
               && pools'[k] == pools[k].(running := pools'[k].running)
               && pools'[k].running + Bit(member && states[id] == Running) == pools[k].running + Bit(member && state == Running)
               && (pools[k].depth == 0 || pools'[k].running <= pools[k].depth)
    ensures PoolsAgree(g, states[id := state], loose', pools')
  {
    forall k | 0 <= k < |pools'|
      ensures PoolAgrees(g, states[id := state], loose', pools'[k])
    {
      PoolMoves(g, states, loose, loose', pools[k], pools'[k], id, state);
    }
    forall b | 0 <= b < |states| && (states[id := state][b] == Running || (states[id := state][b] == Queued && b !in loose'))
      ensures HasPool(pools', g.builds[b].PoolName())
    {
      assert b != id ==> (b in loose <==> b in loose - {id});
      assert b != id ==> (b in loose' <==> b in loose' - {id});
      assert HasPool(pools, g.builds[b].PoolName());
      var k :| 0 <= k < |pools| && pools[k].name == g.builds[b].PoolName();
      assert pools'[k].name == pools[k].name;
    }
  }

  lemma CountsMove(g: Graph, states: seq<BuildState>, counts: seq<nat>, counts': seq<nat>,
                   totalPending: nat, totalPending': nat, id: BuildId, state: BuildState)
    requires Counted(g, states, counts, totalPending) && id < |states| && state != Unknown
    requires totalPending' + Bit(states[id] in PENDING) == totalPending + Bit(state in PENDING)
    requires |counts'| == 6 && forall s: BuildState | s != Unknown ::
               var seen := !g.builds[id].Phony();
               counts'[Slot(s)] + Bit(seen && states[id] == s) == counts[Slot(s)] + Bit(seen && state == s)
    ensures Counted(g, states[id := state], counts', totalPending')
  {
    Moved(states, AllBuilds(g), PENDING, id, state);
    forall s: BuildState | s != Unknown
      ensures counts'[Slot(s)] == |In(states[id := state], Commands(g), {s})|
    {
      Moved(states, Commands(g), {s}, id, state);
    }
  }

  /** A build that is in a state is counted there, so the counter can go down. */
  lemma CountedPositive(g: Graph, states: seq<BuildState>, counts: seq<nat>, totalPending: nat, id: BuildId)
    requires Counted(g, states, counts, totalPending) && id < |states|
    ensures |counts| == 6 && |states| == |g.builds|
    ensures states[id] != Unknown && !g.builds[id].Phony() ==> counts[Slot(states[id])] > 0
    ensures states[id] in PENDING ==> totalPending > 0
  {
    NoneIn(states, Commands(g), {states[id]});
    NoneIn(states, AllBuilds(g), PENDING);
  }

  lemma ReadyMoves(g: Graph, states: seq<BuildState>, loose: set<BuildId>, loose': set<BuildId>,
                   ready: seq<BuildId>, id: BuildId, state: BuildState)
    requires |states| == |g.builds| && id < |states| && ReadyListed(g, states, loose, ready)
    requires id in loose || states[id] != Ready
    requires loose - {id} == loose' - {id} && (state == Ready ==> id !in loose')
    ensures ReadyListed(g, states[id := state], loose', if state == Ready then ready + [id] else ready)
  {
    NoDupAppend(ready, id);
    forall b: nat
      ensures b in (if state == Ready then ready + [id] else ready) <==>
              b < |states| && b !in loose' && states[id := state][b] == Ready
    {
      if b != id {
        assert b in loose <==> b in loose - {id};
        assert b in loose' <==> b in loose' - {id};
      }
    }
  }

  lemma OrderedAppend(g: WfGraph, states: seq<BuildState>, order: seq<BuildId>, id: BuildId, state: BuildState)
    requires Ordered(g, states, order)
    requires id < |states| && states[id] == Unknown && state != Unknown
    requires forall p | p in Deps(g, id) :: states[p] != Unknown
    ensures Ordered(g, states[id := state], order + [id])
  {
    NoDupAppend(order, id);
    forall i | 0 <= i < |order + [id]|
      ensures Deps(g, (order + [id])[i]) <= Elements((order + [id])[..i])
    {
      if i < |order| {
        assert (order + [id])[..i] == order[..i];
      } else {
        assert (order + [id])[..i] == order;
      }
    }
  }

  lemma PastWant(g: WfGraph, states: seq<BuildState>, stale: set<BuildId>, id: BuildId)
    requires |states| == |g.builds| && Progressed(g, states, stale) && id < |states|
    ensures states[id] !in {Unknown, Want} ==> AllDone(states, Deps(g, id))
    ensures states[id] == Want && id !in stale ==> !AllDone(states, Deps(g, id))
  {
  }

  lemma ProgressedWant(g: WfGraph, states: seq<BuildState>, id: BuildId, state: BuildState)
    requires |states| == |g.builds| && Progressed(g, states, {})
    requires id < |states| && states[id] in {Unknown, Want}
    requires state == if AllDone(states, Deps(g, id)) then Ready else Want
    ensures Progressed(g, states[id := state], {})
  {
    var after := states[id := state];
    forall b | 0 <= b < |states|
      ensures AllDone(after, Deps(g, b)) <==> AllDone(states, Deps(g, b))
    {
      if AllDone(after, Deps(g, b)) {
        assert forall p | p in Deps(g, b) :: after[p] == Done;
      }
    }
  }

  ghost predicate FileWanted(g: WfGraph, states: seq<BuildState>, f: FileId) {
    f < |g.files| && (Producer(g, f).Some? ==>
                        Producer(g, f).value < |states| && states[Producer(g, f).value] != Unknown)
  }

  ghost predicate FileDone(g: WfGraph, states: seq<BuildState>, f: FileId) {
    f < |g.files| && (Producer(g, f).Some? ==>
                        Producer(g, f).value < |states| && states[Producer(g, f).value] == Done)
  }

  /** The validation inputs of every visited build outside `open` have been visited too. */
  ghost predicate Validated(g: WfGraph, states: seq<BuildState>, open: set<BuildId>)
    requires |states| == |g.builds|
  {
    forall b | 0 <= b < |states| && states[b] != Unknown && b !in open ::
      g.builds[b].Sized() && forall f | f in g.builds[b].ValidationIns() :: FileWanted(g, states, f)
  }

  lemma OnlyWantsKeeps(g: WfGraph, before: seq<BuildState>, after: seq<BuildState>, limit: set<BuildId>)
    requires |before| == |g.builds| && OnlyWants(before, after, limit)
    ensures forall f :: FileDone(g, after, f) <==> FileDone(g, before, f)
    ensures forall f :: FileWanted(g, before, f) ==> FileWanted(g, after, f)
  {
  }

  lemma OnlyWantsRefl(states: seq<BuildState>, limit: set<BuildId>)
    ensures OnlyWants(states, states, limit)
  {
  }

  lemma OnlyWantsTrans(a: seq<BuildState>, b: seq<BuildState>, c: seq<BuildState>, limit: set<BuildId>)
    requires OnlyWants(a, b, limit) && OnlyWants(b, c, limit)
    ensures OnlyWants(a, c, limit)
  {
  }

  /** The producers of the ordering inputs, seen through the files. */
  lemma DepsByFile(g: WfGraph, states: seq<BuildState>, id: BuildId)
    requires id < |g.builds| && |states| == |g.builds|
    ensures g.builds[id].Sized() && forall f | f in g.builds[id].ins :: f < |g.files|
    ensures forall f | f in g.builds[id].OrderingIns() :: f in g.builds[id].ins
    ensures AllDone(states, Deps(g, id)) <==> forall f | f in g.builds[id].OrderingIns() :: FileDone(g, states, f)
    ensures (forall f | f in g.builds[id].OrderingIns() :: FileWanted(g, states, f)) ==>
              forall p | p in Deps(g, id) :: states[p] != Unknown
    ensures forall f | f in g.builds[id].ins && Producer(g, f).Some? ::
              Producer(g, f).value in Next(g, true, id)
  {
    assert g.BuildWellFormed(id);
    assert forall f | f in g.builds[id].OrderingIns() :: f in g.builds[id].ins;
    forall f | f in g.builds[id].OrderingIns()
      ensures g.FileWellFormed(f)
    {
    }
    if AllDone(states, Deps(g, id)) {
      forall f | f in g.builds[id].OrderingIns()
        ensures FileDone(g, states, f)
      {
        assert Producer(g, f).Some? ==> Producer(g, f).value in Deps(g, id);
      }
    }
  }

  lemma UnknownShrinks(g: Graph, before: seq<BuildState>, after: seq<BuildState>, limit: set<BuildId>, id: BuildId)
    requires |before| == |g.builds| && OnlyWants(before, after, limit)
    ensures |In(after, AllBuilds(g), {Unknown})| <= |In(before, AllBuilds(g), {Unknown})|
    ensures id < |before| && before[id] == Unknown != after[id] ==>
              |In(after, AllBuilds(g), {Unknown})| < |In(before, AllBuilds(g), {Unknown})|
  {
    FewerIn(before, after, AllBuilds(g), {Unknown});
    assert id < |before| && before[id] == Unknown ==> id in In(before, AllBuilds(g), {Unknown});
  }

  /** When a whole walk has returned, everything wanted is closed under every edge. */
  lemma ValidatedClosed(g: WfGraph, states: seq<BuildState>, order: seq<BuildId>)
    requires Ordered(g, states, order) && Validated(g, states, {})
    ensures Closed(g, true, Elements(order))
  {
    hide Topological, Ranked, Next;
    TopologicalRanked(g, order);
    forall b | b in order
      ensures Next(g, true, b) <= Elements(order)
    {
      ValidatedNext(g, states, order, b);
      assert Next(g, false, b) <= Elements(order);
    }
  }

  /** What a build leads to is what it is ordered after, and the makers of its validation inputs. */
  lemma ValidatedNext(g: WfGraph, states: seq<BuildState>, order: seq<BuildId>, b: BuildId)
    requires Ordered(g, states, order) && Validated(g, states, {}) && b in order
    ensures b < |g.builds| && forall p | p in Next(g, true, b) :: p in order || p in Next(g, false, b)
  {
    hide Topological;
    OrderedInRange(g, states, order);
    assert g.BuildWellFormed(b);
    var build := g.builds[b];
    assert build.ins == build.OrderingIns() + build.ValidationIns();
    forall p | p in Next(g, true, b)
      ensures p in order || p in Next(g, false, b)
    {
      var f :| f in build.ins && Producer(g, f) == Some(p);
      if f !in build.OrderingIns() {
        assert FileWanted(g, states, f);
      }
    }
  }

  lemma OrderedInRange(g: WfGraph, states: seq<BuildState>, order: seq<BuildId>)
    requires Ordered(g, states, order)
    ensures forall b | b in order :: b < |g.builds|
  {
  }

  /**
   Setting a build whose ordering inputs have all been visited since `before`.
   A visit to one of them may have set it already, over a validation edge;
   then it was set to Want, and Want is what it is set to again.
   */
  lemma EnterState(g: WfGraph, before: seq<BuildState>, states: seq<BuildState>, order: seq<BuildId>,
                   limit: set<BuildId>, id: BuildId, state: BuildState)
    requires Ordered(g, states, order) && Progressed(g, states, {})
    requires OnlyWants(before, states, limit) && id < |states| && before[id] == Unknown
    requires g.builds[id].Sized()
    requires forall f | f in g.builds[id].OrderingIns() :: FileWanted(g, states, f)
    requires state == if (forall f | f in g.builds[id].OrderingIns() :: FileDone(g, states, f)) then Ready else Want
    requires state == Ready ==> states == before
    ensures states[id] in {Unknown, Want}
    ensures Progressed(g, states[id := state], {})
    ensures Ordered(g, states[id := state], if states[id] == Unknown then order + [id] else order)
  {
    hide Topological, AllDone, Progressed;
    DepsByFile(g, states, id);
    PastWant(g, states, {}, id);
    ProgressedWant(g, states, id, state);
    if states[id] == Unknown {
      OrderedAppend(g, states, order, id, state);
    } else {
      assert states[id := state] == states;
    }
  }

  lemma WantedKeeps(g: WfGraph, before: seq<BuildState>, states: seq<BuildState>,
                    limit: set<BuildId>, id: BuildId, state: BuildState, open: set<BuildId>)
    requires |states| == |g.builds| && Validated(g, states, open) && OnlyWants(before, states, limit)
    requires id in limit && id < |states| && before[id] == Unknown && state in {Want, Ready}
    ensures OnlyWants(before, states[id := state], limit)
    ensures Validated(g, states[id := state], open + {id})
  {
  }

  lemma ValidatedClose(g: WfGraph, states: seq<BuildState>, open: set<BuildId>, id: BuildId)
    requires |states| == |g.builds| && id < |states| && Validated(g, states, open + {id})
    requires g.builds[id].Sized()
    requires forall f | f in g.builds[id].ValidationIns() :: FileWanted(g, states, f)
    ensures Validated(g, states, open)
  {
  }

  /** The builds reachable from the producer of `f`, itself included. */
  ghost function ReachedFrom(g: WfGraph, f: FileId): (r: set<BuildId>) {
    set b | b in AllBuilds(g) && f < |g.files| && Producer(g, f).Some? && Reaches(g, true, Producer(g, f).value, b)
  }

  lemma EntryReached(g: WfGraph, f: FileId)
    requires f < |g.files|
    ensures Before(g, false, [], f) && MadeIn(g, f, ReachedFrom(g, f)) && Closed(g, true, ReachedFrom(g, f))
  {
    assert g.FileWellFormed(f);
    if Producer(g, f).Some? {
      ReachesSelf(g, true, Producer(g, f).value);
    }
    forall b, c | b in ReachedFrom(g, f) && c in Next(g, true, b)
      ensures c in ReachedFrom(g, f)
    {
      ReachesOneMore(g, true, Producer(g, f).value, b, c);
    }
  }

  lemma WalkReached(g: WfGraph, states: seq<BuildState>, order: seq<BuildId>, f: FileId)
    requires Ordered(g, states, order) && Validated(g, states, {}) && FileWanted(g, states, f)
    ensures !CycleFrom(g, false, f)
    ensures forall b | b in ReachedFrom(g, f) :: b < |states| && states[b] != Unknown
  {
    hide Topological, Ranked;
    ValidatedClosed(g, states, order);
    if Producer(g, f).Some? {
      var p := Producer(g, f).value;
      assert g.FileWellFormed(f);
      TopologicalReachesNoCycle(g, order, p);
      forall b | b in ReachedFrom(g, f)
        ensures b in order
      {
        ClosedReaches(g, true, Elements(order), p, b);
      }
    }
  }

  // ---- Taking a build off a queue, and putting it on one. ----

  lemma PoolsLoosen(g: Graph, states: seq<BuildState>, pools: seq<PoolState>, id: BuildId)
    requires |states| == |g.builds| && PoolsAgree(g, states, {}, pools)
    requires id < |states| && states[id] == Ready
    ensures PoolsAgree(g, states, {id}, pools)
  {
    forall k | 0 <= k < |pools|
      ensures PoolAgrees(g, states, {id}, pools[k])
    {
      assert PoolAgrees(g, states, {}, pools[k]);
    }
  }

  lemma ReadyLoosen(g: Graph, states: seq<BuildState>, ready: seq<BuildId>)
    requires |states| == |g.builds| && ReadyListed(g, states, {}, ready) && ready != []
    ensures ready[0] < |states| && states[ready[0]] == Ready
    ensures ReadyListed(g, states, {ready[0]}, ready[1..])
  {
    assert ready[0] in ready;
    forall b: nat
      ensures b in ready[1..] <==> b in ready && b != ready[0]
    {
      if b in ready && b != ready[0] {
        var k :| 0 <= k < |ready| && ready[k] == b;
        assert ready[1..][k - 1] == b;
      }
    }
  }

  lemma ReadyLoosenOther(g: Graph, states: seq<BuildState>, ready: seq<BuildId>, id: BuildId)
    requires |states| == |g.builds| && ReadyListed(g, states, {}, ready)
    requires id < |states| && states[id] != Ready
    ensures ReadyListed(g, states, {id}, ready)
  {
  }

  lemma ReadyTighten(g: Graph, states: seq<BuildState>, ready: seq<BuildId>, id: BuildId)
    requires |states| == |g.builds| && ReadyListed(g, states, {id}, ready)
    requires id < |states| && states[id] != Ready
    ensures ReadyListed(g, states, {}, ready)
  {
  }

  lemma QueuePop(g: Graph, states: seq<BuildState>, pools: seq<PoolState>, i: nat)
    requires |states| == |g.builds| && PoolsAgree(g, states, {}, pools)
    requires i < |pools| && pools[i].queued != []
    ensures var id := pools[i].queued[0];
            && id < |states| && states[id] == Queued && g.builds[id].PoolName() == pools[i].name
            && PoolsAgree(g, states, {id}, pools[i := pools[i].(queued := pools[i].queued[1..])])
  {
    var queue := pools[i].queued;
    var id := queue[0];
    var after := pools[i := pools[i].(queued := queue[1..])];
    assert PoolAgrees(g, states, {}, pools[i]) && id in queue;
    assert forall b :: b in queue <==> b == id || b in queue[1..];
    forall k | 0 <= k < |pools|
      ensures PoolAgrees(g, states, {id}, after[k])
    {
      assert PoolAgrees(g, states, {}, pools[k]);
      assert k != i ==> pools[k].name != pools[i].name;
    }
    SameNames(pools, after);
  }

  lemma QueuePush(g: Graph, states: seq<BuildState>, pools: seq<PoolState>, i: nat, id: BuildId)
    requires |states| == |g.builds| && id < |states| && states[id] == Queued
    requires PoolsAgree(g, states, {id}, pools)
    requires i < |pools| && pools[i].name == g.builds[id].PoolName()
    ensures PoolsAgree(g, states, {}, pools[i := pools[i].(queued := pools[i].queued + [id])])
  {
    var after := pools[i := pools[i].(queued := pools[i].queued + [id])];
    forall k | 0 <= k < |pools|
      ensures PoolAgrees(g, states, {}, after[k])
    {
      assert PoolAgrees(g, states, {id}, pools[k]);
      assert k != i ==> pools[k].name != pools[i].name;
    }
    SameNames(pools, after);
    assert HasPool(pools, g.builds[id].PoolName());
  }

  lemma SameNames(pools: seq<PoolState>, after: seq<PoolState>)
    requires |pools| == |after| && forall k | 0 <= k < |pools| :: pools[k].name == after[k].name
    ensures forall name :: HasPool(after, name) <==> HasPool(pools, name)
  {
    forall name | HasPool(pools, name)
      ensures HasPool(after, name)
    {
      var k :| 0 <= k < |pools| && pools[k].name == name;
      assert after[k].name == name;
    }
  }

  lemma InitialAgrees(g: Graph, states: seq<BuildState>, pools: seq<PoolState>)
    requires |states| == |g.builds| && forall b | 0 <= b < |states| :: states[b] == Unknown
    requires forall k | 0 <= k < |pools| :: pools[k].queued == [] && pools[k].running == 0
    requires forall i, j | 0 <= i < j < |pools| :: pools[i].name != pools[j].name
    ensures PoolsAgree(g, states, {}, pools)
    ensures Counted(g, states, [0, 0, 0, 0, 0, 0], 0)
  {
    forall k | 0 <= k < |pools|
      ensures PoolAgrees(g, states, {}, pools[k])
    {
      NoneIn(states, Members(g, pools[k].name), {Running});
    }
    NoneIn(states, AllBuilds(g), PENDING);
    forall s: BuildState | s != Unknown
      ensures |In(states, Commands(g), {s})| == 0
    {
      NoneIn(states, Commands(g), {s});
    }
  }

  /** `id` was the first of the first queue that is not empty and whose pool has room. */
  ghost predicate TakenFrom(before: seq<PoolState>, after: seq<PoolState>, k: nat, id: BuildId) {
    && k < |before| && before[k].HasRoom() && before[k].queued != [] && before[k].queued[0] == id
    && after == before[k := before[k].(queued := before[k].queued[1..])]
    && forall j | 0 <= j < k :: before[j].HasRoom() ==> before[j].queued == []
  }

  /** `id` was put at the end of the queue of the pool of that name. */
  ghost predicate PutLast(before: seq<PoolState>, after: seq<PoolState>, k: nat, name: string, id: BuildId) {
    && k < |before| && before[k].name == name
    && after == before[k := before[k].(queued := before[k].queued + [id])]
  }

  /** The depth a pool of that name is given: the one declared last, or the one it has anyway. */
  function DepthOf(depths: seq<(string, nat)>, name: string): Option<nat> {
    if depths == [] then
      if name == "" then Some(0) else if name == "console" then Some(1) else None
    else if depths[|depths| - 1].0 == name then Some(depths[|depths| - 1].1)
    else DepthOf(depths[..|depths| - 1], name)
  }

  /** Idle pools of different names, each with its depth, and every name that has one. */
  ghost predicate PoolsFor(pools: seq<PoolState>, depths: seq<(string, nat)>) {
    && (forall k, j | 0 <= k < j < |pools| :: pools[k].name != pools[j].name)
    && (forall p | p in pools :: p.queued == [] && p.running == 0 && DepthOf(depths, p.name) == Some(p.depth))
    && (forall name :: HasPool(pools, name) <==> DepthOf(depths, name).Some?)
  }

  lemma PoolsForMore(pools: seq<PoolState>, depths: seq<(string, nat)>, d: (string, nat))
    requires PoolsFor(pools, depths)
    ensures PoolsFor(InsertPool(pools, PoolState(d.0, [], 0, d.1)), depths + [d])
  {
    hide HasPool, InsertPool;
    assert (depths + [d])[..|depths|] == depths;
  }

  /** The pools a run starts with: the two that always exist, and those that were declared. */
  method DeclarePools(depths: seq<(string, nat)>) returns (declared: seq<PoolState>)
    ensures PoolsFor(declared, depths)
  {
    hide PoolsFor, InsertPool;
    declared := [PoolState("", [], 0, 0), PoolState("console", [], 0, 1)];
    FirstPools(declared);
    for i := 0 to |depths|
      invariant PoolsFor(declared, depths[..i])
    {
      PrefixSnoc(depths, i);
      PoolsForMore(declared, depths[..i], depths[i]);
      declared := InsertPool(declared, PoolState(depths[i].0, [], 0, depths[i].1));
    }
    WholePrefix(depths);
  }

  lemma FirstPools(pools: seq<PoolState>)
    requires pools == [PoolState("", [], 0, 0), PoolState("console", [], 0, 1)]
    ensures PoolsFor(pools, [])
  {
    assert pools[0].name == "" && pools[1].name == "console";
  }

  lemma {:induction false} UnnamedHasDepth(depths: seq<(string, nat)>)
    ensures DepthOf(depths, "").Some?
    decreases |depths|
  {
    if depths != [] && depths[|depths| - 1].0 != "" {
      UnnamedHasDepth(depths[..|depths| - 1]);
    }
  }

  class BuildStates {
    const graph: WfGraph
    var states: seq<BuildState>
    var counts: seq<nat>
    var totalPending: nat
    var ready: seq<BuildId>
    var pools: seq<PoolState>
    /** The builds in the order they left Unknown. */
    ghost var order: seq<BuildId>

    ghost predicate Accounts(loose: set<BuildId>)
      reads this
    {
      && |states| == |graph.builds|
      && Counted(graph, states, counts, totalPending)
      && ReadyListed(graph, states, loose, ready)
      && PoolsAgree(graph, states, loose, pools)
    }

    /** The invariant between two operations. */
    ghost predicate Valid()
      reads this
    {
      && Accounts({})
      && Ordered(graph, states, order)
      && Progressed(graph, states, {})
      && HasPool(pools, "")
    }

    constructor (graph: WfGraph, depths: seq<(string, nat)>)
      ensures this.graph == graph
      ensures Valid()
      ensures |states| == |graph.builds| && forall b | 0 <= b < |states| :: states[b] == Unknown
      ensures PoolsFor(pools, depths)
    {
      hide Counted, PoolsAgree, HasPool;
      var initial := seq(|graph.builds|, i => Unknown);
      var declared := DeclarePools(depths);
      assert DepthOf([], "") == Some(0);
      UnnamedHasDepth(depths);
      assert forall k | 0 <= k < |declared| :: declared[k] in declared;
      InitialAgrees(graph, initial, declared);
      this.graph := graph;
      states := initial;
      counts := [0, 0, 0, 0, 0, 0];
      totalPending := 0;
      ready := [];
      pools := declared;
      order := [];
    }

    method PoolIndex(id: BuildId) returns (k: Option<nat>)
      requires id < |graph.builds|
      ensures k.Some? ==> k.value < |pools| && pools[k.value].name == graph.builds[id].PoolName()
      ensures k.None? ==> !HasPool(pools, graph.builds[id].PoolName())
    {
      for i := 0 to |pools|
        invariant forall j | 0 <= j < i :: pools[j].name != graph.builds[id].PoolName()
      {
        if pools[i].name == graph.builds[id].PoolName() {
          return Some(i);
        }
      }
      k := None;
    }

    /** The counters' half of a state change; `before` is the map it starts from. */
    method MoveCounts(id: BuildId, prev: BuildState, state: BuildState, ghost before: seq<BuildState>)
      requires Counted(graph, before, counts, totalPending)
      requires id < |before| && before[id] == prev && state != Unknown && prev !in {Done, Failed}
      modifies `counts, `totalPending
      ensures Counted(graph, before[id := state], counts, totalPending)
    {
      hide Counted, In, Commands, AllBuilds;
      CountedPositive(graph, before, counts, totalPending, id);
      ghost var counts0, pending0 := counts, totalPending;
      if prev == Unknown {
        totalPending := totalPending + 1;
      } else {
        if !graph.builds[id].Phony() {
          counts := counts[Slot(prev) := counts[Slot(prev)] - 1];
        }
      }
      if state == Done || state == Failed {
        totalPending := totalPending - 1;
      }
      if !graph.builds[id].Phony() {
        counts := counts[Slot(state) := counts[Slot(state)] + 1];
      }
      CountsMove(graph, before, counts0, counts, pending0, totalPending, id, state);
    }

    /** The pools' half of a state change. */
    method MoveRunning(id: BuildId, prev: BuildState, state: BuildState,
                       ghost before: seq<BuildState>, ghost loose: set<BuildId>)
      requires |before| == |graph.builds| && PoolsAgree(graph, before, loose, pools)
      requires id < |before| && before[id] == prev && (id in loose || prev != Queued)
      requires state == Running ==> prev != Running && exists k | 0 <= k < |pools| ::
                                      pools[k].name == graph.builds[id].PoolName() && pools[k].HasRoom()
      modifies `pools
      ensures PoolsAgree(graph, before[id := state], if state == Queued then loose + {id} else loose - {id}, pools)
      ensures |pools| == |old(pools)| && forall k | 0 <= k < |pools| ::
                pools[k] == old(pools[k]).(running := pools[k].running)
      ensures state != Running && prev != Running ==> pools == old(pools)
      ensures forall name :: HasPool(pools, name) <==> old(HasPool(pools, name))
    {
      ghost var pools0 := pools;
      if prev == Running {
        var k := PoolIndex(id);
        NoneIn(before, Members(graph, pools[k.value].name), {Running});
        assert PoolAgrees(graph, before, loose, pools[k.value]);
        pools := pools[k.value := pools[k.value].(running := pools[k.value].running - 1)];
      }
      if state == Running {
        var k := PoolIndex(id);
        pools := pools[k.value := pools[k.value].(running := pools[k.value].running + 1)];
      }
      forall k | 0 <= k < |pools0|
        ensures var member := graph.builds[id].PoolName() == pools0[k].name;
                && pools[k] == pools0[k].(running := pools[k].running)
                && pools[k].running + Bit(member && prev == Running) == pools0[k].running + Bit(member && state == Running)
                && (pools0[k].depth == 0 || pools[k].running <= pools0[k].depth)
      {
        assert PoolAgrees(graph, before, loose, pools0[k]);
      }
      PoolsMove(graph, before, loose, if state == Queued then loose + {id} else loose - {id}, pools0, pools, id, state);
      SameNames(pools0, pools);
    }

    /**
     Every state change goes through here. `loose` names the builds whose
     queue entry the caller has already taken.
     */
    method Set(id: BuildId, state: BuildState, ghost loose: set<BuildId>)
      requires id < |graph.builds| && state != Unknown && Accounts(loose)
      requires id in loose || states[id] in {Unknown, Want, Running}
      requires states[id] !in {Done, Failed}
      requires state == Running ==> states[id] != Running && exists k | 0 <= k < |pools| ::
                                      pools[k].name == graph.builds[id].PoolName() && pools[k].HasRoom()
      modifies `states, `counts, `totalPending, `ready, `pools, `order
      ensures states == old(states)[id := state]
      ensures ready == if state == Ready then old(ready) + [id] else old(ready)
      ensures order == if old(states[id]) == Unknown then old(order) + [id] else old(order)
      ensures Accounts(if state == Queued then loose + {id} else loose - {id})
      ensures |pools| == |old(pools)| && forall k | 0 <= k < |pools| ::
                pools[k] == old(pools[k]).(running := pools[k].running)
      ensures state != Running && old(states[id]) != Running ==> pools == old(pools)
      ensures forall name :: HasPool(pools, name) <==> old(HasPool(pools, name))
    {
      hide Counted, ReadyListed, PoolsAgree;
      var prev := states[id];
      ReadyMoves(graph, states, loose, if state == Queued then loose + {id} else loose - {id}, ready, id, state);
      states := states[id := state];
      if prev == Unknown {
        order := order + [id];
      }
      if state == Ready {
        ready := ready + [id];
      }
      MoveRunning(id, prev, state, old(states), loose);
      MoveCounts(id, prev, state, old(states));
    }

    ghost function UnknownCount(): nat
      reads this
    {
      |In(states, AllBuilds(graph), {Unknown})|
    }

    /** What every step of a walk keeps and promises. */
    twostate predicate Walked(limit: set<BuildId>)
      reads this
    {
      Valid() && OnlyWants(old(states), states, limit) && pools == old(pools)
    }

    /**
     Wants `id` and everything it needs. `stack` holds the files being
     visited, the last of them an output of `id`; `open` the builds whose own
     validation inputs are still being visited.
     */
    method WantBuild(stack: seq<FileId>, id: BuildId, ghost open: set<BuildId>, ghost limit: set<BuildId>)
      returns (r: Result<BuildState, seq<FileId>>)
      requires Valid() && id < |graph.builds| && Validated(graph, states, open)
      requires Inside(graph, false, stack, id) && id in limit && Closed(graph, true, limit)
      modifies `states, `counts, `totalPending, `ready, `pools, `order
      ensures Walked(limit)
      ensures r.Ok? ==> states[id] == r.value != Unknown && Validated(graph, states, open)
      ensures old(states[id]) != Unknown ==> r == Ok(old(states[id])) && states == old(states)
      ensures r.Err? ==> FileCycle(graph, false, r.error) && ReachesCycle(graph, false, id)
      decreases UnknownCount(), |graph.files| - |stack|, 2
    {
      hide Counted, ReadyListed, PoolsAgree, Topological, Progressed, Validated, Inside, CycleFrom;
      hide ReachesCycle, FileCycle;
      var state := states[id];
      if state != Unknown {
        return Ok(state);
      }
      InsideEach(graph, false, stack, id, limit);
      var ins := WantFiles(stack, graph.builds[id].OrderingIns(), open, limit);
      if ins.Err? {
        CycleThrough(graph, false, id, graph.builds[id].OrderingIns());
        return Err(ins.error);
      }
      state := if ins.value then Ready else Want;
      EnterState(graph, old(states), states, order, limit, id, state);
      UnknownShrinks(graph, old(states), states, limit, id);
      ghost var before := states;
      Set(id, state, {});
      assert {} - {id} == {};
      WantedKeeps(graph, old(states), before, limit, id, state, open);
      UnknownShrinks(graph, old(states), states, limit, id);
      ghost var entered := states;
      var checks := WantFiles([], graph.builds[id].ValidationIns(), open + {id}, limit);
      OnlyWantsTrans(old(states), entered, states, limit);
      if checks.Err? {
        CycleThrough(graph, false, id, graph.builds[id].ValidationIns());
        return Err(checks.error);
      }
      ValidatedClose(graph, states, open, id);
      r := Ok(state);
    }

    /** Wants each of `fs`; Ok(true) when all of them are ready to be used. */
    method WantFiles(stack: seq<FileId>, fs: seq<FileId>, ghost open: set<BuildId>, ghost limit: set<BuildId>)
      returns (r: Result<bool, seq<FileId>>)
      requires Valid() && Validated(graph, states, open)
      requires forall f | f in fs :: Before(graph, false, stack, f) && MadeIn(graph, f, limit)
      requires Closed(graph, true, limit)
      modifies `states, `counts, `totalPending, `ready, `pools, `order
      ensures Walked(limit)
      ensures r.Ok? ==> Validated(graph, states, open) && forall f | f in fs :: FileWanted(graph, states, f)
      ensures r.Ok? ==> (r.value <==> forall f | f in fs :: FileDone(graph, states, f))
      ensures r.Ok? && r.value ==> states == old(states)
      ensures r.Err? ==> FileCycle(graph, false, r.error) && exists f | f in fs :: CycleFrom(graph, false, f)
      decreases UnknownCount(), |graph.files| - |stack|, 1
    {
      hide Counted, ReadyListed, PoolsAgree, Ordered, Progressed, Validated, Before, CycleFrom;
      hide FileCycle, OnlyWants, MadeIn, Closed, FileWanted, FileDone, In;
      OnlyWantsRefl(states, limit);
      var ready := true;
      for i := 0 to |fs|
        invariant Walked(limit) && Validated(graph, states, open)
        invariant ready ==> states == old(states)
        invariant forall k | 0 <= k < i :: FileWanted(graph, states, fs[k])
        invariant ready <==> forall k | 0 <= k < i :: FileDone(graph, states, fs[k])
      {
        UnknownShrinks(graph, old(states), states, limit, 0);
        ghost var before := states;
        var got := WantFile(stack, fs[i], open, limit);
        OnlyWantsKeeps(graph, before, states, limit);
        OnlyWantsTrans(old(states), before, states, limit);
        if got.Err? {
          return Err(got.error);
        }
        if !got.value {
          ready := false;
        }
      }
      r := Ok(ready);
    }

    /** Wants the build that generates `f`, if any; Ok(true) when `f` is ready to be used. */
    method WantFile(stack: seq<FileId>, f: FileId, ghost open: set<BuildId>, ghost limit: set<BuildId>)
      returns (r: Result<bool, seq<FileId>>)
      requires Valid() && Validated(graph, states, open)
      requires Before(graph, false, stack, f) && MadeIn(graph, f, limit) && Closed(graph, true, limit)
      modifies `states, `counts, `totalPending, `ready, `pools, `order
      ensures Walked(limit)
      ensures r.Ok? ==> Validated(graph, states, open) && FileWanted(graph, states, f)
      ensures r.Ok? ==> (r.value <==> FileDone(graph, states, f)) && (r.value ==> states == old(states))
      ensures r.Err? ==> FileCycle(graph, false, r.error) && CycleFrom(graph, false, f)
      decreases UnknownCount(), |graph.files| - |stack|, 0
    {
      hide Counted, ReadyListed, PoolsAgree, Ordered, Progressed, Validated, Inside, FileCycle, ReachesCycle, Chain;
      if f in stack {
        var k := IndexOf(stack, f);
        StackCycle(graph, false, stack, k, f);
        return Err(stack[k..] + [f]);
      }
      var ready := true;
      if Producer(graph, f).Some? {
        assert graph.FileWellFormed(f);
        StackPush(graph, false, stack, f);
        var state := WantBuild(stack + [f], Producer(graph, f).value, open, limit);
        if state.Err? {
          return Err(state.error);
        }
        if state.value != Done {
          ready := false;
        }
      }
      r := Ok(ready);
    }

    /**
     The entry point of a walk. It succeeds exactly when no ordering cycle can
     be reached from `f`, however the validation edges run, and then it has
     wanted exactly the builds that can be reached from `f`.
     */
    method WantTarget(f: FileId) returns (r: Result<(), seq<FileId>>)
      requires Valid() && Validated(graph, states, {}) && f < |graph.files|
      modifies `states, `counts, `totalPending, `ready, `pools, `order
      ensures Walked(ReachedFrom(graph, f))
      ensures r.Ok? <==> !CycleFrom(graph, false, f)
      ensures r.Ok? ==> Validated(graph, states, {})
      ensures r.Ok? ==> forall b | b in ReachedFrom(graph, f) :: states[b] != Unknown
      ensures r.Err? ==> FileCycle(graph, false, r.error)
    {
      hide Counted, ReadyListed, PoolsAgree, Progressed, Topological, CycleFrom, FileCycle, Validated;
      EntryReached(graph, f);
      var got := WantFile([], f, {}, ReachedFrom(graph, f));
      if got.Err? {
        return Err(got.error);
      }
      WalkReached(graph, states, order, f);
      r := Ok(());
    }

    /** Takes the next ready build off its queue. */
    method PopReady() returns (r: Option<BuildId>)
      requires Accounts({})
      modifies `ready
      ensures r.None? ==> ready == old(ready) == []
      ensures r.Some? ==> old(ready) != [] && r.value == old(ready)[0] && ready == old(ready)[1..]
      ensures r.Some? ==> r.value < |states| && states[r.value] == Ready && Accounts({r.value})
    {
      hide Counted;
      if ready == [] {
        return None;
      }
      ReadyLoosen(graph, states, ready);
      PoolsLoosen(graph, states, pools, ready[0]);
      r := Some(ready[0]);
      ready := ready[1..];
    }

    /** The first pool that has both a queued build and room for it. */
    method NextQueued() returns (k: Option<nat>)
      ensures k.None? ==> forall p | p in pools :: p.HasRoom() ==> p.queued == []
      ensures k.Some? ==> k.value < |pools| && pools[k.value].HasRoom() && pools[k.value].queued != []
      ensures k.Some? ==> forall j | 0 <= j < k.value :: pools[j].HasRoom() ==> pools[j].queued == []
    {
      for i := 0 to |pools|
        invariant forall j | 0 <= j < i :: pools[j].HasRoom() ==> pools[j].queued == []
      {
        if pools[i].HasRoom() && pools[i].queued != [] {
          return Some(i);
        }
      }
      k := None;
    }

    /** Takes the next queued build out of the first pool that has one and has room. */
    method PopQueued() returns (r: Option<BuildId>)
      requires Accounts({})
      modifies `pools
      ensures r.None? ==> pools == old(pools) && forall p | p in pools :: p.HasRoom() ==> p.queued == []
      ensures r.Some? ==> r.value < |states| && states[r.value] == Queued && Accounts({r.value})
      ensures r.Some? ==> exists k | 0 <= k < |pools| ::
                  pools[k].name == graph.builds[r.value].PoolName() && pools[k].HasRoom()
      ensures r.Some? ==> exists k :: TakenFrom(old(pools), pools, k, r.value)
      ensures forall name :: HasPool(pools, name) <==> old(HasPool(pools, name))
    {
      hide Counted, ReadyListed;
      var next := NextQueued();
      if next.None? {
        return None;
      }
      var i := next.value;
      var id := pools[i].queued[0];
      QueuePop(graph, states, pools, i);
      ReadyLoosenOther(graph, states, ready, id);
      pools := pools[i := pools[i].(queued := pools[i].queued[1..])];
      hide PoolsAgree;
      assert TakenFrom(old(pools), pools, i, id);
      SameNames(old(pools), pools);
      r := Some(id);
    }

    /** Queues a ready build in its pool; an error exactly when the pool is unknown. */
    method Enqueue(id: BuildId) returns (r: Result<(), string>)
      requires id < |graph.builds| && Accounts({id}) && states[id] == Ready
      modifies `states, `counts, `totalPending, `ready, `pools, `order
      ensures states == old(states)[id := Queued] && order == old(order) && ready == old(ready)
      ensures r.Ok? <==> old(HasPool(pools, graph.builds[id].PoolName()))
      ensures r.Ok? ==> Accounts({})
      ensures r.Ok? ==> exists k :: PutLast(old(pools), pools, k, graph.builds[id].PoolName(), id)
      ensures forall name :: HasPool(pools, name) <==> old(HasPool(pools, name))
    {
      hide Counted, ReadyListed, PoolsAgree;
      Set(id, Queued, {id});
      assert {id} + {id} == {id};
      var k := PoolIndex(id);
      if k.None? {
        return Err(graph.builds[id].PoolName());
      }
      QueuePush(graph, states, pools, k.value, id);
      ReadyTighten(graph, states, ready, id);
      SameNames(pools, pools[k.value := pools[k.value].(queued := pools[k.value].queued + [id])]);
      pools := pools[k.value := pools[k.value].(queued := pools[k.value].queued + [id])];
      assert PutLast(old(pools), pools, k.value, graph.builds[id].PoolName(), id);
      r := Ok(());
    }
  }
}
