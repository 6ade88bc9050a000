/**
 What n2's run loop rests on: every state change makes progress, a finished
 build wakes exactly its waiters, the history of a run is ordered, and a run
 with nothing left to do is blocked by failures only.
 */
module N2Progress {
  import opened BuildGraph
  import opened Counting
  import opened N2States
  import opened Ordering
  import opened Sequences

  // ---- Progress. ----

  /** How many state changes a build can still go through. */
  function Left(s: BuildState): nat {
    match s
    case Want => 4
    case Ready => 3
    case Queued => 2
    case Running => 1
    case _ => 0
  }

  /** The state changes a whole run can still make. */
  ghost function Weight(g: Graph, states: seq<BuildState>): nat {
    |In(states, AllBuilds(g), {Want})| + |In(states, AllBuilds(g), {Want, Ready})|
    + |In(states, AllBuilds(g), {Want, Ready, Queued})| + |In(states, AllBuilds(g), {Want, Ready, Queued, Running})|
  }

  lemma WeightFalls(g: Graph, states: seq<BuildState>, id: BuildId, s: BuildState)
    requires |states| == |g.builds| && id < |states|
    ensures Weight(g, states[id := s]) + Left(states[id]) == Weight(g, states) + Left(s)
  {
    Moved(states, AllBuilds(g), {Want}, id, s);
    Moved(states, AllBuilds(g), {Want, Ready}, id, s);
    Moved(states, AllBuilds(g), {Want, Ready, Queued}, id, s);
    Moved(states, AllBuilds(g), {Want, Ready, Queued, Running}, id, s);
  }

  // ---- One build's state changes, and who is affected. ----

  /** The Want builds ordered directly after `id`. */
  ghost function Waiters(g: WfGraph, states: seq<BuildState>, id: BuildId): (r: set<BuildId>)
    requires |states| == |g.builds|
  {
    set b | b in AllBuilds(g) && states[b] == Want && id in Deps(g, b)
  }

  /** Any change among the states past Want keeps the order, as long as no build stops being Done. */
  lemma ProgressedMove(g: WfGraph, states: seq<BuildState>, order: seq<BuildId>, id: BuildId, state: BuildState)
    requires Ordered(g, states, order) && Progressed(g, states, {})
    requires id < |states| && states[id] !in {Unknown, Want, Done} && state !in {Unknown, Want}
    ensures Ordered(g, states[id := state], order)
    ensures Validated(g, states, {}) ==> Validated(g, states[id := state], {})
    ensures Progressed(g, states[id := state], if state == Done then Waiters(g, states[id := state], id) else {})
  {
    var after := states[id := state];
    forall b | 0 <= b < |states|
      ensures AllDone(states, Deps(g, b)) ==> AllDone(after, Deps(g, b))
      ensures AllDone(after, Deps(g, b)) && !(state == Done && id in Deps(g, b)) ==> AllDone(states, Deps(g, b))
    {
      if AllDone(after, Deps(g, b)) && !(state == Done && id in Deps(g, b)) {
        forall p | p in Deps(g, b)
          ensures p < |states| && states[p] == Done
        {
          assert after[p] == Done;
        }
      }
    }
  }

  /** Rechecking one waiter: it becomes Ready when everything before it is Done. */
  lemma ProgressedRecheck(g: WfGraph, states: seq<BuildState>, order: seq<BuildId>, stale: set<BuildId>, id: BuildId)
    requires Ordered(g, states, order) && Progressed(g, states, stale)
    requires id < |states| && states[id] == Want
    ensures AllDone(states, Deps(g, id)) ==>
              Ordered(g, states[id := Ready], order) && Progressed(g, states[id := Ready], stale - {id})
    ensures Validated(g, states, {}) ==> Validated(g, states[id := Ready], {})
    ensures !AllDone(states, Deps(g, id)) ==> Progressed(g, states, stale - {id})
  {
    if AllDone(states, Deps(g, id)) {
      var after := states[id := Ready];
      forall b | 0 <= b < |states|
        ensures AllDone(after, Deps(g, b)) <==> AllDone(states, Deps(g, b))
      {
        if AllDone(after, Deps(g, b)) {
          assert forall p | p in Deps(g, b) :: after[p] == Done;
        }
      }
    }
  }

  lemma ProgressedWeaken(g: WfGraph, states: seq<BuildState>, stale: set<BuildId>, stale': set<BuildId>)
    requires |states| == |g.builds| && Progressed(g, states, stale) && stale <= stale'
    ensures Progressed(g, states, stale')
  {
  }

  /** A build past Want has everything it is ordered after Done, however far back. */
  lemma AncestorsDone(g: WfGraph, states: seq<BuildState>, b: BuildId, p: BuildId)
    requires |states| == |g.builds| && Progressed(g, states, {})
    requires b < |states| && states[b] == Done && Reaches(g, false, b, p)
    ensures p < |states| && states[p] == Done
  {
    DoneClosed(g, states);
    ClosedReaches(g, false, InState(g, states, Done), b, p);
  }

  // ---- The history of a run. ----

  datatype Event = Started(id: BuildId) | Settled(id: BuildId) | Broke(id: BuildId)

  /**
   Every event happens once, and only after everything its build is ordered
   after has settled; the state map is what the history says.
   */
  ghost predicate HistoryOk(g: WfGraph, states: seq<BuildState>, trace: seq<Event>)
    requires |states| == |g.builds|
  {
    && InOrder(g, trace)
    && (forall b: nat :: Settled(b) in trace <==> b < |states| && states[b] == Done)
    && (forall b: nat :: Broke(b) in trace <==> b < |states| && states[b] == Failed)
    && (forall b: nat :: Started(b) in trace ==> b < |states| && states[b] in {Running, Done, Failed})
    && (forall b: nat | b < |states| && states[b] == Running :: Started(b) in trace)
  }

  /** A walk adds nothing to the history. */
  lemma HistoryWalk(g: WfGraph, states: seq<BuildState>, states': seq<BuildState>, trace: seq<Event>, limit: set<BuildId>)
    requires |states| == |g.builds| && HistoryOk(g, states, trace) && OnlyWants(states, states', limit)
    ensures HistoryOk(g, states', trace)
  {
    forall b: nat
      ensures b < |states| && states'[b] in {Running, Done, Failed} ==> states'[b] == states[b]
      ensures b < |states| && states[b] in {Running, Done, Failed} ==> states'[b] == states[b]
    {
    }
  }

  lemma HistoryInitial(g: WfGraph, states: seq<BuildState>)
    requires |states| == |g.builds| && forall b | 0 <= b < |states| :: states[b] == Unknown
    ensures HistoryOk(g, states, [])
  {
  }

  ghost predicate InOrder(g: WfGraph, trace: seq<Event>) {
    && NoDup(trace)
    && forall i | 0 <= i < |trace| ::
         trace[i].id < |g.builds| && forall p | p in Deps(g, trace[i].id) :: Settled(p) in trace[..i]
  }

  function EventsOf(id: BuildId, state: BuildState): seq<Event> {
    match state
    case Running => [Started(id)]
    case Done => [Settled(id)]
    case Failed => [Broke(id)]
    case _ => []
  }

  lemma HistoryStep(g: WfGraph, states: seq<BuildState>, trace: seq<Event>, id: BuildId, state: BuildState)
    requires |states| == |g.builds| && HistoryOk(g, states, trace)
    requires id < |states| && AllDone(states, Deps(g, id))
    requires states[id] !in {Done, Failed} && (state == Running ==> states[id] != Running)
    requires states[id] == Running ==> state in {Done, Failed}
    ensures HistoryOk(g, states[id := state], trace + EventsOf(id, state))
  {
    var events := EventsOf(id, state);
    var after := trace + events;
    assert forall e :: e in after <==> e in trace || e in events;
    if events != [] {
      assert events[0] !in trace;
      InOrderAppend(g, trace, events[0]);
    } else {
      assert after == trace;
    }
  }

  lemma InOrderAppend(g: WfGraph, trace: seq<Event>, e: Event)
    requires InOrder(g, trace) && e !in trace && e.id < |g.builds|
    requires forall p | p in Deps(g, e.id) :: Settled(p) in trace
    ensures InOrder(g, trace + [e])
  {
    NoDupAppend(trace, e);
    forall i | 0 <= i < |trace + [e]|
      ensures forall p | p in Deps(g, (trace + [e])[i].id) :: Settled(p) in (trace + [e])[..i]
    {
      assert (trace + [e])[..i] == if i < |trace| then trace[..i] else trace;
    }
  }

  // ---- The end of a run. ----

  /** Nothing is ready, queued or running. */
  ghost predicate Idle(states: seq<BuildState>) {
    forall b | 0 <= b < |states| :: states[b] !in {Ready, Queued, Running}
  }

  /** With the ready queue empty, every pool that has room empty, and nothing running, the run is idle. */
  lemma NothingToDo(g: Graph, states: seq<BuildState>, pools: seq<PoolState>, ready: seq<BuildId>)
    requires |states| == |g.builds| && PoolsAgree(g, states, {}, pools) && ReadyListed(g, states, {}, ready)
    requires ready == [] && forall b | 0 <= b < |states| :: states[b] != Running
    requires forall p | p in pools :: p.HasRoom() ==> p.queued == []
    ensures Idle(states)
  {
    forall b | 0 <= b < |states|
      ensures states[b] !in {Ready, Queued, Running}
    {
      assert states[b] == Ready ==> b in ready;
      if states[b] == Queued {
        assert HasPool(pools, g.builds[b].PoolName());
        var k :| 0 <= k < |pools| && pools[k].name == g.builds[b].PoolName();
        assert PoolAgrees(g, states, {}, pools[k]) && pools[k] in pools;
        NoneIn(states, Members(g, pools[k].name), {Running});
      }
    }
  }

  ghost function InState(g: Graph, states: seq<BuildState>, s: BuildState): (r: set<BuildId>)
    requires |states| == |g.builds|
  {
    set b | b in AllBuilds(g) && states[b] == s
  }

  /**
   An idle run is blocked by failures alone: a wanted build is Done exactly
   when no failed build is among those it is ordered after, itself included.
   */
  lemma IdleExactly(g: WfGraph, states: seq<BuildState>, order: seq<BuildId>, b: BuildId)
    requires Ordered(g, states, order) && Progressed(g, states, {}) && Idle(states)
    requires b < |states| && states[b] != Unknown
    ensures states[b] == Done <==>
            !exists d :: d in InState(g, states, Failed) && Reaches(g, false, b, d)
  {
    hide Topological, Ranked, Waiting, Closed, Reaches, Progressed;
    TopologicalRanked(g, order);
    IdleWaiting(g, states, order);
    DoneClosed(g, states);
    RankedSkip(g, Elements(order), InState(g, states, Failed), RankOf(order));
    StoppedExactly(g, Elements(order), RankOf(order), InState(g, states, Done), InState(g, states, Failed), b);
  }

  lemma DoneClosed(g: WfGraph, states: seq<BuildState>)
    requires |states| == |g.builds| && Progressed(g, states, {})
    ensures Closed(g, false, InState(g, states, Done))
  {
    forall x | x in InState(g, states, Done)
      ensures Next(g, false, x) <= InState(g, states, Done)
    {
      assert AllDone(states, Deps(g, x));
    }
  }

  /** In an idle run a build that is neither Done nor Failed waits for another. */
  lemma WantWaits(g: WfGraph, states: seq<BuildState>, b: BuildId)
    requires |states| == |g.builds| && Progressed(g, states, {}) && Idle(states)
    requires b < |states| && states[b] !in {Unknown, Done, Failed}
    ensures exists p :: p in Deps(g, b) && p !in InState(g, states, Done)
  {
    PastWant(g, states, {}, b);
    var p :| p in Deps(g, b) && !(p < |states| && states[p] == Done);
  }

  lemma IdleWaiting(g: WfGraph, states: seq<BuildState>, order: seq<BuildId>)
    requires Ordered(g, states, order) && Progressed(g, states, {}) && Idle(states)
    ensures forall b | b in Elements(order) :: b < |g.builds|
    ensures Waiting(g, Elements(order), InState(g, states, Done), InState(g, states, Failed))
  {
    hide Topological, Ranked, Progressed, Idle, Deps;
    TopologicalRanked(g, order);
    forall b | b in order && b !in InState(g, states, Done) && b !in InState(g, states, Failed)
      ensures exists p :: p in Deps(g, b) && p in order && p !in InState(g, states, Done)
    {
      WantWaits(g, states, b);
      OrderClosed(g, order, b);
    }
  }

  /** The builds that failed. */
  ghost function FailedOf(states: seq<BuildState>): (r: set<BuildId>) {
    set b | 0 <= b < |states| && states[b] == Failed
  }

  lemma FailedMore(states: seq<BuildState>, id: BuildId)
    requires id < |states| && states[id] != Failed
    ensures |FailedOf(states[id := Failed])| == |FailedOf(states)| + 1
  {
    assert FailedOf(states[id := Failed]) == FailedOf(states) + {id};
  }

  ghost predicate NoneFailed(states: seq<BuildState>) {
    forall b | 0 <= b < |states| :: states[b] != Failed
  }

  /** Every wanted build is Done. */
  ghost predicate AllDoneOrUnknown(states: seq<BuildState>) {
    forall b | 0 <= b < |states| :: states[b] in {Unknown, Done}
  }

  /** A wanted build is Done exactly when nothing it is ordered after, itself included, has failed. */
  ghost predicate BlockedByFailures(g: WfGraph, states: seq<BuildState>)
    requires |states| == |g.builds|
  {
    forall b | 0 <= b < |states| && states[b] != Unknown ::
      states[b] == Done <==> !exists d :: d in InState(g, states, Failed) && Reaches(g, false, b, d)
  }

  /** IdleExactly for every build at once, with what the pending counter says. */
  lemma RunEnded(g: WfGraph, states: seq<BuildState>, order: seq<BuildId>)
    requires Ordered(g, states, order) && Progressed(g, states, {})
    requires Idle(states) || |In(states, AllBuilds(g), PENDING)| == 0
    ensures Idle(states) && BlockedByFailures(g, states)
    ensures NoneFailed(states) <==> AllDoneOrUnknown(states)
  {
    hide Topological, Progressed, Reaches;
    NoneIn(states, AllBuilds(g), PENDING);
    forall b | 0 <= b < |states| && states[b] != Unknown
      ensures states[b] == Done <==> !exists d :: d in InState(g, states, Failed) && Reaches(g, false, b, d)
    {
      IdleExactly(g, states, order, b);
    }
  }

  /** The history grew by builds that were Done without running. */
  ghost predicate OnlySettled(before: seq<Event>, after: seq<Event>) {
    before <= after && forall i | |before| <= i < |after| :: after[i].Settled?
  }

  lemma OnlySettledTrans(a: seq<Event>, b: seq<Event>, c: seq<Event>)
    requires OnlySettled(a, b) && OnlySettled(b, c)
    ensures OnlySettled(a, c)
  {
    forall i | |a| <= i < |c|
      ensures c[i].Settled?
    {
      if i < |b| {
        assert c[i] == b[i];
      }
    }
  }

  lemma OrderClosed(g: WfGraph, order: seq<BuildId>, b: BuildId)
    requires Topological(g, order) && b in order
    ensures b < |g.builds| && Deps(g, b) <= Elements(order)
  {
    var i := IndexOf(order, b);
    assert Deps(g, order[i]) <= Elements(order[..i]);
  }

  /** The run loop cannot be out of work with builds pending unless a task has failed. */
  lemma NeverStuck(g: WfGraph, states: seq<BuildState>, order: seq<BuildId>)
    requires Ordered(g, states, order) && Progressed(g, states, {}) && Idle(states)
    requires |In(states, AllBuilds(g), PENDING)| > 0
    ensures !NoneFailed(states)
  {
    hide Topological, Ranked, Progressed, Idle, Waiting, Deps, Reaches;
    NoneIn(states, AllBuilds(g), PENDING);
    var b :| b in AllBuilds(g) && b < |states| && states[b] in PENDING;
    TopologicalRanked(g, order);
    IdleWaiting(g, states, order);
    RankedSkip(g, Elements(order), InState(g, states, Failed), RankOf(order));
    var d := WaitingReachesDead(g, Elements(order), RankOf(order), InState(g, states, Done), InState(g, states, Failed), b);
  }
}
