/**
 nix-ninja's BuildStates: the same want walk as n2's, with one difference
 that matters. Validation inputs are visited on the current stack, not on a
 fresh one, so a validation that depends on what it validates is refused.
 The graph is handed to every call, because it changes between calls.
 */
module NixStates {
  import opened Wrappers
  import opened BuildGraph
  import opened Counting
  import opened Ordering
  import opened Sequences
  import opened WantExplored
  import opened WantWalk

  datatype BuildState = Unneeded | Want | Ready | Running | Done

  const PENDING: set<BuildState> := {Want, Ready, Running}
  const WANTED: set<BuildState> := {Want, Ready, Running, Done}

  ghost function Commands(g: Graph): set<BuildId> {
    set b | b in AllBuilds(g) && !g.builds[b].Phony()
  }

  ghost function Wanted(g: Graph, states: seq<BuildState>): (r: set<BuildId>)
    ensures forall b: nat :: b in r <==> b < |g.builds| && b < |states| && states[b] != Unneeded
  {
    assert forall s: BuildState :: s in WANTED <==> s != Unneeded;
    In(states, AllBuilds(g), WANTED)
  }

  ghost predicate ReadyListed(states: seq<BuildState>, ready: seq<BuildId>) {
    && NoDup(ready)
    && forall b: nat :: b in ready <==> b < |states| && states[b] == Ready
  }

  ghost predicate AllDone(states: seq<BuildState>, ps: set<BuildId>) {
    forall p | p in ps :: p < |states| && states[p] == Done
  }

  /**
   Ready and Done builds have everything before them Done, a Want build does
   not; running builds are judged by the scheduler, `stale` ones not yet.
   */
  ghost predicate Progressed(g: WfGraph, states: seq<BuildState>, stale: set<BuildId>)
    requires |states| == |g.builds|
  {
    forall b | 0 <= b < |states| ::
      && (states[b] in {Ready, Done} ==> AllDone(states, Deps(g, b)))
      && (states[b] == Want && b !in stale ==> !AllDone(states, Deps(g, b)))
  }

  /** Wanted builds outside `skip` have everything they are ordered after wanted, at a lower rank. */
  ghost predicate Sorted(g: WfGraph, states: seq<BuildState>, skip: set<BuildId>, rank: map<BuildId, nat>)
    requires |states| == |g.builds|
  {
    && Wanted(g, states) == rank.Keys
    && forall b, p | b in Wanted(g, states) && b !in skip && p in Deps(g, b) ::
         states[p] != Unneeded && rank[p] < rank[b]
  }

  ghost predicate OnlyWants(before: seq<BuildState>, after: seq<BuildState>, limit: set<BuildId>) {
    && |before| == |after|
    && forall b | 0 <= b < |before| ::
         after[b] == before[b] || (b in limit && before[b] == Unneeded && after[b] in {Want, Ready})
  }

  ghost predicate FileWanted(g: WfGraph, states: seq<BuildState>, f: FileId) {
    f < |g.files| && (Producer(g, f).Some? ==>
                        Producer(g, f).value < |states| && states[Producer(g, f).value] != Unneeded)
  }

  ghost predicate FileDone(g: WfGraph, states: seq<BuildState>, f: FileId) {
    f < |g.files| && (Producer(g, f).Some? ==>
                        Producer(g, f).value < |states| && states[Producer(g, f).value] == Done)
  }

  // ---- Lemmas about one state change. ----

  lemma ReadyMoves(states: seq<BuildState>, ready: seq<BuildId>, id: BuildId, state: BuildState)
    requires id < |states| && ReadyListed(states, ready) && states[id] != Ready
    ensures ReadyListed(states[id := state], if state == Ready then ready + [id] else ready)
  {
    NoDupAppend(ready, id);
  }

  lemma PendingMoves(g: Graph, states: seq<BuildState>, id: BuildId, state: BuildState)
    requires |states| == |g.builds| && id < |states| && states[id] != Done && state != Unneeded
    ensures |In(states[id := state], AllBuilds(g), PENDING)| + (if state == Done then 1 else 0)
         == |In(states, AllBuilds(g), PENDING)| + (if states[id] == Unneeded then 1 else 0)
    ensures states[id] != Unneeded ==> |In(states, AllBuilds(g), PENDING)| > 0
  {
    Moved(states, AllBuilds(g), PENDING, id, state);
    NoneIn(states, AllBuilds(g), PENDING);
  }

  lemma ReadyPops(states: seq<BuildState>, ready: seq<BuildId>, state: BuildState)
    requires ReadyListed(states, ready) && ready != [] && state != Ready
    ensures ready[0] < |states| && states[ready[0]] == Ready
    ensures ReadyListed(states[ready[0] := state], ready[1..])
  {
    assert ready[0] in ready;
    forall b: nat
      ensures b in ready[1..] <==> b in ready && b != ready[0]
    {
      if b in ready && b != ready[0] {
        var k :| 0 <= k < |ready| && ready[k] == b;
        assert ready[1..][k - 1] == b;
      }
    }
  }

  lemma OnlyWantsRefl(states: seq<BuildState>, limit: set<BuildId>)
    ensures OnlyWants(states, states, limit)
  {
  }

  lemma OnlyWantsTrans(a: seq<BuildState>, b: seq<BuildState>, c: seq<BuildState>, limit: set<BuildId>)
    requires OnlyWants(a, b, limit) && OnlyWants(b, c, limit)
    ensures OnlyWants(a, c, limit)
  {
  }

  lemma OnlyWantsKeeps(g: WfGraph, before: seq<BuildState>, after: seq<BuildState>, limit: set<BuildId>)
    requires |before| == |g.builds| && OnlyWants(before, after, limit)
    ensures forall f :: FileDone(g, after, f) <==> FileDone(g, before, f)
    ensures forall f :: FileWanted(g, before, f) ==> FileWanted(g, after, f)
  {
  }

  ghost predicate FilesWanted(g: WfGraph, states: seq<BuildState>, fs: seq<FileId>) {
    forall f | f in fs :: FileWanted(g, states, f)
  }

  ghost predicate FilesDone(g: WfGraph, states: seq<BuildState>, fs: seq<FileId>) {
    forall f | f in fs :: FileDone(g, states, f)
  }

  lemma VisitedFiles(g: WfGraph, states: seq<BuildState>, fs: seq<FileId>)
    ensures FilesWanted(g, states, fs) <==> forall f | f in fs :: FileWanted(g, states, f)
    ensures FilesDone(g, states, fs) <==> forall f | f in fs :: FileDone(g, states, f)
  {
  }

  lemma NoFiles(g: WfGraph, states: seq<BuildState>)
    ensures FilesWanted(g, states, []) && FilesDone(g, states, [])
  {
  }

  /** One more file visited. */
  lemma FilesStep(g: WfGraph, before: seq<BuildState>, after: seq<BuildState>, limit: set<BuildId>, fs: seq<FileId>, f: FileId)
    requires |before| == |g.builds| && OnlyWants(before, after, limit)
    requires FilesWanted(g, before, fs) && FileWanted(g, after, f)
    ensures FilesWanted(g, after, fs + [f])
    ensures FilesDone(g, after, fs + [f]) <==> FilesDone(g, before, fs) && FileDone(g, after, f)
  {
    hide OnlyWants, FileWanted, FileDone;
    OnlyWantsKeeps(g, before, after, limit);
    assert f in fs + [f] && forall e | e in fs :: e in fs + [f];
  }

  lemma UnneededShrinks(g: Graph, before: seq<BuildState>, after: seq<BuildState>, limit: set<BuildId>, id: BuildId)
    requires |before| == |g.builds| && OnlyWants(before, after, limit)
    ensures |In(after, AllBuilds(g), {Unneeded})| <= |In(before, AllBuilds(g), {Unneeded})|
    ensures id < |before| && before[id] == Unneeded != after[id] ==>
              |In(after, AllBuilds(g), {Unneeded})| < |In(before, AllBuilds(g), {Unneeded})|
  {
    FewerIn(before, after, AllBuilds(g), {Unneeded});
    assert id < |before| && before[id] == Unneeded ==> id in In(before, AllBuilds(g), {Unneeded});
  }

  lemma DepsByFile(g: WfGraph, states: seq<BuildState>, id: BuildId)
    requires id < |g.builds| && |states| == |g.builds|
    ensures g.builds[id].Sized() && forall f | f in g.builds[id].OrderingIns() :: f < |g.files|
    ensures AllDone(states, Deps(g, id)) <==> forall f | f in g.builds[id].OrderingIns() :: FileDone(g, states, f)
    ensures (forall f | f in g.builds[id].OrderingIns() :: FileWanted(g, states, f)) ==>
              forall p | p in Deps(g, id) :: states[p] != Unneeded
  {
    assert g.BuildWellFormed(id);
    assert forall f | f in g.builds[id].OrderingIns() :: f in g.builds[id].ins;
    forall f | f in g.builds[id].OrderingIns()
      ensures g.FileWellFormed(f)
    {
    }
    if AllDone(states, Deps(g, id)) {
      forall f | f in g.builds[id].OrderingIns()
        ensures FileDone(g, states, f)
      {
        assert Producer(g, f).Some? ==> Producer(g, f).value in Deps(g, id);
      }
    }
  }

  /** A bound on every rank in use. */
  ghost function Top(rank: map<BuildId, nat>): (m: nat)
    ensures forall b | b in rank :: rank[b] < m
    decreases |rank|
  {
    if rank == map[] then 0 else
    var b :| b in rank;
    var rest := rank - {b};
    assert rank.Keys == rest.Keys + {b};
    var m := Top(rest);
    assert forall c | c in rank && c != b :: c in rest && rest[c] == rank[c];
    if rank[b] < m then m else rank[b] + 1
  }

  /** A build entered for the first time ranks above everything so far. */
  ghost function Reranked(states: seq<BuildState>, rank: map<BuildId, nat>, id: BuildId): map<BuildId, nat>
    requires id < |states|
  {
    if states[id] == Unneeded then rank[id := Top(rank)] else rank
  }

  /** Builds that were wanted keep their rank. */
  ghost predicate Extends(rank: map<BuildId, nat>, rank': map<BuildId, nat>) {
    rank.Keys <= rank'.Keys && forall b | b in rank :: rank'[b] == rank[b]
  }

  lemma ExtendsTrans(a: map<BuildId, nat>, b: map<BuildId, nat>, c: map<BuildId, nat>)
    requires Extends(a, b) && Extends(b, c)
    ensures Extends(a, c)
  {
  }

  lemma ExtendsRefl(a: map<BuildId, nat>)
    ensures Extends(a, a)
  {
  }

  /** How one want changes the states and ranks. */
  lemma EnterState(g: WfGraph, before: seq<BuildState>, states: seq<BuildState>, skip: set<BuildId>,
                   rank: map<BuildId, nat>, limit: set<BuildId>, id: BuildId, state: BuildState)
    requires |states| == |g.builds| && Progressed(g, states, {}) && Sorted(g, states, skip, rank)
    requires OnlyWants(before, states, limit) && id in limit && id < |states| && before[id] == Unneeded
    requires g.builds[id].Sized()
    requires forall f | f in g.builds[id].OrderingIns() :: FileWanted(g, states, f)
    requires state == if (forall f | f in g.builds[id].OrderingIns() :: FileDone(g, states, f)) then Ready else Want
    requires state == Ready ==> states == before
    ensures states[id] in {Unneeded, Want}
    ensures Progressed(g, states[id := state], {})
    ensures Sorted(g, states[id := state], skip, Reranked(states, rank, id)) && Extends(rank, Reranked(states, rank, id))
    ensures OnlyWants(before, states[id := state], limit)
  {
    hide Progressed, Sorted, AllDone;
    DepsByFile(g, states, id);
    PastWant(g, states, {}, id);
    ProgressedWant(g, states, id, state);
    if states[id] == Unneeded {
      SortedEnter(g, states, skip, rank, id, state);
    } else {
      assert states[id := state] == states;
    }
  }

  lemma StaysWanted(before: seq<BuildState>, after: seq<BuildState>, limit: set<BuildId>, id: BuildId)
    requires OnlyWants(before, after, limit) && id < |before| && before[id] != Unneeded
    ensures |after| == |before| && after[id] == before[id]
  {
  }

  lemma SameBuilds(before: seq<BuildState>, after: seq<BuildState>, limit: set<BuildId>)
    requires OnlyWants(before, after, limit)
    ensures |after| == |before|
  {
  }

  lemma WantedIs(g: Graph, states: seq<BuildState>, id: BuildId)
    requires |states| == |g.builds| && id < |states|
    ensures id in Wanted(g, states) <==> states[id] != Unneeded
  {
  }

  lemma WantedMore(g: Graph, states: seq<BuildState>, after: seq<BuildState>, id: BuildId)
    requires |states| == |g.builds| == |after| && id < |states| && after == states[id := after[id]] && after[id] != Unneeded
    ensures Wanted(g, after) == Wanted(g, states) + {id}
  {
  }

  /** What the walk has wanted so far, apart from what was wanted before it. */
  ghost function Entered(g: Graph, states: seq<BuildState>, base: set<BuildId>): set<BuildId> {
    Wanted(g, states) - base
  }

  ghost predicate BaseWanted(states: seq<BuildState>, base: set<BuildId>) {
    forall b | b in base :: b < |states| && states[b] != Unneeded
  }

  lemma BaseStays(before: seq<BuildState>, after: seq<BuildState>, limit: set<BuildId>, base: set<BuildId>)
    requires OnlyWants(before, after, limit) && BaseWanted(before, base)
    ensures BaseWanted(after, base)
  {
  }

  lemma EnteredIs(g: Graph, states: seq<BuildState>, base: set<BuildId>, id: BuildId)
    requires |states| == |g.builds| && id < |states| && BaseWanted(states, base)
    ensures id in Entered(g, states, base) <==> states[id] != Unneeded && id !in base
    ensures states[id] == Unneeded ==> id !in base
  {
  }

  lemma EnteredMore(g: Graph, states: seq<BuildState>, after: seq<BuildState>, base: set<BuildId>, id: BuildId)
    requires |states| == |g.builds| == |after| && id < |states| && after == states[id := after[id]] && after[id] != Unneeded
    requires id !in base
    ensures Entered(g, after, base) == Entered(g, states, base) + {id}
  {
    WantedMore(g, states, after, id);
  }

  /** The inputs of a build are made by what it leads to. */
  lemma MadeEach(g: WfGraph, id: BuildId, limit: set<BuildId>)
    requires id < |g.builds| && id in limit && Closed(g, true, limit)
    ensures g.builds[id].Sized()
    ensures forall f | f in g.builds[id].ins :: MadeIn(g, f, limit)
    ensures forall f | f in g.builds[id].OrderingIns() :: f in g.builds[id].ins
    ensures forall f | f in g.builds[id].ValidationIns() :: f in g.builds[id].ins
  {
    assert g.BuildWellFormed(id);
    assert Next(g, true, id) <= limit;
  }

  /** The walk does not enter the builds of `base`, so its stack runs over the graph without them. */
  lemma CutInsideEach(g: WfGraph, base: set<BuildId>, stack: seq<FileId>, id: BuildId, limit: set<BuildId>)
    requires id < |g.builds| && id !in base && Inside(Cut(g, base), true, stack, id) && id in limit && Closed(g, true, limit)
    ensures g.builds[id].Sized() && Cut(g, base).builds[id] == g.builds[id]
    ensures forall f | f in g.builds[id].OrderingIns() || f in g.builds[id].ValidationIns() ::
              Before(Cut(g, base), true, stack, f) && MadeIn(g, f, limit) && f in g.builds[id].ins
  {
    hide Inside, Before;
    MadeEach(g, id, limit);
    AllClosed(Cut(g, base));
    InsideEach(Cut(g, base), true, stack, id, AllBuilds(Cut(g, base)));
  }

  lemma CutSizes(g: WfGraph, base: set<BuildId>)
    ensures |Cut(g, base).builds| == |g.builds| && |Cut(g, base).files| == |g.files|
  {
  }

  lemma AllClosed(g: WfGraph)
    ensures Closed(g, true, AllBuilds(g))
  {
  }

  /** The walk is inside the build that makes the file on top of its stack. */
  lemma InsideTop(g: WfGraph, stack: seq<FileId>, id: BuildId)
    requires Inside(g, true, stack, id)
    ensures stack != [] && NoDup(stack) && Makes(g, stack[|stack| - 1], id)
  {
  }

  lemma PastWant(g: WfGraph, states: seq<BuildState>, stale: set<BuildId>, id: BuildId)
    requires |states| == |g.builds| && Progressed(g, states, stale) && id < |states|
    ensures states[id] in {Ready, Done} ==> AllDone(states, Deps(g, id))
    ensures states[id] == Want && id !in stale ==> !AllDone(states, Deps(g, id))
  {
  }

  lemma ProgressedWant(g: WfGraph, states: seq<BuildState>, id: BuildId, state: BuildState)
    requires |states| == |g.builds| && Progressed(g, states, {})
    requires id < |states| && states[id] in {Unneeded, Want}
    requires state == if AllDone(states, Deps(g, id)) then Ready else Want
    ensures Progressed(g, states[id := state], {})
  {
    hide Deps;
    SameDone(g, states, states[id := state]);
    hide AllDone;
  }

  lemma SameDone(g: WfGraph, states: seq<BuildState>, after: seq<BuildState>)
    requires |states| == |g.builds| == |after|
    requires forall b | 0 <= b < |states| :: states[b] == Done <==> after[b] == Done
    ensures forall b | 0 <= b < |states| :: AllDone(after, Deps(g, b)) <==> AllDone(states, Deps(g, b))
  {
  }

  lemma SortedEnter(g: WfGraph, states: seq<BuildState>, skip: set<BuildId>, rank: map<BuildId, nat>, id: BuildId,
                    state: BuildState)
    requires |states| == |g.builds| && Sorted(g, states, skip, rank)
    requires id < |states| && states[id] == Unneeded && state != Unneeded
    requires forall p | p in Deps(g, id) :: states[p] != Unneeded
    ensures Sorted(g, states[id := state], skip, rank[id := Top(rank)]) && Extends(rank, rank[id := Top(rank)])
  {
    hide Top, Wanted, Next;
    var rank', states' := rank[id := Top(rank)], states[id := state];
    assert Wanted(g, states') == Wanted(g, states) + {id};
    forall b, p | b in Wanted(g, states') && b !in skip && p in Deps(g, b)
      ensures states'[p] != Unneeded && rank'[p] < rank'[b]
    {
      assert b != id ==> b in Wanted(g, states) && states[p] != Unneeded && rank[p] < rank[b];
      assert p in Wanted(g, states);
    }
  }

  class BuildStates {
    var states: seq<BuildState>
    var totalPending: nat
    var totalWanted: nat
    var ready: seq<BuildId>
    ghost var rank: map<BuildId, nat>
    /** The builds the walks have left for good, in that order. */
    ghost var left: seq<BuildId>

    /** The counters and the ready queue agree with the states. */
    ghost predicate Accounts(g: Graph)
      reads `states, `totalPending, `ready
    {
      && |states| == |g.builds|
      && totalPending == |In(states, AllBuilds(g), PENDING)|
      && ReadyListed(states, ready)
    }

    ghost predicate Valid(g: WfGraph, skip: set<BuildId>)
      reads `states, `totalPending, `ready, `rank
    {
      Accounts(g) && Progressed(g, states, {}) && Sorted(g, states, skip, rank)
    }

    constructor (g: WfGraph)
      ensures Valid(g, {}) && totalWanted == 0 && Wanted(g, states) == {} && left == []
      ensures forall b | 0 <= b < |states| :: states[b] == Unneeded
    {
      states := seq(|g.builds|, i => Unneeded);
      totalPending := 0;
      totalWanted := 0;
      ready := [];
      rank := map[];
      left := [];
      new;
      NoneIn(states, AllBuilds(g), PENDING);
    }

    /** Every state change; a ready build must have been taken off the queue by `PopReady`. */
    method Set(g: WfGraph, id: BuildId, state: BuildState)
      requires Accounts(g) && id < |states| && states[id] !in {Ready, Done} && state != Unneeded
      modifies `states, `totalPending, `ready
      ensures states == old(states)[id := state] && Accounts(g)
      ensures ready == if state == Ready then old(ready) + [id] else old(ready)
    {
      hide ReadyListed, In;
      ReadyMoves(states, ready, id, state);
      PendingMoves(g, states, id, state);
      var prev := states[id];
      states := states[id := state];
      if prev == Unneeded {
        totalPending := totalPending + 1;
      }
      match state {
        case Ready => ready := ready + [id];
        case Done => totalPending := totalPending - 1;
        case _ =>
      }
    }

    /** Takes the next ready build and marks it Running. */
    method PopReady(g: WfGraph) returns (r: Option<BuildId>)
      requires Accounts(g)
      modifies `states, `ready
      ensures Accounts(g)
      ensures r.None? ==> old(ready) == [] && states == old(states) && ready == []
      ensures r.Some? ==> r.value < |states| && old(states)[r.value] == Ready && states == old(states)[r.value := Running]
    {
      if ready == [] {
        return None;
      }
      ReadyPops(states, ready, Running);
      Moved(states, AllBuilds(g), PENDING, ready[0], Running);
      r := Some(ready[0]);
      states := states[ready[0] := Running];
      ready := ready[1..];
    }

    ghost function UnneededCount(g: Graph): nat
      reads `states
    {
      |In(states, AllBuilds(g), {Unneeded})|
    }

    /** What every step of a walk keeps and promises. */
    twostate predicate Walked(g: WfGraph, skip: set<BuildId>, limit: set<BuildId>)
      reads `states, `totalPending, `ready, `rank
    {
      Valid(g, skip) && OnlyWants(old(states), states, limit) && Extends(old(rank), rank)
    }

    /** Sets a build whose ordering inputs have all been visited. */
    method Enter(g: WfGraph, id: BuildId, ready: bool, ghost before: seq<BuildState>, ghost skip: set<BuildId>,
                 ghost limit: set<BuildId>)
      returns (state: BuildState)
      requires Valid(g, skip) && id < |g.builds| && g.builds[id].Sized()
      requires OnlyWants(before, states, limit) && id in limit && before[id] == Unneeded
      requires forall f | f in g.builds[id].OrderingIns() :: FileWanted(g, states, f)
      requires ready <==> forall f | f in g.builds[id].OrderingIns() :: FileDone(g, states, f)
      requires ready ==> states == before
      modifies `states, `totalPending, `totalWanted, `ready, `rank
      ensures Valid(g, skip) && OnlyWants(before, states, limit) && Extends(old(rank), rank)
      ensures states[id] == state != Unneeded && states == old(states)[id := state]
    {
      hide ReadyListed, Progressed, Sorted, In, Reranked, Extends, OnlyWants;
      state := if ready then Ready else Want;
      EnterState(g, before, states, skip, rank, limit, id, state);
      rank := Reranked(states, rank, id);
      Set(g, id, state);
      if g.builds[id].cmdline.Some? {
        totalWanted := totalWanted + 1;
      }
    }

    method WantBuild(g: WfGraph, stack: seq<FileId>, id: BuildId, ghost skip: set<BuildId>, ghost limit: set<BuildId>,
                     ghost base: set<BuildId>)
      returns (r: Result<BuildState, seq<FileId>>)
      requires Valid(g, skip) && id < |g.builds|
      requires BaseWanted(states, base) && id in limit && Closed(g, true, limit)
      requires NoDup(stack) && |stack| <= |g.files| && (id !in base ==> Inside(Cut(g, base), true, stack, id))
      modifies `states, `totalPending, `totalWanted, `ready, `rank, `left
      ensures Walked(g, skip, limit)
      ensures r.Ok? ==> states[id] == r.value != Unneeded
      ensures old(states[id]) != Unneeded ==> r == Ok(old(states[id])) && states == old(states) && left == old(left)
      ensures r.Err? ==> id !in base && FileCycle(Cut(g, base), true, r.error) && ReachesCycle(Cut(g, base), true, id)
      ensures r.Ok? && id !in base ==>
                Visited(Cut(g, base), Entered(g, old(states), base), old(left), Entered(g, states, base), left, stack, id)
      decreases UnneededCount(g), |g.files| - |stack|, 2
    {
      hide ReadyListed, Progressed, Sorted, Inside, CycleFrom, ReachesCycle, FileCycle, In, Closed;
      hide Reranked, Extends, MadeIn, Before;
      hide Visited, Explores, Behind, Wanted, Makes, FileWanted, FileDone, OnlyWants, Chain, Cut, Entered, BaseWanted;
      ghost var c := Cut(g, base);
      CutSizes(g, base);
      ghost var w0, l0 := Entered(g, states, base), left;
      EnteredIs(g, states, base, id);
      OnlyWantsRefl(states, limit);
      ExtendsRefl(rank);
      var state := states[id];
      if state != Unneeded {
        if id !in base {
          InsideTop(c, stack, id);
          VisitedAgain(c, w0, l0, stack, id);
        }
        return Ok(state);
      }
      InsideTop(c, stack, id);
      CutInsideEach(g, base, stack, id, limit);
      var ins := WantFiles(g, stack, g.builds[id].OrderingIns(), skip, limit, base);
      if ins.Err? {
        CycleThrough(c, true, id, g.builds[id].OrderingIns());
        return Err(ins.error);
      }
      ghost var rank0 := rank;
      ghost var w1, l1, entering := Entered(g, states, base), left, states;
      state := Enter(g, id, ins.value, old(states), skip, limit);
      UnneededShrinks(g, old(states), states, limit, id);
      SameBuilds(old(states), states, limit);
      BaseStays(old(states), states, limit, base);
      ghost var entered, rank1 := states, rank;
      ghost var checked := g.builds[id].ValidationIns() != [];
      EnteredMore(g, entering, entered, base, id);
      if !checked {
        WholeUnchecked(c, w0, l0, w1, l1, stack, id);
        left := left + [id];
      }
      ghost var left0 := left;
      var checks := WantFiles(g, stack, g.builds[id].ValidationIns(), skip, limit, base);
      OnlyWantsTrans(old(states), entered, states, limit);
      ExtendsTrans(old(rank), rank0, rank1);
      ExtendsTrans(old(rank), rank1, rank);
      if checks.Err? {
        CycleThrough(c, true, id, g.builds[id].ValidationIns());
        return Err(checks.error);
      }
      StaysWanted(entered, states, limit, id);
      if checked {
        WholeBuild(c, w0, l0, w1, l1, Entered(g, states, base), left, stack, id);
        left := left + [id];
      } else {
        VisitedThen(c, w0, l0, w1 + {id}, left0, Entered(g, states, base), left, stack, id);
      }
      r := Ok(state);
    }

    method WantFiles(g: WfGraph, stack: seq<FileId>, fs: seq<FileId>, ghost skip: set<BuildId>, ghost limit: set<BuildId>,
                     ghost base: set<BuildId>)
      returns (r: Result<bool, seq<FileId>>)
      requires Valid(g, skip) && BaseWanted(states, base) && Closed(g, true, limit)
      requires forall f | f in fs :: Before(Cut(g, base), true, stack, f) && MadeIn(g, f, limit)
      modifies `states, `totalPending, `totalWanted, `ready, `rank, `left
      ensures Walked(g, skip, limit)
      ensures r.Ok? ==> forall f | f in fs :: FileWanted(g, states, f)
      ensures r.Ok? ==> (r.value <==> forall f | f in fs :: FileDone(g, states, f))
      ensures r.Ok? && r.value ==> states == old(states)
      ensures r.Err? ==> FileCycle(Cut(g, base), true, r.error) && exists f | f in fs :: CycleFrom(Cut(g, base), true, f)
      ensures r.Ok? ==> Explores(Cut(g, base), Entered(g, old(states), base), old(left), Entered(g, states, base), left, stack)
      ensures r.Ok? ==> Behind(Cut(g, base), Entered(g, old(states), base), old(left), stack, left, fs)
      decreases UnneededCount(g), |g.files| - |stack|, 1
    {
      hide ReadyListed, Progressed, Sorted, Before, CycleFrom, FileCycle, OnlyWants, MadeIn, Closed;
      hide FileWanted, FileDone, In, Extends;
      hide Explores, Behind, Wanted, Cut, Entered, BaseWanted, FilesWanted, FilesDone;
      ghost var c := Cut(g, base);
      OnlyWantsRefl(states, limit);
      ExtendsRefl(rank);
      NoFiles(g, states);
      ExploresRefl(c, Entered(g, states, base), left, stack);
      NothingBehind(c, Entered(g, states, base), left, stack);
      var ready := true;
      for i := 0 to |fs|
        invariant Walked(g, skip, limit) && BaseWanted(states, base)
        invariant Explores(c, Entered(g, old(states), base), old(left), Entered(g, states, base), left, stack)
        invariant Behind(c, Entered(g, old(states), base), old(left), stack, left, fs[..i])
        invariant ready ==> states == old(states)
        invariant FilesWanted(g, states, fs[..i]) && (ready <==> FilesDone(g, states, fs[..i]))
      {
        UnneededShrinks(g, old(states), states, limit, 0);
        ghost var before, rank0, left0 := states, rank, left;
        var got := WantFile(g, stack, fs[i], skip, limit, base);
        ExtendsTrans(old(rank), rank0, rank);
        OnlyWantsTrans(old(states), before, states, limit);
        if got.Err? {
          assert fs[i] in fs;
          return Err(got.error);
        }
        FilesStep(g, before, states, limit, fs[..i], fs[i]);
        BaseStays(before, states, limit, base);
        OneMoreFile(c, Entered(g, old(states), base), old(left), Entered(g, before, base), left0, Entered(g, states, base), left,
                    stack, fs[..i], fs[i]);
        PrefixSnoc(fs, i);
        if !got.value {
          ready := false;
        }
      }
      WholePrefix(fs);
      VisitedFiles(g, states, fs);
      r := Ok(ready);
    }

    method WantFile(g: WfGraph, stack: seq<FileId>, f: FileId, ghost skip: set<BuildId>, ghost limit: set<BuildId>,
                    ghost base: set<BuildId>)
      returns (r: Result<bool, seq<FileId>>)
      requires Valid(g, skip) && BaseWanted(states, base)
      requires Before(Cut(g, base), true, stack, f) && MadeIn(g, f, limit) && Closed(g, true, limit)
      modifies `states, `totalPending, `totalWanted, `ready, `rank, `left
      ensures Walked(g, skip, limit)
      ensures r.Ok? ==> FileWanted(g, states, f)
      ensures r.Ok? ==> (r.value <==> FileDone(g, states, f)) && (r.value ==> states == old(states))
      ensures r.Err? ==> FileCycle(Cut(g, base), true, r.error) && CycleFrom(Cut(g, base), true, f)
      ensures r.Ok? ==> Explores(Cut(g, base), Entered(g, old(states), base), old(left), Entered(g, states, base), left, stack)
      ensures r.Ok? ==> Behind(Cut(g, base), Entered(g, old(states), base), old(left), stack, left, [f])
      decreases UnneededCount(g), |g.files| - |stack|, 0
    {
      hide ReadyListed, Progressed, Sorted, Inside, FileCycle, ReachesCycle, Chain, In, Extends;
      hide Explores, Behind, Visited, Wanted, Entered;
      ghost var c := Cut(g, base);
      ghost var w0, l0 := Entered(g, states, base), left;
      OnlyWantsRefl(states, limit);
      ExtendsRefl(rank);
      if f in stack {
        var k := IndexOf(stack, f);
        StackCycle(c, true, stack, k, f);
        return Err(stack[k..] + [f]);
      }
      var ready := true;
      StackFits(g, stack);
      if Producer(g, f).Some? {
        assert g.FileWellFormed(f);
        ghost var id := Producer(g, f).value;
        if id !in base {
          StackPush(c, true, stack, f);
        }
        NoDupAppend(stack, f);
        StackFits(g, stack + [f]);
        var state := WantBuild(g, stack + [f], Producer(g, f).value, skip, limit, base);
        if state.Err? {
          return Err(state.error);
        }
        if id in base {
          SourceFile(c, w0, l0, stack, f);
        } else {
          WholeFile(c, w0, l0, Entered(g, states, base), left, stack, f, id);
        }
        if state.value != Done {
          ready := false;
        }
      } else {
        SourceFile(c, w0, l0, stack, f);
      }
      r := Ok(ready);
    }
  }
}
