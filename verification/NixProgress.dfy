/**
 What nix-ninja's run loop rests on: waking dependents, the new ranks a
 deferral needs, the budget that bounds the starts, and how a run ends.
 */
module NixProgress {
  import opened Wrappers
  import opened BuildGraph
  import opened Counting
  import opened GraphEdit
  import opened NixStates
  import opened Ordering
  import opened Sequences

  ghost function Waiters(g: WfGraph, states: seq<BuildState>, id: BuildId): (r: set<BuildId>)
    requires |states| == |g.builds|
  {
    set b | b in AllBuilds(g) && states[b] == Want && id in Deps(g, b)
  }

  lemma SortedMove(g: WfGraph, states: seq<BuildState>, skip: set<BuildId>, rank: map<BuildId, nat>, id: BuildId,
                   state: BuildState)
    requires |states| == |g.builds| && Sorted(g, states, skip, rank) && id < |states|
    requires states[id] != Unneeded && state != Unneeded
    ensures Sorted(g, states[id := state], skip, rank)
  {
    assert Wanted(g, states[id := state]) == Wanted(g, states);
  }

  /** Starting a ready build, or putting a running one back to Want. */
  lemma ProgressedMove(g: WfGraph, states: seq<BuildState>, id: BuildId, state: BuildState)
    requires |states| == |g.builds| && Progressed(g, states, {}) && id < |states|
    requires states[id] != Done && state in {Running, Want}
    ensures Progressed(g, states[id := state], {id})
    ensures state == Running ==> Progressed(g, states[id := state], {})
  {
    SameDone(g, states, states[id := state]);
  }

  /** A finished build makes exactly its waiters stale. */
  lemma ProgressedDone(g: WfGraph, states: seq<BuildState>, id: BuildId)
    requires |states| == |g.builds| && Progressed(g, states, {}) && id < |states|
    requires states[id] == Running && AllDone(states, Deps(g, id))
    ensures Progressed(g, states[id := Done], Waiters(g, states[id := Done], id))
  {
    var after := states[id := Done];
    forall b | 0 <= b < |states|
      ensures AllDone(states, Deps(g, b)) ==> AllDone(after, Deps(g, b))
      ensures AllDone(after, Deps(g, b)) && id !in Deps(g, b) ==> AllDone(states, Deps(g, b))
    {
      if AllDone(after, Deps(g, b)) && id !in Deps(g, b) {
        forall p | p in Deps(g, b)
          ensures p < |states| && states[p] == Done
        {
          assert after[p] == Done;
        }
      }
    }
  }

  lemma ProgressedRecheck(g: WfGraph, states: seq<BuildState>, stale: set<BuildId>, id: BuildId)
    requires |states| == |g.builds| && Progressed(g, states, stale) && id < |states| && states[id] == Want
    ensures AllDone(states, Deps(g, id)) ==> Progressed(g, states[id := Ready], stale - {id})
    ensures !AllDone(states, Deps(g, id)) ==> Progressed(g, states, stale - {id})
  {
    SameDone(g, states, states[id := Ready]);
  }

  lemma ProgressedWeaken(g: WfGraph, states: seq<BuildState>, stale: set<BuildId>, stale': set<BuildId>)
    requires |states| == |g.builds| && Progressed(g, states, stale) && stale <= stale'
    ensures Progressed(g, states, stale')
  {
  }

  // ---- What an edit of a running build leaves true. ----

  lemma EditedKeeps(g: WfGraph, g': WfGraph, states: seq<BuildState>, skip: set<BuildId>, rank: map<BuildId, nat>,
                    c: BuildId)
    requires |states| == |g.builds| == |g'.builds| && c < |states| && states[c] == Running
    requires Progressed(g, states, {}) && Sorted(g, states, skip, rank)
    requires forall b | 0 <= b < |states| && b != c :: Deps(g', b) == Deps(g, b)
    ensures Progressed(g', states, {}) && Sorted(g', states, skip + {c}, rank)
  {
    hide Deps, AllDone;
    assert Wanted(g', states) == Wanted(g, states);
    ProgressedEdited(g, g', states, c);
    assert forall b :: b in Wanted(g, states) && b !in skip + {c} ==> b != c && b !in skip;
  }

  lemma ProgressedEdited(g: WfGraph, g': WfGraph, states: seq<BuildState>, c: BuildId)
    requires |states| == |g.builds| == |g'.builds| && c < |states| && states[c] == Running
    requires Progressed(g, states, {})
    requires forall b | 0 <= b < |states| && b != c :: Deps(g', b) == Deps(g, b)
    ensures Progressed(g', states, {})
  {
    hide Deps, AllDone;
  }

  /**
   New edges out of `c` keep the wanted builds in order as long as what they
   lead to does not reach `c`: everything that reaches `c` moves above them.
   */
  lemma Resort(g: WfGraph, g': WfGraph, states: seq<BuildState>, skip: set<BuildId>, rank: map<BuildId, nat>, c: BuildId)
    returns (rank': map<BuildId, nat>)
    requires |states| == |g.builds| == |g'.builds| && c < |states| && states[c] != Unneeded
    requires Sorted(g', states, skip + {c}, rank)
    requires forall b | 0 <= b < |states| && b != c :: Deps(g', b) == Deps(g, b)
    requires forall p | p in Deps(g', c) :: states[p] != Unneeded
    requires forall p | p in Deps(g', c) :: (p in Deps(g, c) && rank[p] < rank[c]) || !Reaches(g, false, p, c)
    ensures Sorted(g', states, skip, rank')
  {
    hide Reaches, Deps;
    var m := Top(rank);
    rank' := map b | b in rank :: if Reaches(g, false, b, c) then rank[b] + m else rank[b];
    ReachesSelf(g, false, c);
    assert Wanted(g', states) == rank.Keys;
    forall b, p | b in Wanted(g', states) && b !in skip && p in Deps(g', b)
      ensures p in rank && states[p] != Unneeded && rank'[p] < rank'[b]
    {
      if b == c {
        assert p in Wanted(g', states);
      } else {
        assert b !in skip + {c};
        assert states[p] != Unneeded && rank[p] < rank[b];
        assert p in Wanted(g', states);
        assert p in Deps(g, b);
        if Reaches(g, false, p, c) {
          StepBack(g, b, p, c);
        }
      }
    }
  }

  lemma StepBack(g: WfGraph, b: BuildId, p: BuildId, c: BuildId)
    requires b < |g.builds| && p in Deps(g, b) && Reaches(g, false, p, c)
    ensures Reaches(g, false, b, c)
  {
    ReachesStep(g, false, b, p, c);
  }

  // ---- The budget. ----

  /** The ordering edges that a deferral could still add. */
  ghost function MissingEdges(g: WfGraph): (r: set<(BuildId, FileId)>)
  {
    set b, f | b in AllBuilds(g) && f in Upto(|g.files|) && g.builds[b].Sized() && f !in g.builds[b].OrderingIns() :: (b, f)
  }

  /** State changes left, running tasks included, until the next deferral. */
  ghost function Weight(g: Graph, states: seq<BuildState>, out: set<BuildId>): nat {
    |In(states, AllBuilds(g), {Unneeded})| + |In(states, AllBuilds(g), {Unneeded, Want})|
    + |In(states, AllBuilds(g), {Unneeded, Want, Ready})| + |In(states, AllBuilds(g), {Unneeded, Want, Ready})| + |out|
  }

  /** How often a deferral can still change something. */
  ghost function Deferrals(g: WfGraph, noDefer: set<BuildId>): nat {
    |MissingEdges(g)| + |AllBuilds(g) - noDefer|
  }

  /** A bound on the starts and reports that are still to come. */
  ghost function Budget(g: WfGraph, states: seq<BuildState>, out: set<BuildId>, noDefer: set<BuildId>): nat {
    Scaled(Deferrals(g, noDefer), 5 * |g.builds| + 1) + Weight(g, states, out)
  }

  /** `a` times `k`. */
  function Scaled(a: nat, k: nat): nat {
    if a == 0 then 0 else k + Scaled(a - 1, k)
  }

  lemma ScaledLess(a: nat, b: nat, k: nat)
    requires a < b
    ensures Scaled(a, k) + k <= Scaled(b, k)
    decreases b
  {
    if a < b - 1 {
      ScaledLess(a, b - 1, k);
    }
  }

  lemma WeightBounded(g: Graph, states: seq<BuildState>, out: set<BuildId>)
    requires out <= AllBuilds(g)
    ensures Weight(g, states, out) <= 5 * |g.builds|
  {
    SubsetCardinality(In(states, AllBuilds(g), {Unneeded}), AllBuilds(g));
    SubsetCardinality(In(states, AllBuilds(g), {Unneeded, Want}), AllBuilds(g));
    SubsetCardinality(In(states, AllBuilds(g), {Unneeded, Want, Ready}), AllBuilds(g));
    SubsetCardinality(out, AllBuilds(g));
    assert |AllBuilds(g)| == |g.builds|;
  }

  /** One state change, and the set of tasks that are out along with it. */
  lemma WeightMoves(g: Graph, states: seq<BuildState>, out: set<BuildId>, id: BuildId, state: BuildState,
                    out': set<BuildId>)
    requires |states| == |g.builds| && id < |states|
    ensures Weight(g, states[id := state], out') + Left(states[id]) + |out| == Weight(g, states, out) + Left(state) + |out'|
  {
    Moved(states, AllBuilds(g), {Unneeded}, id, state);
    Moved(states, AllBuilds(g), {Unneeded, Want}, id, state);
    Moved(states, AllBuilds(g), {Unneeded, Want, Ready}, id, state);
  }

  function Left(s: BuildState): nat {
    match s
    case Unneeded => 4
    case Want => 3
    case Ready => 2
    case _ => 0
  }

  /** A walk only uses weight up. */
  lemma WeightWalk(g: Graph, states: seq<BuildState>, states': seq<BuildState>, out: set<BuildId>, limit: set<BuildId>)
    requires |states| == |g.builds| && OnlyWants(states, states', limit)
    ensures Weight(g, states', out) <= Weight(g, states, out)
  {
    FewerIn(states, states', AllBuilds(g), {Unneeded});
    FewerIn(states, states', AllBuilds(g), {Unneeded, Want});
    FewerIn(states, states', AllBuilds(g), {Unneeded, Want, Ready});
  }

  /** A deferral that adds an edge, or suppresses a build, pays for everything it starts over. */
  lemma BudgetFalls(g: WfGraph, states: seq<BuildState>, out: set<BuildId>, noDefer: set<BuildId>,
                    g': WfGraph, states': seq<BuildState>, out': set<BuildId>, noDefer': set<BuildId>)
    requires |g'.builds| == |g.builds| && out' <= AllBuilds(g)
    requires Deferrals(g', noDefer') < Deferrals(g, noDefer)
    ensures Budget(g', states', out', noDefer') < Budget(g, states, out, noDefer)
  {
    hide Weight, Deferrals;
    WeightBounded(g', states', out');
    ScaledLess(Deferrals(g', noDefer'), Deferrals(g, noDefer), 5 * |g.builds| + 1);
  }

  /** Edits never bring an edge back, and one of a file that is no input yet removes a missing edge. */
  lemma EditedFewerMissing(g: WfGraph, g': WfGraph, b: BuildId, fs: seq<FileId>)
    requires b < |g.builds| && EditedAt(g, g', b, fs) && forall f | f in fs :: f < |g.files|
    ensures |MissingEdges(g')| <= |MissingEdges(g)|
    ensures (exists f | f in fs :: f !in g.builds[b].ins) ==> |MissingEdges(g')| < |MissingEdges(g)|
  {
    forall e | e in MissingEdges(g')
      ensures e in MissingEdges(g)
    {
      assert g.BuildWellFormed(e.0);
      if e.0 == b {
        assert e.1 !in g'.builds[b].OrderingIns();
      }
    }
    if f :| f in fs && f !in g.builds[b].ins {
      assert f !in g.builds[b].OrderingIns() && f !in g.builds[b].ValidationIns();
      assert f in g'.builds[b].OrderingIns();
      assert (b, f) in MissingEdges(g) && (b, f) !in MissingEdges(g');
    }
    SubsetCardinality(MissingEdges(g'), MissingEdges(g));
  }

  // ---- The end of a run. ----

  ghost function DoneSet(g: Graph, states: seq<BuildState>): set<BuildId>
    requires |states| == |g.builds|
  {
    set b | b in AllBuilds(g) && states[b] == Done
  }

  /** A wanted build is Done exactly when no abandoned build is among those it is ordered after, itself included. */
  ghost predicate BlockedByDead(g: WfGraph, states: seq<BuildState>, dead: set<BuildId>)
    requires |states| == |g.builds|
  {
    forall b | 0 <= b < |states| && states[b] != Unneeded ::
      states[b] == Done <==> !exists d :: d in dead && Reaches(g, false, b, d)
  }

  /** Nothing is ready and only abandoned builds are still marked running. */
  lemma RunEnded(g: WfGraph, states: seq<BuildState>, dead: set<BuildId>, rank: map<BuildId, nat>)
    requires |states| == |g.builds| && Progressed(g, states, {}) && Sorted(g, states, dead, rank)
    requires forall b: nat :: b in dead <==> b < |states| && states[b] == Running
    requires forall b | 0 <= b < |states| :: states[b] != Ready
    ensures BlockedByDead(g, states, dead)
  {
    hide Reaches, Progressed, Sorted;
    SortedRanked(g, states, dead, rank);
    EndWaiting(g, states, dead, rank);
    DoneClosed(g, states);
    forall b | 0 <= b < |states| && states[b] != Unneeded
      ensures states[b] == Done <==> !exists d :: d in dead && Reaches(g, false, b, d)
    {
      StoppedExactly(g, Wanted(g, states), rank, DoneSet(g, states), dead, b);
    }
  }

  lemma SortedRanked(g: WfGraph, states: seq<BuildState>, dead: set<BuildId>, rank: map<BuildId, nat>)
    requires |states| == |g.builds| && Sorted(g, states, dead, rank)
    ensures Ranked(g, Wanted(g, states), dead, rank)
  {
  }

  lemma DoneClosed(g: WfGraph, states: seq<BuildState>)
    requires |states| == |g.builds| && Progressed(g, states, {})
    ensures Closed(g, false, DoneSet(g, states))
  {
    forall b | b in DoneSet(g, states)
      ensures Next(g, false, b) <= DoneSet(g, states)
    {
      assert AllDone(states, Deps(g, b));
    }
  }

  lemma EndWaiting(g: WfGraph, states: seq<BuildState>, dead: set<BuildId>, rank: map<BuildId, nat>)
    requires |states| == |g.builds| && Progressed(g, states, {}) && Sorted(g, states, dead, rank)
    requires forall b: nat :: b in dead <==> b < |states| && states[b] == Running
    requires forall b | 0 <= b < |states| :: states[b] != Ready
    ensures Waiting(g, Wanted(g, states), DoneSet(g, states), dead)
  {
    hide Progressed, Sorted;
    forall b | b in Wanted(g, states) && b !in DoneSet(g, states) && b !in dead
      ensures exists p :: p in Deps(g, b) && p in Wanted(g, states) && p !in DoneSet(g, states)
    {
      WantWaits(g, states, dead, rank, b);
    }
  }

  lemma WantWaits(g: WfGraph, states: seq<BuildState>, dead: set<BuildId>, rank: map<BuildId, nat>, b: BuildId)
    requires |states| == |g.builds| && Progressed(g, states, {}) && Sorted(g, states, dead, rank)
    requires b < |states| && states[b] == Want && b !in dead
    ensures exists p :: p in Deps(g, b) && p in Wanted(g, states) && p !in DoneSet(g, states)
  {
    hide Progressed, Deps;
    PastWant(g, states, {}, b);
    var p :| p in Deps(g, b) && !(p < |states| && states[p] == Done);
    assert b in Wanted(g, states);
    assert states[p] != Unneeded;
  }
}
