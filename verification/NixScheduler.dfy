/**
 nix-ninja's Scheduler. A finished task may name a file it should have waited
 for; the file becomes an input of the running build, its producer is wanted,
 and the build goes back to Want. So the graph grows while the run goes on.
 */
module NixScheduler {
  import opened Wrappers
  import opened BuildGraph
  import opened Counting
  import opened GraphEdit
  import opened NixProgress
  import opened NixStates
  import opened Ordering
  import opened Sequences
  import opened WantExplored
  import opened WantWalk
  import N2States

  /** What a task reports: whether it succeeded, and the files it found missing, if any. */
  datatype Report = Report(ok: bool, defer: Option<seq<FileId>>)

  /** How a run ends: all done, some tasks failed, given up at the first failure, or still waiting for a report. */
  datatype Ending = Finished | TasksFailed(count: nat) | Bailed | OutOfReports

  /**
   A report as it was taken in: the graph and the wanted builds of that moment, the
   build it was about, whether that build might still defer, and whether it was
   given up.
   */
  datatype Taken = Taken(graph: WfGraph, wanted: set<BuildId>, bid: BuildId, report: Report, mayDefer: bool, givenUp: bool)

  class Scheduler {
    var graph: WfGraph
    const bs: BuildStates
    /** Builds that may not defer again. */
    var noDefer: set<BuildId>
    /** The tasks the runner has out. */
    var inFlight: set<BuildId>
    /** Builds whose task failed, or whose deferral was refused: they stay Running for good. */
    ghost var dead: set<BuildId>

    ghost predicate Valid()
      reads this, bs
    {
      && bs.Valid(graph, dead)
      && Out(bs.states, inFlight, dead)
      && InputsDone(graph, bs.states, inFlight)
    }

    /** The task of `c` has just come back. */
    ghost predicate Returned(c: BuildId)
      reads this, bs
    {
      && bs.Valid(graph, dead)
      && c !in inFlight && c !in dead
      && Out(bs.states, inFlight + {c}, dead)
      && InputsDone(graph, bs.states, inFlight + {c})
    }

    constructor (graph: WfGraph)
      ensures Valid() && this.graph == graph && dead == {} && noDefer == {} && inFlight == {} && fresh(bs)
      ensures forall b | 0 <= b < |bs.states| :: bs.states[b] == Unneeded
      ensures SingleOuts(graph) ==> Explored(graph, Wanted(graph, bs.states), [], bs.left)
    {
      this.graph := graph;
      noDefer := {};
      inFlight := {};
      dead := {};
      bs := new BuildStates(graph);
    }

    ghost function Left(): nat
      requires |bs.states| == |graph.builds|
      reads this, bs
    {
      Budget(graph, bs.states, inFlight, noDefer)
    }

    /**
     The files of a deferral that are not yet ordering inputs of `bid`, each
     once, in ascending order whatever order they were found in.
     */
    method NewIds(fids: seq<FileId>, bid: BuildId) returns (out: seq<FileId>)
      requires bid < |graph.builds| && graph.builds[bid].Sized() && forall f | f in fids :: f < |graph.files|
      ensures Elements(out) == Elements(fids) - Elements(graph.builds[bid].OrderingIns())
      ensures forall i, j | 0 <= i < j < |out| :: out[i] < out[j]
    {
      out := [];
      for f := 0 to |graph.files|
        invariant forall x :: x in out <==> x < f && x in fids && x !in graph.builds[bid].OrderingIns()
        invariant forall i | 0 <= i < |out| :: out[i] < f
        invariant forall i, j | 0 <= i < j < |out| :: out[i] < out[j]
      {
        if f in fids && f !in graph.builds[bid].OrderingIns() {
          out := out + [f];
        }
      }
    }

    /**
     Wants a target; what is wanted then lies on no ordering cycle. Where every
     build with validation inputs makes one file, targets are refused exactly
     when a cycle can be reached from them, be it one of ordering and validation
     edges together.
     */
    method WantTarget(f: FileId) returns (r: Result<bool, seq<FileId>>)
      requires Valid() && f < |graph.files|
      modifies bs
      ensures Valid() && OnlyWants(old(bs.states), bs.states, AllBuilds(graph)) && |bs.states| == |graph.builds|
      ensures r.Ok? ==> FileWanted(graph, bs.states, f)
      ensures r.Err? ==> FileCycle(graph, true, r.error) && CycleFrom(graph, true, f)
      ensures dead == {} ==> forall b | 0 <= b < |bs.states| && bs.states[b] != Unneeded :: !OnCycle(graph, false, b)
      ensures Explored(graph, Wanted(graph, old(bs.states)), [], old(bs.left)) && r.Ok? ==>
                Explored(graph, Wanted(graph, bs.states), [], bs.left)
      ensures Explored(graph, Wanted(graph, old(bs.states)), [], old(bs.left)) ==> (r.Ok? <==> !CycleFrom(graph, true, f))
    {
      hide ReadyListed, Progressed, Sorted, In, Out, InputsDone, Closed, MadeIn, Before, FileCycle;
      hide CycleFrom, OnCycle;
      hide Explored, Behind, Wanted, Cut, Entered;
      ghost var w0, left0 := Wanted(graph, bs.states), bs.left;
      AnyFile(graph, f);
      CutNothing(graph);
      EnteredAll(graph, bs.states);
      ghost var states0 := bs.states;
      r := bs.WantFile(graph, [], f, dead, AllBuilds(graph), {});
      EnteredAll(graph, bs.states);
      WalkKeeps(graph, states0, bs.states, inFlight, inFlight, dead);
      if dead == {} {
        SortedNoCycle(graph, bs.states, bs.rank);
      }
      if r.Ok? && Explored(graph, w0, [], left0) {
        NoCycleBehind(graph, w0, left0, Wanted(graph, bs.states), bs.left, f);
      }
    }

    /** Starts every ready build; each has everything it is ordered after Done. */
    method StartReady() returns (started: nat)
      requires Valid()
      modifies bs, `inFlight
      ensures Valid() && bs.ready == [] && old(inFlight) <= inFlight
      ensures started == 0 ==> old(bs.ready) == [] && bs.states == old(bs.states) && inFlight == old(inFlight)
      ensures |inFlight| == |old(inFlight)| + started
      ensures |bs.states| == |old(bs.states)| && started + Left() <= old(Left())
      ensures DoneOf(bs.states) == DoneOf(old(bs.states))
    {
      hide Progressed, Sorted, In, Weight, Deferrals, Scaled, DoneOf;
      started := 0;
      while true
        invariant Valid() && |bs.states| == |old(bs.states)| && old(inFlight) <= inFlight
        invariant started == 0 ==> bs.ready == old(bs.ready) && bs.states == old(bs.states) && inFlight == old(inFlight)
        invariant |inFlight| == |old(inFlight)| + started
        invariant started + Left() <= old(Left()) && DoneOf(bs.states) == DoneOf(old(bs.states))
        decreases Left()
      {
        var more := StartOne();
        if !more {
          return;
        }
        started := started + 1;
      }
    }

    method StartOne() returns (more: bool)
      requires Valid()
      modifies bs, `inFlight
      ensures Valid() && |bs.states| == |old(bs.states)|
      ensures !more ==> old(bs.ready) == [] && bs.ready == [] && bs.states == old(bs.states) && inFlight == old(inFlight)
      ensures more ==> old(inFlight) <= inFlight && |inFlight| == |old(inFlight)| + 1 && Left() < old(Left())
      ensures DoneOf(bs.states) == DoneOf(old(bs.states))
    {
      hide ReadyListed, Progressed, Sorted, In, AllDone, Deferrals, Scaled, Weight, Out, InputsDone, DoneOf;
      ghost var before := bs.states;
      var next := bs.PopReady(graph);
      if next.None? {
        return false;
      }
      var id := next.value;
      StartKeeps(graph, before, inFlight, dead, bs.rank, id);
      WeightMoves(graph, before, inFlight, id, Running, inFlight + {id});
      DoneMoves(before, id, Running);
      inFlight := inFlight + {id};
      more := true;
    }

    /** Waits for any one of the tasks that are out. A suppressed build reports no deferral. */
    method Wait(report: Report) returns (bid: BuildId, ok: bool, defer: Option<seq<FileId>>)
      requires Valid() && inFlight != {}
      modifies `inFlight
      ensures bid in old(inFlight) && inFlight == old(inFlight) - {bid} && Returned(bid)
      ensures ok == report.ok && defer == (if bid in noDefer then None else report.defer)
      ensures |bs.states| == |graph.builds| && bs.states == old(bs.states) && Left() < old(Left())
    {
      hide Progressed, Sorted, In, Deferrals, Scaled;
      bid :| bid in inFlight;
      ok := report.ok;
      defer := if bid in noDefer then None else report.defer;
      assert (inFlight - {bid}) + {bid} == inFlight;
      inFlight := inFlight - {bid};
    }

    /** Whether everything `id` is ordered after is Done. */
    method RecheckReady(id: BuildId) returns (r: bool)
      requires id < |graph.builds| && |bs.states| == |graph.builds|
      ensures r <==> AllDone(bs.states, Deps(graph, id))
    {
      hide AllDone, Deps, Next;
      DepsByFile(graph, bs.states, id);
      var ins := graph.builds[id].OrderingIns();
      for i := 0 to |ins|
        invariant forall k | 0 <= k < i :: FileDone(graph, bs.states, ins[k])
      {
        assert ins[i] in ins;
        var producer := Producer(graph, ins[i]);
        if producer.Some? {
          assert graph.FileWellFormed(ins[i]);
          if bs.states[producer.value] != Done {
            assert !FileDone(graph, bs.states, ins[i]);
            return false;
          }
        }
      }
      r := true;
    }

    /** The invariant while the builds of `waiting` are still to be rechecked. */
    ghost predicate Waking(waiting: set<BuildId>)
      reads this, bs
    {
      && bs.Accounts(graph) && Progressed(graph, bs.states, waiting) && Sorted(graph, bs.states, dead, bs.rank)
      && Out(bs.states, inFlight, dead) && InputsDone(graph, bs.states, inFlight)
      && forall b | b in waiting :: b < |bs.states| && bs.states[b] == Want
    }

    /** Marks `bid` Done and readies the builds that waited for it alone. */
    method ReadyDependents(bid: BuildId)
      requires Returned(bid)
      modifies bs
      ensures Valid() && bs.states[bid] == Done
      ensures |bs.states| == |old(bs.states)| && Left() <= old(Left())
      ensures DoneOf(bs.states) == DoneOf(old(bs.states)) + {bid}
    {
      hide ReadyListed, Progressed, Sorted, In, AllDone, Deferrals, Scaled, Weight, Out, InputsDone, Waiters, Deps, DoneOf;
      FinishKeeps(graph, bs.states, inFlight, dead, bs.rank, bid);
      DoneMoves(bs.states, bid, Done);
      WeightMoves(graph, bs.states, inFlight, bid, Done, inFlight);
      bs.Set(graph, bid, Done);
      var users := UsersOf(graph, bid);
      var waiting := set b | b in users && bs.states[b] == Want;
      WaitersAmong(graph, bs.states, bid, waiting);
      ProgressedWeaken(graph, bs.states, Waiters(graph, bs.states, bid), waiting);
      while waiting != {}
        invariant Waking(waiting)
        invariant bs.states[bid] == Done && |bs.states| == |old(bs.states)| && Left() <= old(Left())
        invariant DoneOf(bs.states) == DoneOf(old(bs.states)) + {bid}
        decreases waiting
      {
        var b :| b in waiting;
        WakeOne(b, waiting);
        waiting := waiting - {b};
      }
    }

    /** Readies one waiting build if everything it is ordered after is Done. */
    method WakeOne(b: BuildId, ghost waiting: set<BuildId>)
      requires b in waiting && Waking(waiting)
      modifies bs
      ensures Waking(waiting - {b})
      ensures bs.states == old(bs.states) || bs.states == old(bs.states)[b := Ready]
      ensures |bs.states| == |graph.builds| && Left() <= old(Left()) && DoneOf(bs.states) == DoneOf(old(bs.states))
    {
      hide ReadyListed, Progressed, Sorted, In, AllDone, Deferrals, Scaled, Weight, Out, InputsDone, Waiters, Deps, DoneOf;
      DoneMoves(bs.states, b, Ready);
      var ready := RecheckReady(b);
      ProgressedRecheck(graph, bs.states, waiting, b);
      if ready {
        WakeKeeps(graph, bs.states, inFlight, dead, bs.rank, b);
        WeightMoves(graph, bs.states, inFlight, b, Ready, inFlight);
        bs.Set(graph, b, Ready);
      }
    }

    // ---- Deferral. ----

    /** A build that came back and whose inputs are being changed. */
    ghost predicate Reopened(c: BuildId)
      reads this, bs
    {
      && bs.Valid(graph, dead + {c})
      && c !in inFlight && c !in dead
      && Out(bs.states, inFlight + {c}, dead)
      && InputsDone(graph, bs.states, inFlight)
    }

    /** Gives the build up: it stays Running for good. */
    ghost method Abandon(c: BuildId)
      requires Reopened(c)
      modifies `dead
      ensures Valid() && dead == old(dead) + {c}
    {
      OutAbandon(bs.states, inFlight, dead, c);
      dead := dead + {c};
    }

    /** A build with nothing new to wait for runs again, and may not defer a second time. */
    method RunAgain(c: BuildId)
      requires Returned(c) && c !in noDefer
      modifies bs, `noDefer
      ensures Valid() && bs.states == old(bs.states)[c := Ready] && noDefer == old(noDefer) + {c}
      ensures |bs.states| == |graph.builds| && Left() < old(Left())
    {
      hide ReadyListed, Progressed, Sorted, In, AllDone, Scaled, Weight, Out, InputsDone, Deps, Budget, Deferrals;
      RunAgainKeeps(graph, bs.states, inFlight, dead, bs.rank, noDefer, c);
      assert bs.states[c := Want][c := Ready] == bs.states[c := Ready];
      noDefer := noDefer + {c};
      bs.Set(graph, c, Want);
      bs.Set(graph, c, Ready);
    }

    /** Adds the files of `added` to the implicit inputs of a build that came back. */
    method AddInputs(c: BuildId, added: seq<FileId>)
      requires Returned(c) && c < |graph.builds| && forall f | f in added :: f < |graph.files|
      modifies `graph
      ensures |old(graph).builds| == |graph.builds| && |old(graph).files| == |graph.files|
      ensures EditedAt(old(graph), graph, c, added)
      ensures Reopened(c)
    {
      hide EditedAt, ReadyListed, Progressed, Sorted, In, Out, InputsDone, Deps;
      ghost var graph0 := graph;
      var g := graph;
      EditedRefl(g, c);
      for i := 0 to |added|
        invariant |g.builds| == |graph0.builds| && |g.files| == |graph0.files| && EditedAt(graph0, g, c, added[..i])
      {
        assert added[..i + 1] == added[..i] + [added[i]];
        assert added[i] in added;
        SizedAt(g, c);
        AddImplicitWellFormed(g, c, added[i]);
        AddImplicitInputs(g, c, added[i]);
        var next: WfGraph := AddImplicitInput(g, c, added[i]);
        EditedStep(graph0, g, next, c, added[..i], added[i]);
        g := next;
      }
      assert added[..|added|] == added;
      EditedDeps(graph0, g, c, added);
      ReopenKeeps(graph0, g, bs.states, inFlight, dead, bs.rank, c);
      graph := g;
    }

    /**
     Wants the producers of the added files. It enters only builds that were not
     wanted, those outside `base`, and fails only on a cycle of such builds.
     */
    method WantAdded(c: BuildId, added: seq<FileId>, ghost base: set<BuildId>) returns (r: Result<(), seq<FileId>>)
      requires Reopened(c) && forall f | f in added :: f < |graph.files|
      requires base == Wanted(graph, bs.states)
      modifies bs
      ensures Reopened(c) && OnlyWants(old(bs.states), bs.states, AllBuilds(graph)) && Extends(old(bs.rank), bs.rank)
      ensures r.Ok? ==> forall f | f in added :: FileWanted(graph, bs.states, f)
      ensures r.Err? ==> CycleAmong(graph, base, added)
      ensures r.Ok? && SingleOuts(Cut(graph, base)) ==> !CycleAmong(graph, base, added)
    {
      hide ReadyListed, Progressed, Sorted, In, Out, InputsDone, OnlyWants, Extends, FileWanted;
      hide FileCycle, Closed, MadeIn, Before, CycleFrom, Cut, SingleOuts, Explores, Behind, Entered, BaseWanted;
      ghost var cut := Cut(graph, base);
      bs.left := [];
      OnlyWantsRefl(bs.states, AllBuilds(graph));
      ExtendsRefl(bs.rank);
      NothingEntered(graph, bs.states, base);
      ExploresRefl(cut, {}, [], []);
      NothingBehind(cut, {}, [], []);
      for i := 0 to |added|
        invariant Reopened(c) && OnlyWants(old(bs.states), bs.states, AllBuilds(graph)) && Extends(old(bs.rank), bs.rank)
        invariant BaseWanted(bs.states, base)
        invariant Explores(cut, {}, [], Entered(graph, bs.states, base), bs.left, [])
        invariant Behind(cut, {}, [], [], bs.left, added[..i])
        invariant forall k | 0 <= k < i :: FileWanted(graph, bs.states, added[k])
      {
        ghost var states0, rank0, left0 := bs.states, bs.rank, bs.left;
        assert added[i] in added;
        AnyFileCut(graph, base, added[i]);
        var got := bs.WantFile(graph, [], added[i], dead + {c}, AllBuilds(graph), base);
        WalkKeeps(graph, states0, bs.states, inFlight, inFlight + {c}, dead);
        OnlyWantsKeeps(graph, states0, bs.states, AllBuilds(graph));
        OnlyWantsTrans(old(bs.states), states0, bs.states, AllBuilds(graph));
        ExtendsTrans(old(bs.rank), rank0, bs.rank);
        BaseStays(states0, bs.states, AllBuilds(graph), base);
        if got.Err? {
          return Err(got.error);
        }
        OneMoreFile(cut, {}, [], Entered(graph, states0, base), left0, Entered(graph, bs.states, base), bs.left, [],
                    added[..i], added[i]);
        PrefixSnoc(added, i);
      }
      WholePrefix(added);
      if SingleOuts(cut) {
        NoneBehind(cut, Entered(graph, bs.states, base), bs.left, added);
      }
      r := Ok(());
    }

    /** Puts a build whose inputs have changed back to Want, and on to Ready if they are all Done. */
    method Requeue(c: BuildId, ghost rank: map<BuildId, nat>)
      requires Reopened(c) && |bs.states| == |graph.builds| && Sorted(graph, bs.states, dead, rank)
      modifies bs
      ensures Valid() && c < |old(bs.states)|
      ensures bs.states == old(bs.states)[c := if AllDone(old(bs.states), Deps(graph, c)) then Ready else Want]
    {
      hide ReadyListed, Progressed, Sorted, In, Out, InputsDone, AllDone, Deps;
      RequeueKeeps(graph, bs.states, inFlight, dead, rank, c);
      ghost var states0 := bs.states;
      bs.rank := rank;
      bs.Set(graph, c, Want);
      var ready := RecheckReady(c);
      NotDoneBefore(graph, states0, c);
      ProgressedRecheck(graph, bs.states, {c}, c);
      assert {c} - {c} == {};
      if ready {
        WakeKeeps(graph, bs.states, inFlight, dead, rank, c);
        bs.Set(graph, c, Ready);
      }
    }

    /** The builds that generate the files of `fids`. */
    method ProducersOf(fids: seq<FileId>) returns (r: seq<BuildId>)
      requires forall f | f in fids :: f < |graph.files|
      ensures Elements(r) == Producers(graph, fids)
    {
      r := [];
      assert forall k | 0 <= k < |fids| :: fids[k] in fids;
      for i := 0 to |fids|
        invariant forall p :: p in r <==> exists k :: 0 <= k < i && Producer(graph, fids[k]) == Some(p)
      {
        if Producer(graph, fids[i]).Some? {
          r := r + [Producer(graph, fids[i]).value];
        }
      }
    }

    /** Wants the producers of inputs that were just added to a build, and puts it back to wait for them. */
    method AwaitAdded(c: BuildId, added: seq<FileId>, ghost g0: WfGraph) returns (ok: bool)
      requires Reopened(c) && c < |g0.builds| && forall f | f in added :: f < |g0.files|
      requires |bs.states| == |g0.builds| == |graph.builds| && bs.states[c] == Running
      requires EditedAt(g0, graph, c, added) && !Refused(g0, added, c) && Sorted(g0, bs.states, dead, bs.rank)
      modifies bs, `dead
      ensures Valid() && dead == if ok then old(dead) else old(dead) + {c}
      ensures |bs.states| == |old(bs.states)| == |graph.builds| && DoneOf(bs.states) == DoneOf(old(bs.states))
      ensures !ok ==> CycleAmong(g0, Wanted(g0, old(bs.states)), added)
      ensures SingleOuts(Cut(g0, Wanted(g0, old(bs.states)))) ==> (ok <==> !CycleAmong(g0, Wanted(g0, old(bs.states)), added))
      ensures ok ==> bs.states[c] in {Want, Ready} && (forall f | f in added :: f < |graph.files| && FileWanted(graph, bs.states, f))
      ensures !ok || (exists f | f in added :: f !in g0.builds[c].ins) ==>
                Left() <= Budget(g0, old(bs.states), inFlight, noDefer)
      ensures Left() <= Budget(g0, old(bs.states), inFlight, noDefer) + 3
    {
      hide ReadyListed, Progressed, Sorted, In, Out, InputsDone, AllDone, Deps, EditedAt, Scaled, Deferrals, Weight;
      hide Refused, FileCycle, FileWanted, Extends, OnlyWants, Budget, Producers, CycleAmong, Cut, SingleOuts, Wanted;
      hide Elements, Reaches, DoneOf;
      ghost var states0, rank0 := bs.states, bs.rank;
      EditedSizes(g0, graph, c, added);
      OutInRange(graph, states0, inFlight, dead);
      ghost var base := Wanted(g0, states0);
      CutEdited(g0, graph, states0, c, added);
      var wanted := WantAdded(c, added, base);
      WeightWalk(graph, states0, bs.states, inFlight, AllBuilds(graph));
      DoneStill(states0, bs.states, AllBuilds(graph), c);
      if wanted.Err? {
        DeferralKept(g0, states0, graph, bs.states, inFlight, noDefer, c, added);
        Abandon(c);
        return false;
      }
      ghost var rank := Reranking(g0, graph, states0, bs.states, dead, rank0, bs.rank, c, added);
      DeferralPays(g0, states0, graph, inFlight, noDefer, c, added);
      DeferralKept(g0, states0, graph, bs.states, inFlight, noDefer, c, added);
      ghost var walked := bs.states;
      Requeue(c, rank);
      RequeueCosts(graph, walked, inFlight, noDefer, c, bs.states[c]);
      WantedStill(graph, walked, bs.states, added);
      ok := true;
    }

    /**
     The edit a deferral makes. A build that would be ordered after itself is
     refused; any other is put back to wait for the producers of its new inputs,
     unless a cycle of builds that were not wanted can be reached from these.
     Where no such build with validation inputs makes two files, these are exactly
     the deferrals that are refused.
     */
    method HandleDeferred(c: BuildId, added: seq<FileId>) returns (ok: bool)
      requires Returned(c) && c !in noDefer && forall f | f in added :: f < |graph.files|
      modifies bs, `graph, `noDefer, `dead
      ensures Valid() && dead == if ok then old(dead) else old(dead) + {c}
      ensures c < |old(graph).builds| && old(graph).builds[c].Sized()
      ensures EditedAt(old(graph), graph, c, if Refused(old(graph), added, c) then [] else added)
      ensures |bs.states| == |old(bs.states)| == |graph.builds|
      ensures Refused(old(graph), added, c) ==> !ok && graph == old(graph) && bs.states == old(bs.states)
      ensures |old(bs.states)| == |old(graph).builds|
      ensures !ok ==> Refused(old(graph), added, c) || CycleAmong(old(graph), Wanted(old(graph), old(bs.states)), added)
      ensures SingleOuts(Cut(old(graph), Wanted(old(graph), old(bs.states)))) ==>
                (ok <==> !Refused(old(graph), added, c) && !CycleAmong(old(graph), Wanted(old(graph), old(bs.states)), added))
      ensures noDefer == if added == [] then old(noDefer) + {c} else old(noDefer)
      ensures DoneOf(bs.states) == DoneOf(old(bs.states))
      ensures ok ==> bs.states[c] in {Want, Ready} && forall f | f in added :: FileWanted(graph, bs.states, f)
      ensures !ok || added == [] || (exists f | f in added :: f !in old(graph).builds[c].ins) ==> Left() <= old(Left())
      ensures Left() <= old(Left()) + 3
    {
      hide ReadyListed, Progressed, Sorted, In, Out, InputsDone, AllDone, Deps, EditedAt, Scaled, Deferrals, Weight;
      hide Refused, FileCycle, FileWanted, Extends, OnlyWants, Budget, Producers, CycleAmong, Cut, SingleOuts, Wanted;
      hide Elements, Reaches, DoneOf;
      ReturnedDone(graph, bs.states, inFlight, dead, c);
      SizedAt(graph, c);
      EditedRefl(graph, c);
      if added == [] {
        DoneMoves(bs.states, c, Ready);
        NeverRefused(graph, c);
        NoneAmong(graph, Wanted(graph, bs.states));
        RunAgain(c);
        return true;
      }
      ghost var g0 := graph;
      ReopenKeeps(graph, graph, bs.states, inFlight, dead, bs.rank, c);
      var producers := ProducersOf(added);
      var cycle := ProducerCycle(graph, c, producers);
      RefusedExactly(graph, added, c, producers);
      if cycle.Some? {
        Abandon(c);
        return false;
      }
      AddInputs(c, added);
      ok := AwaitAdded(c, added, g0);
    }

    // ---- The run. ----

    /** Takes one report in: the build is finished, put back with new inputs, or given up. */
    method TakeReport(report: Report) returns (ok: bool, ghost taken: Taken)
      requires Valid() && inFlight != {} && Names(graph, report)
      modifies bs, `graph, `noDefer, `dead, `inFlight
      ensures Valid() && |bs.states| == |old(bs.states)| && |inFlight| == |old(inFlight)| - 1
      ensures if ok then dead == old(dead) else |dead| == |old(dead)| + 1
      ensures SameChecks(old(graph), graph)
      ensures taken == Taken(old(graph), Wanted(old(graph), old(bs.states)), taken.bid, report, taken.bid !in old(noDefer), !ok)
      ensures taken.bid in old(inFlight)
      ensures Booked(taken, Books(old(noDefer), DoneOf(old(bs.states)), old(dead)), Books(noDefer, DoneOf(bs.states), dead))
      ensures Amends(taken, graph)
      ensures Left() < old(Left()) + (if Idle(taken) then 3 else 0)
    {
      hide ReadyListed, Progressed, Sorted, In, Out, InputsDone, AllDone, Deps, Budget, SameChecks, Idle, Amends;
      hide DoneOf, Wanted, Judged, Booked;
      SameChecksRefl(graph);
      ghost var g0, noDefer0, wanted := graph, noDefer, Wanted(graph, bs.states);
      ghost var books := Books(noDefer, DoneOf(bs.states), dead);
      var bid, done, defer := Wait(report);
      ReturnedDone(graph, bs.states, inFlight, dead, bid);
      if !done {
        ReopenKeeps(graph, graph, bs.states, inFlight, dead, bs.rank, bid);
        Abandon(bid);
        taken := Taken(g0, wanted, bid, report, bid !in noDefer0, true);
        AmendsNothing(taken);
        BookedAtOnce(taken, books);
        return false, taken;
      }
      if defer.None? {
        ReadyDependents(bid);
        taken := Taken(g0, wanted, bid, report, bid !in noDefer0, false);
        AmendsNothing(taken);
        BookedAtOnce(taken, books);
        return true, taken;
      }
      ghost var deferral := Deferral(g0, wanted, bid, defer.value, false);
      assert report == deferral.report;
      ok := Defer(bid, defer.value);
      taken := Taken(g0, wanted, bid, report, true, !ok);
      BookedDeferral(taken, books);
    }

    /** A finished task named files it should have waited for. */
    method Defer(bid: BuildId, files: seq<FileId>) returns (ok: bool)
      requires Returned(bid) && bid !in noDefer && forall f | f in files :: f < |graph.files|
      modifies bs, `graph, `noDefer, `dead
      ensures Valid() && |bs.states| == |old(bs.states)| == |old(graph).builds|
      ensures dead == if ok then old(dead) else old(dead) + {bid}
      ensures SameChecks(old(graph), graph) && DoneOf(bs.states) == DoneOf(old(bs.states))
      ensures var taken := Deferral(old(graph), Wanted(old(graph), old(bs.states)), bid, files, !ok);
              && Judged(taken) && Amends(taken, graph)
              && noDefer == old(noDefer) + (if Suppresses(taken) then {bid} else {})
              && Left() <= old(Left()) + (if Idle(taken) then 3 else 0)
    {
      hide ReadyListed, Progressed, Sorted, In, Out, InputsDone, AllDone, Deps, EditedAt, Budget;
      hide Refused, FileCycle, FileWanted, CycleAmong, Cut, SingleOuts, Wanted, DoneOf;
      hide SameChecks, Idle, Amends, Judged;
      ReturnedDone(graph, bs.states, inFlight, dead, bid);
      SizedAt(graph, bid);
      ghost var g0, wanted := graph, Wanted(graph, bs.states);
      var added := NewIds(files, bid);
      assert forall f | f in added :: f in Elements(files);
      NewInputs(graph, files, bid, added);
      ok := HandleDeferred(bid, added);
      ghost var edit := if Refused(g0, added, bid) then [] else added;
      EditedChecks(g0, graph, bid, edit);
      ghost var taken := Deferral(g0, wanted, bid, files, !ok);
      AmendsBy(taken, graph, edit);
      JudgedDeferral(taken, added);
    }

    /**
     Runs until nothing is pending, nothing can go on, or a failure ends it.
     A finished run has built everything that was wanted, although edges were
     added on the way; one that stopped is blocked by the failed builds alone.
     Whatever deferrals come back, the run takes no more starts and reports than
     the budget it began with, and three for each deferral that was idle. When no
     report names a validation input there is no such deferral, and a run that may
     take more reports than the budget does not run out of them. A build is Done
     only for a report that its task succeeded, and given up only for one that it
     failed or for a deferral that was refused; so a finished run has taken in no
     such report, and one with failures counts the builds they were about.
     */
    method Run(env: nat -> Report, keepGoing: bool, limit: nat)
      returns (r: Ending, starts: nat, reports: nat, ghost log: seq<Taken>)
      requires Valid() && inFlight == {} && dead == {} && forall i :: Names(graph, env(i))
      modifies bs, `graph, `noDefer, `dead, `inFlight
      ensures Valid() && SameChecks(old(graph), graph) && |bs.states| == |graph.builds|
      ensures r.Finished? ==> forall b | 0 <= b < |bs.states| :: bs.states[b] in {Unneeded, Done}
      ensures r.TasksFailed? ==> keepGoing && r.count == |dead| > 0 && BlockedByDead(graph, bs.states, dead)
      ensures r.Bailed? ==> !keepGoing && |dead| == 1
      ensures |old(bs.states)| == |old(graph).builds|
      ensures |log| == reports <= limit && Logged(old(graph), env, log) && Grew(old(graph), log, graph)
      ensures starts + reports + Left() <= old(Left()) + 3 * Idles(log)
      ensures RunLog(old(graph), env, old(Left()), log)
      ensures r.OutOfReports? ==> reports == limit
      ensures NamesNoCheck(old(graph), env) ==> Idles(log) == 0 && (r.OutOfReports? ==> limit <= old(Left()))
      ensures Kept(log, Books(old(noDefer), DoneOf(old(bs.states)), {}), Books(noDefer, DoneOf(bs.states), dead))
      ensures r.Finished? ==> forall e | e in log :: e.report.ok && !e.givenUp
      ensures r.TasksFailed? ==> r.count == |GivenUpBy(log)|
      ensures r.Bailed? ==> log != [] && log[|log| - 1].givenUp && |GivenUpBy(log)| == 1
      ensures starts == reports + |inFlight|
    {
      hide ReadyListed, Progressed, Sorted, In, Out, InputsDone, AllDone, Budget, SameChecks;
      hide Idle, Idles, Logged, Grew, Amends, Names, BlockedByDead, RunLog, NamesNoCheck, Followed;
      hide Judged, Booked, Kept, GivenUpBy, DoneOf, Wanted;
      starts, reports, log := 0, 0, [];
      NothingLogged(graph, env, Left());
      FollowedMeans(graph, env, Left(), log, graph);
      ghost var books := Books(noDefer, DoneOf(bs.states), dead);
      KeptNone(books);
      ghost var g0 := graph;
      SameChecksRefl(graph);
      var running, failed := 0, 0;
      while bs.totalPending > 0
        invariant Valid() && |bs.states| == |graph.builds| && SameChecks(g0, graph)
        invariant running == |inFlight| && failed == |dead| && (failed > 0 ==> keepGoing)
        invariant |log| == reports <= limit && Followed(g0, env, old(Left()), log, graph)
        invariant starts + reports + Left() <= old(Left()) + 3 * Idles(log)
        invariant starts == reports + running && Kept(log, books, Books(noDefer, DoneOf(bs.states), dead))
        decreases limit - reports, Left()
      {
        ghost var g1 := graph;
        var started := StartReady();
        running := running + started;
        starts := starts + started;
        if started > 0 {
          continue;
        }
        if running == 0 {
          assert inFlight == {};
          break;
        }
        assert inFlight != {};
        if reports == limit {
          FollowedMeans(g0, env, old(Left()), log, graph);
          return OutOfReports, starts, reports, log;
        }
        NamesStill(g0, g1, env, reports);
        ghost var booked := Books(noDefer, DoneOf(bs.states), dead);
        var ok, taken := TakeReport(env(reports));
        SameChecksTrans(g0, g1, graph);
        IdlesSnoc(log, taken);
        FollowedSnoc(g0, env, old(Left()), log, taken, graph);
        KeptSnoc(log, taken, books, booked, Books(noDefer, DoneOf(bs.states), dead));
        log := log + [taken];
        running := running - 1;
        reports := reports + 1;
        if !ok {
          failed := failed + 1;
          if !keepGoing {
            GivenUpNone(log, books, Books(noDefer, DoneOf(bs.states), dead));
            FollowedMeans(g0, env, old(Left()), log, graph);
            return Bailed, starts, reports, log;
          }
        }
      }
      RunStops(graph, bs.states, bs.ready, bs.totalPending, inFlight, dead, bs.rank);
      GivenUpNone(log, books, Books(noDefer, DoneOf(bs.states), dead));
      FollowedMeans(g0, env, old(Left()), log, graph);
      if failed > 0 {
        r := TasksFailed(failed);
      } else {
        r := Finished;
      }
    }
  }

  /** The files a report names exist. */
  ghost predicate Names(g: Graph, report: Report) {
    report.defer.Some? ==> forall f | f in report.defer.value :: f < |g.files|
  }

  /**
   An accepted deferral that names something new, and nothing but what its own
   build already lists: so what is new are validation inputs of that build.
   */
  ghost predicate Idle(e: Taken) {
    && e.report.ok && e.report.defer.Some? && e.mayDefer && !e.givenUp
    && e.bid < |e.graph.builds| && e.graph.builds[e.bid].Sized()
    && (exists f | f in e.report.defer.value :: f !in e.graph.builds[e.bid].OrderingIns())
    && (forall f | f in e.report.defer.value :: f in e.graph.builds[e.bid].ins)
  }

  /** A deferral that was looked at. */
  ghost function Deferral(g: WfGraph, wanted: set<BuildId>, bid: BuildId, files: seq<FileId>, givenUp: bool): Taken {
    Taken(g, wanted, bid, Report(true, Some(files)), true, givenUp)
  }

  /** The task succeeded and has nothing to wait for: its build is finished. */
  ghost predicate Finishes(e: Taken) {
    e.report.ok && !(e.report.defer.Some? && e.mayDefer)
  }

  /** The task succeeded and deferred. */
  ghost predicate Defers(e: Taken) {
    e.report.ok && e.report.defer.Some? && e.mayDefer
  }

  ghost predicate InRange(e: Taken) {
    && e.bid < |e.graph.builds| && e.graph.builds[e.bid].Sized()
    && (e.report.defer.Some? ==> forall f | f in e.report.defer.value :: f < |e.graph.files|)
  }

  /** `added` are the files a deferral named that were no ordering inputs of its build. */
  ghost predicate Adds(e: Taken, added: seq<FileId>)
    requires InRange(e) && e.report.defer.Some?
  {
    Elements(added) == Elements(e.report.defer.value) - Elements(e.graph.builds[e.bid].OrderingIns())
  }

  /** A deferral that adds nothing: its build may not defer again. */
  ghost predicate Suppresses(e: Taken) {
    Defers(e) && InRange(e) && forall f | f in e.report.defer.value :: f in e.graph.builds[e.bid].OrderingIns()
  }

  /** What a deferral adds would order its build after itself. */
  ghost predicate TurnsBack(e: Taken)
    requires InRange(e) && e.report.defer.Some?
  {
    exists added :: Adds(e, added) && (forall f | f in added :: f < |e.graph.files|) && Refused(e.graph, added, e.bid)
  }

  /** What a deferral adds leads to a cycle of builds that were not wanted. */
  ghost predicate Loops(e: Taken)
    requires InRange(e) && e.report.defer.Some?
  {
    exists added :: Adds(e, added) && CycleAmong(e.graph, e.wanted, added)
  }

  /**
   A build is given up when its task failed, and when its deferral would order it
   after itself or meets a cycle, and for no other reason.
   */
  ghost predicate Judged(e: Taken) {
    && (!e.report.ok ==> e.givenUp)
    && (Finishes(e) ==> !e.givenUp)
    && (Defers(e) ==>
          && InRange(e)
          && (e.givenUp ==> TurnsBack(e) || Loops(e))
          && (TurnsBack(e) ==> e.givenUp)
          && (SingleOuts(Cut(e.graph, e.wanted)) && Loops(e) ==> e.givenUp))
  }

  /** What reports change beside the graph: who may not defer, who is Done, who is given up. */
  datatype Books = Books(noDefer: set<BuildId>, done: set<BuildId>, dead: set<BuildId>)

  /** A report that is judged rightly and changes the books for the build it is about. */
  ghost predicate Booked(e: Taken, before: Books, after: Books) {
    && Judged(e) && (e.mayDefer <==> e.bid !in before.noDefer)
    && after.noDefer == before.noDefer + (if Suppresses(e) then {e.bid} else {})
    && after.done == before.done + (if Finishes(e) then {e.bid} else {})
    && after.dead == before.dead + (if e.givenUp then {e.bid} else {})
  }

  lemma BookedAtOnce(e: Taken, before: Books)
    requires (if e.givenUp then !e.report.ok else Finishes(e)) && (e.mayDefer <==> e.bid !in before.noDefer)
    ensures Booked(e, before, if e.givenUp then before.(dead := before.dead + {e.bid}) else before.(done := before.done + {e.bid}))
  {
  }

  lemma BookedDeferral(e: Taken, before: Books)
    requires Judged(e) && Defers(e) && e.bid !in before.noDefer
    ensures Booked(e, before, Books(before.noDefer + (if Suppresses(e) then {e.bid} else {}), before.done,
                                    if e.givenUp then before.dead + {e.bid} else before.dead))
  {
    hide Judged, Suppresses;
  }

  /** What a log of reports says of the books: each report was judged rightly, and they hold what the reports put there. */
  ghost predicate Kept(log: seq<Taken>, before: Books, after: Books) {
    && (forall e | e in log :: Judged(e)) && Admitted(before.noDefer, log)
    && after.noDefer == before.noDefer + SuppressedBy(log)
    && after.done == before.done + FinishedBy(log)
    && after.dead == before.dead + GivenUpBy(log)
  }

  lemma KeptNone(books: Books)
    ensures Kept([], books, books)
  {
  }

  lemma KeptSnoc(log: seq<Taken>, e: Taken, b0: Books, b1: Books, b2: Books)
    requires Kept(log, b0, b1) && Booked(e, b1, b2)
    ensures Kept(log + [e], b0, b2)
  {
    hide Judged, Suppresses, Finishes, Admitted, SuppressedBy, FinishedBy, GivenUpBy;
    ByReports(b0.noDefer, log, e);
    assert forall x | x in log + [e] :: x in log || x == e;
  }

  /** Whether a deferral is refused depends on the files it adds, in whatever order. */
  lemma SameAdded(g: WfGraph, wanted: set<BuildId>, c: BuildId, fs: seq<FileId>, fs': seq<FileId>)
    requires Elements(fs) == Elements(fs') && forall f | f in fs :: f < |g.files|
    ensures forall f | f in fs' :: f < |g.files|
    ensures Refused(g, fs, c) <==> Refused(g, fs', c)
    ensures CycleAmong(g, wanted, fs) <==> CycleAmong(g, wanted, fs')
  {
    hide Reaches, Cut, CycleFrom;
    assert forall f :: f in fs <==> f in Elements(fs);
    assert forall f :: f in fs' <==> f in Elements(fs');
    assert Producers(g, fs) == Producers(g, fs');
  }

  lemma JudgedDeferral(e: Taken, added: seq<FileId>)
    requires Defers(e) && InRange(e) && Adds(e, added) && forall f | f in added :: f < |e.graph.files|
    requires e.givenUp ==> Refused(e.graph, added, e.bid) || CycleAmong(e.graph, e.wanted, added)
    requires Refused(e.graph, added, e.bid) ==> e.givenUp
    requires SingleOuts(Cut(e.graph, e.wanted)) && CycleAmong(e.graph, e.wanted, added) ==> e.givenUp
    ensures Judged(e) && (Suppresses(e) <==> added == [])
  {
    hide Refused, CycleAmong, SingleOuts, Cut;
    forall other | Adds(e, other)
      ensures forall f | f in other :: f < |e.graph.files|
      ensures Refused(e.graph, other, e.bid) <==> Refused(e.graph, added, e.bid)
      ensures CycleAmong(e.graph, e.wanted, other) <==> CycleAmong(e.graph, e.wanted, added)
    {
      SameAdded(e.graph, e.wanted, e.bid, added, other);
    }
    SuppressesExactly(e, added);
  }

  lemma SuppressesExactly(e: Taken, added: seq<FileId>)
    requires Defers(e) && InRange(e) && Adds(e, added)
    ensures Suppresses(e) <==> added == []
  {
    var files, ins := e.report.defer.value, e.graph.builds[e.bid].OrderingIns();
    if added == [] {
      forall f | f in files
        ensures f in ins
      {
        assert f !in Elements(files) - Elements(ins);
      }
    } else {
      assert added[0] in Elements(added);
    }
  }

  ghost function DoneOf(states: seq<BuildState>): set<BuildId> {
    set b | 0 <= b < |states| && states[b] == Done
  }

  lemma DoneMoves(states: seq<BuildState>, id: BuildId, state: BuildState)
    requires id < |states| && states[id] != Done
    ensures DoneOf(states[id := state]) == DoneOf(states) + if state == Done then {id} else {}
  {
  }

  /** A walk finishes nothing, nor does a running build that goes back. */
  lemma DoneStill(states: seq<BuildState>, walked: seq<BuildState>, limit: set<BuildId>, c: BuildId)
    requires OnlyWants(states, walked, limit) && c < |states| && states[c] == Running
    ensures DoneOf(walked) == DoneOf(states)
    ensures DoneOf(walked[c := Want]) == DoneOf(states) && DoneOf(walked[c := Ready]) == DoneOf(states)
  {
  }

  /** The builds that the reports of `log` finished. */
  ghost function FinishedBy(log: seq<Taken>): set<BuildId> {
    set e | e in log && Finishes(e) :: e.bid
  }

  ghost function GivenUpBy(log: seq<Taken>): set<BuildId> {
    set e | e in log && e.givenUp :: e.bid
  }

  ghost function SuppressedBy(log: seq<Taken>): set<BuildId> {
    set e | e in log && Suppresses(e) :: e.bid
  }

  /** A build may defer unless an earlier deferral of it added nothing. */
  ghost predicate Admitted(noDefer: set<BuildId>, log: seq<Taken>) {
    forall i | 0 <= i < |log| :: log[i].mayDefer <==> log[i].bid !in noDefer + SuppressedBy(log[..i])
  }

  lemma ByReports(noDefer: set<BuildId>, log: seq<Taken>, e: Taken)
    ensures FinishedBy(log + [e]) == FinishedBy(log) + if Finishes(e) then {e.bid} else {}
    ensures GivenUpBy(log + [e]) == GivenUpBy(log) + if e.givenUp then {e.bid} else {}
    ensures SuppressedBy(log + [e]) == SuppressedBy(log) + if Suppresses(e) then {e.bid} else {}
    ensures Admitted(noDefer, log) && (e.mayDefer <==> e.bid !in noDefer + SuppressedBy(log)) ==> Admitted(noDefer, log + [e])
  {
    hide Finishes, Suppresses;
    var more := log + [e];
    assert forall x :: x in more <==> x in log || x == e;
    forall i | 0 <= i < |more|
      ensures more[..i] == if i < |log| then log[..i] else log
    {
    }
    assert FinishedBy(more) == FinishedBy(log) + if Finishes(e) then {e.bid} else {};
    assert GivenUpBy(more) == GivenUpBy(log) + if e.givenUp then {e.bid} else {};
    assert SuppressedBy(more) == SuppressedBy(log) + if Suppresses(e) then {e.bid} else {};
  }

  lemma GivenUpNone(log: seq<Taken>, before: Books, after: Books)
    requires Kept(log, before, after) && before.dead == {}
    ensures after.dead == GivenUpBy(log)
    ensures after.dead == {} ==> forall e | e in log :: e.report.ok && !e.givenUp
  {
    if GivenUpBy(log) == {} {
      forall e | e in log
        ensures e.report.ok && !e.givenUp
      {
        assert Judged(e);
        assert e.givenUp ==> e.bid in GivenUpBy(log);
      }
    }
  }

  /** How many idle deferrals there were. */
  ghost function Idles(log: seq<Taken>): (n: nat)
    ensures n <= |log|
  {
    if log == [] then 0 else Idles(log[..|log| - 1]) + (if Idle(log[|log| - 1]) then 1 else 0)
  }

  /** The reports came as they are given, on the graph of the run. */
  ghost predicate Logged(g: WfGraph, env: nat -> Report, log: seq<Taken>) {
    forall i: nat | i < |log| :: log[i].report == env(i) && SameChecks(g, log[i].graph)
  }

  /**
   `g'` is the graph after a report: nothing was added, or the files an allowed
   deferral named, as inputs of the build that was deferred.
   */
  ghost predicate Amends(e: Taken, g': WfGraph) {
    e.bid < |e.graph.builds| && e.graph.builds[e.bid].Sized() && exists added: seq<FileId> :: AmendedBy(e, g', added)
  }

  ghost predicate AmendedBy(e: Taken, g': WfGraph, added: seq<FileId>)
    requires e.bid < |e.graph.builds| && e.graph.builds[e.bid].Sized()
  {
    && EditedAt(e.graph, g', e.bid, added)
    && (added == [] ||
        (&& e.report.ok && e.report.defer.Some? && e.mayDefer
         && Elements(added) == Elements(e.report.defer.value) - Elements(e.graph.builds[e.bid].OrderingIns())))
  }

  lemma AmendsBy(e: Taken, g': WfGraph, added: seq<FileId>)
    requires e.bid < |e.graph.builds| && e.graph.builds[e.bid].Sized() && AmendedBy(e, g', added)
    ensures Amends(e, g')
  {
  }

  lemma AmendsNothing(e: Taken)
    requires e.bid < |e.graph.builds|
    ensures Amends(e, e.graph)
  {
    SizedAt(e.graph, e.bid);
    EditedRefl(e.graph, e.bid);
    AmendsBy(e, e.graph, []);
  }

  /** One report after the other, `g0` has become `g`. */
  ghost predicate Grew(g0: WfGraph, log: seq<Taken>, g: WfGraph) {
    if log == [] then g == g0
    else Grew(g0, log[..|log| - 1], log[|log| - 1].graph) && Amends(log[|log| - 1], g)
  }

  lemma GrewSnoc(g0: WfGraph, log: seq<Taken>, e: Taken, g: WfGraph)
    requires Grew(g0, log, e.graph) && Amends(e, g)
    ensures Grew(g0, log + [e], g)
  {
    assert (log + [e])[..|log|] == log;
  }

  /** The log of a run that began on `g0` with `budget`, and is at `g`. */
  ghost predicate Followed(g0: WfGraph, env: nat -> Report, budget: nat, log: seq<Taken>, g: WfGraph) {
    && Logged(g0, env, log) && Grew(g0, log, g) && Within(budget, log)
    && (NamesNoCheck(g0, env) ==> Idles(log) == 0)
  }

  lemma FollowedMeans(g0: WfGraph, env: nat -> Report, budget: nat, log: seq<Taken>, g: WfGraph)
    requires Followed(g0, env, budget, log, g)
    ensures Logged(g0, env, log) && Grew(g0, log, g) && RunLog(g0, env, budget, log)
    ensures NamesNoCheck(g0, env) ==> Idles(log) == 0
  {
    hide Logged, Grew, Within, Idles, NamesNoCheck;
  }

  lemma FollowedSnoc(g0: WfGraph, env: nat -> Report, budget: nat, log: seq<Taken>, e: Taken, g: WfGraph)
    requires Followed(g0, env, budget, log, e.graph)
    requires e.report == env(|log|) && SameChecks(g0, e.graph) && Amends(e, g) && |log| + 1 <= budget + 3 * Idles(log + [e])
    ensures Followed(g0, env, budget, log + [e], g)
  {
    hide Logged, Grew, Within, Idles, NamesNoCheck, SameChecks, Amends;
    LoggedSnoc(g0, env, log, e);
    GrewSnoc(g0, log, e, g);
    WithinSnoc(budget, log, e);
    SettlesWithout(g0, env, log + [e]);
  }

  lemma NothingLogged(g: WfGraph, env: nat -> Report, budget: nat)
    ensures Followed(g, env, budget, [], g) && Idles([]) == 0
  {
  }

  lemma IdlesSnoc(log: seq<Taken>, e: Taken)
    ensures Idles(log + [e]) == Idles(log) + if Idle(e) then 1 else 0
  {
    hide Idle;
    var more := log + [e];
    assert more[..|log|] == log && more[|more| - 1] == e;
  }

  lemma LoggedSnoc(g: WfGraph, env: nat -> Report, log: seq<Taken>, e: Taken)
    requires Logged(g, env, log) && e.report == env(|log|) && SameChecks(g, e.graph)
    ensures Logged(g, env, log + [e])
  {
    hide SameChecks;
    var more := log + [e];
    forall i: nat | i < |more|
      ensures more[i].report == env(i) && SameChecks(g, more[i].graph)
    {
      if i < |log| {
        assert more[i] == log[i];
      }
    }
  }

  /** The same builds and files, with the same validation inputs and producers. */
  ghost predicate SameChecks(g: Graph, g': Graph) {
    && |g'.builds| == |g.builds| && |g'.files| == |g.files|
    && forall b | 0 <= b < |g.builds| ::
         g.builds[b].Sized() && g'.builds[b].Sized() && g'.builds[b].ValidationIns() == g.builds[b].ValidationIns()
  }

  lemma SameChecksRefl(g: WfGraph)
    ensures SameChecks(g, g)
  {
    forall b | 0 <= b < |g.builds|
      ensures g.builds[b].Sized()
    {
      assert g.BuildWellFormed(b);
    }
  }

  lemma SameChecksTrans(g: Graph, g1: Graph, g2: Graph)
    requires SameChecks(g, g1) && SameChecks(g1, g2)
    ensures SameChecks(g, g2)
  {
  }

  lemma EditedChecks(g: WfGraph, g': WfGraph, b: BuildId, fs: seq<FileId>)
    requires b < |g.builds| && EditedAt(g, g', b, fs)
    ensures SameChecks(g, g')
  {
    SameChecksRefl(g);
  }

  lemma NamesStill(g: Graph, g1: Graph, env: nat -> Report, n: nat)
    requires SameChecks(g, g1) && forall i :: Names(g, env(i))
    ensures Names(g1, env(n))
  {
    assert Names(g, env(n));
  }

  /** What a deferral adds is no ordering input yet; when all of it is listed, and there is any, the deferral is idle. */
  lemma NewInputs(g: WfGraph, files: seq<FileId>, c: BuildId, added: seq<FileId>)
    requires c < |g.builds| && g.builds[c].Sized() && forall f | f in files :: f < |g.files|
    requires Elements(added) == Elements(files) - Elements(g.builds[c].OrderingIns())
    ensures forall f | f in added :: f < |g.files|
    ensures added == [] || (exists f | f in added :: f !in g.builds[c].ins) || forall wanted :: Idle(Deferral(g, wanted, c, files, false))
  {
    assert g.builds[c].ins == g.builds[c].OrderingIns() + g.builds[c].ValidationIns();
    forall f | f in added
      ensures f in files && f !in g.builds[c].OrderingIns()
    {
      assert f in Elements(added);
    }
    if added != [] {
      assert added[0] in added;
    }
    forall f | f in files && f !in g.builds[c].ins
      ensures f in added
    {
      assert f in Elements(added);
    }
  }

  /** With nothing pending, or nothing ready and no task out, the failed builds account for all that is left. */
  lemma RunStops(g: WfGraph, states: seq<BuildState>, ready: seq<BuildId>, pending: nat, out: set<BuildId>,
                 dead: set<BuildId>, rank: map<BuildId, nat>)
    requires |states| == |g.builds| && Progressed(g, states, {}) && Sorted(g, states, dead, rank)
    requires Out(states, out, dead) && ReadyListed(states, ready) && pending == |In(states, AllBuilds(g), PENDING)|
    requires pending == 0 || (ready == [] && out == {})
    ensures BlockedByDead(g, states, dead)
    ensures dead == {} ==> forall b | 0 <= b < |states| :: states[b] in {Unneeded, Done}
  {
    hide Progressed, Sorted, Reaches;
    NoneIn(states, AllBuilds(g), PENDING);
    assert forall b | 0 <= b < |states| :: b in AllBuilds(g);
    if pending == 0 {
      assert out <= In(states, AllBuilds(g), PENDING);
      assert In(states, AllBuilds(g), PENDING) == {};
    }
    assert forall b: nat :: b in dead <==> b < |states| && states[b] == Running;
    RunEnded(g, states, dead, rank);
  }

  /** The running builds are the tasks that are out and the abandoned ones. */
  ghost predicate Out(states: seq<BuildState>, out: set<BuildId>, dead: set<BuildId>) {
    out !! dead && forall b: nat :: b in out || b in dead <==> b < |states| && states[b] == Running
  }

  /** Starting a ready build. */
  lemma StartKeeps(g: WfGraph, states: seq<BuildState>, out: set<BuildId>, dead: set<BuildId>,
                   rank: map<BuildId, nat>, id: BuildId)
    requires |states| == |g.builds| && Progressed(g, states, {}) && Sorted(g, states, dead, rank)
    requires Out(states, out, dead) && InputsDone(g, states, out)
    requires id < |states| && states[id] == Ready
    ensures Progressed(g, states[id := Running], {}) && Sorted(g, states[id := Running], dead, rank)
    ensures Out(states[id := Running], out + {id}, dead) && InputsDone(g, states[id := Running], out + {id})
    ensures id !in out
  {
    hide Progressed, Sorted, InputsDone, AllDone, Deps;
    ProgressedMove(g, states, id, Running);
    SortedMove(g, states, dead, rank, id, Running);
    ReadyDone(g, states, id);
    InputsDoneMore(g, states, out, id, Running);
  }

  lemma ReadyDone(g: WfGraph, states: seq<BuildState>, id: BuildId)
    requires |states| == |g.builds| && Progressed(g, states, {}) && id < |states| && states[id] == Ready
    ensures AllDone(states, Deps(g, id))
  {
    PastWant(g, states, {}, id);
  }

  lemma InputsDoneMore(g: WfGraph, states: seq<BuildState>, out: set<BuildId>, id: BuildId, state: BuildState)
    requires |states| == |g.builds| && id < |states| && states[id] != Done && state != Done
    requires InputsDone(g, states, out)
    ensures InputsDone(g, states[id := state], out)
    ensures AllDone(states, Deps(g, id)) ==> InputsDone(g, states[id := state], out + {id})
  {
    hide AllDone, Deps;
    SameDone(g, states, states[id := state]);
  }

  /** A task that came back and is finished. */
  lemma FinishKeeps(g: WfGraph, states: seq<BuildState>, out: set<BuildId>, dead: set<BuildId>,
                    rank: map<BuildId, nat>, id: BuildId)
    requires |states| == |g.builds| && Progressed(g, states, {}) && Sorted(g, states, dead, rank)
    requires id !in out && id !in dead && Out(states, out + {id}, dead) && InputsDone(g, states, out + {id})
    ensures id < |states| && states[id] == Running
    ensures Progressed(g, states[id := Done], Waiters(g, states[id := Done], id)) && Sorted(g, states[id := Done], dead, rank)
    ensures Out(states[id := Done], out, dead) && InputsDone(g, states[id := Done], out)
  {
    hide Progressed, Sorted;
    OutReturns(states, out, dead, id, Done);
    assert id in out + {id};
    ProgressedDone(g, states, id);
    SortedMove(g, states, dead, rank, id, Done);
    forall b | b in out
      ensures AllDone(states[id := Done], Deps(g, b))
    {
      assert b in out + {id};
    }
  }

  /** A waiting build that becomes ready. */
  lemma WakeKeeps(g: WfGraph, states: seq<BuildState>, out: set<BuildId>, dead: set<BuildId>,
                  rank: map<BuildId, nat>, id: BuildId)
    requires |states| == |g.builds| && Sorted(g, states, dead, rank)
    requires Out(states, out, dead) && InputsDone(g, states, out)
    requires id < |states| && states[id] == Want
    ensures Sorted(g, states[id := Ready], dead, rank)
    ensures Out(states[id := Ready], out, dead) && InputsDone(g, states[id := Ready], out)
  {
    SortedMove(g, states, dead, rank, id, Ready);
    SameDone(g, states, states[id := Ready]);
  }

  lemma OutAbandon(states: seq<BuildState>, out: set<BuildId>, dead: set<BuildId>, c: BuildId)
    requires c !in out && c !in dead && Out(states, out + {c}, dead)
    ensures Out(states, out, dead + {c})
  {
    forall b: nat
      ensures b in out || b in dead + {c} <==> b < |states| && states[b] == Running
    {
      assert b in out + {c} || b in dead <==> b in out || b in dead + {c};
    }
  }

  lemma OutInRange(g: WfGraph, states: seq<BuildState>, out: set<BuildId>, dead: set<BuildId>)
    requires |states| == |g.builds| && (Out(states, out, dead) || exists c :: Out(states, out + {c}, dead))
    ensures out <= AllBuilds(g)
  {
    if c :| Out(states, out + {c}, dead) {
      assert out <= out + {c};
    }
  }

  /** A build that came back had everything it was ordered after Done. */
  lemma ReturnedDone(g: WfGraph, states: seq<BuildState>, out: set<BuildId>, dead: set<BuildId>, c: BuildId)
    requires |states| == |g.builds| && Out(states, out + {c}, dead) && InputsDone(g, states, out + {c})
    ensures c < |states| && states[c] == Running && AllDone(states, Deps(g, c))
    ensures AllDone(states[c := Want], Deps(g, c))
  {
    assert c in out + {c};
    SameDone(g, states, states[c := Want]);
  }

  /** A build that came back and goes to Want. */
  lemma RequeueKeeps(g: WfGraph, states: seq<BuildState>, out: set<BuildId>, dead: set<BuildId>,
                     rank: map<BuildId, nat>, c: BuildId)
    requires |states| == |g.builds| && Progressed(g, states, {}) && Sorted(g, states, dead, rank)
    requires c !in out && c !in dead && Out(states, out + {c}, dead) && InputsDone(g, states, out)
    ensures c < |states| && states[c] == Running
    ensures Progressed(g, states[c := Want], {c}) && Sorted(g, states[c := Want], dead, rank)
    ensures Out(states[c := Want], out, dead) && InputsDone(g, states[c := Want], out)
  {
    hide Progressed, Sorted, InputsDone;
    OutReturns(states, out, dead, c, Want);
    ProgressedMove(g, states, c, Want);
    SortedMove(g, states, dead, rank, c, Want);
    InputsDoneMore(g, states, out, c, Want);
  }

  lemma OutReturns(states: seq<BuildState>, out: set<BuildId>, dead: set<BuildId>, c: BuildId, state: BuildState)
    requires c !in out && c !in dead && Out(states, out + {c}, dead) && state != Running
    ensures c < |states| && states[c] == Running && Out(states[c := state], out, dead)
  {
    assert c in out + {c};
    assert forall b: nat :: b in out + {c} <==> b in out || b == c;
  }

  /** Going to Want and on to Ready at once, with no change of inputs, and no more deferrals. */
  lemma RunAgainKeeps(g: WfGraph, states: seq<BuildState>, out: set<BuildId>, dead: set<BuildId>, rank: map<BuildId, nat>,
                      noDefer: set<BuildId>, c: BuildId)
    requires |states| == |g.builds| && Progressed(g, states, {}) && Sorted(g, states, dead, rank)
    requires c !in out && c !in dead && Out(states, out + {c}, dead) && InputsDone(g, states, out + {c})
    requires c !in noDefer
    ensures c < |states| && states[c] == Running
    ensures Progressed(g, states[c := Ready], {}) && Sorted(g, states[c := Ready], dead, rank)
    ensures Out(states[c := Ready], out, dead) && InputsDone(g, states[c := Ready], out)
    ensures Budget(g, states[c := Ready], out, noDefer + {c}) < Budget(g, states, out, noDefer)
  {
    hide Progressed, Sorted, AllDone, Out, InputsDone, Deps, Budget, Deferrals;
    InputsDoneLess(g, states, out, c);
    RequeueKeeps(g, states, out, dead, rank, c);
    ReturnedDone(g, states, out, dead, c);
    WakeKeeps(g, states[c := Want], out, dead, rank, c);
    ProgressedRecheck(g, states[c := Want], {c}, c);
    assert states[c := Want][c := Ready] == states[c := Ready];
    assert {c} - {c} == {};
    SuppressPays(g, noDefer, c);
    OutInRange(g, states, out, dead);
    BudgetFalls(g, states, out, noDefer, g, states[c := Ready], out, noDefer + {c});
  }

  /** Ordering `c` after the producers of `added` would order it after itself. */
  ghost predicate Refused(g: WfGraph, added: seq<FileId>, c: BuildId)
    requires forall f | f in added :: f < |g.files|
  {
    exists p :: p in Producers(g, added) && Reaches(g, false, p, c)
  }

  lemma SortedNoCycle(g: WfGraph, states: seq<BuildState>, rank: map<BuildId, nat>)
    requires |states| == |g.builds| && Sorted(g, states, {}, rank)
    ensures forall b | 0 <= b < |states| && states[b] != Unneeded :: !OnCycle(g, false, b)
  {
    hide OnCycle;
    SortedRanked(g, states, {}, rank);
    forall b | b in Wanted(g, states)
      ensures Next(g, false, b) <= Wanted(g, states)
    {
      assert forall p | p in Deps(g, b) :: states[p] != Unneeded;
    }
    forall b | 0 <= b < |states| && states[b] != Unneeded
      ensures !OnCycle(g, false, b)
    {
      RankedNoCycle(g, Wanted(g, states), rank, b);
    }
  }

  lemma NeverRefused(g: WfGraph, c: BuildId)
    ensures !Refused(g, [], c)
  {
  }

  lemma RefusedExactly(g: WfGraph, added: seq<FileId>, c: BuildId, producers: seq<BuildId>)
    requires (forall f | f in added :: f < |g.files|) && Elements(producers) == Producers(g, added)
    ensures Refused(g, added, c) <==> !forall p | p in producers :: !Reaches(g, false, p, c)
  {
    assert forall p :: p in producers <==> p in Elements(producers);
  }

  /** A walk that follows an edit leaves no more to be done than there was. */
  lemma DeferralKept(g: WfGraph, states: seq<BuildState>, g': WfGraph, states': seq<BuildState>, out: set<BuildId>,
                     noDefer: set<BuildId>, c: BuildId, added: seq<FileId>)
    requires c < |g.builds| == |g'.builds| && EditedAt(g, g', c, added) && forall f | f in added :: f < |g.files|
    requires Weight(g', states', out) <= Weight(g', states, out)
    ensures Budget(g', states', out, noDefer) <= Budget(g, states, out, noDefer)
  {
    hide MissingEdges, EditedAt;
    EditedFewerMissing(g, g', c, added);
    if Deferrals(g', noDefer) < Deferrals(g, noDefer) {
      ScaledLess(Deferrals(g', noDefer), Deferrals(g, noDefer), 5 * |g.builds| + 1);
    }
  }

  /** Going back from Running to Want or Ready. */
  lemma RequeueCosts(g: WfGraph, states: seq<BuildState>, out: set<BuildId>, noDefer: set<BuildId>, c: BuildId,
                     state: BuildState)
    requires |states| == |g.builds| && c < |states| && state in {Want, Ready}
    ensures Budget(g, states[c := state], out, noDefer) <= Budget(g, states, out, noDefer) + 3
  {
    hide Weight, Scaled, Deferrals;
    WeightMoves(g, states, out, c, state, out);
  }

  /** A file that is no input yet pays for starting everything over. */
  lemma DeferralPays(g: WfGraph, states: seq<BuildState>, g': WfGraph, out: set<BuildId>,
                     noDefer: set<BuildId>, c: BuildId, added: seq<FileId>)
    requires c < |g.builds| == |g'.builds| && EditedAt(g, g', c, added) && forall f | f in added :: f < |g.files|
    requires out <= AllBuilds(g)
    ensures (exists f | f in added :: f !in g.builds[c].ins) ==>
              forall states' :: Budget(g', states', out, noDefer) < Budget(g, states, out, noDefer)
  {
    hide Weight, MissingEdges, EditedAt, Budget;
    EditedFewerMissing(g, g', c, added);
    if exists f | f in added :: f !in g.builds[c].ins {
      assert Deferrals(g', noDefer) < Deferrals(g, noDefer);
      forall states': seq<BuildState>
        ensures Budget(g', states', out, noDefer) < Budget(g, states, out, noDefer)
      {
        BudgetFalls(g, states, out, noDefer, g', states', out, noDefer);
      }
    }
  }

  /** The ranks after an edit that the cycle guard let through. */
  lemma Reranking(g: WfGraph, g': WfGraph, states: seq<BuildState>, states': seq<BuildState>, dead: set<BuildId>,
                  rank: map<BuildId, nat>, rank1: map<BuildId, nat>, c: BuildId, added: seq<FileId>)
    returns (rank': map<BuildId, nat>)
    requires |states| == |g.builds| == |g'.builds| == |states'| && c < |g.builds| && states[c] == Running && c !in dead
    requires EditedAt(g, g', c, added) && (forall f | f in added :: f < |g.files|) && !Refused(g, added, c)
    requires Sorted(g, states, dead, rank) && Sorted(g', states', dead + {c}, rank1) && Extends(rank, rank1)
    requires OnlyWants(states, states', AllBuilds(g)) && forall f | f in added :: FileWanted(g', states', f)
    ensures Sorted(g', states', dead, rank')
  {
    hide EditedAt, Deps, Reaches, FileWanted;
    EditedDeps(g, g', c, added);
    RankedBefore(g, states, dead, rank, c);
    forall p | p in Deps(g', c)
      ensures states'[p] != Unneeded
      ensures (p in Deps(g, c) && rank1[p] < rank1[c]) || !Reaches(g, false, p, c)
    {
      if p !in Deps(g, c) {
        ProducerWanted(g, g', states', c, added, p);
      }
    }
    rank' := Resort(g, g', states', dead, rank1, c);
  }

  lemma RankedBefore(g: WfGraph, states: seq<BuildState>, dead: set<BuildId>, rank: map<BuildId, nat>, c: BuildId)
    requires |states| == |g.builds| && c < |g.builds| && states[c] != Unneeded && c !in dead && Sorted(g, states, dead, rank)
    ensures c in rank && forall p | p in Deps(g, c) :: states[p] != Unneeded && p in rank && rank[p] < rank[c]
  {
    assert c in Wanted(g, states);
    forall p | p in Deps(g, c)
      ensures states[p] != Unneeded && p in rank && rank[p] < rank[c]
    {
      assert states[p] != Unneeded && p in Wanted(g, states);
    }
  }

  lemma ProducerWanted(g: WfGraph, g': WfGraph, states: seq<BuildState>, c: BuildId, added: seq<FileId>, p: BuildId)
    requires c < |g.builds| && EditedAt(g, g', c, added) && forall f | f in added :: f < |g.files|
    requires forall f | f in added :: FileWanted(g', states, f)
    requires p in Producers(g, added)
    ensures p < |states| && states[p] != Unneeded
  {
    var f :| f in added && Producer(g, f) == Some(p);
    assert FileWanted(g', states, f) && g'.files[f].input == g.files[f].input;
  }

  lemma WantedStill(g: WfGraph, states: seq<BuildState>, states': seq<BuildState>, added: seq<FileId>)
    requires |states| == |states'| && forall b | 0 <= b < |states| && states[b] != Unneeded :: states'[b] != Unneeded
    requires forall f | f in added :: FileWanted(g, states, f)
    ensures forall f | f in added :: FileWanted(g, states', f)
  {
    assert forall f :: FileWanted(g, states, f) ==> FileWanted(g, states', f);
  }

  lemma NotDoneBefore(g: WfGraph, states: seq<BuildState>, c: BuildId)
    requires |states| == |g.builds| && c < |states| && states[c] != Done
    ensures AllDone(states[c := Want], Deps(g, c)) <==> AllDone(states, Deps(g, c))
  {
    SameDone(g, states, states[c := Want]);
  }

  lemma AnyFile(g: WfGraph, f: FileId)
    requires f < |g.files|
    ensures Before(g, true, [], f) && MadeIn(g, f, AllBuilds(g)) && Closed(g, true, AllBuilds(g))
  {
    assert g.FileWellFormed(f);
  }

  lemma AnyFileCut(g: WfGraph, base: set<BuildId>, f: FileId)
    requires f < |g.files|
    ensures Before(Cut(g, base), true, [], f) && MadeIn(g, f, AllBuilds(g)) && Closed(g, true, AllBuilds(g))
  {
    hide Cut;
    AnyFile(g, f);
    CutSizes(g, base);
    AnyFile(Cut(g, base), f);
  }

  lemma EnteredAll(g: Graph, states: seq<BuildState>)
    ensures Entered(g, states, {}) == Wanted(g, states) && BaseWanted(states, {})
  {
  }

  lemma NothingEntered(g: Graph, states: seq<BuildState>, base: set<BuildId>)
    requires |states| == |g.builds| && base == Wanted(g, states)
    ensures Entered(g, states, base) == {} && BaseWanted(states, base)
  {
  }

  /** A walk that began with nothing wanted and has left the makers of `fs` found no cycle from them. */
  lemma NoneBehind(g: WfGraph, w: set<BuildId>, left: seq<BuildId>, fs: seq<FileId>)
    requires SingleOuts(g) && Explores(g, {}, [], w, left, []) && Behind(g, {}, [], [], left, fs)
    ensures forall f | f in fs :: !CycleFrom(g, true, f)
  {
    hide ReachesCycle, SingleOuts;
    assert Explored(g, {}, [], []);
    forall f | f in fs
      ensures !CycleFrom(g, true, f)
    {
      if CycleFrom(g, true, f) {
        assert Makes(g, f, Producer(g, f).value);
        LeftReachesNoCycle(g, w, [], left, Producer(g, f).value);
      }
    }
  }

  /** From some file of `fs` a cycle can be reached, over either kind of edge, through builds outside `base` alone. */
  ghost predicate CycleAmong(g: WfGraph, base: set<BuildId>, fs: seq<FileId>) {
    exists f :: f in fs && CycleFrom(Cut(g, base), true, f)
  }

  lemma NoneAmong(g: WfGraph, base: set<BuildId>)
    ensures !CycleAmong(g, base, [])
  {
  }

  /** Such a cycle is one of the whole graph. */
  lemma AmongIsCycle(g: WfGraph, base: set<BuildId>, fs: seq<FileId>)
    requires CycleAmong(g, base, fs)
    ensures exists f :: f in fs && CycleFrom(g, true, f)
  {
    hide Path, Cut;
    var f :| f in fs && CycleFrom(Cut(g, base), true, f);
    var y := Producer(Cut(g, base), f).value;
    var x :| Reaches(Cut(g, base), true, y, x) && OnCycle(Cut(g, base), true, x);
    var p :| PathFromTo(Cut(g, base), true, p, y, x);
    CutPath(g, base, p);
    assert PathFromTo(g, true, p, y, x);
    var q :| |q| >= 2 && PathFromTo(Cut(g, base), true, q, x, x);
    CutPath(g, base, q);
    assert PathFromTo(g, true, q, x, x);
    assert Reaches(g, true, y, x) && OnCycle(g, true, x);
    assert Producer(g, f) == Some(y) && y < |g.builds|;
  }

  lemma {:induction false} CutPath(g: WfGraph, base: set<BuildId>, p: seq<BuildId>)
    requires Path(Cut(g, base), true, p)
    ensures Path(g, true, p)
    decreases |p|
  {
    hide Cut, Next;
    if |p| > 1 {
      CutNext(g, base, p[0]);
      CutPath(g, base, p[1..]);
    }
  }

  lemma CutNext(g: WfGraph, base: set<BuildId>, b: BuildId)
    requires b < |g.builds|
    ensures b < |Cut(g, base).builds| && Next(Cut(g, base), true, b) <= Next(g, true, b)
  {
    hide Cut;
    assert g.BuildWellFormed(b);
  }

  /** Editing a build that the walk does not enter changes nothing for the walk. */
  lemma CutEdited(g: WfGraph, g': WfGraph, states: seq<BuildState>, c: BuildId, added: seq<FileId>)
    requires |states| == |g.builds| && c < |g.builds| && states[c] != Unneeded && EditedAt(g, g', c, added)
    ensures |g'.builds| == |g.builds| && |g'.files| == |g.files| && Wanted(g', states) == Wanted(g, states)
    ensures SingleOuts(Cut(g', Wanted(g, states))) <==> SingleOuts(Cut(g, Wanted(g, states)))
    ensures CycleAmong(g', Wanted(g, states), added) <==> CycleAmong(g, Wanted(g, states), added)
  {
    hide CycleFrom, SingleOuts, AlikeOutside, Cut, Wanted, EditedAt;
    var base := Wanted(g, states);
    EditedSizes(g, g', c, added);
    assert Wanted(g', states) == base;
    CutAlike(g, g', base, c, added);
    AlikeSingle(Cut(g, base), Cut(g', base), base);
    forall f | f in added
      ensures CycleFrom(Cut(g', base), true, f) <==> CycleFrom(Cut(g, base), true, f)
    {
      AlikeEither(Cut(g, base), Cut(g', base), base, f);
    }
  }

  lemma EditedSizes(g: WfGraph, g': WfGraph, c: BuildId, added: seq<FileId>)
    requires c < |g.builds| && EditedAt(g, g', c, added)
    ensures |g'.builds| == |g.builds| && |g'.files| == |g.files|
  {
  }

  lemma AlikeEither(a: WfGraph, b: WfGraph, base: set<BuildId>, f: FileId)
    requires AlikeOutside(a, b, base) && AlikeOutside(b, a, base)
    ensures CycleFrom(b, true, f) <==> CycleFrom(a, true, f)
  {
    hide AlikeOutside, CycleFrom;
    if CycleFrom(a, true, f) {
      AlikeCycles(a, b, base, f);
    }
    if CycleFrom(b, true, f) {
      AlikeCycles(b, a, base, f);
    }
  }

  /** The graphs agree on all builds outside `base`, and those in it make nothing. */
  ghost predicate AlikeOutside(a: WfGraph, b: WfGraph, base: set<BuildId>) {
    && |a.builds| == |b.builds| && |a.files| == |b.files|
    && (forall x | 0 <= x < |a.builds| && x !in base :: a.builds[x] == b.builds[x])
    && (forall f | 0 <= f < |a.files| :: a.files[f].input == b.files[f].input)
    && (forall f | 0 <= f < |a.files| && a.files[f].input.Some? :: a.files[f].input.value !in base)
  }

  lemma CutAlike(g: WfGraph, g': WfGraph, base: set<BuildId>, c: BuildId, added: seq<FileId>)
    requires c < |g.builds| && c in base && EditedAt(g, g', c, added)
    ensures AlikeOutside(Cut(g, base), Cut(g', base), base) && AlikeOutside(Cut(g', base), Cut(g, base), base)
  {
  }

  lemma AlikeSingle(a: WfGraph, b: WfGraph, base: set<BuildId>)
    requires AlikeOutside(a, b, base)
    ensures SingleOuts(a) <==> SingleOuts(b)
  {
    assert forall f, x | Makes(a, f, x) || Makes(b, f, x) :: Makes(a, f, x) && Makes(b, f, x) && (Checked(a, x) <==> Checked(b, x));
  }

  lemma AlikeNext(a: WfGraph, b: WfGraph, base: set<BuildId>, x: BuildId)
    requires AlikeOutside(a, b, base) && x < |a.builds| && x !in base
    ensures Next(b, true, x) == Next(a, true, x) && Next(a, true, x) !! base
  {
    assert a.BuildWellFormed(x);
  }

  lemma {:induction false} AlikePath(a: WfGraph, b: WfGraph, base: set<BuildId>, p: seq<BuildId>)
    requires AlikeOutside(a, b, base) && Path(a, true, p) && p[0] !in base
    ensures Path(b, true, p) && p[|p| - 1] !in base
    decreases |p|
  {
    hide AlikeOutside, Next;
    AlikeBuilds(a, b, base);
    if |p| > 1 {
      AlikeNext(a, b, base, p[0]);
      AlikePath(a, b, base, p[1..]);
    }
  }

  lemma AlikeBuilds(a: WfGraph, b: WfGraph, base: set<BuildId>)
    requires AlikeOutside(a, b, base)
    ensures |a.builds| == |b.builds|
  {
  }

  lemma AlikeCycles(a: WfGraph, b: WfGraph, base: set<BuildId>, f: FileId)
    requires AlikeOutside(a, b, base) && CycleFrom(a, true, f)
    ensures CycleFrom(b, true, f)
  {
    hide Path;
    var y := Producer(a, f).value;
    var x :| Reaches(a, true, y, x) && OnCycle(a, true, x);
    var p :| PathFromTo(a, true, p, y, x);
    AlikePath(a, b, base, p);
    assert PathFromTo(b, true, p, y, x);
    var q :| |q| >= 2 && PathFromTo(a, true, q, x, x);
    AlikePath(a, b, base, q);
    assert PathFromTo(b, true, q, x, x);
    assert Reaches(b, true, y, x) && OnCycle(b, true, x);
  }

  lemma WalkKeeps(g: WfGraph, states: seq<BuildState>, states': seq<BuildState>, out: set<BuildId>,
                  running: set<BuildId>, dead: set<BuildId>)
    requires |states| == |g.builds| && OnlyWants(states, states', AllBuilds(g))
    requires Out(states, running, dead) && InputsDone(g, states, out)
    ensures Out(states', running, dead) && InputsDone(g, states', out)
  {
    SameDone(g, states, states');
    forall b: nat
      ensures b < |states| && states[b] == Running <==> b < |states'| && states'[b] == Running
    {
    }
  }

  lemma InputsDoneLess(g: WfGraph, states: seq<BuildState>, out: set<BuildId>, c: BuildId)
    requires InputsDone(g, states, out + {c})
    ensures InputsDone(g, states, out)
  {
    assert forall b | b in out :: b in out + {c};
  }

  lemma SuppressPays(g: WfGraph, noDefer: set<BuildId>, c: BuildId)
    requires c < |g.builds| && c !in noDefer
    ensures Deferrals(g, noDefer + {c}) < Deferrals(g, noDefer)
  {
    assert c in AllBuilds(g) - noDefer;
    SubsetCardinality(AllBuilds(g) - (noDefer + {c}), AllBuilds(g) - noDefer);
  }

  lemma SizedAt(g: WfGraph, c: BuildId)
    requires c < |g.builds|
    ensures g.builds[c].Sized()
  {
    assert g.BuildWellFormed(c);
  }

  /** Changing the inputs of the build that came back leaves everyone else as they were. */
  lemma ReopenKeeps(g: WfGraph, g': WfGraph, states: seq<BuildState>, out: set<BuildId>, dead: set<BuildId>,
                    rank: map<BuildId, nat>, c: BuildId)
    requires |states| == |g.builds| == |g'.builds| && Progressed(g, states, {}) && Sorted(g, states, dead, rank)
    requires c !in out && c !in dead && Out(states, out + {c}, dead) && InputsDone(g, states, out + {c})
    requires forall b | 0 <= b < |states| && b != c :: Deps(g', b) == Deps(g, b)
    ensures Progressed(g', states, {}) && Sorted(g', states, dead + {c}, rank) && InputsDone(g', states, out)
  {
    assert c in out + {c};
    EditedKeeps(g, g', states, dead, rank, c);
    forall b | b in out
      ensures b < |g'.builds| && AllDone(states, Deps(g', b))
    {
      assert b in out + {c};
    }
  }

  lemma WaitersAmong(g: WfGraph, states: seq<BuildState>, id: BuildId, waiting: set<BuildId>)
    requires |states| == |g.builds|
    requires forall b | 0 <= b < |g.builds| && id in Deps(g, b) && states[b] == Want :: b in waiting
    ensures Waiters(g, states, id) <= waiting
  {
  }

  ghost predicate InputsDone(g: WfGraph, states: seq<BuildState>, out: set<BuildId>) {
    forall b | b in out :: b < |g.builds| && AllDone(states, Deps(g, b))
  }

  // ---- Runs that do not end. ----

  /**
   One run that is allowed more and more reports: `runs(n)` is what it has taken
   in when it may take `n`. It has stopped by itself when it took fewer.
   */
  ghost predicate OneRun(runs: nat -> seq<Taken>) {
    && (forall n: nat :: |runs(n)| <= n)
    && (forall n: nat :: |runs(n)| == n ==> runs(n) <= runs(n + 1))
    && (forall n: nat :: |runs(n)| < n ==> runs(n + 1) == runs(n))
  }

  lemma {:induction false} StoppedStays(runs: nat -> seq<Taken>, n: nat, k: nat)
    requires OneRun(runs) && |runs(n)| < n <= k
    ensures runs(k) == runs(n)
    decreases k
  {
    if n < k {
      StoppedStays(runs, n, k - 1);
      assert runs(k - 1 + 1) == runs(k - 1);
    }
  }

  ghost predicate IdlesReach(runs: nat -> seq<Taken>, m: nat) {
    exists n: nat :: Idles(runs(n)) >= m
  }

  /**
   What the scheduler logs of a run over `g` that begins with `budget`, when the
   reports come as in `env`: the graph goes from one report to the next, and at
   no time were more reports taken in than the budget and the idle deferrals
   until then allow.
   */
  ghost predicate RunLog(g: WfGraph, env: nat -> Report, budget: nat, log: seq<Taken>) {
    && Logged(g, env, log) && Within(budget, log)
    && exists g': WfGraph :: Grew(g, log, g')
  }

  ghost predicate Within(budget: nat, log: seq<Taken>) {
    forall n: nat | n <= |log| :: n <= budget + 3 * Idles(log[..n])
  }

  lemma WithinSnoc(budget: nat, log: seq<Taken>, e: Taken)
    requires Within(budget, log) && |log| + 1 <= budget + 3 * Idles(log + [e])
    ensures Within(budget, log + [e])
  {
    hide Idles;
    forall n: nat | n <= |log| + 1
      ensures n <= budget + 3 * Idles((log + [e])[..n])
    {
      assert (log + [e])[..n] == if n <= |log| then log[..n] else log + [e];
    }
  }

  lemma {:induction false} GrewUntil(g: WfGraph, log: seq<Taken>, g': WfGraph, n: nat)
    requires Grew(g, log, g') && n <= |log|
    ensures exists g1: WfGraph :: Grew(g, log[..n], g1)
  {
    hide Amends;
    if n == |log| {
      assert log[..n] == log;
    } else {
      var before := log[..|log| - 1];
      GrewUntil(g, before, log[|log| - 1].graph, n);
      assert before[..n] == log[..n];
    }
  }

  /** What was logged when the run had taken `n` reports in. */
  lemma RunLogUntil(g: WfGraph, env: nat -> Report, budget: nat, log: seq<Taken>, n: nat)
    requires RunLog(g, env, budget, log) && n <= |log|
    ensures RunLog(g, env, budget, log[..n])
  {
    hide Grew, SameChecks, Idles;
    var g' :| Grew(g, log, g');
    GrewUntil(g, log, g', n);
    forall k: nat | k <= n
      ensures k <= budget + 3 * Idles(log[..n][..k])
    {
      assert log[..n][..k] == log[..k];
    }
  }

  /** A run of the scheduler that is allowed ever more reports goes on for ever if and only if its idle deferrals never stop. */
  lemma EndlessExactly(g: WfGraph, env: nat -> Report, budget: nat, runs: nat -> seq<Taken>)
    requires OneRun(runs) && forall n: nat :: RunLog(g, env, budget, runs(n))
    ensures (forall n: nat :: |runs(n)| == n) <==> forall m: nat :: IdlesReach(runs, m)
  {
    hide Idles, Logged, Grew;
    forall n: nat
      ensures |runs(n)| <= budget + 3 * Idles(runs(n))
    {
      assert RunLog(g, env, budget, runs(n));
      assert runs(n)[..|runs(n)|] == runs(n);
    }
    EndlessWithin(budget, runs);
  }

  lemma EndlessWithin(budget: nat, runs: nat -> seq<Taken>)
    requires OneRun(runs) && forall n: nat :: |runs(n)| <= budget + 3 * Idles(runs(n))
    ensures (forall n: nat :: |runs(n)| == n) <==> forall m: nat :: IdlesReach(runs, m)
  {
    if forall n: nat :: |runs(n)| == n {
      forall m: nat
        ensures IdlesReach(runs, m)
      {
        var n := budget + 3 * m;
        assert |runs(n)| == n;
      }
    } else {
      var n: nat :| |runs(n)| != n;
      forall k: nat
        ensures Idles(runs(k)) < n
      {
        if n <= k {
          StoppedStays(runs, n, k);
        }
      }
      assert !IdlesReach(runs, n);
    }
  }

  /** The report names a validation input of `b`. */
  ghost predicate NamesCheck(g: Graph, b: BuildId, report: Report) {
    && b < |g.builds| && g.builds[b].Sized() && report.defer.Some?
    && exists f :: f in report.defer.value && f in g.builds[b].ValidationIns()
  }

  /** No report names a validation input, whichever build it turns out to be about. */
  ghost predicate NamesNoCheck(g: Graph, env: nat -> Report) {
    forall i: nat, b: nat :: !NamesCheck(g, b, env(i))
  }

  /** An idle deferral names a validation input of the build it is about. */
  lemma IdleNamesCheck(g: WfGraph, e: Taken)
    requires Idle(e) && SameChecks(g, e.graph)
    ensures NamesCheck(g, e.bid, e.report)
  {
    var build := e.graph.builds[e.bid];
    var f :| f in e.report.defer.value && f !in build.OrderingIns();
    assert build.ins == build.OrderingIns() + build.ValidationIns();
  }

  lemma SettlesWithout(g: WfGraph, env: nat -> Report, log: seq<Taken>)
    requires Logged(g, env, log)
    ensures NamesNoCheck(g, env) ==> Idles(log) == 0
  {
    hide NamesNoCheck, Logged, Idles;
    if NamesNoCheck(g, env) {
      NoIdles(g, env, log);
    }
  }

  /** So without such reports no deferral is idle, and a run ends within the budget it begins with. */
  lemma {:induction false} NoIdles(g: WfGraph, env: nat -> Report, log: seq<Taken>)
    requires NamesNoCheck(g, env) && Logged(g, env, log)
    ensures Idles(log) == 0
  {
    hide Idle, SameChecks, NamesCheck;
    if log != [] {
      var before, e := log[..|log| - 1], log[|log| - 1];
      assert Logged(g, env, before);
      NoIdles(g, env, before);
      assert !NamesCheck(g, e.bid, env(|log| - 1));
      if Idle(e) {
        IdleNamesCheck(g, e);
      }
    }
  }

  /** Deferring on validation inputs alone adds no ordering input: the same deferral is new again next time. */
  lemma ValidationDeferralRepeats(g: WfGraph, g': WfGraph, c: BuildId, files: seq<FileId>, added: seq<FileId>)
    requires c < |g.builds| && g.builds[c].Sized() && EditedAt(g, g', c, added)
    requires Elements(added) == Elements(files) - Elements(g.builds[c].OrderingIns())
    requires forall f | f in added :: f in g.builds[c].ValidationIns()
    ensures Elements(files) - Elements(g'.builds[c].OrderingIns()) == Elements(added)
    ensures g'.builds[c].ValidationIns() == g.builds[c].ValidationIns()
  {
    assert Elements(g'.builds[c].OrderingIns()) == Elements(g.builds[c].OrderingIns());
  }

  /** One build with a source file as input and another as validation input. */
  function ValidatedGraph(): WfGraph {
    var build := Build([0, 1], 1, 0, 0, [2], Some("cc"), None, None);
    var g := Graph([build], [File("in", None, [0]), File("check", None, [0]), File("out", Some(0), [])]);
    assert build.ins[1..] == [1] && g.BuildWellFormed(0);
    assert g.FileWellFormed(0) && g.FileWellFormed(1) && g.FileWellFormed(2);
    g
  }

  /** What a deferral on the validation input leaves of that graph. */
  ghost predicate LikeValidated(g: WfGraph) {
    && |g.builds| == 1 && |g.files| == 3
    && g.files[0].input == None && g.files[1].input == None && g.files[2].input == Some(0)
    && g.builds[0].Sized() && g.builds[0].ValidationIns() == [1]
    && Elements(g.builds[0].OrderingIns()) == {0}
  }

  lemma LikeValidatedStays(g: WfGraph, g': WfGraph)
    requires LikeValidated(g) && EditedAt(g, g', 0, [1])
    ensures LikeValidated(g')
  {
    assert 1 in g.builds[0].ValidationIns();
    assert forall x :: x in g.builds[0].OrderingIns() <==> x == 0;
    assert Elements(g'.builds[0].OrderingIns()) == {0};
  }

  lemma LikeValidatedFlat(g: WfGraph, states: seq<BuildState>)
    requires LikeValidated(g) && |states| == 1
    ensures |g.builds| == 1 && |g.files| == 3
    ensures AllDone(states, Deps(g, 0)) && !Refused(g, [1], 0)
    ensures !exists files :: FileCycle(g, true, files)
  {
    assert g.builds[0].ins == g.builds[0].OrderingIns() + g.builds[0].ValidationIns();
    assert forall f :: f in g.builds[0].OrderingIns() <==> f in Elements(g.builds[0].OrderingIns());
    assert forall f :: f in g.builds[0].OrderingIns() <==> f == 0;
    assert Producers(g, [1]) == {};
    hide OnCycle, FileCycle;
    forall files | FileCycle(g, true, files)
      ensures OnCycle(g, true, 0)
    {
      CycleSomewhere(g, files);
    }
    assert Next(g, true, 0) == {};
    LonelyNoCycle(g, 0);
  }

  lemma CycleSomewhere(g: WfGraph, files: seq<FileId>)
    requires FileCycle(g, true, files)
    ensures exists b :: 0 <= b < |g.builds| && OnCycle(g, true, b)
  {
    FileCycleOnCycle(g, true, files);
  }

  /** Nothing makes the validation input, so no cycle can be reached from it. */
  lemma ValidatedApart(g: WfGraph, base: set<BuildId>)
    requires LikeValidated(g)
    ensures !CycleAmong(g, base, [1])
  {
    hide Cut;
    assert forall f | f in [1] :: Producer(Cut(g, base), f) == None;
  }

  lemma OnlyValidation(g: WfGraph)
    requires LikeValidated(g)
    ensures |g.builds| == 1 && |g.files| == 3 && g.builds[0].Sized()
    ensures Elements([1]) - Elements(g.builds[0].OrderingIns()) == {1} && !Refused(g, [1], 0)
  {
    LikeValidatedFlat(g, [Unneeded]);
  }

  lemma AscendingOne(s: seq<FileId>)
    requires Elements(s) == {1} && forall i, j | 0 <= i < j < |s| :: s[i] < s[j]
    ensures s == [1]
  {
    assert forall k | 0 <= k < |s| :: s[k] in Elements(s);
    NoDupCardinality(s);
    assert 1 in Elements(s) && s != [];
  }

  lemma OneBuild(s: Scheduler)
    requires s.Valid() && LikeValidated(s.graph)
    ensures |s.bs.states| == 1 && s.bs.states[0] != Want
    ensures s.bs.states[0] == Ready <==> s.bs.ready != []
    ensures 0 in s.inFlight || 0 in s.dead <==> s.bs.states[0] == Running
    ensures s.inFlight <= {0} && |s.inFlight| <= 1
  {
    hide Sorted, In, Deps, AllDone;
    LikeValidatedFlat(s.graph, s.bs.states);
    PastWant(s.graph, s.bs.states, {}, 0);
    if s.bs.ready != [] {
      assert s.bs.ready[0] in s.bs.ready;
    }
    SubsetCardinality(s.inFlight, {0});
  }

  /** The build is ready, as it was before it deferred. */
  ghost predicate AtRest(s: Scheduler)
    reads s, s.bs
  {
    && s.Valid() && LikeValidated(s.graph)
    && s.bs.states == [Ready] && s.noDefer == {} && s.dead == {} && s.inFlight == {}
  }

  /** One start of the build, and one deferral on its validation input. */
  method DeferralRound(s: Scheduler)
    requires AtRest(s)
    modifies s, s.bs
    ensures AtRest(s)
  {
    hide Progressed, Sorted, ReadyListed, In, InputsDone, Out, EditedAt, Refused, FileCycle, AllDone;
    hide Deps, Budget, Scaled, FileWanted;
    hide LikeValidated, CycleAmong, Cut, SingleOuts, Wanted;
    OneBuild(s);
    var started := s.StartReady();
    OneBuild(s);
    assert 0 in s.inFlight;
    var bid, ok, defer := s.Wait(Report(true, Some([1])));
    ghost var g0 := s.graph;
    OnlyValidation(g0);
    var added := s.NewIds(defer.value, bid);
    AscendingOne(added);
    ValidatedApart(g0, Wanted(g0, s.bs.states));
    var settled := s.HandleDeferred(bid, added);
    LikeValidatedStays(g0, s.graph);
    LikeValidatedFlat(s.graph, s.bs.states);
    OneBuild(s);
  }

  /**
   A build that keeps deferring on its own validation input is started again
   after every report, for ever: after any number of rounds it is ready once
   more, no edge was added, and it may still defer.
   */
  method DeferralNeverSettles(rounds: nat) returns (s: Scheduler, starts: nat)
    ensures fresh(s) && fresh(s.bs) && AtRest(s) && starts == rounds
  {
    hide Progressed, Sorted, ReadyListed, In, InputsDone, EditedAt, Refused, FileCycle, AllDone;
    hide Deps, Budget, Scaled, Deferrals, Weight;
    s := new Scheduler(ValidatedGraph());
    starts := 0;
    assert LikeValidated(s.graph) by {
      assert s.graph.builds[0].ins[..1] == [0];
    }
    LikeValidatedFlat(s.graph, s.bs.states);
    var wanted := s.WantTarget(2);
    OneBuild(s);
    while starts < rounds
      invariant fresh(s) && fresh(s.bs) && starts <= rounds && AtRest(s)
    {
      DeferralRound(s);
      starts := starts + 1;
    }
  }

  /** A build, and one that uses what it makes as a validation input. */
  function MutualGraph(): WfGraph {
    var made := Build([], 0, 0, 0, [0], Some("cc"), None, None);
    var check := Build([0], 0, 0, 0, [1], Some("test"), None, None);
    var g := Graph([made, check], [File("out", Some(0), [1]), File("checked", Some(1), [])]);
    assert g.BuildWellFormed(0) && g.BuildWellFormed(1);
    assert g.FileWellFormed(0) && g.FileWellFormed(1);
    g
  }

  lemma MutualNext(g': WfGraph)
    requires EditedAt(MutualGraph(), g', 0, [1])
    ensures |g'.builds| == 2 && |g'.files| == 2 && Producer(g', 1) == Some(1)
    ensures Next(g', true, 0) == {1} && Next(g', true, 1) == {0}
  {
    var g := MutualGraph();
    assert g.builds[0].OrderingIns() == [] && g.builds[0].ValidationIns() == [];
    assert g'.builds[0].ins == g'.builds[0].OrderingIns() + g'.builds[0].ValidationIns();
    assert forall x :: x in g'.builds[0].ins <==> x == 1;
    assert g'.builds[1] == g.builds[1] && 0 in g.builds[1].ins;
  }

  /**
   While the first build of that graph runs, a deferral on what the second makes
   meets no cycle of builds that were not wanted, so it is accepted; and the edit
   has closed a cycle through the validation input, which can be reached from the
   added file.
   */
  lemma DeferralMissesCycle(states: seq<BuildState>, g': WfGraph)
    requires states == [Running, Unneeded] && EditedAt(MutualGraph(), g', 0, [1])
    ensures var g := MutualGraph(); var base := Wanted(g, states);
                                    !Refused(g, [1], 0) && SingleOuts(Cut(g, base)) && !CycleAmong(g, base, [1]) && CycleFrom(g', true, 1)
  {
    hide MutualGraph, Next, Reaches, OnCycle, Refused, CycleAmong, EditedAt, Cut;
    MutualAccepted(states);
    MutualNext(g');
    MutualCircle(g');
    ReachesSelf(g', true, 1);
  }

  lemma MutualCircle(g': WfGraph)
    requires |g'.builds| == 2 && Next(g', true, 0) == {1} && Next(g', true, 1) == {0}
    ensures OnCycle(g', true, 1)
  {
    hide Next;
    var p: seq<BuildId> := [1, 0, 1];
    assert p[1..] == [0, 1] && p[1..][1..] == [1];
    assert Path(g', true, p[1..][1..]) && Path(g', true, p[1..]) && Path(g', true, p);
    assert PathFromTo(g', true, p, 1, 1);
  }

  lemma MutualFacts()
    ensures var g := MutualGraph();
            && |g.builds| == 2 && |g.files| == 2 && Producer(g, 0) == Some(0) && Producer(g, 1) == Some(1)
            && g.builds[1].ins == [0] && Next(g, false, 1) == {} && SingleOuts(g)
  {
    var g := MutualGraph();
    assert g.builds[1].OrderingIns() == [] && g.builds[1].ins == [0];
  }

  lemma MutualAccepted(states: seq<BuildState>)
    requires states == [Running, Unneeded]
    ensures var g := MutualGraph(); var base := Wanted(g, states);
                                    |g.files| == 2 && !Refused(g, [1], 0) && SingleOuts(Cut(g, base)) && !CycleAmong(g, base, [1])
  {
    hide MutualGraph, Reaches, CycleFrom, Next, Cut;
    MutualFacts();
    var g := MutualGraph();
    var base := Wanted(g, states);
    assert base == {0};
    assert forall f | f in [1] :: f == 1;
    forall p | p in Producers(g, [1])
      ensures p == 1 && !Reaches(g, false, 1, 0)
    {
      AloneReaches(g, false, 1, 0);
    }
    MutualCut(Cut(g, base));
    assert !CycleFrom(Cut(g, base), true, 1);
  }

  /** Without the first build, the second leads nowhere. */
  lemma MutualCut(cut: WfGraph)
    requires |cut.builds| == 2 && |cut.files| == 2 && Producer(cut, 0) == None && Producer(cut, 1) == Some(1)
    requires cut.builds[1].ins == [0]
    ensures SingleOuts(cut) && !CycleFrom(cut, true, 1)
  {
    hide Reaches, OnCycle;
    assert Next(cut, true, 1) == {};
    forall x | Reaches(cut, true, 1, x)
      ensures !OnCycle(cut, true, x)
    {
      AloneReaches(cut, true, 1, x);
      LonelyNoCycle(cut, 1);
    }
  }

  lemma AloneReaches(g: WfGraph, all: bool, a: BuildId, b: BuildId)
    requires a < |g.builds| && Next(g, all, a) == {}
    ensures Reaches(g, all, a, b) ==> b == a
  {
    hide Reaches;
    if Reaches(g, all, a, b) {
      assert Closed(g, all, {a});
      ClosedReaches(g, all, {a}, a, b);
    }
  }

  lemma LonelyNoCycle(g: WfGraph, b: BuildId)
    requires b < |g.builds| && Next(g, true, b) == {}
    ensures !OnCycle(g, true, b)
  {
  }

  lemma NoCycleBehind(g: WfGraph, w0: set<BuildId>, left0: seq<BuildId>, w: set<BuildId>, left: seq<BuildId>, f: FileId)
    requires Explored(g, w0, [], left0) && Explores(g, w0, left0, w, left, []) && Behind(g, w0, left0, [], left, [f])
    ensures Explored(g, w, [], left) && !CycleFrom(g, true, f)
  {
    hide Explored, ReachesCycle;
    if CycleFrom(g, true, f) {
      assert f in [f] && Makes(g, f, Producer(g, f).value);
      LeftReachesNoCycle(g, w, [], left, Producer(g, f).value);
    }
  }

  /** A build with a validation input that is made from what it makes. */
  function ValidatorGraph(): WfGraph {
    var made := Build([1], 0, 0, 0, [0], Some("cc"), None, None);
    var check := Build([0], 1, 0, 0, [1], Some("test"), None, None);
    var g := Graph([made, check], [File("out", Some(0), [1]), File("checked", Some(1), [0])]);
    assert g.BuildWellFormed(0) && g.BuildWellFormed(1);
    assert g.FileWellFormed(0) && g.FileWellFormed(1);
    g
  }

  lemma ValidatorNext()
    ensures var g := ValidatorGraph();
            && |g.builds| == 2 && |g.files| == 2 && Producer(g, 0) == Some(0) && Producer(g, 1) == Some(1)
            && Next(g, true, 0) == {1} && Next(g, true, 1) == {0} && Next(g, false, 0) == {} && Next(g, false, 1) == {0}
  {
    var g := ValidatorGraph();
    assert g.builds[0].OrderingIns() == [] && g.builds[1].OrderingIns() == [0];
    assert 1 in g.builds[0].ins && 0 in g.builds[1].ins;
  }

  lemma ValidatorCircle()
    ensures OnCycle(ValidatorGraph(), true, 0)
  {
    hide ValidatorGraph, Next;
    ValidatorNext();
    var g := ValidatorGraph();
    var p: seq<BuildId> := [0, 1, 0];
    assert p[1..] == [1, 0] && p[1..][1..] == [0];
    assert Path(g, true, p[1..][1..]) && Path(g, true, p[1..]) && Path(g, true, p);
    assert PathFromTo(g, true, p, 0, 0);
  }

  lemma ValidatorOrdered()
    ensures !ReachesCycle(ValidatorGraph(), false, 0)
  {
    hide ValidatorGraph, Next, Reaches, OnCycle;
    ValidatorNext();
    var g := ValidatorGraph();
    var rank: map<BuildId, nat> := map[0 := 0, 1 := 1];
    assert Ranked(g, {0, 1}, {}, rank) && Closed(g, false, {0, 1}) && Closed(g, true, {0, 1});
    forall x | Reaches(g, true, 0, x)
      ensures !OnCycle(g, false, x)
    {
      ClosedReaches(g, true, {0, 1}, 0, x);
      RankedNoCycle(g, {0, 1}, rank, x);
    }
  }

  /** The graph has no ordering cycle, which is all n2 asks; its validation edge closes one. */
  lemma ValidatorCycle()
    ensures var g := ValidatorGraph();
            SingleOuts(g) && CycleFrom(g, true, 0) && !CycleFrom(g, false, 0)
  {
    hide ValidatorGraph, Next, Reaches, OnCycle;
    ValidatorNext();
    ValidatorCircle();
    ValidatorOrdered();
    ReachesSelf(ValidatorGraph(), true, 0);
  }

  /** nix-ninja refuses such a target, and n2 accepts it. */
  method ValidatorIsRefused() returns (r: Result<bool, seq<FileId>>, r2: Result<(), seq<FileId>>)
    ensures r.Err? && FileCycle(ValidatorGraph(), true, r.error)
    ensures r2.Ok?
  {
    hide Explored, CycleFrom, SingleOuts, Wanted, FileCycle;
    ValidatorCycle();
    var s := new Scheduler(ValidatorGraph());
    r := s.WantTarget(0);
    var n2 := new N2States.BuildStates(ValidatorGraph(), []);
    assert N2States.Validated(n2.graph, n2.states, {});
    r2 := n2.WantTarget(0);
  }
}
