/**
 Order theory of the build graph: paths, cycles, topological orders, and the
 argument that a scheduler with nothing to do is blocked by a failure.
 `all` selects the edges: ordering only, or ordering and validation.
 */
module Ordering {
  import opened BuildGraph
  import opened Sequences

  ghost predicate Path(g: WfGraph, all: bool, p: seq<BuildId>)
    decreases |p|
  {
    && |p| > 0
    && p[0] < |g.builds|
    && (|p| == 1 || (p[1] in Next(g, all, p[0]) && Path(g, all, p[1..])))
  }

  ghost predicate PathFromTo(g: WfGraph, all: bool, p: seq<BuildId>, a: BuildId, b: BuildId) {
    Path(g, all, p) && p[0] == a && p[|p| - 1] == b
  }

  ghost predicate Reaches(g: WfGraph, all: bool, a: BuildId, b: BuildId) {
    exists p :: PathFromTo(g, all, p, a, b)
  }

  /** `b` can be reached from itself in one step or more. */
  ghost predicate OnCycle(g: WfGraph, all: bool, b: BuildId) {
    exists p :: |p| >= 2 && PathFromTo(g, all, p, b, b)
  }

  /** A cycle can be reached from `b` over ordering and validation edges. */
  ghost predicate ReachesCycle(g: WfGraph, all: bool, b: BuildId) {
    exists x :: Reaches(g, true, b, x) && OnCycle(g, all, x)
  }

  ghost predicate Closed(g: WfGraph, all: bool, s: set<BuildId>) {
    forall b | b in s :: b < |g.builds| && Next(g, all, b) <= s
  }

  /** Every build of `order` comes after all the builds it is ordered after. */
  ghost predicate Topological(g: WfGraph, order: seq<BuildId>) {
    && NoDup(order)
    && (forall b | b in order :: b < |g.builds|)
    && forall i | 0 <= i < |order| ::
         order[i] < |g.builds| && Deps(g, order[i]) <= Elements(order[..i])
  }

  /** `rank` strictly decreases along the ordering edges inside `s`, those out of `skip` aside. */
  ghost predicate Ranked(g: WfGraph, s: set<BuildId>, skip: set<BuildId>, rank: map<BuildId, nat>) {
    && s <= rank.Keys
    && (forall b | b in s :: b < |g.builds|)
    && forall b, p | b in s && b !in skip && p in s && p in Deps(g, b) :: rank[p] < rank[b]
  }

  lemma ReachesSelf(g: WfGraph, all: bool, b: BuildId)
    requires b < |g.builds|
    ensures Reaches(g, all, b, b)
  {
    assert PathFromTo(g, all, [b], b, b);
  }

  lemma ReachesStep(g: WfGraph, all: bool, a: BuildId, b: BuildId, c: BuildId)
    requires a < |g.builds| && b in Next(g, all, a) && Reaches(g, all, b, c)
    ensures Reaches(g, all, a, c)
  {
    var p :| PathFromTo(g, all, p, b, c);
    assert ([a] + p)[1..] == p;
    assert PathFromTo(g, all, [a] + p, a, c);
  }

  lemma {:induction false} PathAppend(g: WfGraph, all: bool, p: seq<BuildId>, c: BuildId)
    requires Path(g, all, p) && p[|p| - 1] < |g.builds| && c in Next(g, all, p[|p| - 1])
    ensures Path(g, all, p + [c])
    decreases |p|
  {
    hide Next;
    if |p| == 1 {
      assert (p + [c])[1..] == [c];
      assert Path(g, all, [c]);
    } else {
      PathAppend(g, all, p[1..], c);
      assert (p + [c])[1..] == p[1..] + [c] && (p + [c])[1] == p[1];
    }
  }

  lemma ReachesOneMore(g: WfGraph, all: bool, a: BuildId, b: BuildId, c: BuildId)
    requires b < |g.builds| && Reaches(g, all, a, b) && c in Next(g, all, b)
    ensures Reaches(g, all, a, c)
  {
    var p :| PathFromTo(g, all, p, a, b);
    PathAppend(g, all, p, c);
    assert PathFromTo(g, all, p + [c], a, c);
  }

  lemma ReachesCycleStep(g: WfGraph, all: bool, a: BuildId, b: BuildId)
    requires a < |g.builds| && b in Next(g, true, a) && ReachesCycle(g, all, b)
    ensures ReachesCycle(g, all, a)
  {
    var x :| Reaches(g, true, b, x) && OnCycle(g, all, x);
    ReachesStep(g, true, a, b, x);
  }

  lemma {:induction false} PathEnds(g: WfGraph, all: bool, p: seq<BuildId>, s: set<BuildId>)
    requires Path(g, all, p) && p[0] in s && Closed(g, all, s)
    ensures p[|p| - 1] in s
    decreases |p|
  {
    if |p| > 1 {
      PathEnds(g, all, p[1..], s);
    }
  }

  /** A closed set holds everything reachable from its members. */
  lemma ClosedReaches(g: WfGraph, all: bool, s: set<BuildId>, a: BuildId, b: BuildId)
    requires Closed(g, all, s) && a in s && Reaches(g, all, a, b)
    ensures b in s
  {
    var p :| PathFromTo(g, all, p, a, b);
    PathEnds(g, all, p, s);
  }

  ghost function RankOf(order: seq<BuildId>): (r: map<BuildId, nat>)
    ensures r.Keys == Elements(order)
  {
    map b | b in Elements(order) :: IndexOf(order, b)
  }

  lemma TopologicalRanked(g: WfGraph, order: seq<BuildId>)
    requires Topological(g, order)
    ensures Ranked(g, Elements(order), {}, RankOf(order))
    ensures Closed(g, false, Elements(order))
  {
    forall b, p | b in order && p in Deps(g, b)
      ensures p in order && IndexOf(order, p) < IndexOf(order, b)
    {
      var i := IndexOf(order, b);
      assert p in Elements(order[..i]);
      var k :| 0 <= k < i && order[..i][k] == p;
      NoDupIndex(order, k);
    }
  }

  lemma {:induction false} RankedPath(g: WfGraph, s: set<BuildId>, rank: map<BuildId, nat>, p: seq<BuildId>)
    requires Ranked(g, s, {}, rank) && Closed(g, false, s)
    requires Path(g, false, p) && p[0] in s
    ensures p[|p| - 1] in s && rank[p[|p| - 1]] <= rank[p[0]]
    ensures |p| >= 2 ==> rank[p[|p| - 1]] < rank[p[0]]
    decreases |p|
  {
    if |p| > 1 {
      assert Next(g, false, p[0]) <= s;
      RankedPath(g, s, rank, p[1..]);
    }
  }

  /** Ranked builds lie on no ordering cycle. */
  lemma RankedNoCycle(g: WfGraph, s: set<BuildId>, rank: map<BuildId, nat>, b: BuildId)
    requires Ranked(g, s, {}, rank) && Closed(g, false, s) && b in s
    ensures !OnCycle(g, false, b)
  {
    if OnCycle(g, false, b) {
      var p :| |p| >= 2 && PathFromTo(g, false, p, b, b);
      RankedPath(g, s, rank, p);
    }
  }

  /** Nothing reachable from a topologically ordered, fully closed set is on a cycle. */
  lemma TopologicalReachesNoCycle(g: WfGraph, order: seq<BuildId>, b: BuildId)
    requires Topological(g, order) && Closed(g, true, Elements(order)) && b in order
    ensures !ReachesCycle(g, false, b)
  {
    if ReachesCycle(g, false, b) {
      var x :| Reaches(g, true, b, x) && OnCycle(g, false, x);
      ClosedReaches(g, true, Elements(order), b, x);
      TopologicalRanked(g, order);
      RankedNoCycle(g, Elements(order), RankOf(order), x);
    }
  }

  lemma RankedSkip(g: WfGraph, s: set<BuildId>, skip: set<BuildId>, rank: map<BuildId, nat>)
    requires Ranked(g, s, {}, rank)
    ensures Ranked(g, s, skip, rank)
  {
  }

  /** Every member of `s` that is not done is dead itself or waits for a member that is not done. */
  ghost predicate Waiting(g: WfGraph, s: set<BuildId>, done: set<BuildId>, dead: set<BuildId>)
    requires forall b | b in s :: b < |g.builds|
  {
    forall b | b in s && b !in done ::
      b in dead || exists p :: p in Deps(g, b) && p in s && p !in done
  }

  /** Following the waits from a build that is not done leads to a dead one. */
  lemma {:induction false} WaitingReachesDead(
    g: WfGraph, s: set<BuildId>, rank: map<BuildId, nat>,
    done: set<BuildId>, dead: set<BuildId>, b: BuildId)
    returns (d: BuildId)
    requires Ranked(g, s, dead, rank) && Waiting(g, s, done, dead)
    requires b in s && b !in done
    ensures d in dead && d in s && d !in done && Reaches(g, false, b, d)
    decreases rank[b]
  {
    if b in dead {
      d := b;
      ReachesSelf(g, false, b);
    } else {
      var p :| p in Deps(g, b) && p in s && p !in done;
      d := WaitingReachesDead(g, s, rank, done, dead, p);
      ReachesStep(g, false, b, p, d);
    }
  }

  /**
   The state a scheduler stops in, exactly: with done builds closed under
   ordering and everything else waiting, a member is done if and only if no
   dead build is reachable from it.
   */
  lemma StoppedExactly(
    g: WfGraph, s: set<BuildId>, rank: map<BuildId, nat>,
    done: set<BuildId>, dead: set<BuildId>, b: BuildId)
    requires Ranked(g, s, dead, rank) && Waiting(g, s, done, dead)
    requires Closed(g, false, done) && done !! dead && dead <= s && b in s
    ensures b in done <==> !exists d :: d in dead && Reaches(g, false, b, d)
  {
    if b in done {
      forall d | d in dead
        ensures !Reaches(g, false, b, d)
      {
        if Reaches(g, false, b, d) {
          ClosedReaches(g, false, done, b, d);
        }
      }
    } else {
      var d := WaitingReachesDead(g, s, rank, done, dead, b);
    }
  }
}
