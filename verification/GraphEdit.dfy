/**
 The graph edit a deferral makes, and the two graph searches around it: the
 guard against ordering an edge after itself, and the closure of an edge's
 inputs.
 */
module GraphEdit {
  import opened Wrappers
  import opened BuildGraph
  import opened Ordering
  import opened Sequences

  /**
   `f` becomes an implicit input of `b`: it lands at the end of the implicit
   run, so every later input keeps its kind. A file that is already an input
   of any kind is left alone.
   */
  function AddImplicitInput(g: Graph, b: BuildId, f: FileId): Graph
    requires b < |g.builds| && f < |g.files| && g.builds[b].Sized()
  {
    var build := g.builds[b];
    if f in build.ins then g else
    var pos := build.explicit + build.implicit;
    Graph(
      g.builds[b := build.(ins := build.ins[..pos] + [f] + build.ins[pos..], implicit := build.implicit + 1)],
      g.files[f := g.files[f].(dependents := g.files[f].dependents + [b])])
  }

  /** The edit adds `f` to the ordering inputs of `b` and changes no other list. */
  lemma AddImplicitInputs(g: WfGraph, b: BuildId, f: FileId)
    requires b < |g.builds| && f < |g.files| && g.builds[b].Sized()
    ensures var g' := AddImplicitInput(g, b, f);
            && |g'.builds| == |g.builds| && |g'.files| == |g.files| && g'.builds[b].Sized()
            && (f !in g.builds[b].ins ==>
                  && g'.builds[b].OrderingIns() == g.builds[b].DirtyingIns() + [f] + g.builds[b].OrderingIns()[|g.builds[b].DirtyingIns()|..]
                  && g'.builds[b].DirtyingIns() == g.builds[b].DirtyingIns() + [f])
            && g'.builds[b].ValidationIns() == g.builds[b].ValidationIns()
            && (forall c | 0 <= c < |g.builds| && c != b :: g'.builds[c] == g.builds[c])
            && g'.builds[b].outs == g.builds[b].outs
            && (forall x | 0 <= x < |g.files| :: g'.files[x].input == g.files[x].input)
            && (forall x :: x in g'.builds[b].ins <==> x in g.builds[b].ins || x == f)
  {
    var build := g.builds[b];
    if f !in build.ins {
      var pos := build.explicit + build.implicit;
      var g' := AddImplicitInput(g, b, f);
      var n := pos + build.orderOnly;
      assert build.ins == build.ins[..pos] + build.ins[pos..];
      assert g'.builds[b].ins[..n + 1] == build.ins[..pos] + [f] + build.ins[pos..n];
      assert build.ins[pos..n] == build.ins[..n][pos..];
      assert g'.builds[b].ins[n + 1..] == build.ins[n..];
      assert g'.builds[b].ins[..pos + 1] == build.ins[..pos] + [f];
    }
  }

  lemma AddImplicitWellFormed(g: WfGraph, b: BuildId, f: FileId)
    requires b < |g.builds| && f < |g.files| && g.builds[b].Sized()
    ensures AddImplicitInput(g, b, f).WellFormed()
  {
    AddImplicitInputs(g, b, f);
    var g' := AddImplicitInput(g, b, f);
    forall c | 0 <= c < |g'.builds|
      ensures g'.BuildWellFormed(c)
    {
      assert g.BuildWellFormed(c);
    }
    forall x | 0 <= x < |g'.files|
      ensures g'.FileWellFormed(x)
    {
      assert g.FileWellFormed(x);
    }
  }

  /** What a run of edits on `b` leaves: everything as it was but the ordering inputs of `b`. */
  ghost predicate EditedAt(g: WfGraph, g': WfGraph, b: BuildId, fs: seq<FileId>)
    requires b < |g.builds|
  {
    && |g'.builds| == |g.builds| && |g'.files| == |g.files|
    && g.builds[b].Sized() && g'.builds[b].Sized()
    && (forall c | 0 <= c < |g.builds| && c != b :: g'.builds[c] == g.builds[c])
    && (forall x | 0 <= x < |g.files| :: g'.files[x].input == g.files[x].input)
    && g'.builds[b].ValidationIns() == g.builds[b].ValidationIns()
    && (forall x :: x in g'.builds[b].OrderingIns() <==>
                    x in g.builds[b].OrderingIns() || (x in fs && x !in g.builds[b].ValidationIns()))
  }

  lemma EditedRefl(g: WfGraph, b: BuildId)
    requires b < |g.builds|
    ensures EditedAt(g, g, b, [])
  {
    assert g.BuildWellFormed(b);
  }

  lemma EditedStep(g: WfGraph, g1: WfGraph, g2: WfGraph, b: BuildId, fs: seq<FileId>, f: FileId)
    requires b < |g.builds| && EditedAt(g, g1, b, fs) && f < |g.files|
    requires g2 == AddImplicitInput(g1, b, f)
    ensures EditedAt(g, g2, b, fs + [f])
  {
    AddImplicitInputs(g1, b, f);
    var build := g1.builds[b];
    assert build.ins == build.OrderingIns() + build.ValidationIns();
    assert build.OrderingIns() == build.DirtyingIns() + build.OrderingIns()[|build.DirtyingIns()|..];
    forall x
      ensures x in g2.builds[b].OrderingIns() <==>
              x in g.builds[b].OrderingIns() || (x in fs + [f] && x !in g.builds[b].ValidationIns())
    {
      if f !in build.ins {
        assert x in g2.builds[b].OrderingIns() <==> x in build.OrderingIns() || x == f;
      }
    }
  }

  /** After the edits `b` is ordered after the producers of the new files too, and nobody else changed. */
  lemma EditedDeps(g: WfGraph, g': WfGraph, b: BuildId, fs: seq<FileId>)
    requires b < |g.builds| && EditedAt(g, g', b, fs) && forall f | f in fs :: f < |g.files|
    ensures forall c | 0 <= c < |g.builds| && c != b :: Deps(g', c) == Deps(g, c)
    ensures Deps(g, b) <= Deps(g', b) <= Deps(g, b) + Producers(g, fs)
  {
    forall c | 0 <= c < |g.builds|
      ensures c != b ==> Deps(g', c) == Deps(g, c)
    {
      assert g.BuildWellFormed(c) && g'.BuildWellFormed(c);
      assert forall x | x in g.builds[c].OrderingIns() :: x in g.builds[c].ins;
    }
    assert g.BuildWellFormed(b) && g'.BuildWellFormed(b);
    assert forall x | x in g'.builds[b].OrderingIns() :: x in g'.builds[b].ins;
    assert forall x | x in g.builds[b].OrderingIns() :: x in g.builds[b].ins;
    forall p | p in Deps(g, b)
      ensures p in Deps(g', b)
    {
      var x :| x in g.builds[b].OrderingIns() && Producer(g, x) == Some(p);
      assert x in g'.builds[b].OrderingIns() && Producer(g', x) == Some(p);
    }
    forall p | p in Deps(g', b)
      ensures p in Deps(g, b) + Producers(g, fs)
    {
      var x :| x in g'.builds[b].OrderingIns() && Producer(g', x) == Some(p);
      assert Producer(g, x) == Some(p);
    }
  }

  // ---- The cycle guard. ----

  /** `b` is reached from one of `from`. */
  ghost predicate Reached(g: WfGraph, from: set<BuildId>, b: BuildId) {
    b < |g.builds| && exists s :: s in from && Reaches(g, false, s, b)
  }

  /** A search under way: what is seen leads into seen or todo, and all of it comes from `from`. */
  ghost predicate Searching(g: WfGraph, from: set<BuildId>, seen: set<BuildId>, todo: set<BuildId>) {
    && (forall b | b in seen || b in todo :: b < |g.builds| && Reached(g, from, b))
    && from <= seen + todo
    && forall b | b in seen :: Deps(g, b) <= seen + todo
  }

  lemma SearchStarts(g: WfGraph, from: set<BuildId>)
    requires forall p | p in from :: p < |g.builds|
    ensures Searching(g, from, {}, from)
  {
    forall b | b in from
      ensures Reached(g, from, b)
    {
      ReachesSelf(g, false, b);
    }
  }

  lemma ReachedNext(g: WfGraph, from: set<BuildId>, a: BuildId, b: BuildId)
    requires Reached(g, from, a) && b in Deps(g, a)
    ensures Reached(g, from, b)
  {
    var s :| s in from && Reaches(g, false, s, a);
    ReachesOneMore(g, false, s, a, b);
  }

  /** Taking `bid` off the list, and putting on what it is ordered after unless it was seen before. */
  lemma SearchStep(g: WfGraph, from: set<BuildId>, seen: set<BuildId>, todo: set<BuildId>, bid: BuildId,
                   todo': set<BuildId>)
    requires Searching(g, from, seen, todo) && bid in todo
    requires todo - {bid} <= todo'
    requires todo' <= todo + Deps(g, bid)
    requires bid in seen || Deps(g, bid) <= seen + {bid} + todo'
    ensures Searching(g, from, seen + {bid}, todo')
  {
    hide Reached, Deps;
    forall b | b in todo' && b !in todo
      ensures Reached(g, from, b)
    {
      ReachedNext(g, from, bid, b);
    }
    assert forall b | b in todo' && b !in todo :: b < |g.builds| by {
      DepsInRange(g, bid);
    }
    assert seen + todo <= seen + {bid} + todo';
    forall b | b in seen + {bid}
      ensures Deps(g, b) <= (seen + {bid}) + todo'
    {
      if b in seen {
        assert Deps(g, b) <= seen + todo;
      }
    }
  }

  lemma SearchDone(g: WfGraph, from: set<BuildId>, seen: set<BuildId>, b: BuildId)
    requires Searching(g, from, seen, {})
    ensures b in seen <==> Reached(g, from, b)
  {
    hide Reaches;
    assert seen + {} == seen;
    assert Closed(g, false, seen) by {
      forall x | x in seen
        ensures x < |g.builds| && Next(g, false, x) <= seen
      {
        assert Reached(g, from, x) && Deps(g, x) <= seen + {};
      }
    }
    if Reached(g, from, b) {
      var s :| s in from && Reaches(g, false, s, b);
      assert s in seen;
      ClosedReaches(g, false, seen, s, b);
    }
  }

  /** The producers of the ordering inputs of `bid`, appended to a work list. */
  method PushDeps(g: WfGraph, bid: BuildId, todo: seq<BuildId>) returns (r: seq<BuildId>)
    requires bid < |g.builds|
    ensures Elements(r) == Elements(todo) + Deps(g, bid)
  {
    assert g.BuildWellFormed(bid);
    r := todo;
    var ins := g.builds[bid].OrderingIns();
    assert forall k | 0 <= k < |ins| :: ins[k] in g.builds[bid].ins && ins[k] in ins;
    for i := 0 to |ins|
      invariant forall b | b in r :: b in todo || b in Deps(g, bid)
      invariant forall b | b in todo :: b in r
      invariant forall k | 0 <= k < i && Producer(g, ins[k]).Some? :: Producer(g, ins[k]).value in r
    {
      if Producer(g, ins[i]).Some? {
        r := r + [Producer(g, ins[i]).value];
      }
    }
  }

  /**
   Whether ordering `consumer` after `producers` would order it after itself:
   the guard answers None exactly when no producer reaches the consumer.
   */
  method ProducerCycle(g: WfGraph, consumer: BuildId, producers: seq<BuildId>) returns (r: Option<BuildId>)
    requires consumer < |g.builds| && forall p | p in producers :: p < |g.builds|
    ensures r.None? <==> forall p | p in producers :: !Reaches(g, false, p, consumer)
    ensures r.Some? ==> r.value == consumer
  {
    hide Searching, Reached, Reaches, Deps;
    if consumer in producers {
      ReachesSelf(g, false, consumer);
      return Some(consumer);
    }
    var seen: set<BuildId> := {};
    var todo: seq<BuildId> := producers;
    SearchStarts(g, Elements(producers));
    SearchInRange(g, Elements(producers), {}, Elements(producers));
    while todo != []
      invariant Searching(g, Elements(producers), seen, Elements(todo))
      invariant consumer !in todo && consumer !in seen && seen <= AllBuilds(g)
      invariant seen + Elements(todo) <= AllBuilds(g)
      decreases AllBuilds(g) - seen, |todo|
    {
      var bid := todo[|todo| - 1];
      assert bid in Elements(todo);
      ghost var before := Elements(todo);
      var rest: seq<BuildId> := todo[..|todo| - 1];
      assert todo == rest + [bid];
      if bid in seen {
        SearchStep(g, Elements(producers), seen, before, bid, Elements(rest));
        assert seen + {bid} == seen;
        todo := rest;
        continue;
      }
      todo := PushDeps(g, bid, rest);
      SearchStep(g, Elements(producers), seen, before, bid, Elements(todo));
      seen := seen + {bid};
      SearchInRange(g, Elements(producers), seen, Elements(todo));
      if consumer in todo {
        SearchHit(g, Elements(producers), seen, Elements(todo), consumer);
        ReachedWitness(g, producers, consumer);
        return Some(consumer);
      }
    }
    assert Elements(todo) == {};
    SearchDone(g, Elements(producers), seen, consumer);
    ReachedWitness(g, producers, consumer);
    r := None;
  }

  lemma SearchInRange(g: WfGraph, from: set<BuildId>, seen: set<BuildId>, todo: set<BuildId>)
    requires Searching(g, from, seen, todo)
    ensures seen + todo <= AllBuilds(g)
  {
  }

  lemma ReachedWitness(g: WfGraph, from: seq<BuildId>, b: BuildId)
    requires b < |g.builds|
    ensures Reached(g, Elements(from), b) <==> !forall p | p in from :: !Reaches(g, false, p, b)
  {
  }

  lemma DepsInRange(g: WfGraph, b: BuildId)
    requires b < |g.builds|
    ensures forall p | p in Deps(g, b) :: p < |g.builds|
  {
  }

  lemma SearchHit(g: WfGraph, from: set<BuildId>, seen: set<BuildId>, todo: set<BuildId>, b: BuildId)
    requires Searching(g, from, seen, todo) && b in todo
    ensures Reached(g, from, b)
  {
  }

  // ---- The input closure of an edge. ----

  /**
   Every file `bid` transitively orders after: exactly the ordering inputs of
   the builds reachable from it, each file once.
   */
  method InputClosure(g: WfGraph, bid: BuildId) returns (out: seq<FileId>)
    requires bid < |g.builds|
    ensures NoDup(out)
    ensures forall f :: f in out <==>
                        exists b: nat :: Reaches(g, false, bid, b) && b < |g.builds| && g.builds[b].Sized() && f in g.builds[b].OrderingIns()
  {
    hide Searching, Reached, Reaches, FilesOf, MadeBy, NoDup, Deps;
    var seenBuilds: set<BuildId> := {bid};
    out := [];
    var queue: seq<BuildId> := [bid];
    ghost var done: set<BuildId> := {};
    SearchStarts(g, {bid});
    NothingVisited(g, {bid});
    OneQueued(bid);
    while queue != []
      invariant Searching(g, {bid}, done, Elements(queue))
      invariant seenBuilds == done + Elements(queue) && seenBuilds <= AllBuilds(g)
      invariant NoDup(queue) && done !! Elements(queue)
      invariant NoDup(out) && FilesOf(g, done, out) && MadeBy(g, out, seenBuilds)
      decreases AllBuilds(g) - done
    {
      var b := queue[|queue| - 1];
      ghost var before := Elements(queue);
      var rest := queue[..|queue| - 1];
      LastQueued(queue);
      out, seenBuilds, queue := VisitInputs(g, b, out, seenBuilds, rest, done);
      SearchStep(g, {bid}, done, before, b, Elements(queue));
      done := done + {b};
    }
    assert Elements(queue) == {};
    ClosureDone(g, bid, done, out);
  }

  lemma OneQueued(b: BuildId)
    ensures Elements([b]) == {b} && NoDup([b]) && NoDup<FileId>([])
  {
  }

  lemma LastQueued(queue: seq<BuildId>)
    requires NoDup(queue) && queue != []
    ensures var b, rest := queue[|queue| - 1], queue[..|queue| - 1];
            NoDup(rest) && b !in rest && b in Elements(queue) && Elements(queue) == Elements(rest) + {b}
  {
    assert queue == queue[..|queue| - 1] + [queue[|queue| - 1]];
  }

  lemma ClosureDone(g: WfGraph, bid: BuildId, done: set<BuildId>, out: seq<FileId>)
    requires Searching(g, {bid}, done, {}) && FilesOf(g, done, out)
    ensures forall f :: f in out <==>
                        exists b: nat :: Reaches(g, false, bid, b) && b < |g.builds| && g.builds[b].Sized() && f in g.builds[b].OrderingIns()
  {
    forall b: BuildId
      ensures b in done <==> b < |g.builds| && Reaches(g, false, bid, b)
    {
      SearchDone(g, {bid}, done, b);
    }
  }

  lemma NothingVisited(g: WfGraph, seen: set<BuildId>)
    ensures FilesOf(g, {}, []) && MadeBy(g, [], seen)
  {
  }

  /** The producers of the files of `fs` are in `s`. */
  ghost predicate MadeBy(g: WfGraph, fs: seq<FileId>, s: set<BuildId>) {
    forall f | f in fs :: f < |g.files| && (Producer(g, f).Some? ==> Producer(g, f).value in s)
  }

  /** `fs` are the ordering inputs of the builds of `s`. */
  ghost predicate FilesOf(g: WfGraph, s: set<BuildId>, fs: seq<FileId>) {
    forall f :: f in fs <==> exists b :: b in s && b < |g.builds| && g.builds[b].Sized() && f in g.builds[b].OrderingIns()
  }

  /** Adds the ordering inputs of `b` that are new, and queues their producers that are new. */
  method VisitInputs(g: WfGraph, b: BuildId, out: seq<FileId>, seen: set<BuildId>, queue: seq<BuildId>,
                     ghost done: set<BuildId>)
    returns (out': seq<FileId>, seen': set<BuildId>, queue': seq<BuildId>)
    requires b < |g.builds| && seen == done + {b} + Elements(queue) && seen <= AllBuilds(g)
    requires NoDup(queue) && b !in queue && b !in done && done !! Elements(queue)
    requires NoDup(out) && FilesOf(g, done, out) && MadeBy(g, out, seen)
    ensures NoDup(out') && FilesOf(g, done + {b}, out') && MadeBy(g, out', seen')
    ensures seen' == done + {b} + Elements(queue') && seen' <= AllBuilds(g)
    ensures NoDup(queue') && done + {b} !! Elements(queue')
    ensures Elements(queue) <= Elements(queue') <= Elements(queue) + Deps(g, b)
    ensures Deps(g, b) <= seen'
  {
    hide FilesOf, MadeBy, Deps, Next;
    out', seen', queue' := out, seen, queue;
    InsInRange(g, b);
    var ins := g.builds[b].OrderingIns();
    for i := 0 to |ins|
      invariant NoDup(out') && MadeBy(g, out', seen')
      invariant forall f :: f in out' <==> f in out || f in ins[..i]
      invariant seen' == done + {b} + Elements(queue') && seen' <= AllBuilds(g)
      invariant NoDup(queue') && done + {b} !! Elements(queue')
      invariant Elements(queue) <= Elements(queue') <= Elements(queue) + Deps(g, b)
    {
      assert ins[i] in ins && ins[..i + 1] == ins[..i] + [ins[i]];
      out', seen', queue' := VisitInput(g, b, ins[i], out', seen', queue');
    }
    assert ins[..|ins|] == ins;
    DepsMade(g, b, out', seen');
    FilesOfMore(g, done, b, out, out');
  }

  lemma InsInRange(g: WfGraph, b: BuildId)
    requires b < |g.builds|
    ensures g.builds[b].Sized() && forall f | f in g.builds[b].OrderingIns() :: f < |g.files|
  {
    assert g.BuildWellFormed(b);
    assert forall f | f in g.builds[b].OrderingIns() :: f in g.builds[b].ins;
  }

  lemma DepsMade(g: WfGraph, b: BuildId, fs: seq<FileId>, s: set<BuildId>)
    requires b < |g.builds| && g.builds[b].Sized() && MadeBy(g, fs, s)
    requires forall f | f in g.builds[b].OrderingIns() :: f in fs
    ensures Deps(g, b) <= s
  {
    InsInRange(g, b);
    forall p | p in Deps(g, b)
      ensures p in s
    {
      var f :| f in g.builds[b].OrderingIns() && Producer(g, f) == Some(p);
      assert f in fs;
    }
  }

  lemma FilesOfMore(g: WfGraph, done: set<BuildId>, b: BuildId, fs: seq<FileId>, fs': seq<FileId>)
    requires b < |g.builds| && g.builds[b].Sized() && FilesOf(g, done, fs)
    requires forall f :: f in fs' <==> f in fs || f in g.builds[b].OrderingIns()
    ensures FilesOf(g, done + {b}, fs')
  {
    forall f
      ensures f in fs' <==> exists c :: c in done + {b} && c < |g.builds| && g.builds[c].Sized() && f in g.builds[c].OrderingIns()
    {
      if f in g.builds[b].OrderingIns() {
        assert b in done + {b};
      } else if f in fs {
        var c :| c in done && c < |g.builds| && g.builds[c].Sized() && f in g.builds[c].OrderingIns();
        assert c in done + {b};
      }
    }
  }

  /** One ordering input of `b`: a new file is added, and a new producer of it queued. */
  method VisitInput(g: WfGraph, b: BuildId, f: FileId, out: seq<FileId>, seen: set<BuildId>, queue: seq<BuildId>)
    returns (out': seq<FileId>, seen': set<BuildId>, queue': seq<BuildId>)
    requires b < |g.builds| && g.builds[b].Sized() && f in g.builds[b].OrderingIns() && f < |g.files|
    requires NoDup(out) && MadeBy(g, out, seen) && seen <= AllBuilds(g) && NoDup(queue) && Elements(queue) <= seen
    ensures NoDup(out') && MadeBy(g, out', seen')
    ensures forall x :: x in out' <==> x in out || x == f
    ensures (queue' == queue && seen' == seen) ||
            exists p :: p in Deps(g, b) && p !in seen && queue' == queue + [p] && seen' == seen + {p}
    ensures seen' <= AllBuilds(g) && NoDup(queue')
  {
    out', seen', queue' := out, seen, queue;
    if f !in out {
      NoDupAppend(out, f);
      out' := out + [f];
      var p := Producer(g, f);
      if p.Some? && p.value !in seen {
        assert p.value in Deps(g, b);
        NoDupAppend(queue, p.value);
        seen', queue' := seen + {p.value}, queue + [p.value];
      }
    }
  }
}
