/**
 The stack a want walk carries: the files it is inside of, and what meeting
 one of them again means. `all` says whether the stack runs over ordering
 edges only, or over validation edges too.
 */
module WantWalk {
  import opened Wrappers
  import opened BuildGraph
  import opened Ordering
  import opened Sequences

  /** The inputs whose edges a stack may run along. */
  function EdgeIns(b: Build, all: bool): seq<FileId>
    requires b.Sized()
  {
    if all then b.ins else b.OrderingIns()
  }

  /** Each file of `stack` is ordered directly after the next one, the last after `f`. */
  ghost predicate Chain(g: WfGraph, all: bool, stack: seq<FileId>, f: FileId)
    decreases |stack|
  {
    && f < |g.files|
    && (stack == [] ||
        (&& stack[0] < |g.files|
         && Producer(g, stack[0]).Some?
         && Producer(g, stack[0]).value < |g.builds|
         && g.builds[Producer(g, stack[0]).value].Sized()
         && (if |stack| > 1 then stack[1] else f) in EdgeIns(g.builds[Producer(g, stack[0]).value], all)
         && Chain(g, all, stack[1..], f)))
  }

  /** A list of files that starts and ends at one file and is ordered all the way. */
  ghost predicate FileCycle(g: WfGraph, all: bool, c: seq<FileId>) {
    |c| >= 2 && c[0] == c[|c| - 1] && Chain(g, all, c[..|c| - 1], c[|c| - 1])
  }

  lemma {:induction false} ChainPush(g: WfGraph, all: bool, stack: seq<FileId>, f: FileId, f': FileId)
    requires Chain(g, all, stack, f) && f' < |g.files|
    requires Producer(g, f).Some? && Producer(g, f).value < |g.builds|
    requires g.builds[Producer(g, f).value].Sized()
    requires f' in EdgeIns(g.builds[Producer(g, f).value], all)
    ensures Chain(g, all, stack + [f], f')
    decreases |stack|
  {
    if stack == [] {
      assert (stack + [f])[1..] == [];
    } else {
      ChainPush(g, all, stack[1..], f, f');
      assert (stack + [f])[1..] == stack[1..] + [f];
    }
  }

  lemma {:induction false} ChainDrop(g: WfGraph, all: bool, stack: seq<FileId>, k: nat, f: FileId)
    requires Chain(g, all, stack, f) && k <= |stack|
    ensures Chain(g, all, stack[k..], f)
    decreases k
  {
    if k > 0 {
      ChainDrop(g, all, stack[1..], k - 1, f);
      assert stack[1..][k - 1..] == stack[k..];
    }
  }

  lemma {:induction false} ChainPath(g: WfGraph, all: bool, stack: seq<FileId>, f: FileId) returns (p: seq<BuildId>)
    requires Chain(g, all, stack, f) && stack != [] && Producer(g, f).Some?
    ensures |p| == |stack| + 1
    ensures PathFromTo(g, all, p, Producer(g, stack[0]).value, Producer(g, f).value)
    decreases |stack|
  {
    var b := Producer(g, stack[0]).value;
    if |stack| == 1 {
      assert g.FileWellFormed(f);
      p := [b, Producer(g, f).value];
      assert Path(g, all, p[1..]);
    } else {
      var rest := ChainPath(g, all, stack[1..], f);
      p := [b] + rest;
      assert p[1..] == rest;
    }
  }

  /** A file cycle is an ordering cycle of the builds that produce its files. */
  lemma FileCycleOnCycle(g: WfGraph, all: bool, c: seq<FileId>)
    requires FileCycle(g, all, c)
    ensures Producer(g, c[0]).Some? && OnCycle(g, all, Producer(g, c[0]).value)
  {
    var p := ChainPath(g, all, c[..|c| - 1], c[|c| - 1]);
  }

  /** The walk is about to visit `f`, with `stack` the files it is inside of. */
  ghost predicate Before(g: WfGraph, all: bool, stack: seq<FileId>, f: FileId) {
    f < |g.files| && NoDup(stack) && (forall x | x in stack :: x < |g.files|) && Chain(g, all, stack, f)
  }

  /** The walk is inside `id`, which it entered for the last file of `stack`. */
  ghost predicate Inside(g: WfGraph, all: bool, stack: seq<FileId>, id: BuildId) {
    && stack != []
    && NoDup(stack) && (forall x | x in stack :: x < |g.files|)
    && stack[|stack| - 1] < |g.files|
    && Producer(g, stack[|stack| - 1]) == Some(id)
    && Chain(g, all, stack[..|stack| - 1], stack[|stack| - 1])
  }

  ghost predicate CycleFrom(g: WfGraph, all: bool, f: FileId) {
    && f < |g.files| && Producer(g, f).Some? && Producer(g, f).value < |g.builds|
    && ReachesCycle(g, all, Producer(g, f).value)
  }

  /** The build that generates `f`, if any, is in `limit`. */
  ghost predicate MadeIn(g: WfGraph, f: FileId, limit: set<BuildId>) {
    f < |g.files| && (Producer(g, f).Some? ==> Producer(g, f).value in limit)
  }

  lemma InsideEach(g: WfGraph, all: bool, stack: seq<FileId>, id: BuildId, limit: set<BuildId>)
    requires id < |g.builds| && Inside(g, all, stack, id) && id in limit && Closed(g, true, limit)
    ensures g.builds[id].Sized()
    ensures forall f | f in g.builds[id].ins :: MadeIn(g, f, limit)
    ensures forall f | f in g.builds[id].OrderingIns() :: f in g.builds[id].ins
    ensures forall f | f in g.builds[id].ValidationIns() :: f in g.builds[id].ins
    ensures forall f | f in EdgeIns(g.builds[id], all) :: Before(g, all, stack, f)
    ensures forall f | f in g.builds[id].OrderingIns() :: Before(g, all, stack, f)
    ensures forall f | f in g.builds[id].ValidationIns() :: Before(g, all, [], f)
    ensures forall f | f in g.builds[id].ins :: f < |g.files|
  {
    assert g.BuildWellFormed(id);
    assert Next(g, true, id) <= limit;
    forall f | f in g.builds[id].ValidationIns()
      ensures Before(g, all, [], f)
    {
      assert f in g.builds[id].ins;
    }
    assert forall f | f in g.builds[id].OrderingIns() :: f in EdgeIns(g.builds[id], all);
    forall f | f in EdgeIns(g.builds[id], all)
      ensures Before(g, all, stack, f)
    {
      assert f in g.builds[id].ins;
      ChainPush(g, all, stack[..|stack| - 1], stack[|stack| - 1], f);
      assert stack[..|stack| - 1] + [stack[|stack| - 1]] == stack;
    }
  }

  lemma StackPush(g: WfGraph, all: bool, stack: seq<FileId>, f: FileId)
    requires Before(g, all, stack, f) && f !in stack && Producer(g, f).Some?
    ensures Inside(g, all, stack + [f], Producer(g, f).value)
    ensures |stack| <= |g.files|
  {
    StackFits(g, stack);
    NoDupAppend(stack, f);
    assert (stack + [f])[..|stack|] == stack;
  }

  lemma CycleThrough(g: WfGraph, all: bool, id: BuildId, fs: seq<FileId>)
    requires id < |g.builds| && forall f | f in fs :: f in g.builds[id].ins
    requires exists f | f in fs :: CycleFrom(g, all, f)
    ensures ReachesCycle(g, all, id)
  {
    assert g.BuildWellFormed(id);
    var f :| f in fs && CycleFrom(g, all, f);
    ReachesCycleStep(g, all, id, Producer(g, f).value);
  }

  lemma StackFits(g: WfGraph, stack: seq<FileId>)
    requires NoDup(stack) && forall f | f in stack :: f < |g.files|
    ensures |stack| <= |g.files|
  {
    NoDupCardinality(stack);
    SubsetCardinality(Elements(stack), Upto(|g.files|));
  }

  /** Meeting a file that is on the stack again closes a cycle. */
  lemma StackCycle(g: WfGraph, all: bool, stack: seq<FileId>, k: nat, f: FileId)
    requires Chain(g, all, stack, f) && k < |stack| && stack[k] == f
    ensures FileCycle(g, all, stack[k..] + [f]) && CycleFrom(g, all, f)
  {
    var c := stack[k..] + [f];
    ChainDrop(g, all, stack, k, f);
    assert c[..|c| - 1] == stack[k..];
    FileCycleOnCycle(g, all, c);
    assert g.FileWellFormed(f);
    ReachesSelf(g, true, Producer(g, f).value);
  }
}
