/**
 The build graph as a value: files, build edges, and the producer and
 dependents links between them. Every scheduler reads this module.
 */
module BuildGraph {
  import opened Wrappers

  type FileId = nat
  type BuildId = nat

  /** A build edge. `ins` is laid out explicit, implicit, order-only, validation. */
  datatype Build = Build(
    ins: seq<FileId>,
    explicit: nat,
    implicit: nat,
    orderOnly: nat,
    outs: seq<FileId>,
    cmdline: Option<string>,
    rspfile: Option<(string, string)>,
    pool: Option<string>)
  {
    predicate Sized() {
      explicit + implicit + orderOnly <= |ins|
    }

    function DirtyingIns(): seq<FileId>
      requires Sized()
    {
      ins[..explicit + implicit]
    }

    function OrderingIns(): seq<FileId>
      requires Sized()
    {
      ins[..orderOnly + explicit + implicit]
    }

    function ValidationIns(): seq<FileId>
      requires Sized()
    {
      ins[orderOnly + explicit + implicit..]
    }

    predicate Phony() {
      cmdline.None?
    }

    function PoolName(): string {
      if pool.Some? then pool.value else ""
    }
  }

  datatype File = File(name: string, input: Option<BuildId>, dependents: seq<BuildId>)

  datatype Graph = Graph(builds: seq<Build>, files: seq<File>)
  {
    ghost predicate BuildWellFormed(b: BuildId)
      requires b < |builds|
    {
      && builds[b].Sized()
      && (forall f | f in builds[b].ins :: f < |files| && b in files[f].dependents)
      && (forall f | f in builds[b].outs :: f < |files| && files[f].input == Some(b))
    }

    ghost predicate FileWellFormed(f: FileId)
      requires f < |files|
    {
      && (files[f].input.Some? ==>
            files[f].input.value < |builds| && f in builds[files[f].input.value].outs)
      && (forall b | b in files[f].dependents :: b < |builds| && f in builds[b].ins)
    }

    /** Producer and dependents links agree with the edges that declare them. */
    ghost predicate WellFormed() {
      && (forall b | 0 <= b < |builds| :: BuildWellFormed(b))
      && (forall f | 0 <= f < |files| :: FileWellFormed(f))
    }
  }

  type WfGraph = g: Graph | g.WellFormed() witness Graph([], [])

  /** The build that generates `f`, if any. */
  function Producer(g: Graph, f: FileId): Option<BuildId>
    requires f < |g.files|
  {
    g.files[f].input
  }

  /** The builds that generate the files of `fs`. */
  ghost function Producers(g: WfGraph, fs: seq<FileId>): (r: set<BuildId>)
    requires forall f | f in fs :: f < |g.files|
    ensures forall p :: p in r <==> exists f :: f in fs && Producer(g, f) == Some(p)
    ensures forall p | p in r :: p < |g.builds|
  {
    var r := set f | f in fs && Producer(g, f).Some? :: Producer(g, f).value;
    assert forall f | f in fs :: g.FileWellFormed(f);
    r
  }

  /**
   The builds `b` has an edge to: the producers of its ordering inputs, and
   of its validation inputs too when `all` is set.
   */
  ghost function Next(g: WfGraph, all: bool, b: BuildId): (r: set<BuildId>)
    requires b < |g.builds|
    ensures forall p | p in r :: p < |g.builds|
  {
    assert g.BuildWellFormed(b);
    var fs := if all then g.builds[b].ins else g.builds[b].OrderingIns();
    assert forall f | f in fs :: f in g.builds[b].ins;
    Producers(g, fs)
  }

  /** The builds `b` is ordered directly after. */
  ghost function Deps(g: WfGraph, b: BuildId): (r: set<BuildId>)
    requires b < |g.builds|
    ensures forall p | p in r :: p < |g.builds|
  {
    Next(g, false, b)
  }

  /** The first `n` numbers. */
  ghost function Upto(n: nat): (r: set<nat>)
    ensures forall b: nat :: b in r <==> b < n
    ensures |r| == n
  {
    if n == 0 then {} else Upto(n - 1) + {n - 1}
  }

  ghost function AllBuilds(g: Graph): (r: set<BuildId>)
    ensures forall b: nat :: b in r <==> b < |g.builds|
  {
    Upto(|g.builds|)
  }

  /** The builds that list an output of `id` among their inputs: at least all those ordered after it. */
  method UsersOf(g: WfGraph, id: BuildId) returns (r: set<BuildId>)
    requires id < |g.builds|
    ensures forall b | b in r :: b < |g.builds|
    ensures forall b | 0 <= b < |g.builds| && id in Deps(g, b) :: b in r
    ensures forall b | b in r :: exists f :: f in g.builds[id].outs && f in g.builds[b].ins
  {
    r := {};
    var outs := g.builds[id].outs;
    assert g.BuildWellFormed(id);
    assert forall k | 0 <= k < |outs| :: outs[k] in outs && outs[k] < |g.files|;
    for i := 0 to |outs|
      invariant forall b | b in r :: b < |g.builds| && exists f :: f in outs && f in g.builds[b].ins
      invariant forall k, b | 0 <= k < i && b in g.files[outs[k]].dependents :: b in r
    {
      assert outs[i] in outs && g.FileWellFormed(outs[i]);
      r := r + set b | b in g.files[outs[i]].dependents;
    }
    forall b | 0 <= b < |g.builds| && id in Deps(g, b)
      ensures b in r
    {
      assert g.BuildWellFormed(b);
      var f :| f in g.builds[b].OrderingIns() && Producer(g, f) == Some(id);
      assert f in g.builds[b].ins && g.FileWellFormed(f);
      var k :| 0 <= k < |outs| && outs[k] == f;
    }
  }
}
