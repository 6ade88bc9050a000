/**
 Why a walk that visits validation inputs on the same stack fails exactly when
 some cycle of ordering and validation edges can be reached: what it has left
 for good leads only to what it had left before.
 */
module WantExplored {
  import opened Wrappers
  import opened BuildGraph
  import opened Ordering
  import opened Sequences
  import opened WantWalk

  // ---- Leaving builds out. ----

  /** The graph in which the builds of `base` make nothing: a walk that does not enter them runs over this one. */
  ghost function Cut(g: WfGraph, base: set<BuildId>): (r: WfGraph)
    ensures |r.builds| == |g.builds| && |r.files| == |g.files|
    ensures forall b | 0 <= b < |g.builds| :: r.builds[b].ins == g.builds[b].ins
    ensures forall b | 0 <= b < |g.builds| && b !in base :: r.builds[b] == g.builds[b]
    ensures forall f | 0 <= f < |g.files| ::
              r.files[f].input == if g.files[f].input.Some? && g.files[f].input.value in base then None else g.files[f].input
  {
    var builds := seq(|g.builds|, b requires 0 <= b < |g.builds| => if b in base then g.builds[b].(outs := []) else g.builds[b]);
    var files := seq(|g.files|, f requires 0 <= f < |g.files| =>
                   if g.files[f].input.Some? && g.files[f].input.value in base then g.files[f].(input := None) else g.files[f]);
    CutWellFormed(g, base, Graph(builds, files));
    Graph(builds, files)
  }

  lemma CutWellFormed(g: WfGraph, base: set<BuildId>, r: Graph)
    requires |r.builds| == |g.builds| && |r.files| == |g.files|
    requires forall b | 0 <= b < |g.builds| :: r.builds[b] == if b in base then g.builds[b].(outs := []) else g.builds[b]
    requires forall f | 0 <= f < |g.files| ::
               r.files[f] == if g.files[f].input.Some? && g.files[f].input.value in base then g.files[f].(input := None) else g.files[f]
    ensures r.WellFormed()
  {
    forall b | 0 <= b < |g.builds|
      ensures r.BuildWellFormed(b)
    {
      assert g.BuildWellFormed(b);
    }
    forall f | 0 <= f < |g.files|
      ensures r.FileWellFormed(f)
    {
      assert g.FileWellFormed(f);
    }
  }

  lemma CutNothing(g: WfGraph)
    ensures Cut(g, {}) == g
  {
    assert Cut(g, {}).builds == g.builds;
    assert forall f | 0 <= f < |g.files| :: Cut(g, {}).files[f] == g.files[f];
    assert Cut(g, {}).files == g.files;
  }

  /** `f` is made by `b`. */
  ghost predicate Makes(g: WfGraph, f: FileId, b: BuildId) {
    f < |g.files| && Producer(g, f) == Some(b)
  }

  /** `b` has validation inputs. */
  ghost predicate Checked(g: WfGraph, b: BuildId) {
    b < |g.builds| && g.builds[b].Sized() && g.builds[b].ValidationIns() != []
  }

  /** No build with validation inputs makes two files. */
  ghost predicate SingleOuts(g: WfGraph) {
    forall e, f, b | Makes(g, e, b) && Makes(g, f, b) && Checked(g, b) :: e == f
  }

  /** Every build leads only to earlier ones. */
  ghost predicate InOrder(g: WfGraph, left: seq<BuildId>) {
    forall i | 0 <= i < |left| :: left[i] < |g.builds| && Next(g, true, left[i]) <= Elements(left[..i])
  }

  /**
   The builds of `left`, in the order the walk left them, lead only to earlier
   ones; every other build that is wanted is one whose validation inputs the walk
   is still inside of.
   */
  ghost predicate Explored(g: WfGraph, wanted: set<BuildId>, stack: seq<FileId>, left: seq<BuildId>) {
    && SingleOuts(g) && NoDup(left)
    && (forall b | b in left :: b in wanted && b < |g.builds|)
    && InOrder(g, left)
    && (forall b | b in wanted && b !in left :: Checked(g, b) && exists f :: f in stack && Makes(g, f, b))
  }

  /** A walk inside `stack` leaves only builds it has entered, and does not enter the ones it is inside of. */
  ghost predicate Grown(g: WfGraph, wanted: set<BuildId>, left: seq<BuildId>, wanted': set<BuildId>,
                        left': seq<BuildId>, stack: seq<FileId>) {
    && left <= left' && wanted <= wanted'
    && (forall b | b in left' :: b in left || b !in wanted)
    && (forall f, b | f in stack && Makes(g, f, b) :: b in wanted' ==> b in wanted)
  }

  /** What a step of the walk leaves explored. */
  ghost predicate Explores(g: WfGraph, wanted: set<BuildId>, left: seq<BuildId>, wanted': set<BuildId>,
                           left': seq<BuildId>, stack: seq<FileId>) {
    Explored(g, wanted, stack, left) ==> Explored(g, wanted', stack, left') && Grown(g, wanted, left, wanted', left', stack)
  }

  /** The makers of `fs` have been left. */
  ghost predicate LeftBehind(g: WfGraph, left: seq<BuildId>, fs: seq<FileId>) {
    forall f, b | f in fs && Makes(g, f, b) :: b in left
  }

  lemma ExploresRefl(g: WfGraph, wanted: set<BuildId>, left: seq<BuildId>, stack: seq<FileId>)
    ensures Explores(g, wanted, left, wanted, left, stack)
  {
  }

  lemma ExploresTrans(g: WfGraph, w0: set<BuildId>, l0: seq<BuildId>, w1: set<BuildId>, l1: seq<BuildId>,
                      w2: set<BuildId>, l2: seq<BuildId>, stack: seq<FileId>)
    requires Explores(g, w0, l0, w1, l1, stack) && Explores(g, w1, l1, w2, l2, stack)
    ensures Explores(g, w0, l0, w2, l2, stack)
  {
    hide Explored, Makes;
  }

  lemma StillBehind(g: WfGraph, l1: seq<BuildId>, l2: seq<BuildId>, fs: seq<FileId>)
    requires LeftBehind(g, l1, fs) && l1 <= l2
    ensures LeftBehind(g, l2, fs)
  {
  }

  /** A build met again is one that was left: any other has validation inputs, and its only file is on the stack. */
  lemma MetAgain(g: WfGraph, wanted: set<BuildId>, stack: seq<FileId>, left: seq<BuildId>, f: FileId, b: BuildId)
    requires Explored(g, wanted, stack, left) && Makes(g, f, b) && f !in stack
    ensures b in wanted ==> b in left
    ensures Explored(g, wanted, stack + [f], left)
  {
    hide Next;
  }

  /** Coming back to what is below `f`: its build has been left. */
  lemma LeaveFile(g: WfGraph, w0: set<BuildId>, l0: seq<BuildId>, w: set<BuildId>, l: seq<BuildId>,
                  stack: seq<FileId>, f: FileId, b: BuildId)
    requires Makes(g, f, b) && Explored(g, w, stack + [f], l) && b in l && Grown(g, w0, l0, w, l, stack)
    ensures Explored(g, w, stack, l) && LeftBehind(g, l, [f])
  {
    hide Next;
    forall c | c in w && c !in l
      ensures Checked(g, c) && exists e :: e in stack && Makes(g, e, c)
    {
      var e :| e in stack + [f] && Makes(g, e, c);
      assert e in stack || e == f;
    }
  }

  /** Entering a build once everything it is ordered after has been left. */
  lemma EnterBuild(g: WfGraph, w0: set<BuildId>, l0: seq<BuildId>, w1: set<BuildId>, l1: seq<BuildId>,
                   stack: seq<FileId>, f: FileId, id: BuildId)
    requires f in stack && Makes(g, f, id) && id !in w0 && Checked(g, id)
    requires Explored(g, w0, stack, l0) && Explored(g, w1, stack, l1) && Grown(g, w0, l0, w1, l1, stack)
    ensures id !in w1 && Explored(g, w1 + {id}, stack, l1)
  {
    hide Next;
  }

  /** Leaving a build with validation inputs, once everything it leads to has been left. */
  lemma LeaveBuild(g: WfGraph, w0: set<BuildId>, l0: seq<BuildId>, w1: set<BuildId>, l1: seq<BuildId>,
                   w2: set<BuildId>, l2: seq<BuildId>, stack: seq<FileId>, f: FileId, id: BuildId)
    requires Makes(g, f, id) && f !in stack && id !in w0 && Checked(g, id)
    requires Explored(g, w1 + {id}, stack + [f], l1) && Explored(g, w2, stack + [f], l2)
    requires id !in w1 && (forall b | b in l1 :: b in w1)
    requires Grown(g, w0, l0, w1, l1, stack + [f]) && Grown(g, w1 + {id}, l1, w2, l2, stack + [f])
    requires Next(g, true, id) <= Elements(l2)
    ensures Explored(g, w2, stack + [f], l2 + [id]) && Grown(g, w0, l0, w2, l2 + [id], stack)
  {
    hide Next;
    assert id !in l2;
    NoDupAppend(l2, id);
    InOrderAppend(g, l2, id);
    forall e, b | e in stack && Makes(g, e, b)
      ensures b in w2 ==> b in w0
    {
      assert e in stack + [f];
      assert b == id ==> e == f;
    }
  }

  /** A build that was left is not made by two files of the stack: that would be a cycle. */
  lemma NotTwiceOnStack(g: WfGraph, stack: seq<FileId>, id: BuildId, left: seq<BuildId>, e: FileId)
    requires Inside(g, true, stack, id) && e in stack[..|stack| - 1] && Makes(g, e, id)
    requires NoDup(left) && InOrder(g, left)
    ensures id !in left
  {
    hide InOrder;
    var below, f := stack[..|stack| - 1], stack[|stack| - 1];
    var k :| 0 <= k < |below| && below[k] == e;
    ChainDrop(g, true, below, k, f);
    var p := ChainPath(g, true, below[k..], f);
    if id in left {
      var i, j := LeftPath(g, left, p);
    }
  }

  /** A build without validation inputs is left as soon as it is entered. */
  lemma EnterAndLeave(g: WfGraph, w0: set<BuildId>, l0: seq<BuildId>, w1: set<BuildId>, l1: seq<BuildId>,
                      stack: seq<FileId>, id: BuildId)
    requires Inside(g, true, stack, id) && id !in w0 && id < |g.builds|
    requires Explored(g, w0, stack, l0) && Explored(g, w1, stack, l1) && Grown(g, w0, l0, w1, l1, stack)
    requires Next(g, true, id) <= Elements(l1)
    ensures Explored(g, w1 + {id}, stack, l1 + [id])
    ensures Grown(g, w0, l0, w1 + {id}, l1 + [id], stack[..|stack| - 1])
  {
    hide Next, Checked, Chain;
    assert stack[|stack| - 1] in stack && Makes(g, stack[|stack| - 1], id);
    assert id !in l1;
    NoDupAppend(l1, id);
    InOrderAppend(g, l1, id);
    forall e, b | e in stack[..|stack| - 1] && Makes(g, e, b)
      ensures b in w1 + {id} ==> b in w0
    {
      assert e in stack;
      if b == id {
        NotTwiceOnStack(g, stack, id, l1 + [id], e);
      }
    }
  }

  lemma InOrderAppend(g: WfGraph, left: seq<BuildId>, id: BuildId)
    requires InOrder(g, left) && id < |g.builds| && Next(g, true, id) <= Elements(left)
    ensures InOrder(g, left + [id])
  {
    hide Next;
    var l := left + [id];
    forall i | 0 <= i < |l|
      ensures l[i] < |g.builds| && Next(g, true, l[i]) <= Elements(l[..i])
    {
      assert l[..i] == if i < |left| then left[..i] else left;
    }
  }

  /** The makers of a build's inputs are what it leads to. */
  lemma AllInputs(g: WfGraph, id: BuildId, left: seq<BuildId>, later: seq<BuildId>)
    requires id < |g.builds| && g.builds[id].Sized() && left <= later
    requires LeftBehind(g, left, g.builds[id].OrderingIns()) && LeftBehind(g, later, g.builds[id].ValidationIns())
    ensures Next(g, true, id) <= Elements(later)
  {
    assert g.BuildWellFormed(id);
    var build := g.builds[id];
    assert build.ins == build.OrderingIns() + build.ValidationIns();
    forall p | p in Next(g, true, id)
      ensures p in later
    {
      var f :| f in build.ins && Producer(g, f) == Some(p);
      assert Makes(g, f, p);
      assert f in build.OrderingIns() || f in build.ValidationIns();
    }
  }

  lemma InOrderPrefix(g: WfGraph, left: seq<BuildId>, n: nat)
    requires InOrder(g, left) && n <= |left|
    ensures InOrder(g, left[..n])
  {
    forall i | 0 <= i < n
      ensures left[..n][i] < |g.builds| && Next(g, true, left[..n][i]) <= Elements(left[..n][..i])
    {
      assert left[..n][..i] == left[..i];
    }
  }

  lemma LeftStep(g: WfGraph, left: seq<BuildId>, p: seq<BuildId>, i: nat)
    requires InOrder(g, left) && Path(g, true, p) && |p| > 1 && i < |left| && left[i] == p[0]
    ensures InOrder(g, left[..i]) && Path(g, true, p[1..]) && p[1] in left[..i]
  {
    InOrderPrefix(g, left, i);
    assert p[1] in Elements(left[..i]);
  }

  lemma {:induction false} LeftPath(g: WfGraph, left: seq<BuildId>, p: seq<BuildId>) returns (i: nat, j: nat)
    requires InOrder(g, left) && p != [] && Path(g, true, p) && p[0] in left
    ensures i < |left| && j < |left| && left[i] == p[0] && left[j] == p[|p| - 1] && j <= i && (|p| > 1 ==> j < i)
    decreases |p|
  {
    hide InOrder, Path;
    i :| 0 <= i < |left| && left[i] == p[0];
    if |p| == 1 {
      j := i;
    } else {
      LeftStep(g, left, p, i);
      var k: nat;
      k, j := LeftPath(g, left[..i], p[1..]);
      assert left[..i][j] == left[j];
    }
  }

  /** What a walk has left reaches no cycle of ordering and validation edges. */
  lemma LeftReachesNoCycle(g: WfGraph, wanted: set<BuildId>, stack: seq<FileId>, left: seq<BuildId>, b: BuildId)
    requires Explored(g, wanted, stack, left) && b in left
    ensures !ReachesCycle(g, true, b)
  {
    if ReachesCycle(g, true, b) {
      var x :| Reaches(g, true, b, x) && OnCycle(g, true, x);
      var p :| PathFromTo(g, true, p, b, x);
      var i, j := LeftPath(g, left, p);
      var c :| |c| >= 2 && PathFromTo(g, true, c, x, x);
      var k, l := LeftPath(g, left, c);
    }
  }

  // ---- The steps of a walk put together. ----

  /** If the walk had explored what it had left, it has left the makers of `fs` as well. */
  ghost predicate Behind(g: WfGraph, wanted: set<BuildId>, left: seq<BuildId>, stack: seq<FileId>,
                         left': seq<BuildId>, fs: seq<FileId>) {
    Explored(g, wanted, stack, left) ==> LeftBehind(g, left', fs)
  }

  /** What visiting a build leaves: it has been left, and the walk is back where it was. */
  ghost predicate Visited(g: WfGraph, wanted: set<BuildId>, left: seq<BuildId>, wanted': set<BuildId>,
                          left': seq<BuildId>, stack: seq<FileId>, id: BuildId) {
    stack != [] && (Explored(g, wanted, stack, left) && (id in wanted ==> id in left) ==>
                      Explored(g, wanted', stack, left') && Grown(g, wanted, left, wanted', left', stack[..|stack| - 1]) && id in left')
  }

  lemma VisitedAgain(g: WfGraph, wanted: set<BuildId>, left: seq<BuildId>, stack: seq<FileId>, id: BuildId)
    requires stack != [] && id in wanted
    ensures Visited(g, wanted, left, wanted, left, stack, id)
  {
  }

  lemma WholeBuild(g: WfGraph, w0: set<BuildId>, l0: seq<BuildId>, w1: set<BuildId>, l1: seq<BuildId>,
                   w2: set<BuildId>, l2: seq<BuildId>, stack: seq<FileId>, id: BuildId)
    requires stack != [] && NoDup(stack) && Makes(g, stack[|stack| - 1], id) && id !in w0
    requires id < |g.builds| && g.builds[id].Sized() && g.builds[id].ValidationIns() != []
    requires Explores(g, w0, l0, w1, l1, stack) && Behind(g, w0, l0, stack, l1, g.builds[id].OrderingIns())
    requires Explores(g, w1 + {id}, l1, w2, l2, stack) && Behind(g, w1 + {id}, l1, stack, l2, g.builds[id].ValidationIns())
    ensures Visited(g, w0, l0, w2, l2 + [id], stack, id)
  {
    hide Makes, SingleOuts, InOrder, LeftBehind, Next;
    if Explored(g, w0, stack, l0) {
      var f := stack[|stack| - 1];
      var below := stack[..|stack| - 1];
      assert stack == below + [f];
      EnterBuild(g, w0, l0, w1, l1, stack, f, id);
      AllInputs(g, id, l1, l2);
      LeaveBuild(g, w0, l0, w1, l1, w2, l2, below, f, id);
    }
  }

  lemma WholeUnchecked(g: WfGraph, w0: set<BuildId>, l0: seq<BuildId>, w1: set<BuildId>, l1: seq<BuildId>,
                       stack: seq<FileId>, id: BuildId)
    requires Inside(g, true, stack, id) && id !in w0
    requires id < |g.builds| && g.builds[id].Sized() && g.builds[id].ValidationIns() == []
    requires Explores(g, w0, l0, w1, l1, stack) && Behind(g, w0, l0, stack, l1, g.builds[id].OrderingIns())
    ensures Visited(g, w0, l0, w1 + {id}, l1 + [id], stack, id)
  {
    hide Inside, SingleOuts, InOrder, Next;
    if Explored(g, w0, stack, l0) {
      AllInputs(g, id, l1, l1);
      EnterAndLeave(g, w0, l0, w1, l1, stack, id);
    }
    InsideSome(g, stack, id);
  }

  lemma VisitedThen(g: WfGraph, w0: set<BuildId>, l0: seq<BuildId>, w1: set<BuildId>, l1: seq<BuildId>,
                    w2: set<BuildId>, l2: seq<BuildId>, stack: seq<FileId>, id: BuildId)
    requires Visited(g, w0, l0, w1, l1, stack, id) && Explores(g, w1, l1, w2, l2, stack)
    ensures Visited(g, w0, l0, w2, l2, stack, id)
  {
    hide Explored, Makes;
    assert forall f | f in stack[..|stack| - 1] :: f in stack;
  }

  lemma InsideSome(g: WfGraph, stack: seq<FileId>, id: BuildId)
    requires Inside(g, true, stack, id)
    ensures stack != []
  {
  }

  lemma WholeFile(g: WfGraph, w0: set<BuildId>, l0: seq<BuildId>, w: set<BuildId>, l: seq<BuildId>,
                  stack: seq<FileId>, f: FileId, b: BuildId)
    requires Makes(g, f, b) && f !in stack && Visited(g, w0, l0, w, l, stack + [f], b)
    ensures Explores(g, w0, l0, w, l, stack) && Behind(g, w0, l0, stack, l, [f])
  {
    hide Makes, SingleOuts, InOrder, LeftBehind;
    if Explored(g, w0, stack, l0) {
      MetAgain(g, w0, stack, l0, f, b);
      assert (stack + [f])[..|stack|] == stack;
      LeaveFile(g, w0, l0, w, l, stack, f, b);
    }
  }

  lemma SourceFile(g: WfGraph, w: set<BuildId>, l: seq<BuildId>, stack: seq<FileId>, f: FileId)
    requires f < |g.files| && Producer(g, f).None?
    ensures Explores(g, w, l, w, l, stack) && Behind(g, w, l, stack, l, [f])
  {
  }

  lemma OneMoreFile(g: WfGraph, w0: set<BuildId>, l0: seq<BuildId>, w1: set<BuildId>, l1: seq<BuildId>,
                    w2: set<BuildId>, l2: seq<BuildId>, stack: seq<FileId>, fs: seq<FileId>, f: FileId)
    requires Explores(g, w0, l0, w1, l1, stack) && Behind(g, w0, l0, stack, l1, fs)
    requires Explores(g, w1, l1, w2, l2, stack) && Behind(g, w1, l1, stack, l2, [f])
    ensures Explores(g, w0, l0, w2, l2, stack) && Behind(g, w0, l0, stack, l2, fs + [f])
  {
    hide Explored;
    ExploresTrans(g, w0, l0, w1, l1, w2, l2, stack);
    if Explored(g, w0, stack, l0) {
      StillBehind(g, l1, l2, fs);
    }
  }

  lemma NothingBehind(g: WfGraph, w: set<BuildId>, l: seq<BuildId>, stack: seq<FileId>)
    ensures Behind(g, w, l, stack, l, [])
  {
  }
}
