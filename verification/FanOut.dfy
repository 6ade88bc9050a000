/**
 Evaluating `f(0..n)` on a few workers that take indices from one counter.
 Every atomic action of every worker may come at any time; a failure stops the
 handing out. What is returned is what a plain loop would have returned.
 */
module FanOut {
  import opened Wrappers

  /** A worker is about to take an index, evaluates one, has seen a failure, or has left. */
  datatype Worker = Free | Busy(index: nat) | Failed | Left

  datatype Pool<T, E> = Pool(next: nat, workers: seq<Worker>, slots: seq<Option<Result<T, E>>>)

  function Clamp(width: nat, n: nat): (r: nat)
    ensures 1 <= r && r <= (if width == 0 then 1 else width)
  {
    var most := if n == 0 then 1 else n;
    if width < 1 then 1 else if width > most then most else width
  }

  function Start<T, E>(n: nat, width: nat): Pool<T, E> {
    Pool(0, seq(Clamp(width, n), i => Free), seq(n, i => None))
  }

  /** The next atomic action of worker `w`. */
  function Act<T, E>(n: nat, f: nat -> Result<T, E>, p: Pool<T, E>, w: nat): Pool<T, E>
    requires w < |p.workers| && |p.slots| == n
  {
    match p.workers[w]
    case Free =>
      Pool(p.next + 1, p.workers[w := if p.next >= n then Left else Busy(p.next)], p.slots)
    case Busy(i) =>
      if i >= n then p else
      Pool(p.next, p.workers[w := if f(i).Err? then Failed else Free], p.slots[i := Some(f(i))])
    case Failed => Pool(n, p.workers[w := Free], p.slots)
    case Left => p
  }

  /** What a loop from 0 to n returns. */
  function Sequential<T, E>(n: nat, f: nat -> Result<T, E>): Result<seq<T>, E> {
    if n == 0 then Ok([]) else
    var before := Sequential(n - 1, f);
    if before.Err? then before
    else if f(n - 1).Err? then Err(f(n - 1).error)
    else Ok(before.value + [f(n - 1).value])
  }

  /** The results in index order, or the error of the lowest index. */
  function Collect<T, E>(slots: seq<Option<Result<T, E>>>): Result<seq<T>, E> {
    if slots == [] then Ok([]) else
    var n := |slots| - 1;
    var before := Collect(slots[..n]);
    if before.Err? || slots[n].None? then before
    else if slots[n].value.Err? then Err(slots[n].value.error)
    else Ok(before.value + [slots[n].value.value])
  }

  /**
   The indices handed out are the first `h`: each has its result in its slot or
   is with one worker. Handing out stops short of `n` only after a failure.
   */
  ghost predicate Fair<T(!new), E(!new)>(n: nat, f: nat -> Result<T, E>, p: Pool<T, E>, h: nat) {
    && |p.slots| == n && h <= n
    && (p.next == h || (p.next >= n && (h == n || exists i :: 0 <= i < h && f(i).Err?)))
    && (forall i | 0 <= i < n :: p.slots[i].Some? ==> i < h && p.slots[i] == Some(f(i)))
    && (forall w | 0 <= w < |p.workers| && p.workers[w].Busy? :: p.workers[w].index < h && p.slots[p.workers[w].index].None?)
    && (forall v, w | 0 <= v < w < |p.workers| && p.workers[v].Busy? :: p.workers[v] != p.workers[w])
    && (forall i | 0 <= i < h && p.slots[i].None? :: exists w :: 0 <= w < |p.workers| && p.workers[w] == Busy(i))
    && ((exists w :: 0 <= w < |p.workers| && p.workers[w].Failed?) ==> exists i :: 0 <= i < h && f(i).Err?)
    && ((exists w :: 0 <= w < |p.workers| && p.workers[w].Left?) ==> p.next >= n)
  }

  lemma StartFair<T(!new), E(!new)>(n: nat, width: nat, f: nat -> Result<T, E>)
    ensures Fair(n, f, Start(n, width), 0)
  {
  }

  /** A worker takes the next index. */
  lemma TakeFair<T(!new), E(!new)>(n: nat, f: nat -> Result<T, E>, p: Pool<T, E>, h: nat, w: nat)
    requires Fair(n, f, p, h) && w < |p.workers| && p.workers[w].Free? && p.next < n
    ensures Fair(n, f, Act(n, f, p, w), h + 1)
  {
    var p' := Act(n, f, p, w);
    assert p'.workers[w] == Busy(h);
    forall i | 0 <= i < h + 1 && p'.slots[i].None?
      ensures exists v :: 0 <= v < |p'.workers| && p'.workers[v] == Busy(i)
    {
      if i < h {
        var v :| 0 <= v < |p.workers| && p.workers[v] == Busy(i);
        assert p'.workers[v] == Busy(i);
      }
    }
  }

  /** A worker puts its result down. */
  lemma FinishFair<T(!new), E(!new)>(n: nat, f: nat -> Result<T, E>, p: Pool<T, E>, h: nat, w: nat)
    requires Fair(n, f, p, h) && w < |p.workers| && p.workers[w].Busy?
    ensures Fair(n, f, Act(n, f, p, w), h)
  {
    OthersBusy(p, Act(n, f, p, w), h, w);
  }

  /** Every action keeps this, whichever worker acts. */
  lemma ActFair<T(!new), E(!new)>(n: nat, f: nat -> Result<T, E>, p: Pool<T, E>, h: nat, w: nat) returns (h': nat)
    requires Fair(n, f, p, h) && w < |p.workers|
    ensures Fair(n, f, Act(n, f, p, w), h')
  {
    h' := h;
    match p.workers[w]
    case Free =>
      if p.next < n {
        TakeFair(n, f, p, h, w);
        h' := h + 1;
      } else {
        OthersBusy(p, Act(n, f, p, w), h, w);
      }
    case Busy(i) => FinishFair(n, f, p, h, w);
    case Failed => OthersBusy(p, Act(n, f, p, w), h, w);
    case Left =>
  }

  lemma OthersBusy<T(!new), E(!new)>(p: Pool<T, E>, p': Pool<T, E>, h: nat, w: nat)
    requires w < |p.workers| && |p'.workers| == |p.workers| && h <= |p.slots| == |p'.slots|
    requires forall v | 0 <= v < |p.workers| && v != w :: p'.workers[v] == p.workers[v]
    requires forall i | 0 <= i < h && p.slots[i].None? :: exists v :: 0 <= v < |p.workers| && p.workers[v] == Busy(i)
    requires forall i | 0 <= i < h && p'.slots[i].None? :: p.slots[i].None? && p.workers[w] != Busy(i)
    ensures forall i | 0 <= i < h && p'.slots[i].None? :: exists v :: 0 <= v < |p'.workers| && p'.workers[v] == Busy(i)
  {
    forall i | 0 <= i < h && p'.slots[i].None?
      ensures exists v :: 0 <= v < |p'.workers| && p'.workers[v] == Busy(i)
    {
      var v :| 0 <= v < |p.workers| && p.workers[v] == Busy(i);
      assert p'.workers[v] == Busy(i);
    }
  }

  /** Everyone has left. */
  predicate Over<T, E>(p: Pool<T, E>) {
    forall w | 0 <= w < |p.workers| :: p.workers[w].Left?
  }

  lemma {:induction false} CollectUpto<T(!new), E(!new)>(n: nat, f: nat -> Result<T, E>,
                                                         slots: seq<Option<Result<T, E>>>, h: nat)
    requires h <= n == |slots|
    requires forall i | 0 <= i < h :: slots[i] == Some(f(i))
    requires forall i | h <= i < n :: slots[i].None?
    requires h == n || exists i :: 0 <= i < h && f(i).Err?
    ensures Collect(slots) == Sequential(n, f)
  {
    if n > 0 {
      if h == n && !exists i :: 0 <= i < n - 1 && f(i).Err? {
        CollectUpto(n - 1, f, slots[..n - 1], n - 1);
      } else {
        CollectUpto(n - 1, f, slots[..n - 1], if h == n then n - 1 else h);
        FailsBefore(n - 1, f);
      }
    }
  }

  lemma {:induction false} FailsBefore<T(!new), E(!new)>(n: nat, f: nat -> Result<T, E>)
    ensures Sequential(n, f).Err? <==> exists i :: 0 <= i < n && f(i).Err?
  {
    if n > 0 {
      FailsBefore(n - 1, f);
      if i :| 0 <= i < n && f(i).Err? {
        assert i == n - 1 || exists j :: 0 <= j < n - 1 && f(j).Err?;
      }
    }
  }

  /** The first error ends the loop. */
  lemma {:induction false} SequentialStops<T, E>(n: nat, f: nat -> Result<T, E>, i: nat)
    requires i <= n && Sequential(i, f).Err?
    ensures Sequential(n, f) == Sequential(i, f)
  {
    if i < n {
      SequentialStops(n - 1, f, i);
    }
  }

  lemma {:induction false} SequentialSame<T, E>(n: nat, f: nat -> Result<T, E>, g: nat -> Result<T, E>)
    requires forall i: nat | i < n :: f(i) == g(i)
    ensures Sequential(n, f) == Sequential(n, g)
  {
    if n > 0 {
      SequentialSame(n - 1, f, g);
    }
  }

  /** When all workers have left, the slots hold what the loop returns. */
  lemma OverSequential<T(!new), E(!new)>(n: nat, f: nat -> Result<T, E>, p: Pool<T, E>, h: nat)
    requires Fair(n, f, p, h) && Over(p) && p.workers != []
    ensures Collect(p.slots) == Sequential(n, f)
  {
    assert p.workers[0].Left?;
    forall i | 0 <= i < n
      ensures p.slots[i] == if i < h then Some(f(i)) else None
    {
      assert !exists w :: 0 <= w < |p.workers| && p.workers[w] == Busy(i);
    }
    CollectUpto(n, f, p.slots, h);
  }

  // ---- Every run ends. ----

  function Stage(w: Worker): nat {
    match w
    case Left => 0
    case Free => 1
    case Failed => 2
    case Busy(_) => 3
  }

  function Stages(ws: seq<Worker>): nat {
    if ws == [] then 0 else Stages(ws[..|ws| - 1]) + Stage(ws[|ws| - 1])
  }

  lemma {:induction false} StageChanges(ws: seq<Worker>, w: nat, x: Worker)
    requires w < |ws|
    ensures Stages(ws[w := x]) + Stage(ws[w]) == Stages(ws) + Stage(x)
    decreases |ws|
  {
    var n := |ws| - 1;
    if w == n {
      assert ws[w := x][..n] == ws[..n];
    } else {
      assert ws[w := x][..n] == ws[..n][w := x];
      StageChanges(ws[..n], w, x);
    }
  }

  /** How many actions there are left at most. */
  function Bound<T, E>(n: nat, p: Pool<T, E>): nat {
    3 * (if p.next < n then n - p.next else 0) + Stages(p.workers)
  }

  lemma ActFalls<T, E>(n: nat, f: nat -> Result<T, E>, p: Pool<T, E>, w: nat)
    requires w < |p.workers| && |p.slots| == n && !p.workers[w].Left? && (p.workers[w].Busy? ==> p.workers[w].index < n)
    ensures Bound(n, Act(n, f, p, w)) < Bound(n, p)
  {
    StageChanges(p.workers, w, Act(n, f, p, w).workers[w]);
  }

  /** The actions of a whole run, one worker after the other in any order. */
  function Execute<T, E>(n: nat, f: nat -> Result<T, E>, p: Pool<T, E>, schedule: seq<nat>): (r: Pool<T, E>)
    requires |p.slots| == n && forall k | 0 <= k < |schedule| :: schedule[k] < |p.workers|
    ensures |r.slots| == n && |r.workers| == |p.workers|
    decreases |schedule|
  {
    if schedule == [] then p else
    var last := |schedule| - 1;
    Act(n, f, Execute(n, f, p, schedule[..last]), schedule[last])
  }

  /** Whatever the schedule, once all workers have left the answer is the sequential one. */
  lemma {:induction false} EverySchedule<T(!new), E(!new)>(n: nat, width: nat, f: nat -> Result<T, E>,
                                                           schedule: seq<nat>) returns (h: nat)
    requires forall k | 0 <= k < |schedule| :: schedule[k] < Clamp(width, n)
    ensures var p := Execute(n, f, Start(n, width), schedule);
            Fair(n, f, p, h) && (Over(p) ==> Collect(p.slots) == Sequential(n, f))
    decreases |schedule|
  {
    hide Fair, Sequential, Collect;
    if schedule == [] {
      StartFair(n, width, f);
      h := 0;
    } else {
      var last := |schedule| - 1;
      var h0 := EverySchedule(n, width, f, schedule[..last]);
      h := ActFair(n, f, Execute(n, f, Start(n, width), schedule[..last]), h0, schedule[last]);
    }
    var p := Execute(n, f, Start(n, width), schedule);
    if Over(p) {
      OverSequential(n, f, p, h);
    }
  }

  /**
   Evaluates `f` at 0 to n on at most `width` workers, any of which may act
   next. `seen` is what was evaluated, on whichever worker.
   */
  method ForEachBounded<T(!new), E(!new)>(n: nat, width: nat, f: nat -> Result<T, E>)
    returns (r: Result<seq<T>, E>, seen: seq<Option<Result<T, E>>>)
    ensures r == Sequential(n, f) == Collect(seen)
    ensures |seen| == n && forall i | 0 <= i < n && seen[i].Some? :: seen[i] == Some(f(i))
  {
    hide Fair, Sequential, Collect;
    var p: Pool<T, E> := Start(n, width);
    ghost var h := 0;
    StartFair(n, width, f);
    while !Over(p)
      invariant Fair(n, f, p, h) && |p.workers| == Clamp(width, n) && |p.slots| == n
      decreases Bound(n, p)
    {
      var w: nat :| w < |p.workers| && !p.workers[w].Left?;
      BusyInRange(n, f, p, h);
      ActFalls(n, f, p, w);
      h := ActFair(n, f, p, h, w);
      p := Act(n, f, p, w);
    }
    OverSequential(n, f, p, h);
    SlotsRight(n, f, p, h);
    seen := p.slots;
    r := Gather(seen);
  }

  lemma SlotsRight<T(!new), E(!new)>(n: nat, f: nat -> Result<T, E>, p: Pool<T, E>, h: nat)
    requires Fair(n, f, p, h)
    ensures |p.slots| == n && forall i | 0 <= i < n && p.slots[i].Some? :: p.slots[i] == Some(f(i))
  {
  }

  /** Takes the results out of their slots. */
  method Gather<T, E>(slots: seq<Option<Result<T, E>>>) returns (r: Result<seq<T>, E>)
    ensures r == Collect(slots)
  {
    var out: seq<T> := [];
    for i := 0 to |slots|
      invariant Collect(slots[..i]) == Ok(out)
    {
      assert slots[..i + 1][..i] == slots[..i];
      match slots[i] {
        case Some(Ok(v)) => out := out + [v];
        case Some(Err(e)) =>
          CollectStops(slots, i + 1);
          return Err(e);
        case None =>
      }
    }
    assert slots[..|slots|] == slots;
    r := Ok(out);
  }

  lemma {:induction false} CollectStops<T, E>(slots: seq<Option<Result<T, E>>>, i: nat)
    requires i <= |slots| && Collect(slots[..i]).Err?
    ensures Collect(slots) == Collect(slots[..i])
    decreases |slots| - i
  {
    if i < |slots| {
      assert slots[..i + 1][..i] == slots[..i];
      CollectStops(slots, i + 1);
    } else {
      assert slots[..i] == slots;
    }
  }

  lemma BusyInRange<T(!new), E(!new)>(n: nat, f: nat -> Result<T, E>, p: Pool<T, E>, h: nat)
    requires Fair(n, f, p, h)
    ensures |p.slots| == n && forall w | 0 <= w < |p.workers| && p.workers[w].Busy? :: p.workers[w].index < n
  {
  }

  /** At most `width` indices are being evaluated at once, no two workers on the same one. */
  lemma BusyAtMost<T(!new), E(!new)>(n: nat, width: nat, f: nat -> Result<T, E>, schedule: seq<nat>)
    requires (forall k | 0 <= k < |schedule| :: schedule[k] < Clamp(width, n)) && width > 0
    ensures var p := Execute(n, f, Start(n, width), schedule);
            && |p.workers| <= width
            && forall v, w | 0 <= v < w < |p.workers| && p.workers[v].Busy? && p.workers[w].Busy? :: p.workers[v].index != p.workers[w].index
  {
    var h := EverySchedule(n, width, f, schedule);
  }
}
