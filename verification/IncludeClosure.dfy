/**
 What an include walk finds: the loops of the walk, and when the files it
 scans are the least closed set.
 */
module IncludeClosure {
  import opened IncludeSpec
  import opened IncludeWalk
  import opened Sequences
  import opened Wrappers

  // ---- The loops. ----

  method VisitAll(w: Walk, ps: seq<Path>) returns (w': Walk)
    ensures w' == VisitEach(w, ps)
  {
    w' := w;
    assert ps[..0] == [];
    for i := 0 to |ps|
      invariant w' == VisitEach(w, ps[..i])
    {
      assert ps[..i + 1][..i] == ps[..i];
      w' := Visit(w', ps[i]);
    }
    assert ps[..|ps|] == ps;
  }

  method AddValues(defines: map<Name, seq<Value>>, more: seq<(Name, Value)>) returns (r: map<Name, seq<Value>>)
    ensures r == AddEach(defines, more)
  {
    r := defines;
    assert more[..0] == [];
    for i := 0 to |more|
      invariant r == AddEach(defines, more[..i])
    {
      assert more[..i + 1][..i] == more[..i];
      r := AddValue(r, more[i].0, more[i].1);
    }
    assert more[..|more|] == more;
  }

  method ScanFile(t: Tree, w: Walk, f: Path) returns (w': Walk)
    requires t.scan(f).Some?
    ensures w' == ScanOne(t, w, f)
  {
    hide VisitEach, AddEach, UsesFrom, NewOnes;
    var source := t.scan(f).value;
    var seen := VisitAll(w, source.includes);
    var defines := AddValues(w.defines, source.defines);
    w' := seen.(
    defines := defines,
    incomplete := w.incomplete || source.unresolvable,
                  uses := w.uses + UsesFrom(t.parent(f), source.uses),
                  dotdotDirs := w.dotdotDirs + NewOnes(w.dotdotDirs, source.dotdotDirs));
  }

  /** A batch is scanned; an unreadable file ends the walk. */
  method ScanBatch(t: Tree, w: Walk, batch: seq<Path>) returns (r: Result<Walk, ScanError>)
    ensures r.Ok? ==> r.value == ScanEach(t, w, batch) && forall f | f in batch :: t.scan(f).Some?
    ensures r.Err? ==> r.error.file in batch && t.scan(r.error.file).None?
  {
    hide ScanOne;
    var now := w;
    assert batch[..0] == [];
    for i := 0 to |batch|
      invariant now == ScanEach(t, w, batch[..i]) && forall k | 0 <= k < i :: t.scan(batch[k]).Some?
    {
      if t.scan(batch[i]).None? {
        return Err(Unreadable(batch[i]));
      }
      assert batch[..i + 1][..i] == batch[..i];
      now := ScanFile(t, now, batch[i]);
    }
    assert batch[..|batch|] == batch;
    r := Ok(now);
  }

  /** One use with every value of its macro. */
  method TryUse(t: Tree, w: Walk, use: (Path, Name), vals: seq<Value>) returns (w': Walk)
    ensures w' == TryValues(t, w, use, vals)
  {
    hide Resolve;
    w' := w;
    assert vals[..0] == [];
    for j := 0 to |vals|
      invariant w' == TryValues(t, w, use, vals[..j])
    {
      assert vals[..j + 1][..j] == vals[..j];
      var v := vals[j];
      if (use.0, use.1, v) !in w'.resolved {
        var hit := Resolve(t, use.0, v);
        if hit.Some? {
          var resolved := w'.resolved + {(use.0, use.1, v)};
          var spelled := t.join(hit.value.0, v);
          if spelled != hit.value.1 && t.relative(spelled) {
            w' := Spell(w', spelled);
          }
          w' := Visit(w', hit.value.1).(resolved := resolved);
        }
      }
    }
    assert vals[..|vals|] == vals;
  }

  /** Every use seen so far with every value seen so far. */
  method TryUses(t: Tree, w: Walk) returns (w': Walk)
    ensures w' == TryEach(t, w, w.uses, w.defines)
  {
    hide TryValues;
    w' := w;
    assert w.uses[..0] == [];
    for i := 0 to |w.uses|
      invariant w' == TryEach(t, w, w.uses[..i], w.defines)
    {
      assert w.uses[..i + 1][..i] == w.uses[..i];
      w' := TryUse(t, w', w.uses[i], Values(w.defines, w.uses[i].1));
    }
    assert w.uses[..|w.uses|] == w.uses;
  }

  /** Whether a use has no value at all. */
  method AnyUndefined(ghost t: Tree, w: Walk, ghost s: set<Path>) returns (r: bool)
    requires Gathered(t, w, s)
    ensures r <==> Undefined(t, s)
  {
    hide Defined, Used;
    r := false;
    for i := 0 to |w.uses|
      invariant forall k | 0 <= k < i :: w.uses[k].1 in w.defines
    {
      if w.uses[i].1 !in w.defines {
        var (dir, n) := w.uses[i];
        assert (dir, n) in w.uses && forall v :: !ValueOf(w.defines, n, v);
        assert Used(t, s, dir, n) && !exists v :: Defined(t, s, n, v);
        return true;
      }
    }
    forall dir, n | Used(t, s, dir, n)
      ensures exists v :: Defined(t, s, n, v)
    {
      assert (dir, n) in w.uses;
      assert ValueOf(w.defines, n, w.defines[n][0]);
    }
  }

  // ---- The walk. ----

  datatype Scan = Scan(includes: seq<Path>, dotdotDirs: seq<Path>, incomplete: bool)

  /** What a walk has found that scanned the files of `s`. */
  ghost predicate Found(t: Tree, s: set<Path>, scan: Scan) {
    && NoDup(scan.includes)
    && (forall p :: p in scan.includes <==> Reached(t, s, p) || Alias(t, s, p))
    && (forall p | p in s :: p in scan.includes && Must(t, p))
    && (forall p | p in scan.includes :: p in s || Alias(t, s, p))
    && (scan.incomplete <==> Unresolvable(t, s) || Undefined(t, s))
    && (forall d :: d in scan.dotdotDirs <==> DotDot(t, s, d))
  }

  lemma VisitedWithin(t: Tree, all: set<Path>, w: Walk, s: set<Path>)
    requires Within(t, all) && s <= all && Justified(t, w, s, []) && Shape(w, s, [])
    ensures w.visited <= all && forall p | p in w.queue :: p in w.visited && Must(t, p)
  {
    hide Resolve, Spells, Must;
    assert [] + w.queue == w.queue;
    forall p | p in w.visited
      ensures p in all
    {
      if Alias(t, s, p) {
        var dir, n, v :| Pair(t, s, dir, n, v) && Spells(t, dir, v, p);
        PairMore(t, s, all, dir, n, v);
      } else if Hit(t, s, p) {
        var dir, n, v :| Pair(t, s, dir, n, v) && Resolve(t, dir, v).Some? && Resolve(t, dir, v).value.1 == p;
        PairMore(t, s, all, dir, n, v);
      }
    }
  }

  lemma {:induction false} ScannedWithin(t: Tree, all: set<Path>, n: nat)
    requires Within(t, all)
    ensures Scanned(After(t, true, n)) <= all
    ensures forall p | p in After(t, true, n).queue :: Must(t, p)
  {
    hide Shape, Justified, Gathered, IncludesSeen, ResolvedSeen, AllTried, Scanned, Within, Must, Round, Start;
    AfterTracks(t, true, n);
    if n == 0 {
      StartTracks(t, true);
      TracksGathered(t, Start(t, true), {});
    } else {
      ScannedWithin(t, all, n - 1);
      RoundScans(t, true, n - 1);
      var w := After(t, true, n - 1);
      AfterTracks(t, true, n - 1);
      VisitedWithin(t, all, w, Scanned(w));
      assert Elements(w.queue) <= all;
    }
    VisitedWithin(t, all, After(t, true, n), Scanned(After(t, true, n)));
  }

  /**
   Walks the includes from the roots, in rounds. The files scanned are among
   those every closed set holds; listed are exactly the roots, what the scanned
   files include, what their uses resolve to with any value seen anywhere, and
   the spellings of those; the walk is complete exactly when nothing was left open.
   */
  method BfsParseIncludes(t: Tree, ghost all: set<Path>) returns (r: Result<Scan, ScanError>, ghost rounds: nat)
    requires Within(t, all)
    ensures r.Ok? ==> After(t, true, rounds).queue == [] && r.value.includes == After(t, true, rounds).result
    ensures r.Ok? ==> Found(t, Scanned(After(t, true, rounds)), r.value)
    ensures r.Err? ==> Must(t, r.error.file) && t.scan(r.error.file).None?
  {
    hide Tracks, AllTried, Found, Within, Must, Scanned, ScanEach, TryEach, VisitEach, AddEach;
    hide Justified, IncludesSeen, ResolvedSeen, Shape, Gathered;
    var defines := AddValues(map[], t.cmdline);
    var w := VisitAll(Walk(true, {}, {}, [], [], defines, [], {}, false, []), t.roots);
    rounds := 0;
    while w.queue != []
      invariant w == After(t, true, rounds)
      decreases all - Scanned(w)
    {
      ScannedWithin(t, all, rounds);
      ScannedWithin(t, all, rounds + 1);
      RoundScans(t, true, rounds);
      assert w.queue[0] in Elements(w.queue);
      ghost var w0 := w;
      var scanned := ScanBatch(t, w.(queue := []), w.queue);
      if scanned.Err? {
        return Err(scanned.error), rounds;
      }
      w := TryUses(t, scanned.value);
      rounds := rounds + 1;
      assert w == Round(t, w0);
    }
    AfterListing(t, true, rounds);
    AfterTracks(t, true, rounds);
    TracksGathered(t, w, Scanned(w));
    var undefined := AnyUndefined(t, w, Scanned(w));
    WalkOver(t, w, Scanned(w));
    r := Ok(Scan(w.result, w.dotdotDirs, w.incomplete || undefined));
  }

  lemma WalkOver(t: Tree, w: Walk, s: set<Path>)
    requires Tracks(t, w, s, []) && AllTried(t, w, s) && w.queue == []
    ensures w.listing ==>
              forall incomplete: bool | incomplete <==> (w.incomplete || Undefined(t, s)) ::
                Found(t, s, Scan(w.result, w.dotdotDirs, incomplete))
    ensures !w.listing ==> Closed(t, s)
    ensures forall p | Reached(t, s, p) && p !in s :: Alias(t, s, p)
  {
    hide Must, Included, Undefined, Unresolvable, Resolve, Spells, Pair;
    forall p
      ensures Reached(t, s, p) ==> p in w.visited
      ensures Alias(t, s, p) ==> p in w.visited + w.spelled
    {
      if Hit(t, s, p) {
        var dir, n, v :| Pair(t, s, dir, n, v) && Resolve(t, dir, v).Some? && Resolve(t, dir, v).value.1 == p;
        assert (dir, n, v) in w.resolved;
      }
      if Alias(t, s, p) {
        var dir, n, v :| Pair(t, s, dir, n, v) && Spells(t, dir, v, p);
        SpellsResolves(t, dir, v, p);
        assert (dir, n, v) in w.resolved;
      }
    }
    assert [] + w.queue == [];
    assert forall p :: p in w.result <==> p in w.visited by {
      assert Elements(w.result) == w.visited;
    }
  }

  lemma SpellsResolves(t: Tree, dir: Path, v: Value, a: Path)
    requires Spells(t, dir, v, a)
    ensures Resolve(t, dir, v).Some?
  {
  }

  // ---- Growing. ----

  ghost predicate Larger(w: Walk, w': Walk) {
    w.visited <= w'.visited && w.spelled <= w'.spelled && w'.listing == w.listing
  }

  lemma {:induction false} VisitEachLarger(w: Walk, ps: seq<Path>)
    ensures Larger(w, VisitEach(w, ps))
  {
    if ps != [] {
      VisitEachLarger(w, ps[..|ps| - 1]);
    }
  }

  lemma {:induction false} ScanEachLarger(t: Tree, w: Walk, fs: seq<Path>)
    ensures Larger(w, ScanEach(t, w, fs))
  {
    if fs != [] {
      var n := |fs| - 1;
      ScanEachLarger(t, w, fs[..n]);
      ScanOneLarger(t, ScanEach(t, w, fs[..n]), fs[n]);
    }
  }

  lemma ScanOneLarger(t: Tree, w: Walk, f: Path)
    ensures Larger(w, ScanOne(t, w, f))
  {
    if t.scan(f).Some? {
      VisitEachLarger(w, t.scan(f).value.includes);
    }
  }

  lemma {:induction false} TryValuesLarger(t: Tree, w: Walk, use: (Path, Name), vals: seq<Value>)
    ensures Larger(w, TryValues(t, w, use, vals))
  {
    hide Resolve;
    if vals != [] {
      TryValuesLarger(t, w, use, vals[..|vals| - 1]);
    }
  }

  lemma {:induction false} TryEachLarger(t: Tree, w: Walk, uses: seq<(Path, Name)>, defines: map<Name, seq<Value>>)
    ensures Larger(w, TryEach(t, w, uses, defines))
  {
    if uses != [] {
      var k := |uses| - 1;
      TryEachLarger(t, w, uses[..k], defines);
      TryValuesLarger(t, TryEach(t, w, uses[..k], defines), uses[k], Values(defines, uses[k].1));
    }
  }

  lemma RoundLarger(t: Tree, w: Walk)
    ensures Larger(w, Round(t, w))
  {
    hide ScanEach, TryEach;
    if w.queue != [] {
      ScanEachLarger(t, w.(queue := []), w.queue);
      var scanned := ScanEach(t, w.(queue := []), w.queue);
      TryEachLarger(t, scanned, scanned.uses, scanned.defines);
    }
  }

  lemma {:induction false} AfterLarger(t: Tree, listing: bool, n: nat, m: nat)
    requires n <= m
    ensures Larger(After(t, listing, n), After(t, listing, m))
    ensures After(t, listing, n).queue == [] ==> After(t, listing, m) == After(t, listing, n)
    decreases m
  {
    if n < m {
      AfterLarger(t, listing, n, m - 1);
      RoundLarger(t, After(t, listing, m - 1));
    }
  }

  // ---- The code's walk beside one that lists no spellings. ----

  /** Apart from the spellings it lists, `w` is where `r` is, and none of them is a file that `r` has visited. */
  ghost predicate Beside(w: Walk, r: Walk) {
    && w.listing && !r.listing && w.spelled == r.spelled
    && r.visited !! r.spelled && w.visited == r.visited + r.spelled
    && w.queue == r.queue && w.defines == r.defines && w.uses == r.uses && w.resolved == r.resolved
  }

  /** No path that `r` visited was spelled in both. */
  ghost predicate Clear(w: Walk, r: Walk) {
    forall p | p in r.visited :: p !in w.spelled || p !in r.spelled
  }

  lemma BesideVisit(w: Walk, r: Walk, p: Path)
    requires Beside(w, r) && Clear(Visit(w, p), Visit(r, p))
    ensures Beside(Visit(w, p), Visit(r, p))
  {
    assert p in Visit(r, p).visited;
  }

  lemma BesideSpell(w: Walk, r: Walk, p: Path)
    requires Beside(w, r)
    ensures Beside(Spell(w, p), Spell(r, p))
  {
  }

  lemma {:induction false} BesideVisitEach(w: Walk, r: Walk, ps: seq<Path>)
    requires Beside(w, r) && Clear(VisitEach(w, ps), VisitEach(r, ps))
    ensures Beside(VisitEach(w, ps), VisitEach(r, ps))
    decreases |ps|
  {
    hide Visit;
    if ps != [] {
      var n := |ps| - 1;
      VisitLarger(VisitEach(w, ps[..n]), ps[n]);
      VisitLarger(VisitEach(r, ps[..n]), ps[n]);
      BesideVisitEach(w, r, ps[..n]);
      BesideVisit(VisitEach(w, ps[..n]), VisitEach(r, ps[..n]), ps[n]);
    }
  }

  lemma VisitLarger(w: Walk, p: Path)
    ensures Larger(w, Visit(w, p))
  {
  }

  lemma BesideScanOne(t: Tree, w: Walk, r: Walk, f: Path)
    requires Beside(w, r) && Clear(ScanOne(t, w, f), ScanOne(t, r, f))
    ensures Beside(ScanOne(t, w, f), ScanOne(t, r, f))
  {
    hide VisitEach, AddEach, UsesFrom, NewOnes;
    if t.scan(f).Some? {
      BesideVisitEach(w, r, t.scan(f).value.includes);
    }
  }

  lemma {:induction false} BesideScanEach(t: Tree, w: Walk, r: Walk, fs: seq<Path>)
    requires Beside(w, r) && Clear(ScanEach(t, w, fs), ScanEach(t, r, fs))
    ensures Beside(ScanEach(t, w, fs), ScanEach(t, r, fs))
    decreases |fs|
  {
    hide ScanOne, Beside;
    if fs != [] {
      var n := |fs| - 1;
      ScanOneLarger(t, ScanEach(t, w, fs[..n]), fs[n]);
      ScanOneLarger(t, ScanEach(t, r, fs[..n]), fs[n]);
      BesideScanEach(t, w, r, fs[..n]);
      BesideScanOne(t, ScanEach(t, w, fs[..n]), ScanEach(t, r, fs[..n]), fs[n]);
    }
  }

  lemma BesideTryOne(t: Tree, w: Walk, r: Walk, use: (Path, Name), v: Value)
    requires Beside(w, r) && Clear(TryOne(t, w, use, v), TryOne(t, r, use, v))
    ensures Beside(TryOne(t, w, use, v), TryOne(t, r, use, v))
  {
    hide Resolve, Visit, Spell;
    var hit := Resolve(t, use.0, v);
    if (use.0, use.1, v) !in w.resolved && hit.Some? {
      var spelled := t.join(hit.value.0, v);
      var w1, r1 := w, r;
      if spelled != hit.value.1 && t.relative(spelled) {
        BesideSpell(w, r, spelled);
        w1, r1 := Spell(w, spelled), Spell(r, spelled);
      }
      BesideVisit(w1, r1, hit.value.1);
    }
  }

  lemma {:induction false} BesideTryValues(t: Tree, w: Walk, r: Walk, use: (Path, Name), vals: seq<Value>)
    requires Beside(w, r) && Clear(TryValues(t, w, use, vals), TryValues(t, r, use, vals))
    ensures Beside(TryValues(t, w, use, vals), TryValues(t, r, use, vals))
    decreases |vals|
  {
    hide TryOne, Beside;
    if vals != [] {
      var k := |vals| - 1;
      TryOneLarger(t, TryValues(t, w, use, vals[..k]), use, vals[k]);
      TryOneLarger(t, TryValues(t, r, use, vals[..k]), use, vals[k]);
      BesideTryValues(t, w, r, use, vals[..k]);
      BesideTryOne(t, TryValues(t, w, use, vals[..k]), TryValues(t, r, use, vals[..k]), use, vals[k]);
    }
  }

  lemma TryOneLarger(t: Tree, w: Walk, use: (Path, Name), v: Value)
    ensures Larger(w, TryOne(t, w, use, v))
  {
    hide Resolve;
  }

  lemma {:induction false} BesideTryEach(t: Tree, w: Walk, r: Walk, uses: seq<(Path, Name)>,
                                         defines: map<Name, seq<Value>>)
    requires Beside(w, r) && Clear(TryEach(t, w, uses, defines), TryEach(t, r, uses, defines))
    ensures Beside(TryEach(t, w, uses, defines), TryEach(t, r, uses, defines))
    decreases |uses|
  {
    hide TryValues, Beside, Values;
    if uses != [] {
      var k := |uses| - 1;
      var w1, r1 := TryEach(t, w, uses[..k], defines), TryEach(t, r, uses[..k], defines);
      var vals := Values(defines, uses[k].1);
      TryValuesLarger(t, w1, uses[k], vals);
      TryValuesLarger(t, r1, uses[k], vals);
      BesideTryEach(t, w, r, uses[..k], defines);
      BesideTryValues(t, w1, r1, uses[k], vals);
    }
  }

  lemma BesideRound(t: Tree, w: Walk, r: Walk)
    requires Beside(w, r) && Clear(Round(t, w), Round(t, r))
    ensures Beside(Round(t, w), Round(t, r))
  {
    hide ScanEach, TryEach;
    if w.queue != [] {
      var w1, r1 := ScanEach(t, w.(queue := []), w.queue), ScanEach(t, r.(queue := []), r.queue);
      TryEachLarger(t, w1, w1.uses, w1.defines);
      TryEachLarger(t, r1, r1.uses, r1.defines);
      BesideScanEach(t, w.(queue := []), r.(queue := []), w.queue);
      BesideTryEach(t, w1, r1, w1.uses, w1.defines);
    }
  }

  lemma {:induction false} BesideAfter(t: Tree, n: nat)
    requires Clear(After(t, true, n), After(t, false, n))
    ensures Beside(After(t, true, n), After(t, false, n))
  {
    hide Round, VisitEach, Beside;
    if n == 0 {
      BesideStart(t);
    } else {
      RoundLarger(t, After(t, true, n - 1));
      RoundLarger(t, After(t, false, n - 1));
      BesideAfter(t, n - 1);
      BesideRound(t, After(t, true, n - 1), After(t, false, n - 1));
    }
  }

  lemma BesideStart(t: Tree)
    requires Clear(Start(t, true), Start(t, false))
    ensures Beside(Start(t, true), Start(t, false))
  {
    hide VisitEach, AddEach;
    var defines := AddEach(map[], t.cmdline);
    BesideVisitEach(Walk(true, {}, {}, [], [], defines, [], {}, false, []),
                    Walk(false, {}, {}, [], [], defines, [], {}, false, []), t.roots);
  }

  // ---- When the files scanned are the least closed set. ----

  /** A walk that lists no spellings never visits a path that was spelled first. */
  ghost predicate NeverSpelledFirst(t: Tree) {
    forall n: nat :: After(t, false, n).visited !! After(t, false, n).spelled
  }

  /**
   The files scanned are among those of every closed set; and they are closed,
   so the least closed set, if and only if no path is spelled before it is
   visited in the walk that lists no spellings.
   */
  lemma LeastClosure(t: Tree, n: nat)
    requires After(t, true, n).queue == []
    ensures Closed(t, Scanned(After(t, true, n))) <==> NeverSpelledFirst(t)
    ensures forall closed | Closed(t, closed) :: Scanned(After(t, true, n)) <= closed
  {
    hide After, Closed, Must;
    AfterTracks(t, true, n);
    ScannedMust(t, true, n);
    var w := After(t, true, n);
    forall closed | Closed(t, closed)
      ensures Scanned(w) <= closed
    {
      MustClosed(t, Scanned(w), closed);
    }
    if NeverSpelledFirst(t) {
      ClosedWhenClear(t, n);
    }
    if Closed(t, Scanned(w)) {
      forall k: nat
        ensures After(t, false, k).visited !! After(t, false, k).spelled
      {
        ClearWhenClosed(t, n, k);
      }
    }
  }

  lemma MustClosed(t: Tree, s: set<Path>, closed: set<Path>)
    requires Closed(t, closed) && forall p | p in s :: Must(t, p)
    ensures s <= closed
  {
    assert forall p | p in s :: Must(t, p) && p in closed;
  }

  lemma ScannedMust(t: Tree, listing: bool, n: nat)
    ensures forall p | p in Scanned(After(t, listing, n)) :: Must(t, p)
    ensures !listing ==> forall p | p in After(t, listing, n).visited :: Must(t, p)
    ensures After(t, listing, n).listing == listing
  {
    hide After, Must, Gathered, IncludesSeen, ResolvedSeen;
    AfterTracks(t, listing, n);
    AfterListing(t, listing, n);
    var w := After(t, listing, n);
    assert [] + w.queue == w.queue;
  }

  lemma {:induction false} AfterListing(t: Tree, listing: bool, n: nat)
    ensures After(t, listing, n).listing == listing
  {
    StartTracks(t, listing);
    AfterLarger(t, listing, 0, n);
  }

  lemma ClosedWhenClear(t: Tree, n: nat)
    requires After(t, true, n).queue == [] && NeverSpelledFirst(t)
    ensures Closed(t, Scanned(After(t, true, n)))
  {
    hide After, Closed, Tracks, AllTried;
    BesideAfter(t, n);
    var w, r := After(t, true, n), After(t, false, n);
    AfterTracks(t, false, n);
    WalkOver(t, r, Scanned(r));
    assert Scanned(r) == Scanned(w);
  }

  lemma ClearWhenClosed(t: Tree, n: nat, k: nat)
    requires After(t, true, n).queue == [] && Closed(t, Scanned(After(t, true, n)))
    ensures After(t, false, k).visited !! After(t, false, k).spelled
    decreases k
  {
    hide After, Closed, Must;
    AfterListing(t, true, n);
    if k <= n {
      ScannedMust(t, false, k);
      MustClosed(t, After(t, false, k).visited, Scanned(After(t, true, n)));
      AfterLarger(t, true, k, n);
      BesideAfter(t, k);
    } else {
      ClearWhenClosed(t, n, n);
      BesideAfter(t, n);
      AfterLarger(t, false, n, k);
    }
  }

  /** What is required of every closed set, and closed itself. */
  ghost predicate Least(t: Tree, least: set<Path>) {
    Closed(t, least) && forall p | p in least :: Must(t, p)
  }

  /** It is enough that no spelling of the least closed set is a path that its files lead to. */
  lemma AliasesApart(t: Tree, n: nat, least: set<Path>)
    requires After(t, true, n).queue == [] && Least(t, least)
    requires forall a | Alias(t, least, a) :: !Reached(t, least, a)
    ensures Scanned(After(t, true, n)) == least && NeverSpelledFirst(t)
  {
    hide After, Must, Reached, Alias, Tracks, AllTried, Scanned, NeverSpelledFirst;
    LeastClosure(t, n);
    AfterTracks(t, true, n);
    var s := Scanned(After(t, true, n));
    WalkOver(t, After(t, true, n), s);
    forall p | Reached(t, s, p)
      ensures p in s
    {
      if p !in s {
        AliasMore(t, s, least, p);
        ReachedMore(t, s, least, p);
      }
    }
    MustClosed(t, least, s);
  }

  // ---- A file that is missed. ----

  /**
   `m` includes `h` and the macro X, whose value resolves to `p` and is spelled
   `a`. `h` includes `a` as well, and `a` includes `b`.
   */
  function HiddenTree(): Tree {
    Tree(["m"], [], [],
         f => if f == "m" then Some(Source(["h"], [("X", "v")], ["X"], false, []))
           else if f == "h" then Some(Source(["a"], [], [], false, []))
           else if f == "a" then Some(Source(["b"], [], [], false, []))
           else Some(Source([], [], [], false, [])),
         _ => Some("d"),
         (dir, v) => if dir == "d" && v == "v" then Some("p") else None,
         (_, _) => "a",
         _ => true)
  }

  /** Every closed set holds `b`. */
  lemma HiddenMust()
    ensures Must(HiddenTree(), "b")
  {
    var t := HiddenTree();
    forall s | Closed(t, s)
      ensures "b" in s
    {
      assert Reached(t, s, "m");
      assert Included(t, s, "h") && Reached(t, s, "h");
      assert Included(t, s, "a") && Reached(t, s, "a");
      assert Included(t, s, "b") && Reached(t, s, "b");
    }
  }

  lemma VisitOne(w: Walk, p: Path)
    ensures VisitEach(w, [p]) == Visit(w, p)
  {
    assert [p][..0] == [];
  }

  lemma ScanTwo(t: Tree, w: Walk, f: Path, g: Path)
    ensures ScanEach(t, w, [f]) == ScanOne(t, w, f)
    ensures ScanEach(t, w, [f, g]) == ScanOne(t, ScanOne(t, w, f), g)
  {
    hide ScanOne;
    assert [f][..0] == [] && [f, g][..1] == [f];
  }

  lemma TryOneUse(t: Tree, w: Walk, use: (Path, Name), v: Value)
    ensures TryEach(t, w, [use], map[use.1 := [v]]) == TryOne(t, w, use, v)
  {
    hide TryOne;
    assert [use][..0] == [] && [v][..0] == [];
    assert Values(map[use.1 := [v]], use.1) == [v];
    assert TryValues(t, w, use, [v]) == TryOne(t, w, use, v);
  }

  lemma AddOne(n: Name, v: Value)
    ensures AddEach(map[], [(n, v)]) == map[n := [v]]
  {
    var none: map<Name, seq<Value>> := map[];
    assert [(n, v)][..0] == [];
    assert Values(none, n) + [v] == [v];
    assert AddEach(none, [(n, v)]) == AddValue(none, n, v) == none[n := [v]];
  }

  lemma UsesOne(dir: Path, n: Name)
    ensures UsesFrom(Some(dir), [n]) == [(dir, n)]
  {
    assert UsesFrom(Some(dir), []) == [];
  }

  /** `m` defines X and uses it. */
  lemma HiddenRoot(w: Walk)
    requires w.defines == map[] && w.uses == [] && w.dotdotDirs == [] && !w.incomplete
    ensures ScanOne(HiddenTree(), w, "m") == Visit(w, "h").(defines := map["X" := ["v"]], uses := [("d", "X")])
  {
    hide UsesFrom, AddEach, VisitEach;
    VisitOne(w, "h");
    AddOne("X", "v");
    UsesOne("d", "X");
    assert w.uses + UsesFrom(Some("d"), ["X"]) == [("d", "X")];
    assert NewOnes(w.dotdotDirs, []) == [] == w.dotdotDirs + [];
  }

  /** X resolves to `p`, which is spelled `a`. */
  lemma HiddenUse(w: Walk)
    ensures Resolve(HiddenTree(), "d", "v") == Some(("d", "p"))
    ensures w.resolved == {} ==>
              TryOne(HiddenTree(), w, ("d", "X"), "v") == Visit(Spell(w, "a"), "p").(resolved := {("d", "X", "v")})
    ensures ("d", "X", "v") in w.resolved ==> TryOne(HiddenTree(), w, ("d", "X"), "v") == w
  {
    hide Visit, Spell;
    assert ["d"] + HiddenTree().includeDirs == ["d"];
  }

  /** After one round `a` is listed as a spelling, and `h` and `p` wait. */
  lemma HiddenFirstRound()
    ensures var w := After(HiddenTree(), true, 1);
            && w == Walk(true, {"m", "h", "a", "p"}, {"a"}, ["m", "h", "a", "p"], ["h", "p"],
                         map["X" := ["v"]], [("d", "X")], {("d", "X", "v")}, false, [])
  {
    hide ScanOne, TryOne, Resolve, ScanEach, TryEach, VisitEach;
    var t := HiddenTree();
    VisitOne(Walk(true, {}, {}, [], [], map[], [], {}, false, []), "m");
    var w0 := After(t, true, 0);
    assert w0 == Walk(true, {"m"}, {}, ["m"], ["m"], map[], [], {}, false, []);
    var w := w0.(queue := []);
    ScanTwo(t, w, "m", "m");
    HiddenRoot(w);
    var w1 := ScanOne(t, w, "m");
    TryOneUse(t, w1, ("d", "X"), "v");
    HiddenUse(w1);
    assert After(t, true, 1) == TryOne(t, w1, ("d", "X"), "v");
  }

  /** Once `a` is listed, `h` leads to nothing new. */
  lemma HiddenRest(w: Walk)
    requires "a" in w.visited
    ensures ScanOne(HiddenTree(), w, "h") == w && ScanOne(HiddenTree(), w, "p") == w
  {
    VisitOne(w, "a");
  }

  /** `h` leads to `a`, which is listed already and not scanned. */
  lemma HiddenSecondRound()
    ensures var w := After(HiddenTree(), true, 2);
            w.queue == [] && w.result == ["m", "h", "a", "p"]
  {
    hide ScanOne, TryOne, Resolve, ScanEach, TryEach, Start;
    HiddenFirstRound();
    var t := HiddenTree();
    var w := After(t, true, 1).(queue := []);
    ScanTwo(t, w, "h", "p");
    HiddenRest(w);
    TryOneUse(t, w, ("d", "X"), "v");
    HiddenUse(w);
    assert Round(t, After(t, true, 1)) == w;
  }

  /** Every closed set holds `b`, and the walk always ends without it. */
  lemma AliasHidesAnInclude()
    ensures Must(HiddenTree(), "b") && After(HiddenTree(), true, 2).queue == []
    ensures forall n: nat | After(HiddenTree(), true, n).queue == [] :: "b" !in After(HiddenTree(), true, n).result
  {
    hide HiddenTree, After, Must;
    HiddenMust();
    HiddenSecondRound();
    forall n: nat | After(HiddenTree(), true, n).queue == []
      ensures "b" !in After(HiddenTree(), true, n).result
    {
      AfterLarger(HiddenTree(), true, if n < 2 then n else 2, if n < 2 then 2 else n);
    }
  }
}
