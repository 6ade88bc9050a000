/**
 The include walk: files are scanned in batches, defines and uses are gathered
 over the whole walk, and after each batch every use is tried with every value
 its macro has been seen to have.
 */
module IncludeWalk {
  import opened IncludeSpec
  import opened Sequences
  import opened Wrappers

  /**
   A walk under way. The spellings of resolved uses that were met before they
   were visited are `spelled`. The code lists those as visited (`listing`); a
   walk that only notes them is what the code's walk is compared with.
   */
  datatype Walk = Walk(
    listing: bool,
    visited: set<Path>,
    spelled: set<Path>,
    result: seq<Path>,
    queue: seq<Path>,
    defines: map<Name, seq<Value>>,
    uses: seq<(Path, Name)>,
    resolved: set<(Path, Name, Value)>,
    incomplete: bool,
    dotdotDirs: seq<Path>)

  datatype ScanError = Unreadable(file: Path)

  // ---- The steps of a walk. ----

  /** A path met for the first time is to be scanned. */
  function Visit(w: Walk, p: Path): Walk {
    if p in w.visited then w
    else w.(visited := w.visited + {p}, queue := w.queue + [p], result := w.result + [p])
  }

  /** A spelling met for the first time is listed, but not scanned. */
  function Spell(w: Walk, p: Path): Walk {
    if p in w.visited then w
    else if w.listing then w.(visited := w.visited + {p}, spelled := w.spelled + {p}, result := w.result + [p])
    else w.(spelled := w.spelled + {p})
  }

  function VisitEach(w: Walk, ps: seq<Path>): Walk {
    if ps == [] then w else Visit(VisitEach(w, ps[..|ps| - 1]), ps[|ps| - 1])
  }

  /** A value is listed once for its macro. */
  function AddValue(defines: map<Name, seq<Value>>, n: Name, v: Value): map<Name, seq<Value>> {
    var vals := Values(defines, n);
    if v in vals then defines else defines[n := vals + [v]]
  }

  function Values(defines: map<Name, seq<Value>>, n: Name): seq<Value> {
    if n in defines then defines[n] else []
  }

  function AddEach(defines: map<Name, seq<Value>>, more: seq<(Name, Value)>): map<Name, seq<Value>> {
    if more == [] then defines
    else AddValue(AddEach(defines, more[..|more| - 1]), more[|more| - 1].0, more[|more| - 1].1)
  }

  /** The uses of a file, each with the directory of the file. */
  function UsesFrom(dir: Option<Path>, uses: seq<Name>): (r: seq<(Path, Name)>)
    ensures forall d, n :: (d, n) in r <==> dir == Some(d) && n in uses
  {
    if dir.None? || uses == [] then [] else
    var rest := UsesFrom(dir, uses[1..]);
    assert uses == [uses[0]] + uses[1..];
    [(dir.value, uses[0])] + rest
  }

  /** The directories of `more` that are not listed yet. */
  function NewOnes(have: seq<Path>, more: seq<Path>): seq<Path>
    decreases |more|
  {
    if more == [] then []
    else if more[0] in have then NewOnes(have, more[1..])
    else [more[0]] + NewOnes(have + [more[0]], more[1..])
  }

  /** What one file says is taken in; an unreadable file says nothing. */
  function ScanOne(t: Tree, w: Walk, f: Path): Walk {
    if t.scan(f).None? then w else
    var source := t.scan(f).value;
    VisitEach(w, source.includes).(
    defines := AddEach(w.defines, source.defines),
    incomplete := w.incomplete || source.unresolvable,
                  uses := w.uses + UsesFrom(t.parent(f), source.uses),
                  dotdotDirs := w.dotdotDirs + NewOnes(w.dotdotDirs, source.dotdotDirs))
  }

  function ScanEach(t: Tree, w: Walk, fs: seq<Path>): Walk {
    if fs == [] then w else ScanOne(t, ScanEach(t, w, fs[..|fs| - 1]), fs[|fs| - 1])
  }

  /** One use with one value: what it resolves to is visited, after the name it is spelled by. */
  function TryOne(t: Tree, w: Walk, use: (Path, Name), v: Value): Walk {
    var hit := Resolve(t, use.0, v);
    if (use.0, use.1, v) in w.resolved || hit.None? then w else
    var spelled := t.join(hit.value.0, v);
    var w1 := if spelled != hit.value.1 && t.relative(spelled) then Spell(w, spelled) else w;
    Visit(w1, hit.value.1).(resolved := w.resolved + {(use.0, use.1, v)})
  }

  function TryValues(t: Tree, w: Walk, use: (Path, Name), vals: seq<Value>): Walk {
    if vals == [] then w else TryOne(t, TryValues(t, w, use, vals[..|vals| - 1]), use, vals[|vals| - 1])
  }

  function TryEach(t: Tree, w: Walk, uses: seq<(Path, Name)>, defines: map<Name, seq<Value>>): Walk {
    if uses == [] then w else
    var use := uses[|uses| - 1];
    TryValues(t, TryEach(t, w, uses[..|uses| - 1], defines), use, Values(defines, use.1))
  }

  /** The queue becomes a batch, the batch is scanned, and every use is tried with every value. */
  function Round(t: Tree, w: Walk): Walk {
    if w.queue == [] then w else
    var scanned := ScanEach(t, w.(queue := []), w.queue);
    TryEach(t, scanned, scanned.uses, scanned.defines)
  }

  function Start(t: Tree, listing: bool): Walk {
    VisitEach(Walk(listing, {}, {}, [], [], AddEach(map[], t.cmdline), [], {}, false, []), t.roots)
  }

  function After(t: Tree, listing: bool, rounds: nat): Walk {
    if rounds == 0 then Start(t, listing) else Round(t, After(t, listing, rounds - 1))
  }

  /** The files scanned so far: visited, not waiting, and not listed as a spelling only. */
  ghost function Scanned(w: Walk): set<Path> {
    w.visited - Elements(w.queue) - (if w.listing then w.spelled else {})
  }

  // ---- What every step keeps. ----

  /** Every set that holds the roots and what its files lead to holds `p`. */
  ghost predicate Must(t: Tree, p: Path) {
    forall s | Closed(t, s) :: p in s
  }

  /** Whatever was visited is scanned, waiting, or listed as a spelling only. */
  ghost predicate Shape(w: Walk, s: set<Path>, todo: seq<Path>) {
    && NoDup(w.result) && Elements(w.result) == w.visited
    && NoDup(todo + w.queue)
    && (forall p | p in todo + w.queue :: p in w.visited && p !in s)
    && s <= w.visited
    && (forall p | p in w.visited :: p in s || p in todo + w.queue || (w.listing && p in w.spelled))
    && (w.listing ==> w.spelled <= w.visited && forall p | p in w.spelled :: p !in s && p !in todo + w.queue)
  }

  /** What was visited was led to or is a spelling; what is scanned or waiting had to be. */
  ghost predicate Justified(t: Tree, w: Walk, s: set<Path>, todo: seq<Path>) {
    && (forall p | p in w.visited :: Reached(t, s, p) || Alias(t, s, p))
    && (forall p | p in w.spelled :: Alias(t, s, p))
    && (forall p | p in s || p in todo + w.queue :: Must(t, p))
  }

  ghost predicate ValueOf(defines: map<Name, seq<Value>>, n: Name, v: Value) {
    v in Values(defines, n)
  }

  ghost predicate NoneEmpty(defines: map<Name, seq<Value>>) {
    forall n | n in defines :: defines[n] != []
  }

  /** Defines, uses and hopeless directives are those of the files scanned. */
  ghost predicate Gathered(t: Tree, w: Walk, s: set<Path>) {
    && (forall n, v :: ValueOf(w.defines, n, v) <==> Defined(t, s, n, v))
    && NoneEmpty(w.defines)
    && (forall dir, n :: (dir, n) in w.uses <==> Used(t, s, dir, n))
    && (w.incomplete <==> Unresolvable(t, s))
    && (forall d :: d in w.dotdotDirs <==> DotDot(t, s, d))
  }

  /** The roots and the includes of the files scanned have been visited. */
  ghost predicate IncludesSeen(t: Tree, w: Walk, s: set<Path>) {
    forall p :: p in t.roots || Included(t, s, p) ==> p in w.visited
  }

  /** What a use led to has been visited, and the name it is spelled by at least noted. */
  ghost predicate ResolvedSeen(t: Tree, w: Walk) {
    forall dir, n, v | (dir, n, v) in w.resolved ::
      && (Resolve(t, dir, v).Some? ==> Resolve(t, dir, v).value.1 in w.visited)
      && forall a | Spells(t, dir, v, a) :: a in w.visited + w.spelled
  }

  /** Every use has been tried with every value. */
  ghost predicate AllTried(t: Tree, w: Walk, s: set<Path>) {
    forall dir, n, v | Pair(t, s, dir, n, v) && Resolve(t, dir, v).Some? :: (dir, n, v) in w.resolved
  }

  ghost predicate Tracks(t: Tree, w: Walk, s: set<Path>, todo: seq<Path>) {
    Shape(w, s, todo) && Justified(t, w, s, todo) && Gathered(t, w, s) && IncludesSeen(t, w, s) && ResolvedSeen(t, w)
  }

  lemma ShapeScanned(w: Walk, s: set<Path>)
    requires Shape(w, s, [])
    ensures s == Scanned(w)
  {
    assert [] + w.queue == w.queue;
  }

  /** A step may visit and spell more, and gathers nothing. */
  ghost predicate Grown(w: Walk, w': Walk) {
    && w.visited <= w'.visited && w.spelled <= w'.spelled && w.resolved <= w'.resolved
    && w'.listing == w.listing && w'.defines == w.defines && w'.uses == w.uses
    && w'.incomplete == w.incomplete && w'.dotdotDirs == w.dotdotDirs
  }

  // ---- Visiting. ----

  lemma MustReached(t: Tree, s: set<Path>, p: Path)
    requires Reached(t, s, p) && forall q | q in s :: Must(t, q)
    ensures Must(t, p)
  {
    forall closed | Closed(t, closed)
      ensures p in closed
    {
      assert forall q | q in s :: Must(t, q) && q in closed;
      ReachedMore(t, s, closed, p);
    }
  }

  lemma VisitKeeps(t: Tree, w: Walk, s: set<Path>, todo: seq<Path>, p: Path)
    requires Shape(w, s, todo) && Justified(t, w, s, todo) && Reached(t, s, p)
    ensures Shape(Visit(w, p), s, todo) && Justified(t, Visit(w, p), s, todo) && p in Visit(w, p).visited
    ensures Grown(w, Visit(w, p))
  {
    hide Reached, Alias, Must;
    if p !in w.visited {
      var w' := Visit(w, p);
      MustReached(t, s, p);
      assert todo + w'.queue == todo + w.queue + [p];
      NoDupAppend(todo + w.queue, p);
      NoDupAppend(w.result, p);
      assert Elements(w'.result) == w'.visited;
    }
  }

  lemma SpellKeeps(t: Tree, w: Walk, s: set<Path>, todo: seq<Path>, p: Path)
    requires Shape(w, s, todo) && Justified(t, w, s, todo) && Alias(t, s, p)
    ensures Shape(Spell(w, p), s, todo) && Justified(t, Spell(w, p), s, todo)
    ensures p in Spell(w, p).visited + Spell(w, p).spelled && Grown(w, Spell(w, p))
  {
    hide Reached, Alias, Must;
    if p !in w.visited {
      var w' := Spell(w, p);
      NoDupAppend(w.result, p);
      assert w.listing ==> Elements(w'.result) == w'.visited;
    }
  }

  lemma {:induction false} VisitEachKeeps(t: Tree, w: Walk, s: set<Path>, todo: seq<Path>, ps: seq<Path>)
    requires Shape(w, s, todo) && Justified(t, w, s, todo) && forall p | p in ps :: Reached(t, s, p)
    ensures var w' := VisitEach(w, ps);
            && Shape(w', s, todo) && Justified(t, w', s, todo) && Grown(w, w') && w'.resolved == w.resolved
            && forall p | p in ps :: p in w'.visited
  {
    hide Shape, Justified, Reached;
    if ps != [] {
      var n := |ps| - 1;
      assert ps == ps[..n] + [ps[n]];
      VisitEachKeeps(t, w, s, todo, ps[..n]);
      VisitKeeps(t, VisitEach(w, ps[..n]), s, todo, ps[n]);
    }
  }

  // ---- Scanning one file. ----

  lemma TakeFile(t: Tree, w: Walk, s: set<Path>, f: Path, rest: seq<Path>)
    requires Shape(w, s, [f] + rest) && Justified(t, w, s, [f] + rest)
    ensures Shape(w, s + {f}, rest) && Justified(t, w, s + {f}, rest) && f !in s && f in w.visited
  {
    hide Reached, Alias, Must;
    assert [f] + rest + w.queue == [f] + (rest + w.queue);
    var all := [f] + rest + w.queue;
    assert all[0] == f && all[1..] == rest + w.queue;
    forall p
      ensures Reached(t, s, p) ==> Reached(t, s + {f}, p)
      ensures Alias(t, s, p) ==> Alias(t, s + {f}, p)
    {
      if Reached(t, s, p) {
        ReachedMore(t, s, s + {f}, p);
      }
      if Alias(t, s, p) {
        AliasMore(t, s, s + {f}, p);
      }
    }
    assert forall p :: p in all <==> p == f || p in rest + w.queue;
    forall p | p in rest + w.queue
      ensures p != f
    {
      var k :| 0 <= k < |rest + w.queue| && (rest + w.queue)[k] == p;
      assert all[k + 1] == p;
    }
  }

  lemma AliasMore(t: Tree, s: set<Path>, s': set<Path>, a: Path)
    requires s <= s' && Alias(t, s, a)
    ensures Alias(t, s', a)
  {
    var dir, n, v :| Pair(t, s, dir, n, v) && Spells(t, dir, v, a);
    PairMore(t, s, s', dir, n, v);
  }

  lemma {:induction false} AddEachAll(defines: map<Name, seq<Value>>, more: seq<(Name, Value)>)
    requires NoneEmpty(defines)
    ensures NoneEmpty(AddEach(defines, more))
    ensures forall n, v :: ValueOf(AddEach(defines, more), n, v) <==> ValueOf(defines, n, v) || (n, v) in more
  {
    if more != [] {
      var k := |more| - 1;
      assert more == more[..k] + [more[k]];
      AddEachAll(defines, more[..k]);
    }
  }

  lemma GatheredMore(t: Tree, w: Walk, s: set<Path>, f: Path)
    requires Gathered(t, w, s)
    ensures Gathered(t, ScanOne(t, w, f), s + {f})
  {
    hide UsesFrom, NewOnes, AddEach, VisitEach, ValueOf, NoneEmpty;
    forall d
      ensures DotDot(t, s + {f}, d) <==> DotDot(t, s, d) || (t.scan(f).Some? && d in t.scan(f).value.dotdotDirs)
    {
      DotDotOneMore(t, s, f, d);
    }
    forall n, v
      ensures Defined(t, s + {f}, n, v) <==> Defined(t, s, n, v) || DefinedIn(t, f, n, v)
    {
      DefinedOneMore(t, s, f, n, v);
    }
    forall dir, n
      ensures Used(t, s + {f}, dir, n) <==> Used(t, s, dir, n) || UsedIn(t, f, dir, n)
    {
      UsedOneMore(t, s, f, dir, n);
    }
    UnresolvableOneMore(t, s, f);
    if t.scan(f).Some? {
      NewOnesAll(w.dotdotDirs, t.scan(f).value.dotdotDirs);
      AddEachAll(w.defines, t.scan(f).value.defines);
    }
  }

  lemma DefinedOneMore(t: Tree, s: set<Path>, f: Path, n: Name, v: Value)
    ensures Defined(t, s + {f}, n, v) <==> Defined(t, s, n, v) || DefinedIn(t, f, n, v)
  {
    assert f in s + {f};
    if g :| g in s && DefinedIn(t, g, n, v) {
      assert g in s + {f};
    }
  }

  lemma UsedOneMore(t: Tree, s: set<Path>, f: Path, dir: Path, n: Name)
    ensures Used(t, s + {f}, dir, n) <==> Used(t, s, dir, n) || UsedIn(t, f, dir, n)
  {
    assert f in s + {f};
    if g :| g in s && UsedIn(t, g, dir, n) {
      assert g in s + {f};
    }
  }

  lemma UnresolvableOneMore(t: Tree, s: set<Path>, f: Path)
    ensures Unresolvable(t, s + {f}) <==> Unresolvable(t, s) || (t.scan(f).Some? && t.scan(f).value.unresolvable)
  {
    assert f in s + {f};
    if g :| g in s && t.scan(g).Some? && t.scan(g).value.unresolvable {
      assert g in s + {f};
    }
  }

  lemma DotDotOneMore(t: Tree, s: set<Path>, f: Path, d: Path)
    ensures DotDot(t, s + {f}, d) <==> DotDot(t, s, d) || (t.scan(f).Some? && d in t.scan(f).value.dotdotDirs)
  {
    assert f in s + {f};
    if g :| g in s && t.scan(g).Some? && d in t.scan(g).value.dotdotDirs {
      assert g in s + {f};
    }
  }

  lemma {:induction false} NewOnesAll(have: seq<Path>, more: seq<Path>)
    ensures forall d :: d in have + NewOnes(have, more) <==> d in have || d in more
    decreases |more|
  {
    if more != [] {
      assert more == [more[0]] + more[1..];
      if more[0] in have {
        NewOnesAll(have, more[1..]);
      } else {
        NewOnesAll(have + [more[0]], more[1..]);
        assert have + NewOnes(have, more) == have + [more[0]] + NewOnes(have + [more[0]], more[1..]);
      }
    }
  }

  lemma IncludedReached(t: Tree, s: set<Path>, f: Path)
    requires f in s && t.scan(f).Some?
    ensures forall p | p in t.scan(f).value.includes :: Reached(t, s, p)
  {
    forall p | p in t.scan(f).value.includes
      ensures Reached(t, s, p)
    {
      assert Included(t, s, p);
    }
  }

  lemma SeenMore(t: Tree, w: Walk, w': Walk, s: set<Path>, f: Path)
    requires IncludesSeen(t, w, s) && ResolvedSeen(t, w)
    requires w.visited <= w'.visited && w.spelled <= w'.spelled && w'.resolved == w.resolved
    requires t.scan(f).Some? ==> forall p | p in t.scan(f).value.includes :: p in w'.visited
    ensures IncludesSeen(t, w', s + {f}) && ResolvedSeen(t, w')
  {
    hide Resolve, Spells;
  }

  /** Shape and justification do not depend on what was gathered. */
  lemma SameShape(t: Tree, w: Walk, w': Walk, s: set<Path>, todo: seq<Path>)
    requires w'.visited == w.visited && w'.queue == w.queue && w'.result == w.result
    requires w'.listing == w.listing && w'.spelled == w.spelled
    requires Shape(w, s, todo) && Justified(t, w, s, todo)
    ensures Shape(w', s, todo) && Justified(t, w', s, todo)
  {
    hide Must, Reached, Alias;
  }

  lemma ScanOneKeeps(t: Tree, w: Walk, s: set<Path>, f: Path, rest: seq<Path>)
    requires Tracks(t, w, s, [f] + rest)
    ensures Tracks(t, ScanOne(t, w, f), s + {f}, rest) && f !in s
  {
    hide Shape, Justified, Gathered, IncludesSeen, ResolvedSeen, UsesFrom, NewOnes, AddEach, VisitEach, Reached, Alias;
    TakeFile(t, w, s, f, rest);
    GatheredMore(t, w, s, f);
    var w' := ScanOne(t, w, f);
    if t.scan(f).Some? {
      IncludedReached(t, s + {f}, f);
      VisitEachKeeps(t, w, s + {f}, rest, t.scan(f).value.includes);
      SameShape(t, VisitEach(w, t.scan(f).value.includes), w', s + {f}, rest);
    }
    SeenMore(t, w, w', s, f);
  }

  lemma {:induction false} ScanEachKeeps(t: Tree, w: Walk, s: set<Path>, fs: seq<Path>, rest: seq<Path>)
    requires Tracks(t, w, s, fs + rest)
    ensures Tracks(t, ScanEach(t, w, fs), s + Elements(fs), rest)
    decreases |fs|
  {
    hide Tracks, ScanOne;
    if fs == [] {
      assert fs + rest == rest && s + Elements(fs) == s;
    } else {
      var n := |fs| - 1;
      assert fs + rest == fs[..n] + ([fs[n]] + rest);
      ScanEachKeeps(t, w, s, fs[..n], [fs[n]] + rest);
      ScanOneKeeps(t, ScanEach(t, w, fs[..n]), s + Elements(fs[..n]), fs[n], rest);
      assert fs == fs[..n] + [fs[n]];
      assert s + Elements(fs[..n]) + {fs[n]} == s + Elements(fs);
    }
  }

  // ---- Trying the uses. ----

  ghost predicate Tried(t: Tree, w: Walk, use: (Path, Name), v: Value) {
    Resolve(t, use.0, v).Some? ==> (use.0, use.1, v) in w.resolved
  }

  lemma TryOneKeeps(t: Tree, w: Walk, s: set<Path>, use: (Path, Name), v: Value)
    requires Tracks(t, w, s, []) && Pair(t, s, use.0, use.1, v)
    ensures Tracks(t, TryOne(t, w, use, v), s, []) && Grown(w, TryOne(t, w, use, v)) && Tried(t, TryOne(t, w, use, v), use, v)
  {
    hide Shape, Justified, Gathered, IncludesSeen, Reached, Alias, Resolve, Pair;
    var hit := Resolve(t, use.0, v);
    if (use.0, use.1, v) !in w.resolved && hit.Some? {
      var w1 := w;
      var spelled := t.join(hit.value.0, v);
      if spelled != hit.value.1 && t.relative(spelled) {
        SpelledAlias(t, s, use.0, use.1, v, spelled);
        SpellKeeps(t, w, s, [], spelled);
        w1 := Spell(w, spelled);
      }
      HitReached(t, s, use.0, use.1, v);
      VisitKeeps(t, w1, s, [], hit.value.1);
      SameShape(t, Visit(w1, hit.value.1), TryOne(t, w, use, v), s, []);
      SameGathered(t, w, TryOne(t, w, use, v), s);
    }
  }

  lemma SpelledAlias(t: Tree, s: set<Path>, dir: Path, n: Name, v: Value, a: Path)
    requires Pair(t, s, dir, n, v) && Resolve(t, dir, v).Some?
    requires a == t.join(Resolve(t, dir, v).value.0, v) && a != Resolve(t, dir, v).value.1 && t.relative(a)
    ensures Alias(t, s, a)
  {
    assert Spells(t, dir, v, a);
  }

  lemma HitReached(t: Tree, s: set<Path>, dir: Path, n: Name, v: Value)
    requires Pair(t, s, dir, n, v) && Resolve(t, dir, v).Some?
    ensures Reached(t, s, Resolve(t, dir, v).value.1)
  {
    assert Hit(t, s, Resolve(t, dir, v).value.1);
  }

  lemma SameGathered(t: Tree, w: Walk, w': Walk, s: set<Path>)
    requires Gathered(t, w, s) && IncludesSeen(t, w, s) && Grown(w, w')
    ensures Gathered(t, w', s) && IncludesSeen(t, w', s)
  {
  }

  lemma {:induction false} TryValuesKeeps(t: Tree, w: Walk, s: set<Path>, use: (Path, Name), vals: seq<Value>)
    requires Tracks(t, w, s, []) && forall v | v in vals :: Pair(t, s, use.0, use.1, v)
    ensures Tracks(t, TryValues(t, w, use, vals), s, []) && Grown(w, TryValues(t, w, use, vals))
    ensures forall v | v in vals :: Tried(t, TryValues(t, w, use, vals), use, v)
    decreases |vals|
  {
    hide Tracks, TryOne, Resolve, Pair;
    if vals != [] {
      var k := |vals| - 1;
      assert vals == vals[..k] + [vals[k]];
      TryValuesKeeps(t, w, s, use, vals[..k]);
      TryOneKeeps(t, TryValues(t, w, use, vals[..k]), s, use, vals[k]);
    }
  }

  /** Every use is tried with every value of its macro. */
  lemma {:induction false} TryEachKeeps(t: Tree, w: Walk, s: set<Path>, uses: seq<(Path, Name)>)
    requires Tracks(t, w, s, []) && forall use | use in uses :: use in w.uses
    ensures var w' := TryEach(t, w, uses, w.defines);
            && Tracks(t, w', s, []) && Grown(w, w')
            && forall use, v | use in uses && ValueOf(w.defines, use.1, v) :: Tried(t, w', use, v)
    decreases |uses|
  {
    hide Tracks, TryValues, Resolve, Pair, Values;
    if uses != [] {
      var k := |uses| - 1;
      assert uses == uses[..k] + [uses[k]];
      TryEachKeeps(t, w, s, uses[..k]);
      var before := TryEach(t, w, uses[..k], w.defines);
      PairsSeen(t, w, s, uses[k]);
      TryValuesKeeps(t, before, s, uses[k], Values(w.defines, uses[k].1));
    }
  }

  lemma PairsSeen(t: Tree, w: Walk, s: set<Path>, use: (Path, Name))
    requires Tracks(t, w, s, []) && use in w.uses
    ensures forall v | v in Values(w.defines, use.1) :: Pair(t, s, use.0, use.1, v)
  {
    hide Shape, Justified, IncludesSeen, ResolvedSeen;
    assert (use.0, use.1) == use;
    forall v | v in Values(w.defines, use.1)
      ensures Pair(t, s, use.0, use.1, v)
    {
      assert ValueOf(w.defines, use.1, v);
    }
  }

  lemma TriedEverything(t: Tree, w: Walk, s: set<Path>)
    requires Gathered(t, w, s) && forall use, v | use in w.uses && ValueOf(w.defines, use.1, v) :: Tried(t, w, use, v)
    ensures AllTried(t, w, s)
  {
    hide Resolve;
    forall dir, n, v | Pair(t, s, dir, n, v) && Resolve(t, dir, v).Some?
      ensures (dir, n, v) in w.resolved
    {
      assert (dir, n) in w.uses && ValueOf(w.defines, n, v);
      assert Tried(t, w, (dir, n), v);
    }
  }

  // ---- Rounds. ----

  lemma StartTracks(t: Tree, listing: bool)
    ensures Tracks(t, Start(t, listing), {}, []) && AllTried(t, Start(t, listing), {})
    ensures Start(t, listing).listing == listing
  {
    hide Shape, Justified, Resolve, AddEach, VisitEach, Must;
    var w := Walk(listing, {}, {}, [], [], AddEach(map[], t.cmdline), [], {}, false, []);
    EmptyWalk(t, w);
    VisitEachKeeps(t, w, {}, [], t.roots);
    AddEachAll(map[], t.cmdline);
    assert forall n, v :: !ValueOf(map[], n, v);
    forall n, v
      ensures ValueOf(w.defines, n, v) <==> Defined(t, {}, n, v)
    {
    }
  }

  lemma EmptyWalk(t: Tree, w: Walk)
    requires w.visited == w.spelled == {} && w.result == [] && w.queue == []
    ensures Shape(w, {}, []) && Justified(t, w, {}, []) && forall p | p in t.roots :: Reached(t, {}, p)
  {
  }

  /** The queue becomes the batch. */
  lemma TakeBatch(t: Tree, w: Walk, s: set<Path>)
    requires Tracks(t, w, s, [])
    ensures Tracks(t, w.(queue := []), s, w.queue)
  {
    hide Reached, Alias, Must, Resolve;
    assert [] + w.queue == w.queue == w.queue + [];
  }

  lemma RoundKeeps(t: Tree, w: Walk, s: set<Path>)
    requires Tracks(t, w, s, []) && AllTried(t, w, s)
    ensures Tracks(t, Round(t, w), s + Elements(w.queue), []) && AllTried(t, Round(t, w), s + Elements(w.queue))
  {
    hide Tracks, Resolve, ScanEach, TryEach, ValueOf, Tried, AllTried;
    var s' := s + Elements(w.queue);
    if w.queue == [] {
      assert s' == s;
    } else {
      TakeBatch(t, w, s);
      assert w.queue + [] == w.queue;
      ScanEachKeeps(t, w.(queue := []), s, w.queue, []);
      var scanned := ScanEach(t, w.(queue := []), w.queue);
      TryEachKeeps(t, scanned, s', scanned.uses);
      TracksGathered(t, Round(t, w), s');
      TriedEverything(t, Round(t, w), s');
    }
  }

  lemma TracksGathered(t: Tree, w: Walk, s: set<Path>)
    requires Tracks(t, w, s, [])
    ensures Gathered(t, w, s) && s == Scanned(w)
  {
    hide Justified, Gathered, IncludesSeen, ResolvedSeen;
    ShapeScanned(w, s);
  }

  /** After any number of rounds everything the files scanned so far say has been taken in. */
  lemma {:induction false} AfterTracks(t: Tree, listing: bool, n: nat)
    ensures Tracks(t, After(t, listing, n), Scanned(After(t, listing, n)), [])
    ensures AllTried(t, After(t, listing, n), Scanned(After(t, listing, n)))
  {
    hide Tracks, AllTried, Round, Start;
    if n == 0 {
      StartTracks(t, listing);
      TracksGathered(t, Start(t, listing), {});
    } else {
      AfterTracks(t, listing, n - 1);
      var w := After(t, listing, n - 1);
      RoundKeeps(t, w, Scanned(w));
      TracksGathered(t, Round(t, w), Scanned(w) + Elements(w.queue));
    }
  }

  /** A round scans what was waiting. */
  lemma RoundScans(t: Tree, listing: bool, n: nat)
    ensures var w := After(t, listing, n);
            Scanned(After(t, listing, n + 1)) == Scanned(w) + Elements(w.queue) && Scanned(w) !! Elements(w.queue)
  {
    hide Tracks, AllTried, Round;
    AfterTracks(t, listing, n);
    var w := After(t, listing, n);
    RoundKeeps(t, w, Scanned(w));
    TracksGathered(t, Round(t, w), Scanned(w) + Elements(w.queue));
  }
}
