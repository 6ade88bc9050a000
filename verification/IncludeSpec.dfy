/**
 Which files an include walk must find. A file is given by what its scan says:
 the files it includes, the paths it defines, the macros it includes, and
 whether it holds a directive nothing can be said about. A define and a use
 need not be in the same file, nor come in any order.
 */
module IncludeSpec {
  import opened Sequences
  import opened Wrappers

  type Path = string
  type Name = string
  type Value = string

  datatype Source = Source(includes: seq<Path>, defines: seq<(Name, Value)>, uses: seq<Name>, unresolvable: bool, dotdotDirs: seq<Path>)

  /** The files and the command line a walk starts from. An unreadable file has no scan. */
  datatype Tree = Tree(
    roots: seq<Path>,
    cmdline: seq<(Name, Value)>,
    includeDirs: seq<Path>,
    scan: Path -> Option<Source>,
    parent: Path -> Option<Path>,
    tryResolve: (Path, Value) -> Option<Path>,
    join: (Path, Value) -> Path,
    relative: Path -> bool)

  /** The first of `dirs` from which `v` resolves, and what it resolves to. */
  function FirstHit(t: Tree, dirs: seq<Path>, v: Value): (r: Option<(Path, Path)>)
    ensures r.Some? ==> r.value.0 in dirs && t.tryResolve(r.value.0, v) == Some(r.value.1)
    ensures r.None? <==> forall d | d in dirs :: t.tryResolve(d, v).None?
  {
    if dirs == [] then None
    else if t.tryResolve(dirs[0], v).Some? then Some((dirs[0], t.tryResolve(dirs[0], v).value))
    else
      var r := FirstHit(t, dirs[1..], v);
      assert forall d | d in dirs :: d == dirs[0] || d in dirs[1..];
      r
  }

  /** A computed include resolves like a quoted one: from the includer's directory first. */
  function Resolve(t: Tree, dir: Path, v: Value): Option<(Path, Path)> {
    FirstHit(t, [dir] + t.includeDirs, v)
  }

  /**
   What a use in `dir` whose macro is `v` means: `v` from `dir` itself, whatever the
   include directories hold; if that is nothing, `v` from the first of them that
   has it.
   */
  ghost predicate ResolvesTo(t: Tree, dir: Path, v: Value, head: Path, p: Path) {
    if t.tryResolve(dir, v).Some? then head == dir && t.tryResolve(dir, v) == Some(p)
    else exists i :: FirstDir(t, v, i) && head == t.includeDirs[i] && t.tryResolve(head, v) == Some(p)
  }

  /** The `i`-th include directory has `v`, and none before it. */
  ghost predicate FirstDir(t: Tree, v: Value, i: int) {
    && 0 <= i < |t.includeDirs| && t.tryResolve(t.includeDirs[i], v).Some?
    && forall k | 0 <= k < i :: t.tryResolve(t.includeDirs[k], v).None?
  }

  /** A use resolves to nothing exactly when neither its directory nor any include directory has the value. */
  lemma ResolveExactly(t: Tree, dir: Path, v: Value)
    ensures forall head, p :: Resolve(t, dir, v) == Some((head, p)) <==> ResolvesTo(t, dir, v, head, p)
    ensures Resolve(t, dir, v).None? <==> t.tryResolve(dir, v).None? && forall d | d in t.includeDirs :: t.tryResolve(d, v).None?
  {
    var dirs := [dir] + t.includeDirs;
    assert dirs[1..] == t.includeDirs;
    var i := FirstHitAt(t, t.includeDirs, v);
    if i < |t.includeDirs| {
      assert FirstDir(t, v, i);
      assert t.includeDirs[i] in t.includeDirs;
    }
    assert forall j, k | FirstDir(t, v, j) && FirstDir(t, v, k) :: j == k;
    assert forall d | d in t.includeDirs :: exists k :: 0 <= k < |t.includeDirs| && t.includeDirs[k] == d;
  }

  /** The search takes the first directory that has the value. */
  lemma {:induction false} FirstHitAt(t: Tree, dirs: seq<Path>, v: Value) returns (i: nat)
    ensures i <= |dirs| && forall k | 0 <= k < i :: t.tryResolve(dirs[k], v).None?
    ensures i < |dirs| ==> t.tryResolve(dirs[i], v).Some? && FirstHit(t, dirs, v) == Some((dirs[i], t.tryResolve(dirs[i], v).value))
    ensures i == |dirs| ==> FirstHit(t, dirs, v) == None
  {
    if dirs == [] || t.tryResolve(dirs[0], v).Some? {
      i := 0;
    } else {
      var j := FirstHitAt(t, dirs[1..], v);
      i := j + 1;
    }
  }

  /** What the files of `s` lead to through their uses, told by the directories alone. */
  lemma HitExactly(t: Tree, s: set<Path>, p: Path)
    ensures Hit(t, s, p) <==> exists dir, n, v, head :: Pair(t, s, dir, n, v) && ResolvesTo(t, dir, v, head, p)
  {
    hide Pair, ResolvesTo, Resolve;
    if Hit(t, s, p) {
      var dir, n, v :| Pair(t, s, dir, n, v) && Resolve(t, dir, v).Some? && Resolve(t, dir, v).value.1 == p;
      ResolveExactly(t, dir, v);
      assert Resolve(t, dir, v) == Some((Resolve(t, dir, v).value.0, p));
      assert ResolvesTo(t, dir, v, Resolve(t, dir, v).value.0, p);
    }
    if dir, n, v, head :| Pair(t, s, dir, n, v) && ResolvesTo(t, dir, v, head, p) {
      ResolveExactly(t, dir, v);
    }
  }

  /** And what they list as its spelling: the value joined to the directory it was found from. */
  lemma AliasExactly(t: Tree, s: set<Path>, a: Path)
    ensures Alias(t, s, a) <==> exists dir, n, v, head, p ::
                                  Pair(t, s, dir, n, v) && ResolvesTo(t, dir, v, head, p) && a == t.join(head, v) && a != p && t.relative(a)
  {
    hide Pair, ResolvesTo, Resolve;
    if Alias(t, s, a) {
      var dir, n, v :| Pair(t, s, dir, n, v) && Spells(t, dir, v, a);
      ResolveExactly(t, dir, v);
      var hit := Resolve(t, dir, v).value;
      assert Resolve(t, dir, v) == Some((hit.0, hit.1));
      assert ResolvesTo(t, dir, v, hit.0, hit.1);
    }
    if dir, n, v, head, p :|
      Pair(t, s, dir, n, v) && ResolvesTo(t, dir, v, head, p) && a == t.join(head, v) && a != p && t.relative(a) {
      ResolveExactly(t, dir, v);
      assert Spells(t, dir, v, a);
    }
  }

  /** `n` has the value `v` on the command line or in a file of `s`. */
  ghost predicate Defined(t: Tree, s: set<Path>, n: Name, v: Value) {
    (n, v) in t.cmdline || exists f :: f in s && DefinedIn(t, f, n, v)
  }

  predicate DefinedIn(t: Tree, f: Path, n: Name, v: Value) {
    t.scan(f).Some? && (n, v) in t.scan(f).value.defines
  }

  /** A file of `s` in `dir` includes the macro `n`. */
  ghost predicate Used(t: Tree, s: set<Path>, dir: Path, n: Name) {
    exists f :: f in s && UsedIn(t, f, dir, n)
  }

  predicate UsedIn(t: Tree, f: Path, dir: Path, n: Name) {
    t.scan(f).Some? && t.parent(f) == Some(dir) && n in t.scan(f).value.uses
  }

  /** A use and a value of its macro, wherever the two were seen. */
  ghost predicate Pair(t: Tree, s: set<Path>, dir: Path, n: Name, v: Value) {
    Used(t, s, dir, n) && Defined(t, s, n, v)
  }

  ghost predicate Included(t: Tree, s: set<Path>, p: Path) {
    exists f :: f in s && t.scan(f).Some? && p in t.scan(f).value.includes
  }

  /** A use resolves to `p`. */
  ghost predicate Hit(t: Tree, s: set<Path>, p: Path) {
    exists dir, n, v :: Pair(t, s, dir, n, v) && Resolve(t, dir, v).Some? && Resolve(t, dir, v).value.1 == p
  }

  /** The files of `s` lead to `p`. */
  ghost predicate Reached(t: Tree, s: set<Path>, p: Path) {
    p in t.roots || Included(t, s, p) || Hit(t, s, p)
  }

  /** Everything the files of `s` lead to is in `s`. */
  ghost predicate Closed(t: Tree, s: set<Path>) {
    forall p :: Reached(t, s, p) ==> p in s
  }

  /** `a` is how a use spells a file it resolves to under another name. */
  predicate Spells(t: Tree, dir: Path, v: Value, a: Path) {
    && Resolve(t, dir, v).Some?
    && a == t.join(Resolve(t, dir, v).value.0, v)
    && a != Resolve(t, dir, v).value.1
    && t.relative(a)
  }

  ghost predicate Alias(t: Tree, s: set<Path>, a: Path) {
    exists dir, n, v :: Pair(t, s, dir, n, v) && Spells(t, dir, v, a)
  }

  /** A use whose macro has no value anywhere in `s`. */
  ghost predicate Undefined(t: Tree, s: set<Path>) {
    exists dir, n :: Used(t, s, dir, n) && !exists v :: Defined(t, s, n, v)
  }

  ghost predicate Unresolvable(t: Tree, s: set<Path>) {
    exists f :: f in s && t.scan(f).Some? && t.scan(f).value.unresolvable
  }

  /** A file of `s` spells an include through `d`. */
  ghost predicate DotDot(t: Tree, s: set<Path>, d: Path) {
    exists f :: f in s && t.scan(f).Some? && d in t.scan(f).value.dotdotDirs
  }

  /** What a smaller set leads to a larger one leads to as well. */
  lemma PairMore(t: Tree, s: set<Path>, s': set<Path>, dir: Path, n: Name, v: Value)
    requires s <= s' && Pair(t, s, dir, n, v)
    ensures Pair(t, s', dir, n, v)
  {
    var f :| f in s && UsedIn(t, f, dir, n);
    assert f in s';
    if (n, v) !in t.cmdline {
      var d :| d in s && DefinedIn(t, d, n, v);
      assert d in s';
    }
  }

  lemma ReachedMore(t: Tree, s: set<Path>, s': set<Path>, p: Path)
    requires s <= s' && Reached(t, s, p)
    ensures Reached(t, s', p)
  {
    if Included(t, s, p) {
      var f :| f in s && t.scan(f).Some? && p in t.scan(f).value.includes;
      assert f in s';
    } else if Hit(t, s, p) {
      var dir, n, v :| Pair(t, s, dir, n, v) && Resolve(t, dir, v).Some? && Resolve(t, dir, v).value.1 == p;
      PairMore(t, s, s', dir, n, v);
    }
  }

  /** What a walk can meet is finite: `all` holds the roots and all that its own files include, resolve or spell. */
  ghost predicate Within(t: Tree, all: set<Path>) {
    && (forall p | p in t.roots :: p in all)
    && (forall f, p | f in all && t.scan(f).Some? && p in t.scan(f).value.includes :: p in all)
    && (forall dir, n, v | Pair(t, all, dir, n, v) && Resolve(t, dir, v).Some? :: Resolve(t, dir, v).value.1 in all)
    && (forall dir, n, v, a | Pair(t, all, dir, n, v) && Spells(t, dir, v, a) :: a in all)
  }
}
