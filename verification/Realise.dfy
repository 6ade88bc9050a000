/**
 The memo in front of the daemon: paths that were realised before are answered
 from a cache, the rest are asked for, one request for each derivation.
 */
module Realise {
  import opened FanOut
  import opened RealiseRequest
  import opened Sequences
  import opened Wrappers

  /** A cached answer, and whether the path was seen to exist since. */
  datatype Entry = Entry(path: StorePath, confirmed: bool)

  type Cache = map<string, Entry>

  /** How a path is written; store paths and output names hold no '^'. */
  function Display(p: DerivedPath): string {
    match p
    case Opaque(path) => path
    case Built(drv, output) => drv + "^" + output
  }

  predicate Clean(p: DerivedPath) {
    match p
    case Opaque(path) => '^' !in path
    case Built(drv, output) => '^' !in drv && '^' !in output
  }

  /** Where the first '^' is, or the length. */
  function Caret(s: string): (i: nat)
    ensures i <= |s| && (i < |s| ==> s[i] == '^') && '^' !in s[..i]
  {
    if s == "" || s[0] == '^' then 0 else 1 + Caret(s[1..])
  }

  function Undisplay(s: string): DerivedPath {
    var i := Caret(s);
    if i == |s| then Opaque(s) else Built(s[..i], s[i + 1..])
  }

  lemma {:induction false} CaretIs(s: string, i: nat)
    requires i <= |s| && '^' !in s[..i] && (i < |s| ==> s[i] == '^')
    ensures Caret(s) == i
  {
    if i > 0 {
      assert s[..i][0] == s[0] && s[..i][1..] == s[1..][..i - 1];
      CaretIs(s[1..], i - 1);
    }
  }

  /** A clean path is known by how it is written. */
  lemma DisplayRoundTrip(p: DerivedPath)
    requires Clean(p)
    ensures Undisplay(Display(p)) == p
  {
    var s := Display(p);
    match p
    case Opaque(path) =>
      assert s[..|s|] == path;
      CaretIs(s, |s|);
    case Built(drv, output) =>
      assert s[..|drv|] == drv && s[|drv| + 1..] == output;
      CaretIs(s, |drv|);
  }

  lemma DisplayInjective(p: DerivedPath, q: DerivedPath)
    requires Clean(p) && Clean(q) && Display(p) == Display(q)
    ensures p == q
  {
    DisplayRoundTrip(p);
    DisplayRoundTrip(q);
  }

  /** Every cached answer is what the daemon would say. */
  ghost predicate Sound(d: Daemon, cache: Cache) {
    forall p | Clean(p) && Display(p) in cache :: Realisation(d, p) == Ok(cache[Display(p)].path)
  }

  // ---- Splitting by derivation. ----

  /** Two positions belong in one request: they are outputs of one derivation. */
  predicate Together(p: DerivedPath, q: DerivedPath) {
    p.Built? && q.Built? && p.drv == q.drv
  }

  /** A group holds positions in ascending order, all of them outputs of one derivation. */
  ghost predicate GroupOk(paths: seq<DerivedPath>, n: nat, group: seq<nat>) {
    && group != []
    && (forall k | 0 <= k < |group| :: group[k] < n <= |paths|)
    && (forall j, k | 0 <= j < k < |group| :: group[j] < group[k])
    && (forall k | 0 < k < |group| :: Together(paths[group[0]], paths[group[k]]))
  }

  ghost predicate Covered(groups: seq<seq<nat>>, i: nat) {
    exists g :: 0 <= g < |groups| && i in groups[g]
  }

  /** One group comes before another, and names something else. */
  ghost predicate Before(paths: seq<DerivedPath>, a: seq<nat>, b: seq<nat>) {
    a != [] && b != [] && a[0] < b[0] < |paths| && !Together(paths[a[0]], paths[b[0]])
  }

  /** The groups hold every position below `n` once, and only outputs of one derivation together. */
  ghost predicate Partition(paths: seq<DerivedPath>, n: nat, groups: seq<seq<nat>>) {
    && (forall g | 0 <= g < |groups| :: GroupOk(paths, n, groups[g]))
    && (forall i | 0 <= i < n :: Covered(groups, i))
    && (forall g, h | 0 <= g < h < |groups| :: Before(paths, groups[g], groups[h]))
  }

  /** No position is in two groups. */
  lemma GroupsApart(paths: seq<DerivedPath>, n: nat, groups: seq<seq<nat>>, g: nat, h: nat, i: nat)
    requires Partition(paths, n, groups) && g < |groups| && h < |groups| && g != h && i in groups[g]
    ensures i !in groups[h]
  {
    hide Together;
    if g < h {
      MembersApart(paths, n, groups[g], groups[h], i);
    } else {
      MembersApart(paths, n, groups[h], groups[g], i);
    }
  }

  lemma MembersApart(paths: seq<DerivedPath>, n: nat, a: seq<nat>, b: seq<nat>, i: nat)
    requires GroupOk(paths, n, a) && GroupOk(paths, n, b) && Before(paths, a, b)
    ensures i !in a || i !in b
  {
    forall k, l | 0 <= k < |a| && 0 <= l < |b|
      ensures a[k] != b[l]
    {
      assert l > 0 ==> b[0] < b[l];
      assert k > 0 ==> a[0] < a[k];
    }
  }

  datatype GroupKey = OpaqueAt(index: nat) | DrvOf(drv: Drv)

  function GroupKeyOf(paths: seq<DerivedPath>, i: nat): GroupKey
    requires i < |paths|
  {
    if paths[i].Opaque? then OpaqueAt(i) else DrvOf(paths[i].drv)
  }

  /** Every group is found under the key of its first position. */
  ghost predicate GroupIndex(paths: seq<DerivedPath>, groups: seq<seq<nat>>, index: map<GroupKey, nat>) {
    && (forall g | 0 <= g < |groups| :: groups[g] != [] && groups[g][0] < |paths|)
    && (forall k | k in index :: index[k] < |groups| && GroupKeyOf(paths, groups[index[k]][0]) == k)
    && (forall g | 0 <= g < |groups| :: GroupKeyOf(paths, groups[g][0]) in index && index[GroupKeyOf(paths, groups[g][0])] == g)
  }

  /** The positions of `paths`, the outputs of one derivation together, in order of first appearance. */
  method SplitByDerivation(paths: seq<DerivedPath>) returns (groups: seq<seq<nat>>)
    ensures Partition(paths, |paths|, groups)
  {
    hide Partition, GroupIndex;
    groups := [];
    var index: map<GroupKey, nat> := map[];
    NoGroups(paths);
    for i := 0 to |paths|
      invariant Partition(paths, i, groups) && GroupIndex(paths, groups, index)
    {
      var key := GroupKeyOf(paths, i);
      if key in index {
        GroupJoined(paths, i, groups, index);
        groups := groups[index[key] := groups[index[key]] + [i]];
      } else {
        GroupOpened(paths, i, groups, index);
        index := index[key := |groups|];
        groups := groups + [[i]];
      }
    }
  }

  lemma NoGroups(paths: seq<DerivedPath>)
    ensures Partition(paths, 0, []) && GroupIndex(paths, [], map[])
  {
  }

  lemma CoveredMore(groups: seq<seq<nat>>, groups': seq<seq<nat>>, i: nat)
    requires Covered(groups, i) && |groups| <= |groups'|
    requires forall g | 0 <= g < |groups| :: groups[g] <= groups'[g]
    ensures Covered(groups', i)
  {
    var g :| 0 <= g < |groups| && i in groups[g];
    assert i in groups'[g];
  }

  lemma GroupJoined(paths: seq<DerivedPath>, i: nat, groups: seq<seq<nat>>, index: map<GroupKey, nat>)
    requires i < |paths| && Partition(paths, i, groups) && GroupIndex(paths, groups, index) && GroupKeyOf(paths, i) in index
    ensures var g := index[GroupKeyOf(paths, i)];
            && g < |groups| && Partition(paths, i + 1, groups[g := groups[g] + [i]])
            && GroupIndex(paths, groups[g := groups[g] + [i]], index)
  {
    hide Covered, Before, GroupOk;
    var g := index[GroupKeyOf(paths, i)];
    var groups' := groups[g := groups[g] + [i]];
    HeadsKept(paths, i, groups, index);
    forall h | 0 <= h < |groups'|
      ensures GroupOk(paths, i + 1, groups'[h])
    {
      if h == g {
        GroupGrows(paths, i, groups[g]);
      } else {
        GroupLater(paths, i, groups[h]);
      }
    }
    forall x | 0 <= x < i + 1
      ensures Covered(groups', x)
    {
      if x < i {
        CoveredMore(groups, groups', x);
      } else {
        CoveredLast(groups', g, i);
      }
    }
    forall a, b | 0 <= a < b < |groups'|
      ensures Before(paths, groups'[a], groups'[b])
    {
      BeforeHeads(paths, groups[a], groups[b], groups'[a], groups'[b]);
    }
  }

  lemma GroupLater(paths: seq<DerivedPath>, i: nat, group: seq<nat>)
    requires i < |paths| && GroupOk(paths, i, group)
    ensures GroupOk(paths, i + 1, group)
  {
  }

  /** The index finds groups by their first position, which a group that grows keeps. */
  lemma HeadsKept(paths: seq<DerivedPath>, i: nat, groups: seq<seq<nat>>, index: map<GroupKey, nat>)
    requires i < |paths| && GroupIndex(paths, groups, index) && GroupKeyOf(paths, i) in index
    ensures var g := index[GroupKeyOf(paths, i)];
            && g < |groups| && groups[g] != [] && groups[g][0] < |paths|
            && GroupKeyOf(paths, groups[g][0]) == GroupKeyOf(paths, i)
            && GroupIndex(paths, groups[g := groups[g] + [i]], index)
  {
    hide GroupKeyOf;
    var g := index[GroupKeyOf(paths, i)];
    assert (groups[g] + [i])[0] == groups[g][0];
  }

  lemma GroupGrows(paths: seq<DerivedPath>, i: nat, group: seq<nat>)
    requires i < |paths| && GroupOk(paths, i, group) && GroupKeyOf(paths, group[0]) == GroupKeyOf(paths, i)
    ensures GroupOk(paths, i + 1, group + [i])
  {
  }

  lemma CoveredLast(groups: seq<seq<nat>>, g: nat, i: nat)
    requires g < |groups| && groups[g] != [] && groups[g][|groups[g]| - 1] == i
    ensures Covered(groups, i)
  {
    assert i in groups[g];
  }

  lemma BeforeHeads(paths: seq<DerivedPath>, a: seq<nat>, b: seq<nat>, a': seq<nat>, b': seq<nat>)
    requires Before(paths, a, b) && a <= a' && b <= b'
    ensures Before(paths, a', b')
  {
    assert a'[0] == a[0] && b'[0] == b[0];
  }

  lemma GroupOpened(paths: seq<DerivedPath>, i: nat, groups: seq<seq<nat>>, index: map<GroupKey, nat>)
    requires i < |paths| && Partition(paths, i, groups) && GroupIndex(paths, groups, index) && GroupKeyOf(paths, i) !in index
    ensures Partition(paths, i + 1, groups + [[i]])
    ensures GroupIndex(paths, groups + [[i]], index[GroupKeyOf(paths, i) := |groups|])
  {
    hide Covered;
    var groups' := groups + [[i]];
    forall h | 0 <= h < |groups'|
      ensures GroupOk(paths, i + 1, groups'[h])
    {
      assert h < |groups| ==> GroupOk(paths, i, groups[h]);
    }
    forall x | 0 <= x < i + 1
      ensures Covered(groups', x)
    {
      if x < i {
        CoveredMore(groups, groups', x);
      } else {
        CoveredLast(groups', |groups|, i);
      }
    }
    forall a | 0 <= a < |groups|
      ensures Before(paths, groups[a], [i])
    {
      assert GroupOk(paths, i, groups[a]) && GroupKeyOf(paths, groups[a][0]) != GroupKeyOf(paths, i);
    }
  }
}
