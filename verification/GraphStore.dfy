/**
 Building the graph: file names are interned, and a build edge is linked to
 its inputs and outputs as it is added.
 */
module GraphStore {
  import opened Wrappers
  import opened BuildGraph
  import opened Sequences

  // ---- Repeated outputs. ----

  /** The elements of `s` in order of first occurrence. */
  function Firsts(s: seq<FileId>): (r: seq<FileId>)
    ensures NoDup(r) && Elements(r) == Elements(s) && |r| <= |s|
  {
    if s == [] then [] else
    var n := |s| - 1;
    var r := Firsts(s[..n]);
    assert s == s[..n] + [s[n]];
    if s[n] in s[..n] then
      assert s[n] in Elements(r);
      r
    else
      assert s[n] !in Elements(r);
      r + [s[n]]
  }

  /** The number of explicit outputs that are left without the repeats. */
  function Distinct(ids: seq<FileId>, explicit: nat): nat
    requires explicit <= |ids|
  {
    |Firsts(ids[..explicit])|
  }

  /** Position `i` repeats an earlier one. */
  predicate Repeat(ids: seq<FileId>, i: nat)
    requires i < |ids|
  {
    ids[i] in ids[..i]
  }

  /** How many of the first `n` positions repeat an earlier one. */
  ghost function Repeats(ids: seq<FileId>, n: nat): nat
    requires n <= |ids|
  {
    if n == 0 then 0 else Repeats(ids, n - 1) + (if Repeat(ids, n - 1) then 1 else 0)
  }

  lemma FirstsStep(s: seq<FileId>, i: nat)
    requires i < |s|
    ensures Firsts(s[..i + 1]) == if Repeat(s, i) then Firsts(s[..i]) else Firsts(s[..i]) + [s[i]]
  {
    assert s[..i + 1][..i] == s[..i];
  }

  lemma {:induction false} DistinctCounts(ids: seq<FileId>, n: nat)
    requires n <= |ids|
    ensures Distinct(ids, n) + Repeats(ids, n) == n
  {
    hide Firsts;
    if n == 0 {
      NoDupCardinality(Firsts(ids[..0]));
      assert Elements(Firsts(ids[..0])) == {};
    } else {
      DistinctCounts(ids, n - 1);
      FirstsStep(ids, n - 1);
    }
  }

  lemma {:induction false} RepeatsGrow(ids: seq<FileId>, n: nat, m: nat)
    requires n <= m <= |ids|
    ensures Repeats(ids, n) <= Repeats(ids, m)
    decreases m
  {
    if n < m {
      RepeatsGrow(ids, n, m - 1);
    }
  }

  /** `n` is the number of distinct explicit outputs, or more, if an explicit output past that number repeats another. */
  ghost predicate CountedFor(ids: seq<FileId>, explicit: nat, n: nat)
    requires explicit <= |ids|
  {
    && Distinct(ids, explicit) <= n <= explicit
    && (n == Distinct(ids, explicit) <==> forall i | Distinct(ids, explicit) < i < explicit :: !Repeat(ids, i))
  }

  /**
   Drops repeated outputs and lowers the explicit count. The count compares
   positions with the value it is lowering, so it comes out right exactly when
   no explicit output after position Distinct repeats an earlier one.
   */
  method RemoveDuplicates(ids: seq<FileId>, explicit: nat) returns (ids': seq<FileId>, explicit': nat)
    requires explicit <= |ids|
    ensures ids' == Firsts(ids)
    ensures CountedFor(ids, explicit, explicit')
  {
    hide Firsts, Distinct, Repeat;
    ids', explicit' := [], explicit;
    ghost var d := Distinct(ids, explicit);
    ghost var missed: Option<nat> := None;
    DistinctCounts(ids, explicit);
    NoFirsts(ids);
    for i := 0 to |ids|
      invariant ids' == Firsts(ids[..i])
      invariant explicit - Repeats(ids, Least(i, explicit)) <= explicit' <= explicit
      invariant missed.None? ==> explicit' == explicit - Repeats(ids, Least(i, explicit))
      invariant missed.None? ==> forall k | 0 <= k < Least(i, explicit) && Repeat(ids, k) :: k <= explicit'
      invariant missed.Some? ==> explicit' > explicit - Repeats(ids, Least(i, explicit))
      invariant missed.Some? ==> d < missed.value < explicit && Repeat(ids, missed.value)
    {
      FirstsStep(ids, i);
      if i < explicit {
        RepeatsGrow(ids, i + 1, explicit);
      }
      if Repeat(ids, i) {
        if i < explicit' {
          explicit' := explicit' - 1;
        } else if missed.None? && i < explicit {
          missed := Some(i);
        }
      } else {
        ids' := ids' + [ids[i]];
      }
    }
    assert ids[..|ids|] == ids;
  }

  function Least(a: nat, b: nat): nat {
    if a < b then a else b
  }

  lemma NoFirsts(ids: seq<FileId>)
    ensures Firsts(ids[..0]) == []
  {
  }

  /** Three times the same explicit output: one is distinct, but the repeat at position 2 is not counted off. */
  lemma CountMissesARepeat()
    ensures Distinct([1, 1, 1], 3) == 1 && Repeat([1, 1, 1], 2)
  {
    var ids := [1, 1, 1];
    DistinctCounts(ids, 3);
    assert ids[..1] == [1] && ids[..2] == [1, 1] && ids[..0] == [];
    assert !Repeat(ids, 0) && Repeat(ids, 1) && Repeat(ids, 2);
    assert Repeats(ids, 1) == 0 && Repeats(ids, 2) == 1 && Repeats(ids, 3) == 2;
  }

  // ---- The store. ----

  /** Names and ids are each other's inverse. */
  ghost predicate Interned(files: seq<File>, byName: map<string, FileId>) {
    && (forall f | 0 <= f < |files| :: files[f].name in byName && byName[files[f].name] == f)
    && (forall n | n in byName :: byName[n] < |files| && files[byName[n]].name == n)
  }

  /** The links of `files` agree with `builds` followed by one more edge, linked to `ins` and `outs` so far. */
  ghost predicate Linking(builds: seq<Build>, before: seq<File>, files: seq<File>, ins: seq<FileId>, outs: seq<FileId>) {
    && |files| == |before|
    && forall f | 0 <= f < |files| ::
         && files[f].name == before[f].name
         && before[f].dependents <= files[f].dependents
         && (forall b :: b in files[f].dependents <==> b in before[f].dependents || (b == |builds| && f in ins))
         && files[f].input == if f in outs then Some(|builds|) else before[f].input
  }

  lemma LinkedWellFormed(builds: seq<Build>, before: seq<File>, files: seq<File>, build: Build)
    requires Graph(builds, before).WellFormed() && build.Sized()
    requires Linking(builds, before, files, build.ins, build.outs)
    requires (forall f | f in build.ins :: f < |files|) && (forall f | f in build.outs :: f < |files|)
    requires forall f | f in build.outs :: before[f].input.None?
    ensures Graph(builds + [build.(outs := Firsts(build.outs))], files).WellFormed()
  {
    var g, g' := Graph(builds, before), Graph(builds + [build.(outs := Firsts(build.outs))], files);
    assert forall f :: f in Firsts(build.outs) <==> f in build.outs by {
      assert Elements(Firsts(build.outs)) == Elements(build.outs);
      assert forall f :: f in Firsts(build.outs) <==> f in Elements(Firsts(build.outs));
    }
    hide Firsts;
    forall b | 0 <= b < |g'.builds|
      ensures g'.BuildWellFormed(b)
    {
      if b < |builds| {
        assert g.BuildWellFormed(b);
      }
    }
    forall f | 0 <= f < |g'.files|
      ensures g'.FileWellFormed(f)
    {
      assert g.FileWellFormed(f);
    }
  }

  class Store {
    var builds: seq<Build>
    var explicitOuts: seq<nat>
    var files: seq<File>
    var byName: map<string, FileId>

    ghost predicate Valid()
      reads this
    {
      Graph(builds, files).WellFormed() && Interned(files, byName) && |explicitOuts| == |builds|
    }

    constructor ()
      ensures Valid() && builds == [] && files == []
    {
      builds, explicitOuts, files, byName := [], [], [], map[];
    }

    /** The one id of a name; a name met for the first time gets the next id. */
    method IdFromCanonical(name: string) returns (id: FileId)
      requires Valid()
      modifies `files, `byName
      ensures Valid() && id < |files| && files[id].name == name
      ensures files == if name in old(byName) then old(files) else old(files) + [File(name, None, [])]
      ensures byName == old(byName)[name := id]
      ensures name !in old(byName) ==> id == |old(files)|
    {
      if name in byName {
        id := byName[name];
        assert byName == byName[name := id];
      } else {
        id := |files|;
        InternNew(builds, files, byName, name);
        files := files + [File(name, None, [])];
        byName := byName[name := id];
      }
    }

    /** Adds the edge to the dependents of its inputs. */
    method LinkInputs(ins: seq<FileId>)
      requires forall f | f in ins :: f < |files|
      modifies `files
      ensures Linking(builds, old(files), files, ins, [])
    {
      for i := 0 to |ins|
        invariant Linking(builds, old(files), files, ins[..i], [])
      {
        assert ins[i] in ins && ins[..i + 1] == ins[..i] + [ins[i]];
        files := files[ins[i] := files[ins[i]].(dependents := files[ins[i]].dependents + [|builds|])];
      }
      assert ins[..|ins|] == ins;
    }

    /**
     Makes the edge the producer of its outputs. An output that has a producer
     already is refused, one that is repeated is reported.
     */
    method LinkOutputs(ghost before: seq<File>, ghost ins: seq<FileId>, outs: seq<FileId>) returns (ok: bool,
                                                                                                    repeated: bool)
      requires Linking(builds, before, files, ins, []) && forall f | f in outs :: f < |files|
      requires forall f | 0 <= f < |before| && before[f].input.Some? :: before[f].input.value < |builds|
      modifies `files
      ensures ok <==> forall f | f in outs :: before[f].input.None?
      ensures ok ==> Linking(builds, before, files, ins, outs)
      ensures ok ==> (repeated <==> exists i :: 0 <= i < |outs| && Repeat(outs, i))
    {
      repeated := false;
      assert forall k | 0 <= k < |outs| :: outs[k] in outs;
      for i := 0 to |outs|
        invariant Linking(builds, before, files, ins, outs[..i])
        invariant forall k | 0 <= k < i :: before[outs[k]].input.None?
        invariant repeated <==> exists k :: 0 <= k < i && Repeat(outs, k)
      {
        assert outs[i] in outs && outs[..i + 1] == outs[..i] + [outs[i]];
        var input := files[outs[i]].input;
        assert input == Some(|builds|) <==> Repeat(outs, i);
        if input == Some(|builds|) {
          repeated := true;
        } else if input.Some? {
          return false, repeated;
        } else {
          files := files[outs[i] := files[outs[i]].(input := Some(|builds|))];
        }
      }
      assert outs[..|outs|] == outs;
      ok := true;
    }

    /**
     Adds a build edge. It is refused exactly when one of its outputs has a
     producer already; otherwise it is linked both ways and every other link
     is left as it was.
     */
    method AddBuild(build: Build, explicitOut: nat) returns (ok: bool)
      requires Valid() && build.Sized() && explicitOut <= |build.outs|
      requires (forall f | f in build.ins :: f < |files|) && (forall f | f in build.outs :: f < |files|)
      modifies `builds, `explicitOuts, `files
      ensures ok <==> forall f | f in build.outs :: old(files)[f].input.None?
      ensures ok ==> Valid() && builds == old(builds) + [build.(outs := Firsts(build.outs))]
      ensures ok ==> Linking(old(builds), old(files), files, build.ins, build.outs)
      ensures ok ==> |explicitOuts| == |old(explicitOuts)| + 1 && old(explicitOuts) <= explicitOuts
      ensures ok ==> CountedFor(build.outs, explicitOut, explicitOuts[|old(explicitOuts)|])
      ensures ok && NoDup(build.outs) ==> explicitOuts == old(explicitOuts) + [explicitOut]
      ensures !ok ==> builds == old(builds)
    {
      hide Firsts, CountedFor;
      ghost var before := files;
      ProducersInRange(builds, before);
      LinkInputs(build.ins);
      var linked, repeated := LinkOutputs(before, build.ins, build.outs);
      if !linked {
        return false;
      }
      var outs, explicit := build.outs, explicitOut;
      if repeated {
        outs, explicit := RemoveDuplicates(build.outs, explicitOut);
      } else {
        FirstsSame(build.outs);
        NoneRepeated(build.outs, explicitOut);
      }
      LinkedWellFormed(builds, before, files, build);
      builds := builds + [build.(outs := outs)];
      explicitOuts := explicitOuts + [explicit];
      ok := true;
    }
  }

  lemma InternNew(builds: seq<Build>, files: seq<File>, byName: map<string, FileId>, name: string)
    requires Graph(builds, files).WellFormed() && Interned(files, byName) && name !in byName
    ensures Graph(builds, files + [File(name, None, [])]).WellFormed()
    ensures Interned(files + [File(name, None, [])], byName[name := |files|])
  {
    var g, g' := Graph(builds, files), Graph(builds, files + [File(name, None, [])]);
    forall b | 0 <= b < |builds|
      ensures g'.BuildWellFormed(b)
    {
      assert g.BuildWellFormed(b);
    }
    forall f | 0 <= f < |g'.files|
      ensures g'.FileWellFormed(f)
    {
      assert f < |files| ==> g.FileWellFormed(f);
    }
  }

  lemma ProducersInRange(builds: seq<Build>, files: seq<File>)
    requires Graph(builds, files).WellFormed()
    ensures forall f | 0 <= f < |files| && files[f].input.Some? :: files[f].input.value < |builds|
  {
    forall f | 0 <= f < |files| && files[f].input.Some?
      ensures files[f].input.value < |builds|
    {
      assert Graph(builds, files).FileWellFormed(f);
    }
  }

  lemma NoneRepeated(ids: seq<FileId>, explicit: nat)
    requires explicit <= |ids| && forall i | 0 <= i < |ids| :: !Repeat(ids, i)
    ensures CountedFor(ids, explicit, explicit)
  {
    DistinctCounts(ids, explicit);
    NoRepeats(ids, explicit);
  }

  lemma {:induction false} NoRepeats(ids: seq<FileId>, n: nat)
    requires n <= |ids| && forall i | 0 <= i < |ids| :: !Repeat(ids, i)
    ensures Repeats(ids, n) == 0
  {
    if n > 0 {
      NoRepeats(ids, n - 1);
    }
  }

  lemma {:induction false} FirstsSame(s: seq<FileId>)
    requires forall i | 0 <= i < |s| :: !Repeat(s, i)
    ensures Firsts(s) == s
  {
    if s != [] {
      var n := |s| - 1;
      forall i | 0 <= i < n
        ensures !Repeat(s[..n], i)
      {
        assert s[..n][..i] == s[..i] && !Repeat(s, i);
      }
      FirstsSame(s[..n]);
      assert s == s[..n] + [s[n]] && !Repeat(s, n);
    }
  }
}
