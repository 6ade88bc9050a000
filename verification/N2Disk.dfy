/**
 The file side of n2: what is on disk, what the stat cache believes, which
 inputs were discovered, and what the log records. The invariant says that
 the record of every finished build matches the disk for good.
 */
module N2Disk {
  import opened Wrappers
  import opened BuildGraph
  import opened Manifest
  import opened N2States
  import opened N2Progress
  import opened Ordering
  import opened Sequences

  datatype Termination = Success | Interrupted | Failure

  /**
   Everything outside the program: the bytes commands write over time, how
   each command ends and which inputs it reports, and the hash function.
   A hygienic environment changes a file only while its producer runs.
   */
  datatype Env = Env(
    world: nat -> map<FileId, nat>,
    outcome: BuildId -> Termination,
    deps: BuildId -> Option<seq<FileId>>,
    name: FileId -> string,
    hash: seq<Token> -> nat,
    hygienic: bool)

  /** A snapshot of the files as the program sees them. `log` is what a reload would give back. */
  datatype Files = Files(
    disk: map<FileId, nat>,
    stat: map<FileId, Option<nat>>,
    discovered: map<BuildId, seq<FileId>>,
    log: map<BuildId, (seq<FileId>, nat)>)

  /** The build that generates `f`; files the graph does not know have none. */
  function Maker(g: Graph, f: FileId): Option<BuildId> {
    if f < |g.files| then g.files[f].input else None
  }

  /** The time a stat of `f` returns, or None when it is missing. */
  function Stat(disk: map<FileId, nat>, f: FileId): Option<nat> {
    if f in disk then Some(disk[f]) else None
  }

  function Discovered(discovered: map<BuildId, seq<FileId>>, b: BuildId): seq<FileId> {
    if b in discovered then discovered[b] else []
  }

  /** The files whose times the hash of `b` is taken over. */
  function Touched(g: Graph, discovered: map<BuildId, seq<FileId>>, b: BuildId): seq<FileId>
    requires b < |g.builds| && g.builds[b].Sized()
  {
    g.builds[b].DirtyingIns() + (Discovered(discovered, b) + g.builds[b].outs)
  }

  function Entries(env: Env, times: map<FileId, nat>, fs: seq<FileId>): seq<Entry>
    requires forall f | f in fs :: f in times
  {
    seq(|fs|, i requires 0 <= i < |fs| => assert fs[i] in fs; Entry(env.name(fs[i]), times[fs[i]]))
  }

  ghost predicate Present(times: map<FileId, nat>, fs: seq<FileId>) {
    forall f | f in fs :: f in times
  }

  function ManifestOf(g: Graph, env: Env, times: map<FileId, nat>, discovered: seq<FileId>, b: BuildId): Manifest
    requires b < |g.builds| && g.builds[b].Sized()
    requires Present(times, g.builds[b].DirtyingIns()) && Present(times, discovered) && Present(times, g.builds[b].outs)
  {
    Manifest(
      Entries(env, times, g.builds[b].DirtyingIns()),
      Entries(env, times, discovered),
      if g.builds[b].cmdline.Some? then g.builds[b].cmdline.value else "",
      g.builds[b].rspfile,
      Entries(env, times, g.builds[b].outs))
  }

  /** The hash of `b` for the given file times. */
  function HashOf(g: Graph, env: Env, times: map<FileId, nat>, discovered: map<BuildId, seq<FileId>>, b: BuildId): nat
    requires b < |g.builds| && g.builds[b].Sized() && Present(times, Touched(g, discovered, b))
  {
    TouchedParts(g, times, discovered, b);
    env.hash(Tokens(ManifestOf(g, env, times, Discovered(discovered, b), b)))
  }

  lemma TouchedParts(g: Graph, times: map<FileId, nat>, discovered: map<BuildId, seq<FileId>>, b: BuildId)
    requires b < |g.builds| && g.builds[b].Sized() && Present(times, Touched(g, discovered, b))
    ensures Present(times, g.builds[b].DirtyingIns()) && Present(times, Discovered(discovered, b))
    ensures Present(times, g.builds[b].outs)
  {
  }

  lemma SameHash(g: Graph, env: Env, times: map<FileId, nat>, times': map<FileId, nat>,
                 discovered: map<BuildId, seq<FileId>>, b: BuildId)
    requires b < |g.builds| && g.builds[b].Sized() && Present(times, Touched(g, discovered, b))
    requires forall f | f in Touched(g, discovered, b) :: f in times' && times'[f] == times[f]
    ensures HashOf(g, env, times, discovered, b) == HashOf(g, env, times', discovered, b)
  {
    TouchedParts(g, times, discovered, b);
    TouchedParts(g, times', discovered, b);
    assert forall f | f in g.builds[b].DirtyingIns() :: f in Touched(g, discovered, b);
    assert forall f | f in Discovered(discovered, b) :: f in Touched(g, discovered, b);
    assert forall f | f in g.builds[b].outs :: f in Touched(g, discovered, b);
    assert ManifestOf(g, env, times, Discovered(discovered, b), b) == ManifestOf(g, env, times', Discovered(discovered, b), b);
  }

  // ---- What a hash depends on. ----

  /** A build with the names and times its manifest was written from. */
  datatype Written = Written(g: Graph, b: BuildId, env: Env, discovered: seq<FileId>, times: map<FileId, nat>) {
    ghost predicate Fits() {
      && b < |g.builds| && g.builds[b].Sized()
      && Present(times, g.builds[b].DirtyingIns()) && Present(times, discovered) && Present(times, g.builds[b].outs)
    }

    function Build(): Build
      requires Fits()
    {
      g.builds[b]
    }

    /** What is given to the hash function. */
    function Stream(): seq<Token>
      requires Fits()
    {
      Tokens(ManifestOf(g, env, times, discovered, b))
    }
  }

  /** Two file lists with the same names and the same times, one by one. */
  ghost predicate SameList(x: Written, fs: seq<FileId>, y: Written, fs': seq<FileId>)
    requires Present(x.times, fs) && Present(y.times, fs')
  {
    && |fs| == |fs'|
    && forall i | 0 <= i < |fs| :: fs[i] in fs && fs'[i] in fs' && x.env.name(fs[i]) == y.env.name(fs'[i]) && x.times[fs[i]] == y.times[fs'[i]]
  }

  /** Nothing that counts has changed: the three lists of files, the command and the response file. */
  ghost predicate Alike(x: Written, y: Written)
    requires x.Fits() && y.Fits()
  {
    && SameList(x, x.Build().DirtyingIns(), y, y.Build().DirtyingIns())
    && SameList(x, x.discovered, y, y.discovered)
    && SameList(x, x.Build().outs, y, y.Build().outs)
    && x.Build().rspfile == y.Build().rspfile
    && (if x.Build().cmdline.Some? then x.Build().cmdline.value else "") == (if y.Build().cmdline.Some? then y.Build().cmdline.value else "")
  }

  lemma SameEntries(x: Written, fs: seq<FileId>, y: Written, fs': seq<FileId>)
    requires Present(x.times, fs) && Present(y.times, fs')
    ensures Entries(x.env, x.times, fs) == Entries(y.env, y.times, fs') <==> SameList(x, fs, y, fs')
  {
    var a, b := Entries(x.env, x.times, fs), Entries(y.env, y.times, fs');
    if a == b {
      assert |a| == |b|;
      forall i | 0 <= i < |fs|
        ensures x.env.name(fs[i]) == y.env.name(fs'[i]) && fs[i] in fs && fs'[i] in fs' && x.times[fs[i]] == y.times[fs'[i]]
      {
        assert a[i] == b[i];
      }
    }
  }

  /** The hash function is given the same tokens if and only if nothing that counts has changed. */
  lemma StreamTells(x: Written, y: Written)
    requires x.Fits() && y.Fits()
    ensures x.Stream() == y.Stream() <==> Alike(x, y)
  {
    hide Tokens, Entries, SameList;
    SameEntries(x, x.Build().DirtyingIns(), y, y.Build().DirtyingIns());
    SameEntries(x, x.discovered, y, y.discovered);
    SameEntries(x, x.Build().outs, y, y.Build().outs);
    if x.Stream() == y.Stream() {
      TokensInjective(ManifestOf(x.g, x.env, x.times, x.discovered, x.b), ManifestOf(y.g, y.env, y.times, y.discovered, y.b));
    }
  }

  /** For one build: if and only if each of its files has the same time as before. */
  lemma TimesTell(g: Graph, env: Env, times: map<FileId, nat>, times': map<FileId, nat>,
                  discovered: map<BuildId, seq<FileId>>, b: BuildId)
    requires b < |g.builds| && g.builds[b].Sized()
    requires Present(times, Touched(g, discovered, b)) && Present(times', Touched(g, discovered, b))
    ensures Written(g, b, env, Discovered(discovered, b), times).Fits() && Written(g, b, env, Discovered(discovered, b), times').Fits()
    ensures Written(g, b, env, Discovered(discovered, b), times).Stream() == Written(g, b, env, Discovered(discovered, b), times').Stream()
       <==> forall f | f in Touched(g, discovered, b) :: times[f] == times'[f]
  {
    hide Tokens, Entries;
    TouchedParts(g, times, discovered, b);
    TouchedParts(g, times', discovered, b);
    var x, y := Written(g, b, env, Discovered(discovered, b), times), Written(g, b, env, Discovered(discovered, b), times');
    StreamTells(x, y);
    TouchedAt(g, discovered, b);
  }

  lemma TouchedAt(g: Graph, discovered: map<BuildId, seq<FileId>>, b: BuildId)
    requires b < |g.builds| && g.builds[b].Sized()
    ensures forall f :: f in Touched(g, discovered, b) <==>
                        f in g.builds[b].DirtyingIns() || f in Discovered(discovered, b) || f in g.builds[b].outs
  {
  }

  // ---- The invariant. ----

  /** No command that writes `f` is running or has been left half done. */
  ghost predicate Quiet(g: Graph, states: seq<BuildState>, f: FileId) {
    Maker(g, f).Some? ==>
      Maker(g, f).value < |states| && states[Maker(g, f).value] !in {Running, Failed}
  }

  /** A generated file among `fs` comes from a build that `b` is ordered after. */
  ghost predicate OrderedDeps(g: WfGraph, b: BuildId, fs: seq<FileId>)
    requires b < |g.builds|
  {
    forall f | f in fs && Maker(g, f).Some? ::
      exists q :: q in Deps(g, b) && Reaches(g, false, q, Maker(g, f).value)
  }

  /** The log has the current inputs and hash of `b`. */
  ghost predicate Fresh(g: WfGraph, env: Env, fs: Files, b: BuildId)
    requires b < |g.builds| && g.builds[b].Sized()
  {
    && Present(fs.disk, Touched(g, fs.discovered, b))
    && b in fs.log
    && fs.log[b] == (Discovered(fs.discovered, b), HashOf(g, env, fs.disk, fs.discovered, b))
  }

  ghost predicate StatsAgree(g: WfGraph, states: seq<BuildState>, fs: Files) {
    forall f | f in fs.stat && Quiet(g, states, f) :: fs.stat[f] == Stat(fs.disk, f)
  }

  ghost predicate DoneStatted(g: WfGraph, states: seq<BuildState>, fs: Files)
    requires |states| == |g.builds|
  {
    forall b | 0 <= b < |states| && states[b] == Done :: forall f | f in g.builds[b].outs :: f in fs.stat
  }

  ghost predicate DiscoveredOrdered(g: WfGraph, fs: Files) {
    forall b | 0 <= b < |g.builds| :: OrderedDeps(g, b, Discovered(fs.discovered, b))
  }

  ghost predicate DoneFresh(g: WfGraph, env: Env, states: seq<BuildState>, fs: Files)
    requires |states| == |g.builds|
  {
    forall b | 0 <= b < |states| && states[b] == Done && !g.builds[b].Phony() ::
      g.builds[b].Sized() && (Present(fs.disk, Touched(g, fs.discovered, b)) ==> Fresh(g, env, fs, b))
  }

  /** What was loaded from the log still stands for every build not yet finished. */
  ghost predicate Loaded(g: WfGraph, states: seq<BuildState>, fs: Files, last: map<BuildId, nat>)
    requires |states| == |g.builds|
  {
    forall b | b in last && b < |states| && states[b] !in {Done, Failed} ::
      b in fs.log && fs.log[b] == (Discovered(fs.discovered, b), last[b])
  }

  ghost predicate LogOrdered(g: WfGraph, fs: Files) {
    forall b | b in fs.log && b < |g.builds| :: OrderedDeps(g, b, fs.log[b].0)
  }

  ghost predicate FilesOk(g: WfGraph, env: Env, states: seq<BuildState>, fs: Files, last: map<BuildId, nat>)
    requires |states| == |g.builds|
  {
    && StatsAgree(g, states, fs)
    && DoneStatted(g, states, fs)
    && DiscoveredOrdered(g, fs)
    && DoneFresh(g, env, states, fs)
    && Loaded(g, states, fs, last)
    && LogOrdered(g, fs)
  }

  lemma FilesOkInitial(g: WfGraph, env: Env, states: seq<BuildState>, fs: Files, last: map<BuildId, nat>)
    requires |states| == |g.builds| && forall b | 0 <= b < |states| :: states[b] == Unknown
    requires fs.stat == map[] && forall b | 0 <= b < |g.builds| :: OrderedDeps(g, b, Discovered(fs.discovered, b))
    requires fs.log == map b | b in last :: (Discovered(fs.discovered, b), last[b])
    ensures FilesOk(g, env, states, fs, last)
  {
  }

  /** The inputs of a build past Want were all made by finished builds, or by none. */
  lemma InputsSettled(g: WfGraph, states: seq<BuildState>, fs: Files, b: BuildId, f: FileId)
    requires |states| == |g.builds| && Progressed(g, states, {}) && DiscoveredOrdered(g, fs)
    requires b < |states| && states[b] !in {Unknown, Want} && g.builds[b].Sized()
    requires f in g.builds[b].DirtyingIns() || f in Discovered(fs.discovered, b)
    ensures Maker(g, f).Some? ==> Maker(g, f).value < |states| && states[Maker(g, f).value] == Done
  {
    if Maker(g, f).Some? {
      PastWant(g, states, {}, b);
      var m := Maker(g, f).value;
      assert g.FileWellFormed(f);
      if f in g.builds[b].DirtyingIns() {
        assert f in g.builds[b].OrderingIns();
        DepsByFile(g, states, b);
        assert FileDone(g, states, f);
      } else {
        assert OrderedDeps(g, b, Discovered(fs.discovered, b));
        var q :| q in Deps(g, b) && Reaches(g, false, q, m);
        AncestorsDone(g, states, q, m);
      }
    }
  }

  lemma OutputMaker(g: WfGraph, b: BuildId, f: FileId)
    requires b < |g.builds|
    ensures f in g.builds[b].outs <==> Maker(g, f) == Some(b)
    ensures g.builds[b].Sized()
  {
    assert g.BuildWellFormed(b);
    if f < |g.files| {
      assert g.FileWellFormed(f);
    }
  }

  /** Everything the record of a finished build depends on is quiet. */
  lemma TouchedQuiet(g: WfGraph, states: seq<BuildState>, fs: Files, b: BuildId)
    requires |states| == |g.builds| && Progressed(g, states, {}) && DiscoveredOrdered(g, fs)
    requires b < |states| && states[b] == Done
    ensures g.builds[b].Sized()
    ensures forall f | f in Touched(g, fs.discovered, b) :: Quiet(g, states, f)
  {
    OutputMaker(g, b, 0);
    forall f | f in Touched(g, fs.discovered, b)
      ensures Quiet(g, states, f)
    {
      if f in g.builds[b].outs {
        OutputMaker(g, b, f);
      } else {
        InputsSettled(g, states, fs, b, f);
      }
    }
  }

  // ---- What keeps it. ----

  /** A hygienic environment writes only the outputs of running builds. */
  ghost predicate WritesOnlyRunning(g: Graph, states: seq<BuildState>, disk: map<FileId, nat>, disk': map<FileId, nat>) {
    forall f {:trigger Stat(disk', f)} :: Quiet(g, states, f) ==> Stat(disk', f) == Stat(disk, f)
  }

  lemma FilesOkTick(g: WfGraph, env: Env, states: seq<BuildState>, fs: Files, fs': Files, last: map<BuildId, nat>)
    requires |states| == |g.builds| && Progressed(g, states, {}) && FilesOk(g, env, states, fs, last)
    requires fs' == fs.(disk := fs'.disk) && WritesOnlyRunning(g, states, fs.disk, fs'.disk)
    ensures FilesOk(g, env, states, fs', last)
  {
    forall b | 0 <= b < |states| && states[b] == Done && !g.builds[b].Phony()
      ensures g.builds[b].Sized() && (Present(fs'.disk, Touched(g, fs.discovered, b)) ==> Fresh(g, env, fs', b))
    {
      TouchedQuiet(g, states, fs, b);
      assert forall f | f in Touched(g, fs.discovered, b) :: Stat(fs'.disk, f) == Stat(fs.disk, f);
      if Present(fs'.disk, Touched(g, fs.discovered, b)) {
        assert Present(fs.disk, Touched(g, fs.discovered, b));
        SameHash(g, env, fs.disk, fs'.disk, fs.discovered, b);
      }
    }
  }

  /** Stats only ever add or refresh entries of the cache. */
  ghost predicate Restatted(disk: map<FileId, nat>, stat: map<FileId, Option<nat>>, stat': map<FileId, Option<nat>>) {
    && stat.Keys <= stat'.Keys
    && forall f | f in stat' :: stat'[f] == Stat(disk, f) || (f in stat && stat'[f] == stat[f])
  }

  lemma FilesOkStat(g: WfGraph, env: Env, states: seq<BuildState>, fs: Files, fs': Files, last: map<BuildId, nat>)
    requires |states| == |g.builds| && FilesOk(g, env, states, fs, last)
    requires fs' == fs.(stat := fs'.stat) && Restatted(fs.disk, fs.stat, fs'.stat)
    ensures FilesOk(g, env, states, fs', last)
  {
    forall b | 0 <= b < |states| && states[b] == Done && !g.builds[b].Phony() && Present(fs.disk, Touched(g, fs.discovered, b))
      ensures Fresh(g, env, fs', b)
    {
      assert Fresh(g, env, fs, b);
    }
  }

  lemma RestattedTrans(disk: map<FileId, nat>, a: map<FileId, Option<nat>>, b: map<FileId, Option<nat>>,
                       c: map<FileId, Option<nat>>)
    requires Restatted(disk, a, b) && Restatted(disk, b, c)
    ensures Restatted(disk, a, c)
  {
  }

  /** For the inputs of a ready build the stat cache tells the truth, and knows every generated one. */
  lemma InputsStatted(g: WfGraph, env: Env, states: seq<BuildState>, fs: Files, last: map<BuildId, nat>, b: BuildId,
                      f: FileId)
    requires |states| == |g.builds| && Progressed(g, states, {}) && FilesOk(g, env, states, fs, last)
    requires b < |states| && states[b] !in {Unknown, Want} && g.builds[b].Sized()
    requires f in g.builds[b].DirtyingIns() || f in Discovered(fs.discovered, b)
    ensures f in fs.stat ==> fs.stat[f] == Stat(fs.disk, f)
    ensures Maker(g, f).Some? ==> f in fs.stat
  {
    InputsSettled(g, states, fs, b, f);
    if Maker(g, f).Some? {
      OutputMaker(g, Maker(g, f).value, f);
    }
    assert Quiet(g, states, f);
  }

  /** What the dirty check answers, in terms of the stat cache it leaves behind. */
  ghost predicate UpToDate(g: Graph, env: Env, times: map<FileId, nat>, discovered: map<BuildId, seq<FileId>>,
                           last: map<BuildId, nat>, b: BuildId)
    requires b < |g.builds| && g.builds[b].Sized()
  {
    Present(times, Touched(g, discovered, b)) && b in last && last[b] == HashOf(g, env, times, discovered, b)
  }

  /** The record of `b` is the hash of `was`, and the hash function tells it apart from what the build is now. */
  ghost predicate Recognises(was: Written, g: Graph, env: Env, times: map<FileId, nat>, discovered: map<BuildId, seq<FileId>>,
                             last: map<BuildId, nat>, b: BuildId)
    requires b < |g.builds| && g.builds[b].Sized()
  {
    && was.Fits() && b in last && last[b] == env.hash(was.Stream())
    && var now := Written(g, b, env, Discovered(discovered, b), times);
    now.Fits() ==> env.hash(now.Stream()) == env.hash(was.Stream()) ==> now.Stream() == was.Stream()
  }

  /** Then a build is out of date exactly when a file is missing or anything has changed since. */
  lemma ChangeIsSeen(was: Written, g: Graph, env: Env, times: map<FileId, nat>, discovered: map<BuildId, seq<FileId>>,
                     last: map<BuildId, nat>, b: BuildId)
    requires b < |g.builds| && g.builds[b].Sized() && Recognises(was, g, env, times, discovered, last, b)
    ensures var now := Written(g, b, env, Discovered(discovered, b), times);
            UpToDate(g, env, times, discovered, last, b) <==> now.Fits() && Alike(was, now)
  {
    hide Tokens, Entries, Alike;
    var now := Written(g, b, env, Discovered(discovered, b), times);
    TouchedAt(g, discovered, b);
    assert now.Fits() <==> Present(times, Touched(g, discovered, b));
    if now.Fits() {
      StreamTells(was, now);
    }
  }

  /** `dirty` says whether anything has changed since the recorded hash was taken. */
  ghost predicate SeesChange(was: Written, g: Graph, env: Env, times: map<FileId, nat>, discovered: map<BuildId, seq<FileId>>,
                             last: map<BuildId, nat>, b: BuildId, dirty: bool)
    requires b < |g.builds| && g.builds[b].Sized()
  {
    var now := Written(g, b, env, Discovered(discovered, b), times);
    Recognises(was, g, env, times, discovered, last, b) ==> (dirty <==> !(now.Fits() && Alike(was, now)))
  }

  lemma SeesEachChange(g: Graph, env: Env, times: map<FileId, nat>, discovered: map<BuildId, seq<FileId>>,
                       last: map<BuildId, nat>, b: BuildId, dirty: bool)
    requires b < |g.builds| && g.builds[b].Sized()
    requires dirty <==> !UpToDate(g, env, times, discovered, last, b)
    ensures forall was :: SeesChange(was, g, env, times, discovered, last, b, dirty)
  {
    hide Alike, UpToDate, Recognises;
    forall was
      ensures SeesChange(was, g, env, times, discovered, last, b, dirty)
    {
      if Recognises(was, g, env, times, discovered, last, b) {
        ChangeIsSeen(was, g, env, times, discovered, last, b);
      }
    }
  }

  /** What is learnt of an input: nothing if it is generated and was never stat-ed, otherwise its time, if it has one. */
  function Learnt(g: Graph, stat: map<FileId, Option<nat>>, disk: map<FileId, nat>, f: FileId): Option<Option<nat>> {
    if f in stat then Some(stat[f]) else if Maker(g, f).Some? then None else Some(Stat(disk, f))
  }

  predicate Fine(g: Graph, stat: map<FileId, Option<nat>>, disk: map<FileId, nat>, f: FileId) {
    var l := Learnt(g, stat, disk, f); l.Some? && l.value.Some?
  }

  /** The first of `fs` that is missing or that nothing is known of. */
  ghost predicate FirstBad(g: Graph, stat: map<FileId, Option<nat>>, disk: map<FileId, nat>, fs: seq<FileId>, i: int) {
    0 <= i < |fs| && !Fine(g, stat, disk, fs[i]) && forall k | 0 <= k < i :: Fine(g, stat, disk, fs[k])
  }

  /** A file of the build was found missing, or everything was statted. */
  ghost predicate FoundMissing(g: WfGraph, fs: Files, b: BuildId)
    requires b < |g.builds| && g.builds[b].Sized()
  {
    exists f :: f in Touched(g, fs.discovered, b) && f in fs.stat && fs.stat[f].None?
  }

  /** The error the dirty check reports on: an unordered generated input, or a missing source. */
  ghost predicate BadInput(g: WfGraph, stat: map<FileId, Option<nat>>, fs: Files, b: BuildId, f: FileId)
    requires b < |g.builds| && g.builds[b].Sized()
  {
    && (f in g.builds[b].DirtyingIns() || f in Discovered(fs.discovered, b))
    && ((Maker(g, f).Some? && f !in stat) || (Maker(g, f).None? && f in fs.stat && fs.stat[f].None?))
  }

  lemma TouchedStatted(g: WfGraph, env: Env, states: seq<BuildState>, fs: Files, last: map<BuildId, nat>, b: BuildId)
    requires |states| == |g.builds| && Progressed(g, states, {}) && FilesOk(g, env, states, fs, last)
    requires b < |states| && states[b] !in {Unknown, Want, Running, Failed} && g.builds[b].Sized()
    ensures forall f | f in Touched(g, fs.discovered, b) && f in fs.stat :: fs.stat[f] == Stat(fs.disk, f)
  {
    forall f | f in Touched(g, fs.discovered, b) && f in fs.stat
      ensures fs.stat[f] == Stat(fs.disk, f)
    {
      if f in g.builds[b].outs {
        OutputMaker(g, b, f);
        assert Quiet(g, states, f);
      } else {
        InputsStatted(g, env, states, fs, last, b, f);
      }
    }
  }

  /** A build found up to date has a fresh record. */
  lemma CleanIsFresh(g: WfGraph, env: Env, states: seq<BuildState>, fs: Files, last: map<BuildId, nat>,
                     times: map<FileId, nat>, b: BuildId)
    requires |states| == |g.builds| && Progressed(g, states, {}) && FilesOk(g, env, states, fs, last)
    requires b < |states| && states[b] == Ready && g.builds[b].Sized()
    requires forall f :: f in times <==> f in fs.stat && fs.stat[f].Some?
    requires forall f | f in times :: Some(times[f]) == fs.stat[f]
    requires UpToDate(g, env, times, fs.discovered, last, b)
    ensures Fresh(g, env, fs, b)
  {
    TouchedStatted(g, env, states, fs, last, b);
    forall f | f in Touched(g, fs.discovered, b)
      ensures f in fs.disk && fs.disk[f] == times[f]
    {
      assert f in times;
    }
    SameHash(g, env, times, fs.disk, fs.discovered, b);
  }

  /** In a null rebuild the check of a ready build finds nothing to do. */
  lemma NullIsClean(g: WfGraph, env: Env, states: seq<BuildState>, before: Files, fs: Files, last: map<BuildId, nat>,
                    times: map<FileId, nat>, b: BuildId)
    requires |states| == |g.builds| && Progressed(g, states, {})
    requires FilesOk(g, env, states, before, last) && AllFresh(g, env, states, before, last)
    requires fs == before.(stat := fs.stat) && Restatted(before.disk, before.stat, fs.stat)
    requires b < |states| && states[b] == Ready && g.builds[b].Sized() && !g.builds[b].Phony()
    requires forall f :: f in times <==> f in fs.stat && fs.stat[f].Some?
    requires forall f | f in times :: Some(times[f]) == fs.stat[f]
    ensures !FoundMissing(g, fs, b)
    ensures Present(times, Touched(g, fs.discovered, b)) ==> UpToDate(g, env, times, fs.discovered, last, b)
    ensures forall f :: !BadInput(g, before.stat, fs, b, f)
  {
    FilesOkStat(g, env, states, before, fs, last);
    TouchedStatted(g, env, states, fs, last, b);
    if Present(times, Touched(g, fs.discovered, b)) {
      SameHash(g, env, times, fs.disk, fs.discovered, b);
    }
    forall f
      ensures !BadInput(g, before.stat, fs, b, f)
    {
      if f in g.builds[b].DirtyingIns() || f in Discovered(fs.discovered, b) {
        assert f in Touched(g, fs.discovered, b);
        InputsStatted(g, env, states, before, last, b, f);
      }
    }
  }

  /** A state change that finishes nothing and hides no half-written file. */
  lemma FilesOkMove(g: WfGraph, env: Env, states: seq<BuildState>, fs: Files, last: map<BuildId, nat>,
                    id: BuildId, state: BuildState)
    requires |states| == |g.builds| && FilesOk(g, env, states, fs, last) && id < |states|
    requires state != Done && states[id] !in {Done, Failed}
    requires states[id] == Running ==> state == Failed
    ensures FilesOk(g, env, states[id := state], fs, last)
  {
    forall f | Quiet(g, states[id := state], f)
      ensures Quiet(g, states, f)
    {
    }
  }

  lemma FilesOkWalk(g: WfGraph, env: Env, states: seq<BuildState>, states': seq<BuildState>, fs: Files,
                    last: map<BuildId, nat>,
                    limit: set<BuildId>)
    requires |states| == |g.builds| && FilesOk(g, env, states, fs, last) && OnlyWants(states, states', limit)
    ensures FilesOk(g, env, states', fs, last)
  {
    forall f | Quiet(g, states', f)
      ensures Quiet(g, states, f)
    {
    }
  }

  /** Finishing a build whose outputs have just been statted and whose record is up to date. */
  lemma FilesOkDone(g: WfGraph, env: Env, states: seq<BuildState>, fs: Files, last: map<BuildId, nat>, id: BuildId)
    requires |states| == |g.builds| && FilesOk(g, env, states, fs, last)
    requires id < |states| && g.builds[id].Sized()
    requires forall f | f in g.builds[id].outs :: f in fs.stat && fs.stat[f] == Stat(fs.disk, f)
    requires g.builds[id].Phony() || (Present(fs.disk, Touched(g, fs.discovered, id)) ==> Fresh(g, env, fs, id))
    ensures FilesOk(g, env, states[id := Done], fs, last)
  {
    forall f | f in fs.stat && Quiet(g, states[id := Done], f)
      ensures fs.stat[f] == Stat(fs.disk, f)
    {
      if Maker(g, f) == Some(id) {
        OutputMaker(g, id, f);
      } else {
        assert Quiet(g, states, f);
      }
    }
  }

  /** Finishing a build that ran: new discovered inputs, and a log entry unless a file is missing. */
  lemma FilesOkRecorded(g: WfGraph, env: Env, states: seq<BuildState>, fs: Files, fs': Files, last: map<BuildId, nat>,
                        id: BuildId)
    requires |states| == |g.builds| && FilesOk(g, env, states, fs, last)
    requires id < |states| && states[id] !in {Done, Failed} && g.builds[id].Sized()
    requires fs'.disk == fs.disk && Restatted(fs.disk, fs.stat, fs'.stat)
    requires fs'.discovered == fs.discovered[id := Discovered(fs'.discovered, id)]
    requires OrderedDeps(g, id, Discovered(fs'.discovered, id))
    requires forall b | b != id :: b in fs'.log <==> b in fs.log
    requires forall b | b != id && b in fs.log :: fs'.log[b] == fs.log[b]
    requires id in fs'.log ==> fs'.log[id].0 == Discovered(fs'.discovered, id) || (id in fs.log && fs'.log[id] == fs.log[id])
    requires forall f | f in g.builds[id].outs :: f in fs'.stat && fs'.stat[f] == Stat(fs.disk, f)
    requires g.builds[id].Phony() || (Present(fs.disk, Touched(g, fs'.discovered, id)) ==> Fresh(g, env, fs', id))
    ensures FilesOk(g, env, states[id := Done], fs', last)
  {
    var fs1 := fs.(stat := fs'.stat);
    FilesOkStat(g, env, states, fs, fs1, last);
    forall f | f in fs'.stat && Quiet(g, states[id := Done], f)
      ensures fs'.stat[f] == Stat(fs.disk, f)
    {
      if Maker(g, f) == Some(id) {
        OutputMaker(g, id, f);
      } else {
        assert Quiet(g, states, f);
      }
    }
    forall b | 0 <= b < |g.builds| && b != id
      ensures OrderedDeps(g, b, Discovered(fs'.discovered, b))
    {
      assert Discovered(fs'.discovered, b) == Discovered(fs.discovered, b);
    }
    forall b | 0 <= b < |states| && states[b] == Done && b != id && !g.builds[b].Phony()
      ensures Present(fs'.disk, Touched(g, fs'.discovered, b)) ==> Fresh(g, env, fs', b)
    {
      assert Discovered(fs'.discovered, b) == Discovered(fs.discovered, b);
    }
  }

  // ---- Why builds are settled. ----

  /** What `b` was found to read is what its command reported, apart from the inputs it declares, each file once. */
  ghost predicate Reported(g: Graph, env: Env, discovered: map<BuildId, seq<FileId>>, b: BuildId)
    requires b < |g.builds| && g.builds[b].Sized()
  {
    && NoDup(Discovered(discovered, b))
    && Elements(Discovered(discovered, b))
       == (if env.deps(b).Some? then Elements(env.deps(b).value) else {}) - Elements(g.builds[b].DirtyingIns())
  }

  /**
   Some file times match the loaded record of `b`; in a hygienic environment they
   are those on disk.
   */
  ghost predicate WasClean(g: Graph, env: Env, disk: map<FileId, nat>, discovered: map<BuildId, seq<FileId>>,
                           last: map<BuildId, nat>, b: BuildId)
    requires b < |g.builds| && g.builds[b].Sized()
  {
    exists times :: UpToDate(g, env, times, discovered, last, b) && (env.hygienic ==> OnDisk(g, disk, times, discovered, b))
  }

  ghost predicate OnDisk(g: Graph, disk: map<FileId, nat>, times: map<FileId, nat>, discovered: map<BuildId, seq<FileId>>,
                         b: BuildId)
    requires b < |g.builds| && g.builds[b].Sized()
  {
    forall f | f in Touched(g, discovered, b) :: f in times && f in disk && disk[f] == times[f]
  }

  /**
   The grounds on which `b` may be Done. If its command was started, it ended well
   and what it reported is known. If not, there is no command, or the record was up
   to date, or the build is adopted.
   */
  ghost predicate Earned(g: Graph, env: Env, adopt: bool, started: bool, disk: map<FileId, nat>,
                         discovered: map<BuildId, seq<FileId>>, last: map<BuildId, nat>, b: BuildId)
  {
    && b < |g.builds| && g.builds[b].Sized()
    && if started then env.outcome(b).Success? && Reported(g, env, discovered, b)
       else g.builds[b].Phony() || WasClean(g, env, disk, discovered, last, b) || (adopt && Discovered(discovered, b) == [])
  }

  /**
   Every event has its reason: a build is settled on the grounds above, it breaks
   only because its command was started and failed, and when builds are adopted no
   command is needed.
   */
  ghost predicate Explained(g: Graph, env: Env, adopt: bool, states: seq<BuildState>, trace: seq<Event>, disk: map<FileId, nat>,
                            discovered: map<BuildId, seq<FileId>>, last: map<BuildId, nat>)
  {
    && (forall b: nat :: Settled(b) in trace ==> Earned(g, env, adopt, Started(b) in trace, disk, discovered, last, b))
    && (forall b: nat :: Broke(b) in trace ==> Started(b) in trace && env.outcome(b).Failure?)
    && StartsFirst(trace)
    && (adopt ==> Unneeded(states))
  }

  /** A command is started before anything else happens to its build. */
  ghost predicate StartsFirst(trace: seq<Event>) {
    forall i, j | 0 <= i < j < |trace| && trace[j].Started? :: trace[i].id != trace[j].id
  }

  lemma ExplainedInitial(g: Graph, env: Env, adopt: bool, states: seq<BuildState>, disk: map<FileId, nat>,
                         discovered: map<BuildId, seq<FileId>>, last: map<BuildId, nat>)
    requires forall b | 0 <= b < |states| :: states[b] == Unknown
    ensures Explained(g, env, adopt, states, [], disk, discovered, last)
  {
  }

  lemma ExplainedWalk(g: Graph, env: Env, adopt: bool, states: seq<BuildState>, states': seq<BuildState>, trace: seq<Event>,
                      disk: map<FileId, nat>, discovered: map<BuildId, seq<FileId>>, last: map<BuildId, nat>, limit: set<BuildId>)
    requires Explained(g, env, adopt, states, trace, disk, discovered, last) && OnlyWants(states, states', limit)
    ensures Explained(g, env, adopt, states', trace, disk, discovered, last)
  {
  }

  /** One state change with its event. */
  lemma ExplainedStep(g: WfGraph, env: Env, adopt: bool, states: seq<BuildState>, trace: seq<Event>, disk: map<FileId, nat>,
                      discovered: map<BuildId, seq<FileId>>, last: map<BuildId, nat>, id: BuildId, state: BuildState)
    requires |states| == |g.builds| && HistoryOk(g, states, trace) && id < |states| && states[id] !in {Done, Failed}
    requires Explained(g, env, adopt, states, trace, disk, discovered, last)
    requires state == Queued ==> !adopt
    requires state == Running ==> states[id] == Queued
    requires state == Failed ==> states[id] == Running && env.outcome(id).Failure?
    requires state == Done ==> Earned(g, env, adopt, states[id] == Running, disk, discovered, last, id)
    requires states[id] == Running ==> state in {Done, Failed}
    ensures Explained(g, env, adopt, states[id := state], trace + EventsOf(id, state), disk, discovered, last)
  {
    hide Earned, InOrder;
    var after := trace + EventsOf(id, state);
    assert forall e :: e in after <==> e in trace || e in EventsOf(id, state);
    NoEventYet(g, states, trace, id);
    assert Started(id) in trace <==> states[id] == Running;
    forall b: nat | Settled(b) in after
      ensures Earned(g, env, adopt, Started(b) in after, disk, discovered, last, b)
    {
      assert b != id ==> Settled(b) in trace && (Started(b) in after <==> Started(b) in trace);
    }
  }

  lemma NoEventYet(g: WfGraph, states: seq<BuildState>, trace: seq<Event>, id: BuildId)
    requires |states| == |g.builds| && HistoryOk(g, states, trace) && id < |states| && states[id] !in {Done, Failed}
    ensures Started(id) in trace <==> states[id] == Running
    ensures Settled(id) !in trace && Broke(id) !in trace
    ensures states[id] != Running ==> forall i | 0 <= i < |trace| :: trace[i].id != id
  {
    forall i | 0 <= i < |trace| && trace[i].id == id
      ensures states[id] == Running
    {
      assert trace[i] in trace && trace[i] in {Started(id), Settled(id), Broke(id)};
    }
  }

  /** What is written on disk while commands run changes nothing about finished builds. */
  lemma ExplainedTick(g: WfGraph, env: Env, adopt: bool, states: seq<BuildState>, trace: seq<Event>, fs: Files,
                      disk': map<FileId, nat>, last: map<BuildId, nat>)
    requires |states| == |g.builds| && HistoryOk(g, states, trace) && Progressed(g, states, {})
    requires Explained(g, env, adopt, states, trace, fs.disk, fs.discovered, last)
    requires env.hygienic ==> FilesOk(g, env, states, fs, last) && WritesOnlyRunning(g, states, fs.disk, disk')
    ensures Explained(g, env, adopt, states, trace, disk', fs.discovered, last)
  {
    hide UpToDate, Touched, Progressed, StatsAgree, DoneStatted, DoneFresh, Loaded, LogOrdered;
    forall b: nat | Settled(b) in trace
      ensures Earned(g, env, adopt, Started(b) in trace, disk', fs.discovered, last, b)
    {
      assert Earned(g, env, adopt, Started(b) in trace, fs.disk, fs.discovered, last, b);
      if WasClean(g, env, fs.disk, fs.discovered, last, b) {
        CleanStays(g, env, states, fs, disk', last, b);
      }
    }
  }

  lemma CleanStays(g: WfGraph, env: Env, states: seq<BuildState>, fs: Files, disk': map<FileId, nat>, last: map<BuildId, nat>,
                   b: BuildId)
    requires |states| == |g.builds| && Progressed(g, states, {}) && b < |states| && states[b] == Done && g.builds[b].Sized()
    requires env.hygienic ==> DiscoveredOrdered(g, fs) && WritesOnlyRunning(g, states, fs.disk, disk')
    requires WasClean(g, env, fs.disk, fs.discovered, last, b)
    ensures WasClean(g, env, disk', fs.discovered, last, b)
  {
    hide UpToDate, Touched;
    var times :| UpToDate(g, env, times, fs.discovered, last, b) && (env.hygienic ==> OnDisk(g, fs.disk, times, fs.discovered, b));
    if env.hygienic {
      TouchedQuiet(g, states, fs, b);
      assert forall f | f in Touched(g, fs.discovered, b) :: Stat(disk', f) == Stat(fs.disk, f);
    }
    assert UpToDate(g, env, times, fs.discovered, last, b) && (env.hygienic ==> OnDisk(g, disk', times, fs.discovered, b));
  }

  /** What one build is found to read says nothing about the others. */
  lemma ExplainedRecorded(g: WfGraph, env: Env, adopt: bool, states: seq<BuildState>, trace: seq<Event>, disk: map<FileId, nat>,
                          discovered: map<BuildId, seq<FileId>>, discovered': map<BuildId, seq<FileId>>,
                          last: map<BuildId, nat>, id: BuildId)
    requires |states| == |g.builds| && HistoryOk(g, states, trace) && id < |states| && states[id] != Done
    requires Explained(g, env, adopt, states, trace, disk, discovered, last)
    requires forall b | b != id :: Discovered(discovered', b) == Discovered(discovered, b)
    ensures Explained(g, env, adopt, states, trace, disk, discovered', last)
  {
    forall b: nat | Settled(b) in trace
      ensures Earned(g, env, adopt, Started(b) in trace, disk, discovered', last, b)
    {
      assert b != id && Earned(g, env, adopt, Started(b) in trace, disk, discovered, last, b);
      SameTouched(g, env, disk, discovered, discovered', last, b);
    }
  }

  lemma SameTouched(g: Graph, env: Env, disk: map<FileId, nat>, discovered: map<BuildId, seq<FileId>>,
                    discovered': map<BuildId, seq<FileId>>, last: map<BuildId, nat>, b: BuildId)
    requires b < |g.builds| && g.builds[b].Sized() && Discovered(discovered', b) == Discovered(discovered, b)
    ensures WasClean(g, env, disk, discovered', last, b) <==> WasClean(g, env, disk, discovered, last, b)
  {
    assert Touched(g, discovered', b) == Touched(g, discovered, b);
    forall times
      ensures UpToDate(g, env, times, discovered', last, b) <==> UpToDate(g, env, times, discovered, last, b)
      ensures OnDisk(g, disk, times, discovered', b) <==> OnDisk(g, disk, times, discovered, b)
    {
    }
  }

  /** The times of a clean verdict are those on disk. */
  lemma CleanOnDisk(g: WfGraph, env: Env, states: seq<BuildState>, fs: Files, last: map<BuildId, nat>,
                    times: map<FileId, nat>, b: BuildId)
    requires |states| == |g.builds| && Progressed(g, states, {})
    requires env.hygienic ==> FilesOk(g, env, states, fs, last)
    requires b < |states| && states[b] == Ready && g.builds[b].Sized()
    requires forall f :: f in times <==> f in fs.stat && fs.stat[f].Some?
    requires forall f | f in times :: Some(times[f]) == fs.stat[f]
    requires UpToDate(g, env, times, fs.discovered, last, b)
    ensures WasClean(g, env, fs.disk, fs.discovered, last, b)
  {
    if env.hygienic {
      TouchedStatted(g, env, states, fs, last, b);
      forall f | f in Touched(g, fs.discovered, b)
        ensures f in fs.disk && fs.disk[f] == times[f]
      {
        assert f in times;
      }
    }
    assert UpToDate(g, env, times, fs.discovered, last, b) && (env.hygienic ==> OnDisk(g, fs.disk, times, fs.discovered, b));
  }

  /** When nothing runs, the commands that were started have ended, and each as the state says. */
  lemma ExplainedIdle(g: WfGraph, env: Env, adopt: bool, states: seq<BuildState>, trace: seq<Event>, disk: map<FileId, nat>,
                      discovered: map<BuildId, seq<FileId>>, last: map<BuildId, nat>)
    requires |states| == |g.builds| && HistoryOk(g, states, trace) && Idle(states)
    requires Explained(g, env, adopt, states, trace, disk, discovered, last)
    ensures AllEnded(env, trace)
    ensures AllDoneOrUnknown(states) ==> AllSucceeded(env, trace)
  {
    hide InOrder;
    forall b: nat | Started(b) in trace
      ensures !env.outcome(b).Interrupted?
      ensures Settled(b) in trace <==> env.outcome(b).Success?
      ensures Broke(b) in trace <==> env.outcome(b).Failure?
    {
      assert states[b] in {Done, Failed};
      assert states[b] == Done ==> Earned(g, env, adopt, true, disk, discovered, last, b);
    }
  }

  /** Each command that was started has ended: settled if it succeeded, broken if it failed. */
  ghost predicate AllEnded(env: Env, trace: seq<Event>) {
    forall b: nat | Started(b) in trace ::
      && !env.outcome(b).Interrupted?
      && (Settled(b) in trace <==> env.outcome(b).Success?)
      && (Broke(b) in trace <==> env.outcome(b).Failure?)
  }

  /** No command that was started failed or was interrupted. */
  ghost predicate AllSucceeded(env: Env, trace: seq<Event>) {
    forall b: nat | Started(b) in trace :: env.outcome(b).Success?
  }

  // ---- The null rebuild. ----

  /** Every wanted command's record, as loaded, matches the disk, and no file is missing. */
  ghost predicate AllFresh(g: WfGraph, env: Env, states: seq<BuildState>, fs: Files, last: map<BuildId, nat>)
    requires |states| == |g.builds|
  {
    forall b | 0 <= b < |states| && states[b] != Unknown && !g.builds[b].Phony() ::
      g.builds[b].Sized() && Present(fs.disk, Touched(g, fs.discovered, b)) &&
      b in last && last[b] == HashOf(g, env, fs.disk, fs.discovered, b)
  }

  /** No command has been needed so far. */
  ghost predicate Unneeded(states: seq<BuildState>) {
    forall b | 0 <= b < |states| :: states[b] !in {Queued, Running, Failed}
  }

  /** With nothing running, a hygienic environment leaves the disk alone. */
  lemma QuietDisk(g: WfGraph, states: seq<BuildState>, disk: map<FileId, nat>, disk': map<FileId, nat>)
    requires |states| == |g.builds| && Unneeded(states) && WritesOnlyRunning(g, states, disk, disk')
    ensures disk' == disk
  {
    forall f: FileId
      ensures Stat(disk', f) == Stat(disk, f)
    {
      if f < |g.files| {
        assert g.FileWellFormed(f);
      }
      assert Quiet(g, states, f);
    }
    assert forall f :: f in disk <==> Stat(disk, f).Some?;
    assert forall f :: f in disk' <==> Stat(disk', f).Some?;
    assert disk'.Keys == disk.Keys;
    assert forall f | f in disk :: Stat(disk', f) == Stat(disk, f);
  }
}
