/**
 n2 from one build to the next: what a run logs is written to the bytes of
 the build log, and the next session, which may number its files otherwise,
 reads them back. Names are what the two have in common.
 */
module N2Log {
  import opened Wrappers
  import opened BuildGraph
  import opened Db
  import opened DbFormat
  import opened DbLog
  import opened GraphStore
  import opened N2Disk
  import opened N2Progress
  import opened N2States
  import opened N2Work
  import opened Ordering
  import opened Sequences
  import opened WantWalk
  import DbReader
  import Manifest

  function Named(name: FileId -> string, fs: seq<FileId>): (r: seq<string>)
    ensures |r| == |fs| && forall k | 0 <= k < |fs| :: r[k] == name(fs[k])
  {
    seq(|fs|, k requires 0 <= k < |fs| => name(fs[k]))
  }

  /** No two ids stand for one name, and the files of the graph have the names they are known by. */
  ghost predicate NamesAgree(env: Env, files: seq<File>) {
    && (forall f: nat | f < |files| :: env.name(f) == files[f].name)
    && (forall f, f' | env.name(f) == env.name(f') :: f == f')
  }

  /** Files of one name are the same in both: there at the same time, or missing. */
  ghost predicate SameByName(env: Env, disk: map<FileId, nat>, env': Env, disk': map<FileId, nat>) {
    forall f, f' | env.name(f) == env'.name(f') :: Stat(disk, f) == Stat(disk', f')
  }

  /** The last record of every build says, by name, what is known of it. */
  ghost predicate LogSays(fs: seq<Finish>, maker: string -> Option<BuildId>, builds: seq<Build>, name: FileId -> string,
                          log: map<BuildId, (seq<FileId>, nat)>) {
    forall b | 0 <= b < |builds| && builds[b].outs != [] ::
      && (b in log <==> LastFor(fs, maker, b).Some?)
      && (b in log ==> LastFor(fs, maker, b).value.deps == Named(name, log[b].0) && LastFor(fs, maker, b).value.hash == log[b].1)
  }

  // ---- From the run to the log. ----

  function ToEntry(builds: seq<Build>, name: FileId -> string, e: LogEntry): DbReader.Entry
    requires e.id < |builds|
  {
    DbReader.Entry(builds[e.id].outs, Named(name, e.deps), e.hash)
  }

  function ToEntries(builds: seq<Build>, name: FileId -> string, es: seq<LogEntry>): (r: seq<DbReader.Entry>)
    requires forall e | e in es :: e.id < |builds|
    ensures |r| == |es| && forall k | 0 <= k < |es| :: es[k] in es && r[k] == ToEntry(builds, name, es[k])
  {
    assert forall k | 0 <= k < |es| :: es[k] in es;
    seq(|es|, k requires 0 <= k < |es| => ToEntry(builds, name, es[k]))
  }

  /** Everything that is to be logged fits in the format, and so does the number of files. */
  predicate AllLoggable(files: seq<File>, entries: seq<DbReader.Entry>) {
    && (forall k | 0 <= k < |entries| :: DbReader.Loggable(files, entries[k]))
    && |files| + DbReader.DepCount(entries) <= Limit(3)
  }

  /** What was loaded is what the log says. */
  lemma SaysLoaded(files: seq<File>, builds: seq<Build>, fs: seq<Finish>, maker: string -> Option<BuildId>,
                   discovered: map<BuildId, seq<FileId>>, hashes: map<BuildId, nat>, env: Env)
    requires DbReader.Replayed(files, fs, maker, discovered, hashes) && NamesAgree(env, files)
    ensures LogSays(fs, maker, builds, env.name, map b | b in hashes :: (Discovered(discovered, b), hashes[b]))
  {
    hide LastFor;
    forall b | b in hashes
      ensures LastFor(fs, maker, b).Some? && LastFor(fs, maker, b).value.deps == Named(env.name, discovered[b])
    {
      assert DbReader.ReplayedBuild(files, LastFor(fs, maker, b), discovered[b], hashes[b]);
      NamedByFiles(files, env, discovered[b]);
    }
  }

  lemma NamedByFiles(files: seq<File>, env: Env, fs: seq<FileId>)
    requires NamesAgree(env, files) && forall f | f in fs :: f < |files|
    ensures Named(env.name, fs) == FileNames(files, fs)
  {
    assert forall k | 0 <= k < |fs| :: fs[k] in fs;
  }

  /** The names a build's outputs have all lead back to it. */
  lemma OwnOutputs(files: seq<File>, byName: map<string, FileId>, builds: seq<Build>, maker: string -> Option<BuildId>,
                   id: BuildId)
    requires Graph(builds, files).WellFormed() && Interned(files, byName) && DbReader.Agrees(files, byName, maker)
    requires id < |builds|
    ensures forall f | f in builds[id].outs :: f < |files|
    ensures Owner(Makers(maker, FileNames(files, builds[id].outs))) == if builds[id].outs == [] then None else Some(id)
  {
    var outs := builds[id].outs;
    assert Graph(builds, files).BuildWellFormed(id);
    var makers := Makers(maker, FileNames(files, outs));
    forall k | 0 <= k < |outs|
      ensures makers[k] == Some(id)
    {
      assert outs[k] in outs;
    }
    if outs != [] {
      OwnerUnchanged(makers, id);
    }
  }

  lemma SaysMore(files: seq<File>, byName: map<string, FileId>, builds: seq<Build>, maker: string -> Option<BuildId>,
                 fs: seq<Finish>, log: map<BuildId, (seq<FileId>, nat)>, name: FileId -> string, e: LogEntry)
    requires Graph(builds, files).WellFormed() && Interned(files, byName) && DbReader.Agrees(files, byName, maker)
    requires LogSays(fs, maker, builds, name, log)
    requires e.id < |builds| && DbReader.Loggable(files, ToEntry(builds, name, e))
    ensures LogSays(fs + [DbReader.FinishOf(files, ToEntry(builds, name, e))], maker, builds, name,
                    log[e.id := (e.deps, e.hash)])
  {
    hide LastFor, Owner, Makers, Interned, DbReader.Agrees;
    OwnOutputs(files, byName, builds, maker, e.id);
    var f := DbReader.FinishOf(files, ToEntry(builds, name, e));
    forall b: BuildId
      ensures LastFor(fs + [f], maker, b) ==
              if b == e.id && builds[e.id].outs != [] then Some(f) else LastFor(fs, maker, b)
    {
      DbReader.LastForMore(fs, f, maker, b);
    }
  }

  lemma {:induction false} SaysAll(files: seq<File>, byName: map<string, FileId>, builds: seq<Build>,
                                   maker: string -> Option<BuildId>, fs: seq<Finish>,
                                   known: map<BuildId, (seq<FileId>, nat)>, name: FileId -> string, es: seq<LogEntry>)
    requires Graph(builds, files).WellFormed() && Interned(files, byName) && DbReader.Agrees(files, byName, maker)
    requires LogSays(fs, maker, builds, name, known)
    requires (forall e | e in es :: e.id < |builds|)
    requires forall k | 0 <= k < |es| :: DbReader.Loggable(files, ToEntries(builds, name, es)[k])
    ensures LogSays(fs + DbReader.Entered(files, ToEntries(builds, name, es)), maker, builds, name, Relogged(known, es))
    decreases |es|
  {
    hide LogSays, Interned, DbReader.Agrees, DbReader.Loggable, DbReader.Entered, ToEntries, ToEntry, DbReader.FinishOf;
    EnteredParts(files, builds, name, es, fs);
    if es != [] {
      var n := |es| - 1;
      SaysAll(files, byName, builds, maker, fs, known, name, es[..n]);
      var before := DbReader.Entered(files, ToEntries(builds, name, es[..n]));
      SaysMore(files, byName, builds, maker, fs + before, Relogged(known, es[..n]), name, es[n]);
    }
  }

  lemma EnteredParts(files: seq<File>, builds: seq<Build>, name: FileId -> string, es: seq<LogEntry>, fs: seq<Finish>)
    requires (forall e | e in es :: e.id < |builds|)
    requires forall k | 0 <= k < |es| :: DbReader.Loggable(files, ToEntries(builds, name, es)[k])
    ensures es == [] ==> fs + DbReader.Entered(files, ToEntries(builds, name, es)) == fs
    ensures es != [] ==>
              var n := |es| - 1;
              && es[n].id < |builds| && (forall e | e in es[..n] :: e.id < |builds|)
              && (forall k | 0 <= k < n :: DbReader.Loggable(files, ToEntries(builds, name, es[..n])[k]))
              && DbReader.Loggable(files, ToEntry(builds, name, es[n]))
              && fs + DbReader.Entered(files, ToEntries(builds, name, es))
                 == fs + DbReader.Entered(files, ToEntries(builds, name, es[..n]))
                    + [DbReader.FinishOf(files, ToEntry(builds, name, es[n]))]
  {
    hide DbReader.Loggable, ToEntry, DbReader.FinishOf;
    if es != [] {
      var n := |es| - 1;
      assert es[n] in es && ToEntries(builds, name, es)[n] == ToEntry(builds, name, es[n]);
      assert forall k | 0 <= k < n :: ToEntries(builds, name, es[..n])[k] == ToEntries(builds, name, es)[k];
      assert fs + DbReader.Entered(files, ToEntries(builds, name, es))
          == fs + DbReader.Entered(files, ToEntries(builds, name, es[..n]))
             + [DbReader.FinishOf(files, ToEntry(builds, name, es[n]))];
    }
  }

  // ---- Graphs that differ in files nothing makes. ----

  /** The same builds, and the same files with more behind them. */
  ghost predicate Extends(g: Graph, g': Graph) {
    g'.builds == g.builds && g.files <= g'.files
  }

  lemma SameNext(g: WfGraph, g': WfGraph, all: bool, b: BuildId)
    requires Extends(g, g') && b < |g.builds|
    ensures Next(g', all, b) == Next(g, all, b)
  {
    assert g.BuildWellFormed(b);
    var ins := if all then g.builds[b].ins else g.builds[b].OrderingIns();
    assert forall f | f in ins :: f in g.builds[b].ins;
    assert forall f | f in ins :: Producer(g', f) == Producer(g, f);
  }

  lemma {:induction false} SamePath(g: WfGraph, g': WfGraph, all: bool, p: seq<BuildId>)
    requires Extends(g, g')
    ensures Path(g', all, p) <==> Path(g, all, p)
    decreases |p|
  {
    hide Next;
    if |p| > 1 && p[0] < |g.builds| {
      SameNext(g, g', all, p[0]);
      SamePath(g, g', all, p[1..]);
    }
  }

  lemma SameReaches(g: WfGraph, g': WfGraph, all: bool, a: BuildId, b: BuildId)
    requires Extends(g, g')
    ensures Reaches(g', all, a, b) <==> Reaches(g, all, a, b)
  {
    hide Path;
    if p :| PathFromTo(g, all, p, a, b) {
      SamePath(g, g', all, p);
      assert PathFromTo(g', all, p, a, b);
    }
    if p :| PathFromTo(g', all, p, a, b) {
      SamePath(g, g', all, p);
      assert PathFromTo(g, all, p, a, b);
    }
  }

  lemma SameReached(g: WfGraph, g': WfGraph, f: FileId)
    requires Extends(g, g') && f < |g.files|
    ensures ReachedFrom(g', f) == ReachedFrom(g, f)
    ensures CycleFrom(g', false, f) <==> CycleFrom(g, false, f)
  {
    hide Reaches;
    assert Producer(g', f) == Producer(g, f);
    forall a, b
      ensures Reaches(g', true, a, b) <==> Reaches(g, true, a, b)
    {
      SameReaches(g, g', true, a, b);
    }
    forall x
      ensures OnCycle(g', false, x) <==> OnCycle(g, false, x)
    {
      SameOnCycle(g, g', x);
    }
  }

  lemma SameOnCycle(g: WfGraph, g': WfGraph, x: BuildId)
    requires Extends(g, g')
    ensures OnCycle(g', false, x) <==> OnCycle(g, false, x)
  {
    hide Path;
    if p :| |p| >= 2 && PathFromTo(g, false, p, x, x) {
      SamePath(g, g', false, p);
      assert PathFromTo(g', false, p, x, x);
    }
    if p :| |p| >= 2 && PathFromTo(g', false, p, x, x) {
      SamePath(g, g', false, p);
      assert PathFromTo(g, false, p, x, x);
    }
  }

  /** Only builds with outputs are reached. */
  lemma ReachedHasOuts(g: WfGraph, f: FileId, b: BuildId)
    requires b in ReachedFrom(g, f)
    ensures b < |g.builds| && g.builds[b].outs != []
  {
    var p :| PathFromTo(g, true, p, Producer(g, f).value, b);
    if |p| == 1 {
      assert g.FileWellFormed(f);
    } else {
      LastStep(g, p);
    }
  }

  lemma {:induction false} LastStep(g: WfGraph, p: seq<BuildId>)
    requires Path(g, true, p) && |p| >= 2
    ensures p[|p| - 1] < |g.builds| && g.builds[p[|p| - 1]].outs != []
    decreases |p|
  {
    if |p| == 2 {
      assert g.BuildWellFormed(p[0]);
      var f :| f in g.builds[p[0]].ins && Producer(g, f) == Some(p[1]);
      assert g.FileWellFormed(f);
    } else {
      LastStep(g, p[1..]);
    }
  }

  // ---- The order of logged inputs. ----

  /** Logged inputs that something makes come from builds ordered before. */
  ghost predicate OrderedByName(g: WfGraph, maker: string -> Option<BuildId>, fs: seq<Finish>) {
    forall b | 0 <= b < |g.builds| && LastFor(fs, maker, b).Some? ::
      forall n | n in LastFor(fs, maker, b).value.deps && maker(n).Some? :: MadeBefore(g, b, maker(n).value)
  }

  ghost predicate MadeBefore(g: WfGraph, b: BuildId, p: BuildId)
    requires b < |g.builds|
  {
    exists q :: q in Deps(g, b) && Reaches(g, false, q, p)
  }

  lemma SameMadeBefore(g: WfGraph, g': WfGraph, b: BuildId, p: BuildId)
    requires Extends(g, g') && b < |g.builds|
    ensures MadeBefore(g', b, p) <==> MadeBefore(g, b, p)
  {
    hide Reaches;
    SameNext(g, g', false, b);
    forall q
      ensures Reaches(g', false, q, p) <==> Reaches(g, false, q, p)
    {
      SameReaches(g, g', false, q, p);
    }
  }

  /** What is loaded from such a log is ordered. */
  lemma OrderedLoaded(g: WfGraph, g': WfGraph, byName': map<string, FileId>, maker: string -> Option<BuildId>,
                      fs: seq<Finish>, discovered: map<BuildId, seq<FileId>>, hashes: map<BuildId, nat>, b: BuildId)
    requires Extends(g, g') && Interned(g'.files, byName') && DbReader.Agrees(g'.files, byName', maker)
    requires OrderedByName(g, maker, fs) && DbReader.Replayed(g'.files, fs, maker, discovered, hashes)
    requires b < |g.builds|
    ensures OrderedDeps(g', b, Discovered(discovered, b))
  {
    hide LastFor, Reaches, Deps;
    var deps := Discovered(discovered, b);
    forall f | f in deps && Maker(g', f).Some?
      ensures MadeBefore(g', b, Maker(g', f).value)
    {
      var last := LastFor(fs, maker, b);
      assert DbReader.ReplayedBuild(g'.files, last, discovered[b], hashes[b]);
      var k :| 0 <= k < |deps| && deps[k] == f;
      assert FileNames(g'.files, deps)[k] == g'.files[f].name && g'.files[f].name in last.value.deps;
      assert maker(g'.files[f].name) == Maker(g', f);
      SameMadeBefore(g, g', b, Maker(g', f).value);
    }
  }

  /** A build with a record makes something. */
  lemma {:induction false} LastHasOuts(files: seq<File>, byName: map<string, FileId>, builds: seq<Build>,
                                       maker: string -> Option<BuildId>, fs: seq<Finish>, b: BuildId)
    requires Graph(builds, files).WellFormed() && DbReader.Agrees(files, byName, maker)
    requires LastFor(fs, maker, b).Some?
    ensures b < |builds| && builds[b].outs != []
    decreases |fs|
  {
    var n := |fs| - 1;
    var makers := Makers(maker, fs[n].outs);
    if Owner(makers) == Some(b) {
      assert makers[0] == Some(b) && makers[0] == maker(fs[n].outs[0]) == DbReader.MakerOf(files, byName, fs[n].outs[0]);
      assert Graph(builds, files).FileWellFormed(byName[fs[n].outs[0]]);
    } else {
      LastHasOuts(files, byName, builds, maker, fs[..n], b);
    }
  }

  /** What an orderly run leaves in the log is ordered. */
  lemma OrderedLogged(g: WfGraph, g': WfGraph, byName': map<string, FileId>, maker: string -> Option<BuildId>,
                      fs: seq<Finish>, env: Env, files: Files)
    requires Extends(g, g') && Interned(g'.files, byName') && DbReader.Agrees(g'.files, byName', maker)
    requires NamesAgree(env, g'.files) && LogOrdered(g', files)
    requires LogSays(fs, maker, g.builds, env.name, files.log)
    ensures OrderedByName(g, maker, fs)
  {
    hide LastFor, Reaches, Deps;
    forall b, n | 0 <= b < |g.builds| && LastFor(fs, maker, b).Some? && n in LastFor(fs, maker, b).value.deps && maker(n).Some?
      ensures MadeBefore(g, b, maker(n).value)
    {
      LastHasOuts(g'.files, byName', g'.builds, maker, fs, b);
      var deps := files.log[b].0;
      var k :| 0 <= k < |deps| && Named(env.name, deps)[k] == n;
      assert maker(n) == DbReader.MakerOf(g'.files, byName', n);
      assert env.name(byName'[n]) == n == env.name(deps[k]);
      assert deps[k] in deps && OrderedDeps(g', b, deps) && Maker(g', deps[k]) == maker(n);
      assert MadeBefore(g', b, maker(n).value);
      SameMadeBefore(g, g', b, maker(n).value);
    }
  }

  // ---- The next build. ----

  /** What a manifest lists is the same under either numbering. */
  lemma SameEntries(env: Env, times: map<FileId, nat>, fs: seq<FileId>, env': Env, times': map<FileId, nat>, fs': seq<FileId>)
    requires SameByName(env, times, env', times') && Named(env.name, fs) == Named(env'.name, fs') && Present(times, fs)
    ensures Present(times', fs') && Entries(env', times', fs') == Entries(env, times, fs)
  {
    assert |Named(env.name, fs)| == |fs| == |fs'|;
    forall k | 0 <= k < |fs|
      ensures fs'[k] in times' && times'[fs'[k]] == times[fs[k]] && env'.name(fs'[k]) == env.name(fs[k])
    {
      assert Named(env.name, fs)[k] == Named(env'.name, fs')[k];
      assert fs[k] in fs;
      assert Stat(times, fs[k]) == Stat(times', fs'[k]);
    }
    assert Entries(env', times', fs') == Entries(env, times, fs);
  }

  /** A build has one hash under either numbering. */
  lemma SameHashByName(g: WfGraph, g': WfGraph, env: Env, env': Env, disk: map<FileId, nat>, disk': map<FileId, nat>,
                       discovered: map<BuildId, seq<FileId>>, discovered': map<BuildId, seq<FileId>>, b: BuildId)
    requires g'.builds == g.builds && b < |g.builds| && g.builds[b].Sized()
    requires forall f | f in g.builds[b].ins || f in g.builds[b].outs :: env'.name(f) == env.name(f)
    requires SameByName(env, disk, env', disk') && env'.hash == env.hash
    requires Named(env.name, Discovered(discovered, b)) == Named(env'.name, Discovered(discovered', b))
    requires Present(disk, Touched(g, discovered, b))
    ensures Present(disk', Touched(g', discovered', b))
    ensures HashOf(g', env', disk', discovered', b) == HashOf(g, env, disk, discovered, b)
  {
    hide Entries;
    var build := g.builds[b];
    TouchedParts(g, disk, discovered, b);
    assert Named(env.name, build.DirtyingIns()) == Named(env'.name, build.DirtyingIns()) by {
      assert forall k | 0 <= k < |build.DirtyingIns()| :: build.DirtyingIns()[k] in build.ins;
    }
    assert Named(env.name, build.outs) == Named(env'.name, build.outs) by {
      assert forall k | 0 <= k < |build.outs| :: build.outs[k] in build.outs;
    }
    SameEntries(env, disk, build.DirtyingIns(), env', disk', build.DirtyingIns());
    SameEntries(env, disk, Discovered(discovered, b), env', disk', Discovered(discovered', b));
    SameEntries(env, disk, build.outs, env', disk', build.outs);
    assert ManifestOf(g', env', disk', Discovered(discovered', b), b) == ManifestOf(g, env, disk, Discovered(discovered, b), b);
  }

  /** A finished build that left nothing missing, and was logged, is up to date for the next session. */
  lemma FreshBuild(g0: WfGraph, g: WfGraph, g': WfGraph, env: Env, env': Env, states: seq<BuildState>, files: Files,
                   disk': map<FileId, nat>, fs: seq<Finish>, maker: string -> Option<BuildId>,
                   discovered': map<BuildId, seq<FileId>>, hashes': map<BuildId, nat>, b: BuildId)
    requires Extends(g0, g) && Extends(g0, g') && |states| == |g.builds|
    requires DoneFresh(g, env, states, files) && NothingMissing(g, states, files.disk, files.discovered)
    requires LogSays(fs, maker, g0.builds, env.name, files.log)
    requires DbReader.Replayed(g'.files, fs, maker, discovered', hashes')
    requires NamesAgree(env, g.files) && NamesAgree(env', g'.files) && env'.hash == env.hash
    requires SameByName(env, files.disk, env', disk')
    requires b < |states| && states[b] == Done && !g.builds[b].Phony() && g.builds[b].outs != []
    ensures g'.builds[b].Sized() && Present(disk', Touched(g', discovered', b))
    ensures b in hashes' && hashes'[b] == HashOf(g', env', disk', discovered', b)
  {
    hide LastFor, Present, SameByName;
    assert Fresh(g, env, files, b);
    assert DbReader.ReplayedBuild(g'.files, LastFor(fs, maker, b), discovered'[b], hashes'[b]);
    NamedByFiles(g'.files, env', discovered'[b]);
    NamesOfBuild(g0, g, g', env, env', b);
    SameHashByName(g, g', env, env', files.disk, disk', files.discovered, discovered', b);
  }

  lemma NamesOfBuild(g0: WfGraph, g: WfGraph, g': WfGraph, env: Env, env': Env, b: BuildId)
    requires Extends(g0, g) && Extends(g0, g') && NamesAgree(env, g.files) && NamesAgree(env', g'.files)
    requires b < |g0.builds|
    ensures forall f | f in g0.builds[b].ins || f in g0.builds[b].outs :: env'.name(f) == env.name(f)
  {
    assert g0.BuildWellFormed(b);
  }

  lemma SameWantedExactly(g0: WfGraph, g: WfGraph, g': WfGraph, states: seq<BuildState>, states': seq<BuildState>,
                          targets: seq<FileId>)
    requires Extends(g0, g) && Extends(g0, g') && forall f | f in targets :: f < |g0.files|
    requires WantedExactly(g, states, targets) && WantedExactly(g', states', targets)
    ensures |states'| == |states| == |g.builds|
    ensures forall b | 0 <= b < |states| && states'[b] != Unknown :: states[b] != Unknown && g.builds[b].outs != []
  {
    hide ReachedFrom;
    forall b | 0 <= b < |states| && states'[b] != Unknown
      ensures states[b] != Unknown && g.builds[b].outs != []
    {
      var f :| f in targets && b in ReachedFrom(g', f);
      SameReached(g0, g, f);
      SameReached(g0, g', f);
      ReachedHasOuts(g', f, b);
    }
  }

  /**
   What a successful build logged makes the next one a null rebuild, if its
   commands left no file missing and no file has changed since.
   */
  lemma ReloadStartsFresh(g0: WfGraph, g: WfGraph, g': WfGraph, env: Env, env': Env, states: seq<BuildState>, files: Files,
                          disk': map<FileId, nat>, fs: seq<Finish>, maker: string -> Option<BuildId>,
                          discovered': map<BuildId, seq<FileId>>, hashes': map<BuildId, nat>, targets: seq<FileId>)
    requires Extends(g0, g) && Extends(g0, g') && (forall f | f in targets :: f < |g0.files|)
    requires WantedExactly(g, states, targets) && AllDoneOrUnknown(states)
    requires DoneFresh(g, env, states, files) && NothingMissing(g, states, files.disk, files.discovered)
    requires LogSays(fs, maker, g0.builds, env.name, files.log)
    requires DbReader.Replayed(g'.files, fs, maker, discovered', hashes')
    requires NamesAgree(env, g.files) && NamesAgree(env', g'.files) && env'.hash == env.hash
    requires SameByName(env, files.disk, env', disk')
    ensures TargetsFresh(g', env', targets, disk', discovered', hashes')
  {
    hide DoneFresh, NothingMissing, LogSays, DbReader.Replayed, NamesAgree, SameByName, WantedExactly, Present;
    forall states' | WantedExactly(g', states', targets)
      ensures |states'| == |g'.builds| && AllFresh(g', env', states', Files(disk', map[], discovered', map[]), hashes')
    {
      SameWantedExactly(g0, g, g', states, states', targets);
      forall b | 0 <= b < |states'| && states'[b] != Unknown && !g'.builds[b].Phony()
        ensures g'.builds[b].Sized() && Present(disk', Touched(g', discovered', b))
        ensures b in hashes' && hashes'[b] == HashOf(g', env', disk', discovered', b)
      {
        FreshBuild(g0, g, g', env, env', states, files, disk', fs, maker, discovered', hashes', b);
      }
    }
  }
}
