/**
 Whole sessions of n2: open the log, build the targets, log what was run. The
 files and commands of the outside world are given once it is known which ids
 the files have.
 */
module N2Rebuild {
  import opened Wrappers
  import opened BuildGraph
  import opened Db
  import opened DbFormat
  import opened DbLog
  import opened GraphStore
  import opened N2Disk
  import opened N2Log
  import opened N2Progress
  import opened N2Work
  import opened Sequences
  import opened WantWalk
  import DbReader
  import N2States

  /** Generated inputs that commands report come from builds ordered before. */
  ghost predicate ReportsOrdered(g: WfGraph, env: Env) {
    env.hygienic ==> forall b | 0 <= b < |g.builds| && env.deps(b).Some? :: OrderedDeps(g, b, env.deps(b).value)
  }

  /** No two files of a graph have one name. */
  ghost predicate OneName(files: seq<File>) {
    forall f, f' | 0 <= f < |files| && 0 <= f' < |files| && files[f].name == files[f'].name :: f == f'
  }

  lemma InternedOneName(files: seq<File>, byName: map<string, FileId>)
    requires Interned(files, byName)
    ensures OneName(files)
  {
    forall f, f' | 0 <= f < |files| && 0 <= f' < |files| && files[f].name == files[f'].name
      ensures f == f'
    {
      assert byName[files[f].name] == f && byName[files[f'].name] == f';
    }
  }

  /** However the files are numbered, they have the names of the graph, and what commands report is in order. */
  ghost predicate WorldsFit(builds: seq<Build>, files0: seq<File>, worlds: seq<File> -> Env) {
    forall files | files0 <= files && OneName(files) ::
      && NamesAgree(worlds(files), files)
      && (Graph(builds, files).WellFormed() ==> ReportsOrdered(Graph(builds, files), worlds(files)))
  }

  /** Whatever is loaded from the log finds all that the targets need up to date. */
  ghost predicate LoadsFresh(builds: seq<Build>, files0: seq<File>, fs: seq<Finish>, maker: string -> Option<BuildId>,
                             worlds: seq<File> -> Env, disks: seq<File> -> map<FileId, nat>, targets: seq<FileId>) {
    forall files, discovered, hashes |
      && files0 <= files && OneName(files) && Graph(builds, files).WellFormed()
      && DbReader.Replayed(files, fs, maker, discovered, hashes) ::
      worlds(files).hygienic && TargetsFresh(Graph(builds, files), worlds(files), targets, disks(files), discovered, hashes)
  }

  /** The log says, by name, what the build leaves known, in an order in which it can be loaded again. */
  ghost predicate Logged(g0: WfGraph, maker: string -> Option<BuildId>, rs: seq<Record>, work: Work)
    reads work
  {
    && RefsEarlier(rs) && LogSays(Finishes(rs), maker, g0.builds, work.env.name, work.Log())
    && (work.env.hygienic ==> OrderedByName(g0, maker, Finishes(rs)))
  }

  lemma StoreGraph(store: Store)
    requires store.Valid()
    ensures Graph(store.builds, store.files).WellFormed() && Interned(store.files, store.byName)
  {
  }

  /** What was loaded lets the build begin. */
  lemma LoadedOrdered(g0: WfGraph, g: WfGraph, byName: map<string, FileId>, maker: string -> Option<BuildId>,
                      fs: seq<Finish>, env: Env, discovered: map<BuildId, seq<FileId>>, hashes: map<BuildId, nat>)
    requires Extends(g0, g) && Interned(g.files, byName) && DbReader.Agrees(g.files, byName, maker)
    requires OrderedByName(g0, maker, fs) && DbReader.Replayed(g.files, fs, maker, discovered, hashes)
    requires ReportsOrdered(g, env)
    ensures env.hygienic ==> InputsOrdered(g, env, discovered)
  {
    hide OrderedByName, DbReader.Replayed, OrderedDeps, Interned, DbReader.Agrees;
    forall b | 0 <= b < |g.builds|
      ensures OrderedDeps(g, b, Discovered(discovered, b))
    {
      OrderedLoaded(g0, g, byName, maker, fs, discovered, hashes, b);
    }
  }

  lemma SameCycles(g0: WfGraph, g: WfGraph, targets: seq<FileId>)
    requires Extends(g0, g) && forall f | f in targets :: f < |g0.files|
    ensures forall f | f in targets :: CycleFrom(g, false, f) <==> CycleFrom(g0, false, f)
  {
    hide CycleFrom;
    forall f | f in targets
      ensures CycleFrom(g, false, f) <==> CycleFrom(g0, false, f)
    {
      SameReached(g0, g, f);
    }
  }

  /**
   A session: the log of the earlier ones is opened, the targets are built, and
   what was run is appended. It needs no command when what it loads is fresh;
   and its own log is one the next session can open.
   */
  method BuildSession(file: Option<string>, ghost rs: seq<Record>, store: Store, ghost maker: string -> Option<BuildId>,
                      worlds: seq<File> -> Env, disks: seq<File> -> map<FileId, nat>,
                      parallelism: nat, failuresLeft: Option<nat>, depths: seq<(string, nat)>, targets: seq<FileId>)
    returns (r: Outcome, content: string, ghost rs': seq<Record>, logged: bool)
    requires store.Valid() && DbReader.Agrees(store.files, store.byName, maker) && ByteNames(store.files)
    requires RefsEarlier(rs) && if file.None? then rs == [] else Holds(file.value, rs)
    requires OrderedByName(Graph(store.builds, store.files), maker, Finishes(rs))
    requires WorldsFit(store.builds, store.files, worlds)
    requires parallelism > 0 && forall f | f in targets :: f < |store.files|
    modifies store
    ensures Graph(old(store.builds), old(store.files)).WellFormed()
    ensures r.Cyclic? <==> exists f | f in targets :: CycleFrom(Graph(old(store.builds), old(store.files)), false, f)
    ensures !r.Cyclic? ==> fresh(r.work) && fresh(r.work.bs) && r.work.env == worlds(r.work.graph.files)
    ensures !r.Cyclic? ==> Extends(Graph(old(store.builds), old(store.files)), r.work.graph) && OneName(r.work.graph.files)
    ensures r.Built? ==> r.work.Valid() && |r.work.bs.states| == |r.work.graph.builds|
    ensures r.Built? ==> AllDoneOrUnknown(r.work.bs.states) && WantedExactly(r.work.graph, r.work.bs.states, targets)
    ensures r.Built? ==> EntriesOf(r.work.graph, r.work.logged)
    ensures logged <==> r.Built? && AllLoggable(r.work.graph.files, ToEntries(r.work.graph.builds, r.work.env.name, r.work.logged))
    ensures logged ==> Holds(content, rs') && Logged(Graph(old(store.builds), old(store.files)), maker, rs', r.work)
    ensures LoadsFresh(old(store.builds), old(store.files), Finishes(rs), maker, worlds, disks, targets) && !r.Cyclic? ==>
              r.Built? && r.work.disk == disks(r.work.graph.files) && forall e | e in r.work.trace :: e.Settled?
  {
    hide *;
    StoreGraph(store);
    ghost var g0: WfGraph := Graph(store.builds, store.files);
    var log, discovered, hashes := DbReader.Open(file, rs, store, maker);
    var w := log.value;
    StoreGraph(store);
    var graph: WfGraph := Graph(store.builds, store.files);
    var env := worlds(graph.files);
    ghost var byName := store.byName;
    InternedOneName(store.files, store.byName);
    WorldHere(g0, graph, worlds);
    LoadedOrdered(g0, graph, byName, maker, Finishes(rs), env, discovered, hashes);
    SameCycles(g0, graph, targets);
    LoadedFresh(g0, graph, Finishes(rs), maker, worlds, disks, targets, discovered, hashes);
    r := BuildOnce(graph, env, hashes, discovered, disks(graph.files), parallelism, failuresLeft, depths, targets);
    content, rs', logged := w.content, rs, false;
    if r.Built? {
      r.work.FilesStand();
      EntriesInRange(graph, r.work.logged);
      var entries := ToEntries(graph.builds, env.name, r.work.logged);
      if AllLoggable(graph.files, entries) {
        LoggableEach(graph.files, entries);
        SaysLoaded(graph.files, graph.builds, Finishes(rs), maker, discovered, hashes, env);
        SaysAll(graph.files, byName, graph.builds, maker, Finishes(rs), r.work.known, env.name, r.work.logged);
        DbReader.WriteAll(w, store, maker, entries);
        DbReader.WriterHolds(w, store.files);
        content, rs', logged := w.content, w.records, true;
        NowLogged(g0, graph, byName, maker, rs', r.work);
      }
    }
  }

  lemma WorldHere(g0: WfGraph, g: WfGraph, worlds: seq<File> -> Env)
    requires WorldsFit(g0.builds, g0.files, worlds) && g.builds == g0.builds && g0.files <= g.files && OneName(g.files)
    ensures Extends(g0, g) && NamesAgree(worlds(g.files), g.files) && ReportsOrdered(g, worlds(g.files))
  {
    assert Graph(g0.builds, g.files) == g;
  }

  lemma LoadedFresh(g0: WfGraph, g: WfGraph, fs: seq<Finish>, maker: string -> Option<BuildId>, worlds: seq<File> -> Env,
                    disks: seq<File> -> map<FileId, nat>, targets: seq<FileId>,
                    discovered: map<BuildId, seq<FileId>>, hashes: map<BuildId, nat>)
    requires Extends(g0, g) && OneName(g.files) && DbReader.Replayed(g.files, fs, maker, discovered, hashes)
    ensures LoadsFresh(g0.builds, g0.files, fs, maker, worlds, disks, targets) ==>
              worlds(g.files).hygienic && TargetsFresh(g, worlds(g.files), targets, disks(g.files), discovered, hashes)
  {
    hide DbReader.Replayed, TargetsFresh;
    assert Graph(g0.builds, g.files) == g;
  }

  lemma EntriesInRange(g: Graph, es: seq<LogEntry>)
    requires EntriesOf(g, es)
    ensures forall e | e in es :: e.id < |g.builds|
  {
  }

  lemma LoggableEach(files: seq<File>, entries: seq<DbReader.Entry>)
    requires AllLoggable(files, entries)
    ensures forall k | 0 <= k < |entries| :: DbReader.Loggable(files, entries[k])
    ensures |files| + DbReader.DepCount(entries) <= Limit(3)
  {
  }

  lemma NowLogged(g0: WfGraph, g: WfGraph, byName: map<string, FileId>, maker: string -> Option<BuildId>, rs: seq<Record>,
                  work: Work)
    requires Extends(g0, g) && Interned(g.files, byName) && DbReader.Agrees(g.files, byName, maker)
    requires work.Valid() && work.graph == g && NamesAgree(work.env, g.files) && RefsEarlier(rs)
    requires LogSays(Finishes(rs), maker, g.builds, work.env.name, Relogged(work.known, work.logged))
    ensures Logged(g0, maker, rs, work)
  {
    hide LogSays, Interned, DbReader.Agrees, NamesAgree, OrderedByName;
    work.FilesStand();
    if work.env.hygienic {
      LogIsOrdered(g, work.env, work.bs.states, work.View(), work.lastHashes);
      OrderedLogged(g0, g, byName, maker, Finishes(rs), work.env, work.View());
    }
  }

  lemma LogIsOrdered(g: WfGraph, env: Env, states: seq<N2States.BuildState>, fs: Files, last: map<BuildId, nat>)
    requires |states| == |g.builds| && FilesOk(g, env, states, fs, last)
    ensures LogOrdered(g, fs) && DoneFresh(g, env, states, fs)
  {
  }

  // ---- The null rebuild. ----

  /** The same graph, freshly loaded. */
  ghost predicate LoadedAlike(a: Store, b: Store)
    reads a, b
  {
    a.builds == b.builds && a.files == b.files && a.byName == b.byName
  }

  /** Whatever ids two sessions use, the files are those an earlier session left. */
  ghost predicate Carries(carried: (Env, map<FileId, nat>, Env) -> map<FileId, nat>) {
    forall env, env', disk | OneToOne(env) && OneToOne(env') :: SameByName(env, disk, env', carried(env, disk, env'))
  }

  ghost predicate OneToOne(env: Env) {
    forall f, f' | env.name(f) == env.name(f') :: f == f'
  }

  /** What a session leaves behind, and what the next one is given. */
  lemma NextIsFresh(g0: WfGraph, work: Work, rs: seq<Record>, maker: string -> Option<BuildId>,
                    worlds': seq<File> -> Env, carried: (Env, map<FileId, nat>, Env) -> map<FileId, nat>,
                    disks': seq<File> -> map<FileId, nat>, targets: seq<FileId>)
    requires work.Valid() && work.env.hygienic && Extends(g0, work.graph) && NamesAgree(work.env, work.graph.files)
    requires |work.bs.states| == |work.graph.builds|
    requires AllDoneOrUnknown(work.bs.states) && WantedExactly(work.graph, work.bs.states, targets)
    requires NothingMissing(work.graph, work.bs.states, work.disk, work.discovered)
    requires Logged(g0, maker, rs, work) && WorldsFit(g0.builds, g0.files, worlds') && Carries(carried)
    requires forall files :: worlds'(files).hygienic && worlds'(files).hash == work.env.hash
    requires forall files :: disks'(files) == carried(work.env, work.disk, worlds'(files))
    requires forall f | f in targets :: f < |g0.files|
    ensures LoadsFresh(g0.builds, g0.files, Finishes(rs), maker, worlds', disks', targets)
  {
    hide NamesAgree, WantedExactly, NothingMissing, LogSays, AllDoneOrUnknown, TargetsFresh, SameByName;
    hide DbReader.Replayed, DoneFresh, LogOrdered, FilesOk, OrderedByName;
    work.FilesStand();
    LogIsOrdered(work.graph, work.env, work.bs.states, work.View(), work.lastHashes);
    forall files, discovered, hashes |
      && g0.files <= files && OneName(files) && Graph(g0.builds, files).WellFormed()
      && DbReader.Replayed(files, Finishes(rs), maker, discovered, hashes)
      ensures TargetsFresh(Graph(g0.builds, files), worlds'(files), targets, disks'(files), discovered, hashes)
    {
      var g: WfGraph := Graph(g0.builds, files);
      WorldHere(g0, g, worlds');
      NamesOneToOne(work.env, work.graph.files);
      NamesOneToOne(worlds'(files), files);
      assert SameByName(work.env, work.disk, worlds'(files), disks'(files));
      ReloadStartsFresh(g0, work.graph, g, work.env, worlds'(files), work.bs.states, work.View(), disks'(files),
                        Finishes(rs), maker, discovered, hashes, targets);
    }
  }

  lemma NamesOneToOne(env: Env, files: seq<File>)
    requires NamesAgree(env, files)
    ensures OneToOne(env)
  {
  }

  /**
   The null rebuild, over the bytes of the log: a session on any earlier log,
   and a second one on the log it leaves, in a freshly loaded copy of the graph
   and with other ids for the files that were discovered. When the first builds
   its targets, its records fit the format and no file of a finished command is
   missing, the second succeeds, starts no command and changes no file.
   */
  method BuildTwice(file: Option<string>, ghost rs: seq<Record>, store: Store, store': Store,
                    ghost maker: string -> Option<BuildId>, worlds: seq<File> -> Env, worlds': seq<File> -> Env,
                    disks: seq<File> -> map<FileId, nat>, carried: (Env, map<FileId, nat>, Env) -> map<FileId, nat>,
                    parallelism: nat, failuresLeft: Option<nat>, depths: seq<(string, nat)>, targets: seq<FileId>)
    returns (first: Outcome, second: Option<Outcome>)
    requires store != store' && LoadedAlike(store, store')
    requires store.Valid() && store'.Valid() && DbReader.Agrees(store.files, store.byName, maker) && ByteNames(store.files)
    requires RefsEarlier(rs) && if file.None? then rs == [] else Holds(file.value, rs)
    requires OrderedByName(Graph(store.builds, store.files), maker, Finishes(rs))
    requires WorldsFit(store.builds, store.files, worlds) && WorldsFit(store.builds, store.files, worlds')
    requires (forall files :: worlds(files).hygienic) && forall files :: worlds'(files).hygienic
    requires forall files, files' :: worlds'(files').hash == worlds(files).hash
    requires Carries(carried)
    requires parallelism > 0 && forall f | f in targets :: f < |store.files|
    modifies store, store'
    ensures first.Built? ==> |first.work.bs.states| == |first.work.graph.builds| && EntriesOf(first.work.graph, first.work.logged)
    ensures first.Built?
            && AllLoggable(first.work.graph.files, ToEntries(first.work.graph.builds, first.work.env.name, first.work.logged))
            && NothingMissing(first.work.graph, first.work.bs.states, first.work.disk, first.work.discovered) ==>
              && second.Some? && second.value.Built? && (forall e | e in second.value.work.trace :: e.Settled?)
              && SameByName(first.work.env, first.work.disk, second.value.work.env, second.value.work.disk)
  {
    hide *;
    StoreGraph(store);
    ghost var g0: WfGraph := Graph(store.builds, store.files);
    Alike(store, store', maker);
    ghost var rs';
    var content, logged;
    first, content, rs', logged := BuildSession(file, rs, store, maker, worlds, disks, parallelism, failuresLeft, depths, targets);
    if !logged {
      return first, None;
    }
    var env, disk := first.work.env, first.work.disk;
    var disks' := files => carried(env, disk, worlds'(files));
    ghost var missing := !NothingMissing(first.work.graph, first.work.bs.states, disk, first.work.discovered);
    LoggedOpens(g0, maker, rs', first.work);
    WorldOneToOne(g0, first.work.graph, worlds);
    if !missing {
      NextIsFresh(g0, first.work, rs', maker, worlds', carried, disks', targets);
    }
    var again, content2, rs2, logged2 := BuildSession(Some(content), rs', store', maker, worlds', disks', parallelism, failuresLeft, depths, targets);
    second := Some(again);
    if !missing {
      WorldOneToOne(g0, again.work.graph, worlds');
      CarriedOver(carried, env, disk, again.work.env);
    }
  }

  lemma Alike(store: Store, store': Store, maker: string -> Option<BuildId>)
    requires LoadedAlike(store, store') && DbReader.Agrees(store.files, store.byName, maker) && ByteNames(store.files)
    ensures store'.builds == store.builds && store'.files == store.files
    ensures DbReader.Agrees(store'.files, store'.byName, maker) && ByteNames(store'.files)
  {
  }

  lemma LoggedOpens(g0: WfGraph, maker: string -> Option<BuildId>, rs: seq<Record>, work: Work)
    requires Logged(g0, maker, rs, work) && work.env.hygienic
    ensures RefsEarlier(rs) && OrderedByName(g0, maker, Finishes(rs))
  {
  }

  lemma WorldOneToOne(g0: WfGraph, g: WfGraph, worlds: seq<File> -> Env)
    requires WorldsFit(g0.builds, g0.files, worlds) && Extends(g0, g) && OneName(g.files)
    ensures NamesAgree(worlds(g.files), g.files) && OneToOne(worlds(g.files))
  {
    WorldHere(g0, g, worlds);
    NamesOneToOne(worlds(g.files), g.files);
  }

  lemma CarriedOver(carried: (Env, map<FileId, nat>, Env) -> map<FileId, nat>, env: Env, disk: map<FileId, nat>, env': Env)
    requires Carries(carried) && OneToOne(env) && OneToOne(env')
    ensures SameByName(env, disk, env', carried(env, disk, env'))
  {
  }
}
