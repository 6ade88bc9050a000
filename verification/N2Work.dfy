/**
 n2's Work: checks which ready builds are out of date, runs their commands
 within the pools and the parallelism limit, and records what they did.
 */
module N2Work {
  import opened Wrappers
  import opened BuildGraph
  import opened Counting
  import opened Manifest
  import opened N2States
  import opened N2Progress
  import opened N2Disk
  import opened Ordering
  import opened Runner
  import opened Sequences
  import opened WantWalk

  /** One past the largest value of the failure budget's machine word. */
  const WORD: nat := 0x1_0000_0000_0000_0000

  /** The failures a budget allows, the last of which ends the run; a budget of 0 wraps around. */
  function Allowed(budget: nat): nat {
    if budget == 0 then WORD else budget
  }

  /** After so many failures a budget that was `start` is `left`. */
  ghost predicate Spent(start: Option<nat>, left: Option<nat>, failures: nat) {
    && (start.None? <==> left.None?)
    && (left.Some? ==> failures + Allowed(left.value) == Allowed(start.value))
  }

  lemma NoneSpent(left: Option<nat>)
    ensures Spent(left, left, 0)
  {
  }

  lemma OneSpent(start: Option<nat>, left: Option<nat>)
    requires start.None? <==> left.None?
    requires start.Some? && start.value > 1 ==> left.value == start.value - 1
    requires start == Some(0) ==> left == Some(WORD - 1)
    requires start != Some(1)
    ensures Spent(start, left, 1)
  {
  }

  lemma SpentWhole(start: Option<nat>, left: Option<nat>, failures: nat)
    requires Spent(start, left, failures) && left == Some(1)
    ensures start.Some? && failures + 1 == Allowed(start.value)
  {
  }

  lemma SpentMore(start: Option<nat>, mid: Option<nat>, left: Option<nat>, n: nat, m: nat)
    requires Spent(start, mid, n) && Spent(mid, left, m)
    ensures Spent(start, left, n + m) && (left.Some? ==> n + m < Allowed(start.value))
  {
  }

  /** How a run came to its end. */
  datatype Ending = Ran | FailuresSpent | WasInterrupted | Refused

  /** What is logged of a finished command: the inputs it was found to have, and its hash. */
  datatype LogEntry = LogEntry(id: BuildId, deps: seq<FileId>, hash: nat)

  /** What is known of each build when `entries` follow what was known before. */
  ghost function Relogged(known: map<BuildId, (seq<FileId>, nat)>, entries: seq<LogEntry>): map<BuildId, (seq<FileId>, nat)> {
    if entries == [] then known else
    var e := entries[|entries| - 1];
    Relogged(known, entries[..|entries| - 1])[e.id := (e.deps, e.hash)]
  }

  lemma ReloggedSnoc(known: map<BuildId, (seq<FileId>, nat)>, entries: seq<LogEntry>, e: LogEntry)
    ensures Relogged(known, entries + [e]) == Relogged(known, entries)[e.id := (e.deps, e.hash)]
  {
    assert (entries + [e])[..|entries|] == entries;
  }

  /** Only builds of the graph are logged. */
  ghost predicate EntriesOf(g: Graph, entries: seq<LogEntry>) {
    forall e | e in entries :: e.id < |g.builds|
  }

  /** The file times of a stat cache, for files that are there. */
  function Times(stat: map<FileId, Option<nat>>): (r: map<FileId, nat>)
    ensures forall f :: f in r <==> f in stat && stat[f].Some?
    ensures forall f | f in r :: Some(r[f]) == stat[f]
  {
    map f | f in stat && stat[f].Some? :: stat[f].value
  }

  /** Whether a command running now may write `f`. */
  predicate Writable(g: Graph, states: seq<BuildState>, f: FileId) {
    Maker(g, f).Some? && (Maker(g, f).value >= |states| || states[Maker(g, f).value] in {Running, Failed})
  }

  lemma WritableQuiet(g: Graph, states: seq<BuildState>, f: FileId)
    ensures Writable(g, states, f) <==> !Quiet(g, states, f)
  {
  }

  /** `id` was finished, and some waiting builds became ready. */
  ghost predicate Woken(before: seq<BuildState>, after: seq<BuildState>, id: BuildId) {
    && |before| == |after| && id < |after| && after[id] == Done
    && forall b | 0 <= b < |before| && b != id ::
         after[b] == before[b] || (before[b] == Want && after[b] == Ready)
  }

  /** Only builds with a command are queued or run. */
  ghost predicate CommandsOnly(g: Graph, states: seq<BuildState>)
    requires |states| == |g.builds|
  {
    forall b | 0 <= b < |states| && states[b] in {Queued, Running} :: !g.builds[b].Phony()
  }

  /** No build is queued, running or failed: the state before a run, and after one that succeeded. */
  ghost predicate BetweenRuns(states: seq<BuildState>) {
    forall b | 0 <= b < |states| :: states[b] in {Unknown, Want, Ready, Done}
  }

  ghost predicate SameFailed(before: seq<BuildState>, after: seq<BuildState>) {
    SameWanted(before, after) && forall b | 0 <= b < |before| :: before[b] == Failed <==> after[b] == Failed
  }

  /** The same builds are wanted. */
  ghost predicate SameWanted(before: seq<BuildState>, after: seq<BuildState>) {
    |before| == |after| && forall b | 0 <= b < |before| :: before[b] == Unknown <==> after[b] == Unknown
  }

  lemma SameFailedWanted(before: seq<BuildState>, after: seq<BuildState>)
    requires SameFailed(before, after)
    ensures SameWanted(before, after) && FailedOf(after) == FailedOf(before)
  {
    SameFailedOf(before, after);
  }

  lemma SameFailedOf(before: seq<BuildState>, after: seq<BuildState>)
    requires SameFailed(before, after) || SameRunning(before, after)
    ensures FailedOf(after) == FailedOf(before) && (NoneFailed(after) <==> NoneFailed(before))
  {
  }

  lemma NoneFailedOf(states: seq<BuildState>)
    ensures NoneFailed(states) <==> |FailedOf(states)| == 0
  {
    if FailedOf(states) == {} {
      assert forall b | 0 <= b < |states| && states[b] == Failed :: b in FailedOf(states);
    }
  }

  lemma SameFailedRefl(states: seq<BuildState>)
    ensures SameFailed(states, states)
  {
  }

  lemma SameFailedTrans(a: seq<BuildState>, b: seq<BuildState>, c: seq<BuildState>)
    requires SameFailed(a, b) && SameFailed(b, c)
    ensures SameFailed(a, c)
  {
  }

  lemma SameWantedRefl(states: seq<BuildState>)
    ensures SameWanted(states, states)
  {
  }

  lemma SameWantedTrans(a: seq<BuildState>, b: seq<BuildState>, c: seq<BuildState>)
    requires SameWanted(a, b) && SameWanted(b, c)
    ensures SameWanted(a, c)
  {
  }

  /** The same builds are running, and the same builds have failed. */
  ghost predicate SameRunning(before: seq<BuildState>, after: seq<BuildState>) {
    && SameWanted(before, after)
    && forall b | 0 <= b < |before| ::
         (before[b] == Running <==> after[b] == Running) && (before[b] == Failed <==> after[b] == Failed)
  }

  class Work {
    const graph: WfGraph
    const env: Env
    const bs: BuildStates
    const parallelism: nat
    const adopt: bool
    const lastHashes: map<BuildId, nat>
    var failuresLeft: Option<nat>
    var tasksRun: nat
    /** The stat cache. */
    var fileState: map<FileId, Option<nat>>
    var discovered: map<BuildId, seq<FileId>>
    /** What was written to the log, in order. */
    var logged: seq<LogEntry>
    /** What the log had said before. */
    ghost const known: map<BuildId, (seq<FileId>, nat)>
    /** The outside world: the files, and the time their writers have reached. */
    var disk: map<FileId, nat>
    var clock: nat
    ghost var trace: seq<Event>

    /** What replaying the log gives: each build's last recorded inputs and hash. */
    ghost function Log(): map<BuildId, (seq<FileId>, nat)>
      reads `logged
    {
      Relogged(known, logged)
    }

    ghost function View(): Files
      reads this
    {
      Files(disk, fileState, discovered, Log())
    }

    /** The part of the invariant that concerns files; it needs a hygienic environment. */
    ghost predicate Kept(states: seq<BuildState>)
      requires |states| == |graph.builds|
      reads this
    {
      env.hygienic ==> FilesOk(graph, env, states, View(), lastHashes)
    }

    ghost predicate Linked()
      reads this
    {
      bs.graph == graph && parallelism > 0 && EntriesOf(graph, logged) &&
      (env.hygienic ==> forall b | 0 <= b < |graph.builds| && env.deps(b).Some? :: OrderedDeps(graph, b, env.deps(b).value))
    }

    ghost predicate Valid()
      reads this, bs
    {
      && Linked()
      && bs.Valid()
      && HistoryOk(graph, bs.states, trace)
      && CommandsOnly(graph, bs.states)
      && Validated(graph, bs.states, {})
      && Kept(bs.states)
      && Accounted()
    }

    /** Every event of the history has its reason. */
    ghost predicate Accounted()
      reads this, bs
    {
      Explained(graph, env, adopt, bs.states, trace, disk, discovered, lastHashes)
    }

    constructor (graph: WfGraph, env: Env, lastHashes: map<BuildId, nat>, discovered: map<BuildId, seq<FileId>>,
                 disk: map<FileId, nat>, parallelism: nat, failuresLeft: Option<nat>, adopt: bool,
                 depths: seq<(string, nat)>)
      requires parallelism > 0
      requires env.hygienic ==> forall b | 0 <= b < |graph.builds| ::
                   (env.deps(b).Some? ==> OrderedDeps(graph, b, env.deps(b).value))
                   && OrderedDeps(graph, b, Discovered(discovered, b))
      ensures Valid() && fresh(bs)
      ensures this.graph == graph && this.env == env && this.lastHashes == lastHashes && this.adopt == adopt
      ensures this.failuresLeft == failuresLeft
      ensures this.disk == disk && this.discovered == discovered && trace == [] && tasksRun == 0
      ensures known == (map b | b in lastHashes :: (Discovered(discovered, b), lastHashes[b])) && logged == []
      ensures forall b | 0 <= b < |bs.states| :: bs.states[b] == Unknown
    {
      hide OrderedDeps, FilesOk, Counted, ReadyListed, PoolsAgree, Ordered, Progressed, HistoryOk, HasPool, Present, Explained;
      this.graph := graph;
      this.env := env;
      this.lastHashes := lastHashes;
      this.discovered := discovered;
      this.known := map b | b in lastHashes :: (Discovered(discovered, b), lastHashes[b]);
      logged := [];
      this.disk := disk;
      this.parallelism := parallelism;
      this.failuresLeft := failuresLeft;
      this.adopt := adopt;
      fileState := map[];
      tasksRun := 0;
      clock := 0;
      trace := [];
      bs := new BuildStates(graph, depths);
      new;
      HistoryInitial(graph, bs.states);
      ExplainedInitial(graph, env, adopt, bs.states, disk, discovered, lastHashes);
      if env.hygienic {
        FilesOkInitial(graph, env, bs.states, View(), lastHashes);
      }
    }

    // ---- Files. ----

    /** Time passes: commands that are running may have written something. */
    method Tick()
      requires |bs.states| == |graph.builds| && Linked() && bs.Valid() && Kept(bs.states)
      requires HistoryOk(graph, bs.states, trace) && Accounted()
      modifies `disk, `clock
      ensures Kept(bs.states) && Accounted()
      ensures env.hygienic ==> WritesOnlyRunning(graph, bs.states, old(disk), disk)
    {
      hide HistoryOk, Explained;
      var next := env.world(clock);
      clock := clock + 1;
      if env.hygienic {
        next := map f | f in disk.Keys + next.Keys && f in (if Writable(graph, bs.states, f) then next else disk)
          :: (if Writable(graph, bs.states, f) then next else disk)[f];
        forall f: FileId {
          WritableQuiet(graph, bs.states, f);
        }
        FilesOkTick(graph, env, bs.states, View(), View().(disk := next), lastHashes);
      }
      ExplainedTick(graph, env, adopt, bs.states, trace, View(), next, lastHashes);
      disk := next;
    }

    /** Stats one file and remembers the answer. */
    method StatFile(f: FileId) returns (m: Option<nat>)
      modifies `fileState
      ensures m == Stat(disk, f) && fileState == old(fileState)[f := m]
    {
      m := Stat(disk, f);
      fileState := fileState[f := m];
    }

    /** Stats all of `fs`; true when one is missing. */
    method StatAll(fs: seq<FileId>) returns (missing: bool)
      modifies `fileState
      ensures Restatted(disk, old(fileState), fileState)
      ensures forall f | f in fs :: f in fileState && fileState[f] == Stat(disk, f)
      ensures forall f | f in fileState && f !in fs :: f in old(fileState) && fileState[f] == old(fileState)[f]
      ensures missing <==> exists f :: f in fs && Stat(disk, f).None?
    {
      missing := false;
      for i := 0 to |fs|
        invariant Restatted(disk, old(fileState), fileState)
        invariant forall f | f in fs[..i] :: f in fileState && fileState[f] == Stat(disk, f)
        invariant forall f | f in fileState && f !in fs[..i] :: f in old(fileState) && fileState[f] == old(fileState)[f]
        invariant missing <==> exists f :: f in fs[..i] && Stat(disk, f).None?
      {
        var m := StatFile(fs[i]);
        if m.None? {
          missing := true;
        }
        assert fs[..i + 1] == fs[..i] + [fs[i]];
      }
      assert fs[..|fs|] == fs;
    }

    /**
     Looks for a missing file among the inputs of a ready build. Source files
     are statted on first use; a generated one that no finished build has
     statted is an error.
     */
    method EnsureInputs(fs: seq<FileId>) returns (r: Result<Option<FileId>, FileId>)
      modifies `fileState
      ensures Restatted(disk, old(fileState), fileState)
      ensures forall f | f in fileState && f !in old(fileState) :: Maker(graph, f).None? && f in fs
      ensures forall f | f in old(fileState) :: fileState[f] == old(fileState)[f]
      ensures r == Ok(None) ==> forall f | f in fs :: f in fileState && fileState[f].Some?
      ensures r.Ok? && r.value.Some? ==> r.value.value in fs && r.value.value in fileState && fileState[r.value.value].None?
      ensures r.Err? ==> r.error in fs && r.error !in old(fileState) && Maker(graph, r.error).Some?
      ensures r == Ok(None) <==> forall f | f in fs :: Fine(graph, old(fileState), disk, f)
      ensures forall i | FirstBad(graph, old(fileState), disk, fs, i) ::
                r == if Learnt(graph, old(fileState), disk, fs[i]).None? then Err(fs[i]) else Ok(Some(fs[i]))
    {
      for i := 0 to |fs|
        invariant Restatted(disk, old(fileState), fileState)
        invariant forall f | f in fileState && f !in old(fileState) :: Maker(graph, f).None? && f in fs
        invariant forall f | f in old(fileState) :: fileState[f] == old(fileState)[f]
        invariant forall k | 0 <= k < i :: fs[k] in fileState && fileState[fs[k]].Some?
        invariant forall k | 0 <= k < i :: Fine(graph, old(fileState), disk, fs[k])
      {
        assert fs[i] in fs;
        if fs[i] !in fileState {
          if Maker(graph, fs[i]).Some? {
            return Err(fs[i]);
          }
          var _ := StatFile(fs[i]);
        }
        if fileState[fs[i]].None? {
          return Ok(Some(fs[i]));
        }
      }
      r := Ok(None);
    }

    /** Adds the names and times of `fs` and a separator to the stream. */
    method WriteFiles(tokens: seq<Token>, fs: seq<FileId>) returns (r: seq<Token>)
      requires Present(Times(fileState), fs)
      ensures r == tokens + FileTokens(Entries(env, Times(fileState), fs))
    {
      r := tokens;
      ghost var all := Entries(env, Times(fileState), fs);
      for i := 0 to |fs|
        invariant r + FileTokens(all[i..]) == tokens + FileTokens(all)
      {
        assert fs[i] in fs;
        ghost var rest := FileTokens(all[i + 1..]);
        assert all[i..][1..] == all[i + 1..];
        assert r + ([Str(all[i].name), Time(all[i].mtime)] + rest) == (r + [Str(all[i].name), Time(all[i].mtime)]) + rest;
        r := r + [Str(env.name(fs[i])), Time(fileState[fs[i]].value)];
      }
      assert all[|fs|..] == [];
      r := r + [Separator];
    }

    /** The hash of a build for the times in the stat cache. */
    method HashBuild(id: BuildId) returns (h: nat)
      requires id < |graph.builds| && graph.builds[id].Sized()
      requires Present(Times(fileState), Touched(graph, discovered, id))
      ensures h == HashOf(graph, env, Times(fileState), discovered, id)
    {
      TouchedParts(graph, Times(fileState), discovered, id);
      hide Touched, Entries, Tokens, FileTokens;
      var build := graph.builds[id];
      ghost var m := ManifestOf(graph, env, Times(fileState), Discovered(discovered, id), id);
      var tokens := WriteFiles([], build.DirtyingIns());
      tokens := WriteFiles(tokens, Discovered(discovered, id));
      tokens := tokens + [Str(if build.cmdline.Some? then build.cmdline.value else ""), Separator];
      tokens := tokens + RspTokens(build.rspfile);
      tokens := WriteFiles(tokens, build.outs);
      TokensInOrder(m);
      h := env.hash(tokens);
    }

    /**
     Whether a ready build needs to run. The answer is exact: clean means its
     loaded hash is the hash of the current file times, dirty means a file is
     missing or it is not. So where the hash function tells manifests apart, a
     build is dirty exactly when a file is missing or something has changed since
     the record was made. The first input that is missing or unknown decides: an
     error if it is generated and was never stat-ed, or is a declared source.
     */
    method CheckBuildDirty(id: BuildId) returns (r: Result<bool, FileId>)
      requires id < |graph.builds| && graph.builds[id].Sized()
      modifies `fileState
      ensures Restatted(disk, old(fileState), fileState)
      ensures r == Ok(false) ==> forall f | f in graph.builds[id].outs :: f in fileState && fileState[f] == Stat(disk, f)
      ensures r == Ok(false) ==> graph.builds[id].Phony() || UpToDate(graph, env, Times(fileState), discovered, lastHashes, id)
      ensures r == Ok(true) ==> !graph.builds[id].Phony()
      ensures r == Ok(true) ==> !UpToDate(graph, env, Times(fileState), discovered, lastHashes, id)
      ensures r == Ok(true) && !Present(Times(fileState), Touched(graph, discovered, id)) ==>
                FoundMissing(graph, View(), id)
      ensures r.Err? ==> !graph.builds[id].Phony() && BadInput(graph, old(fileState), View(), id, r.error)
      ensures r.Ok? && !graph.builds[id].Phony() ==>
                forall was :: SeesChange(was, graph, env, Times(fileState), discovered, lastHashes, id, r.value)
      ensures !graph.builds[id].Phony() ==>
                InputsAnswer(graph, old(fileState), disk, graph.builds[id].DirtyingIns(), Discovered(discovered, id), r)
    {
      hide Fine, Learnt, InputsAnswer, SeesChange, Touched, FoundMissing, BadInput;
      var build := graph.builds[id];
      if build.Phony() {
        var _ := StatAll(build.outs);
        return Ok(false);
      }
      ghost var stat0 := fileState;
      var missing := FilesMissing(id);
      if missing.Err? {
        return missing;
      }
      if missing.value {
        assert missing == Ok(true);
        SeesEachChange(graph, env, Times(fileState), discovered, lastHashes, id, true);
        return Ok(true);
      }
      assert missing == Ok(false);
      InputsFine(graph, stat0, disk, build.DirtyingIns(), Discovered(discovered, id));
      if id !in lastHashes {
        SeesEachChange(graph, env, Times(fileState), discovered, lastHashes, id, true);
        return Ok(true);
      }
      var h := HashBuild(id);
      SeesEachChange(graph, env, Times(fileState), discovered, lastHashes, id, lastHashes[id] != h);
      r := Ok(lastHashes[id] != h);
    }

    /** Stats the files of a build with a command; true when one is missing. */
    method FilesMissing(id: BuildId) returns (r: Result<bool, FileId>)
      requires id < |graph.builds| && graph.builds[id].Sized()
      modifies `fileState
      ensures Restatted(disk, old(fileState), fileState)
      ensures r == Ok(false) ==> Present(Times(fileState), Touched(graph, discovered, id))
      ensures r == Ok(false) ==> forall f | f in graph.builds[id].outs :: f in fileState && fileState[f] == Stat(disk, f)
      ensures r == Ok(true) ==> !Present(Times(fileState), Touched(graph, discovered, id)) && FoundMissing(graph, View(), id)
      ensures r.Err? ==> BadInput(graph, old(fileState), View(), id, r.error)
      ensures InputsAnswer(graph, old(fileState), disk, graph.builds[id].DirtyingIns(), Discovered(discovered, id), r)
    {
      hide Fine, Learnt, FirstBad, InputsAnswer;
      var build := graph.builds[id];
      InputsAnswers(graph, fileState, disk, build.DirtyingIns(), Discovered(discovered, id));
      var got := EnsureInputs(build.DirtyingIns());
      if got.Err? {
        return Err(got.error);
      }
      if got.value.Some? {
        if Maker(graph, got.value.value).None? {
          return Err(got.value.value);
        }
        return Ok(true);
      }
      ghost var seen := fileState;
      LearntStill(graph, old(fileState), seen, disk);
      got := EnsureInputs(Discovered(discovered, id));
      RestattedTrans(disk, old(fileState), seen, fileState);
      if got.Err? {
        return Err(got.error);
      }
      if got.value.Some? {
        return Ok(true);
      }
      seen := fileState;
      var missing := StatAll(build.outs);
      RestattedTrans(disk, old(fileState), seen, fileState);
      r := Ok(missing);
    }

    /** The reported inputs of a finished command, without duplicates and known inputs. */
    method FilterDeps(id: BuildId, names: seq<FileId>) returns (deps: seq<FileId>)
      requires id < |graph.builds| && graph.builds[id].Sized()
      ensures NoDup(deps)
      ensures Elements(deps) == Elements(names) - Elements(graph.builds[id].DirtyingIns())
    {
      deps := [];
      for i := 0 to |names|
        invariant NoDup(deps)
        invariant Elements(deps) == Elements(names[..i]) - Elements(graph.builds[id].DirtyingIns())
      {
        assert names[..i + 1] == names[..i] + [names[i]];
        if names[i] in deps || names[i] in graph.builds[id].DirtyingIns() {
          continue;
        }
        NoDupAppend(deps, names[i]);
        deps := deps + [names[i]];
      }
      assert names[..|names|] == names;
    }

    /** Remembers what a finished command read and wrote, and logs it if nothing is missing. */
    method RecordFinished(id: BuildId, names: Option<seq<FileId>>)
      requires id < |graph.builds| && graph.builds[id].Sized()
      modifies `fileState, `discovered, `logged
      ensures Restatted(disk, old(fileState), fileState)
      ensures discovered == old(discovered)[id := Discovered(discovered, id)]
      ensures Elements(Discovered(discovered, id))
           == (if names.Some? then Elements(names.value) else {}) - Elements(graph.builds[id].DirtyingIns())
      ensures NoDup(Discovered(discovered, id))
      ensures forall f | f in Touched(graph, discovered, id) :: f in fileState && fileState[f] == Stat(disk, f)
      ensures Log() == if Present(disk, Touched(graph, discovered, id))
                       then old(Log())[id := (Discovered(discovered, id), HashOf(graph, env, disk, discovered, id))]
                       else old(Log())
      ensures EntriesOf(graph, old(logged)) ==> EntriesOf(graph, logged)
    {
      var deps := [];
      if names.Some? {
        deps := FilterDeps(id, names.value);
      }
      discovered := discovered[id := deps];
      var missing := StatTouched(id);
      if missing {
        return;
      }
      var h := HashBuild(id);
      SameHash(graph, env, Times(fileState), disk, discovered, id);
      ReloggedSnoc(known, logged, LogEntry(id, deps, h));
      logged := logged + [LogEntry(id, deps, h)];
    }

    /** Stats everything the hash of `id` is taken over; true when a file is missing. */
    method StatTouched(id: BuildId) returns (missing: bool)
      requires id < |graph.builds| && graph.builds[id].Sized()
      modifies `fileState
      ensures Restatted(disk, old(fileState), fileState)
      ensures forall f | f in Touched(graph, discovered, id) :: f in fileState && fileState[f] == Stat(disk, f)
      ensures missing <==> !Present(disk, Touched(graph, discovered, id))
      ensures !missing ==> Present(Times(fileState), Touched(graph, discovered, id))
    {
      var build := graph.builds[id];
      var ins := build.DirtyingIns() + Discovered(discovered, id);
      var inputMissing := StatAll(ins);
      ghost var seen := fileState;
      var outputMissing := StatAll(build.outs);
      RestattedTrans(disk, old(fileState), seen, fileState);
      assert forall f :: f in Touched(graph, discovered, id) <==> f in ins || f in build.outs;
      assert forall f :: Stat(disk, f).None? <==> f !in disk;
      missing := inputMissing || outputMissing;
    }

    // ---- Who becomes ready. ----

    /** Whether everything `id` is ordered after is Done. */
    method RecheckReady(id: BuildId) returns (r: bool)
      requires id < |graph.builds| && |bs.states| == |graph.builds|
      ensures r <==> AllDone(bs.states, Deps(graph, id))
    {
      hide AllDone, Deps, Next;
      DepsByFile(graph, bs.states, id);
      var ins := graph.builds[id].OrderingIns();
      for i := 0 to |ins|
        invariant forall k | 0 <= k < i :: FileDone(graph, bs.states, ins[k])
      {
        assert ins[i] in ins;
        var producer := Producer(graph, ins[i]);
        if producer.Some? {
          assert graph.FileWellFormed(ins[i]);
          if bs.states[producer.value] != Done {
            assert !FileDone(graph, bs.states, ins[i]);
            return false;
          }
        }
      }
      r := true;
    }

    /** The Want builds that list an output of `id` as an input. */
    method WaitingOn(id: BuildId) returns (r: set<BuildId>)
      requires id < |graph.builds| && |bs.states| == |graph.builds|
      ensures forall b | b in r :: b < |bs.states| && bs.states[b] == Want
      ensures Waiters(graph, bs.states, id) <= r
    {
      var users := UsersOf(graph, id);
      r := set b | b in users && bs.states[b] == Want;
    }

    /**
     The state map while builds come and go between two operations: `loose`
     is the build whose queue entry has been taken.
     */
    ghost predicate Midway(loose: set<BuildId>)
      reads this, bs
    {
      && Linked()
      && bs.Accounts(loose)
      && Ordered(graph, bs.states, bs.order)
      && Progressed(graph, bs.states, {})
      && HasPool(bs.pools, "")
      && HistoryOk(graph, bs.states, trace)
      && CommandsOnly(graph, bs.states)
      && Validated(graph, bs.states, {})
      && Accounted()
    }

    /** Marks `id` Done and readies the builds that waited for it alone. */
    method ReadyDependents(id: BuildId, ghost loose: set<BuildId>)
      requires Midway(loose) && loose <= {id} && id < |graph.builds|
      requires bs.states[id] == Running || (bs.states[id] == Ready && id in loose)
      requires Kept(bs.states[id := Done])
      requires Earned(graph, env, adopt, bs.states[id] == Running, disk, discovered, lastHashes, id)
      modifies bs, `trace
      ensures Valid()
      ensures Woken(old(bs.states), bs.states, id)
      ensures Weight(graph, bs.states) < Weight(graph, old(bs.states))
      ensures trace == old(trace) + [Settled(id)]
    {
      hide Counted, ReadyListed, PoolsAgree, Ordered, Progressed, Validated, HistoryOk, FilesOk, Explained;
      hide Weight, Waiters, HasPool, OrderedDeps, AllDone, Earned;
      PastWant(graph, bs.states, {}, id);
      ProgressedMove(graph, bs.states, bs.order, id, Done);
      HistoryStep(graph, bs.states, trace, id, Done);
      ExplainedStep(graph, env, adopt, bs.states, trace, disk, discovered, lastHashes, id, Done);
      WeightFalls(graph, bs.states, id, Done);
      bs.Set(id, Done, loose);
      assert loose - {id} == {};
      trace := trace + [Settled(id)];
      var waiting := WaitingOn(id);
      ProgressedWeaken(graph, bs.states, Waiters(graph, bs.states, id), waiting);
      while waiting != {}
        invariant Waking(waiting)
        invariant Woken(old(bs.states), bs.states, id)
        invariant Weight(graph, bs.states) < Weight(graph, old(bs.states))
        invariant trace == old(trace) + [Settled(id)]
        decreases waiting
      {
        var b :| b in waiting;
        WakeOne(b, waiting);
        waiting := waiting - {b};
      }
    }

    /** The invariant while the builds of `waiting` are still to be rechecked. */
    ghost predicate Waking(waiting: set<BuildId>)
      reads this, bs
    {
      && Linked() && bs.Accounts({}) && HasPool(bs.pools, "")
      && Ordered(graph, bs.states, bs.order) && Progressed(graph, bs.states, waiting)
      && HistoryOk(graph, bs.states, trace) && Kept(bs.states) && CommandsOnly(graph, bs.states)
      && Validated(graph, bs.states, {}) && Accounted()
      && forall b | b in waiting :: b < |bs.states| && bs.states[b] == Want
    }

    /** Readies one waiting build if everything it is ordered after is Done. */
    method WakeOne(b: BuildId, ghost waiting: set<BuildId>)
      requires b in waiting && Waking(waiting)
      modifies bs
      ensures Waking(waiting - {b})
      ensures bs.states == old(bs.states) || bs.states == old(bs.states)[b := Ready]
      ensures Weight(graph, bs.states) <= Weight(graph, old(bs.states))
    {
      hide Counted, ReadyListed, PoolsAgree, Ordered, Progressed, Validated, HistoryOk, FilesOk, Explained;
      hide Weight, Waiters, HasPool, OrderedDeps, AllDone, Earned;
      var ready := RecheckReady(b);
      ProgressedRecheck(graph, bs.states, bs.order, waiting, b);
      if ready {
        HistoryStep(graph, bs.states, trace, b, Ready);
        ExplainedStep(graph, env, adopt, bs.states, trace, disk, discovered, lastHashes, b, Ready);
        assert trace + [] == trace;
        WeightFalls(graph, bs.states, b, Ready);
        if env.hygienic {
          FilesOkMove(graph, env, bs.states, View(), lastHashes, b, Ready);
        }
        bs.Set(b, Ready, {});
        assert {} - {b} == {};
      }
    }

    /** A ready build that is up to date is Done at once. */
    method FinishClean(id: BuildId)
      requires Midway({id}) && id < |graph.builds| && bs.states[id] == Ready && Kept(bs.states)
      requires graph.builds[id].Sized()
      requires forall f | f in graph.builds[id].outs :: f in fileState && fileState[f] == Stat(disk, f)
      requires graph.builds[id].Phony() || UpToDate(graph, env, Times(fileState), discovered, lastHashes, id)
      modifies bs, `trace
      ensures Valid() && Woken(old(bs.states), bs.states, id)
      ensures Weight(graph, bs.states) < Weight(graph, old(bs.states))
      ensures trace == old(trace) + [Settled(id)]
    {
      hide Counted, ReadyListed, PoolsAgree, Ordered, Progressed, Validated, HistoryOk, FilesOk, Explained;
      hide Weight, HasPool, OrderedDeps, UpToDate, Fresh, Present, WasClean;
      if env.hygienic {
        if !graph.builds[id].Phony() {
          CleanIsFresh(graph, env, bs.states, View(), lastHashes, Times(fileState), id);
        }
        FilesOkDone(graph, env, bs.states, View(), lastHashes, id);
      }
      if !graph.builds[id].Phony() {
        CleanOnDisk(graph, env, bs.states, View(), lastHashes, Times(fileState), id);
      }
      ReadyDependents(id, {id});
    }

    /** A build whose command is over, or adopted without running, is recorded and Done. */
    method FinishRecorded(id: BuildId, names: Option<seq<FileId>>, ghost loose: set<BuildId>)
      requires Midway(loose) && loose <= {id} && id < |graph.builds| && Kept(bs.states)
      requires bs.states[id] == Running || (bs.states[id] == Ready && id in loose)
      requires graph.builds[id].Sized()
      requires env.hygienic && names.Some? ==> OrderedDeps(graph, id, names.value)
      requires if bs.states[id] == Running then env.outcome(id).Success? && names == env.deps(id) else adopt && names == None
      modifies bs, `trace, `fileState, `discovered, `logged
      ensures Valid() && Woken(old(bs.states), bs.states, id)
      ensures Weight(graph, bs.states) < Weight(graph, old(bs.states))
      ensures trace == old(trace) + [Settled(id)]
    {
      hide Counted, ReadyListed, PoolsAgree, Ordered, Progressed, Validated, HistoryOk, FilesOk, Explained;
      hide Weight, HasPool, Present, WasClean;
      ghost var before := View();
      RecordFinished(id, names);
      ExplainedRecorded(graph, env, adopt, bs.states, trace, disk, before.discovered, discovered, lastHashes, id);
      NoneReported(graph, discovered, id);
      if env.hygienic {
        OrderedSubset(graph, id, Discovered(discovered, id), names);
        RecordedFresh(graph, env, before, View(), id);
        FilesOkRecorded(graph, env, bs.states, before, View(), lastHashes, id);
      }
      ReadyDependents(id, loose);
    }

    // ---- Wanting targets. ----

    /** Wants a target; fails exactly when an ordering cycle can be reached from it. */
    method WantFile(f: FileId) returns (r: Result<(), seq<FileId>>)
      requires Valid() && f < |graph.files|
      modifies bs
      ensures OnlyWants(old(bs.states), bs.states, ReachedFrom(graph, f))
      ensures r.Ok? <==> !CycleFrom(graph, false, f)
      ensures r.Ok? ==> Valid() && forall b | b in ReachedFrom(graph, f) :: bs.states[b] != Unknown
      ensures r.Err? ==> FileCycle(graph, false, r.error)
    {
      hide Counted, ReadyListed, PoolsAgree, Ordered, Progressed, Validated, HistoryOk, FilesOk, Explained;
      hide HasPool, OrderedDeps, CycleFrom, ReachedFrom, FileCycle;
      ghost var before := bs.states;
      r := bs.WantTarget(f);
      HistoryWalk(graph, before, bs.states, trace, ReachedFrom(graph, f));
      ExplainedWalk(graph, env, adopt, before, bs.states, trace, disk, discovered, lastHashes, ReachedFrom(graph, f));
      if env.hygienic {
        FilesOkWalk(graph, env, before, bs.states, View(), lastHashes, ReachedFrom(graph, f));
      }
    }

    /** Wants each target in turn. */
    method WantTargets(targets: seq<FileId>) returns (r: Result<(), seq<FileId>>)
      requires Valid() && forall f | f in targets :: f < |graph.files|
      requires forall b | 0 <= b < |bs.states| :: bs.states[b] in {Unknown, Want, Ready}
      modifies bs
      ensures r.Ok? <==> forall f | f in targets :: !CycleFrom(graph, false, f)
      ensures r.Err? ==> FileCycle(graph, false, r.error)
      ensures r.Ok? ==> Valid() && BetweenRuns(bs.states)
      ensures r.Ok? ==> forall b | 0 <= b < |bs.states| :: bs.states[b] != Unknown <==>
                                                           old(bs.states)[b] != Unknown || exists f :: f in targets && b in ReachedFrom(graph, f)
    {
      hide Counted, ReadyListed, PoolsAgree, Ordered, Progressed, Validated, HistoryOk, FilesOk, Explained;
      hide HasPool, OrderedDeps, CycleFrom, ReachedFrom, FileCycle;
      for i := 0 to |targets|
        invariant Valid()
        invariant forall b | 0 <= b < |bs.states| :: bs.states[b] in {Unknown, Want, Ready}
        invariant forall f | f in targets[..i] :: !CycleFrom(graph, false, f)
        invariant forall b | 0 <= b < |bs.states| :: bs.states[b] != Unknown <==>
                                                     old(bs.states)[b] != Unknown || exists f :: f in targets[..i] && b in ReachedFrom(graph, f)
      {
        assert targets[..i + 1] == targets[..i] + [targets[i]];
        assert targets[i] in targets;
        var got := WantFile(targets[i]);
        if got.Err? {
          return Err(got.error);
        }
      }
      assert targets[..|targets|] == targets;
      r := Ok(());
    }

    lemma FilesStand()
      requires Valid()
      ensures |bs.states| == |graph.builds| && EntriesOf(graph, logged)
      ensures env.hygienic ==> FilesOk(graph, env, bs.states, View(), lastHashes)
    {
    }

    // ---- The run loop. ----

    /** Nothing has needed a command, and nothing will. */
    ghost predicate NullRun()
      reads this, bs
    {
      |bs.states| == |graph.builds| && env.hygienic && Unneeded(bs.states)
      && AllFresh(graph, env, bs.states, View(), lastHashes)
    }

    /** Decides whether a build taken off the ready queue is dirty; one with an up to date record is not. */
    method Inspect(id: BuildId) returns (dirty: Result<bool, FileId>)
      requires Midway({id}) && Kept(bs.states) && id < |graph.builds| && bs.states[id] == Ready && graph.builds[id].Sized()
      modifies `fileState
      ensures Midway({id}) && Kept(bs.states)
      ensures dirty == Ok(false) ==> forall f | f in graph.builds[id].outs :: f in fileState && fileState[f] == Stat(disk, f)
      ensures dirty == Ok(false) ==> graph.builds[id].Phony() || UpToDate(graph, env, Times(fileState), discovered, lastHashes, id)
      ensures dirty == Ok(true) ==> !graph.builds[id].Phony()
      ensures dirty == Ok(true) ==> !UpToDate(graph, env, Times(fileState), discovered, lastHashes, id)
      ensures env.hygienic && AllFresh(graph, env, bs.states, old(View()), lastHashes) ==> dirty == Ok(false)
    {
      hide Counted, ReadyListed, PoolsAgree, Ordered, Progressed, Validated, HistoryOk, FilesOk, Explained;
      hide HasPool, OrderedDeps, UpToDate, Fresh, Present, AllFresh;
      ghost var before := View();
      dirty := CheckBuildDirty(id);
      if env.hygienic {
        FilesOkStat(graph, env, bs.states, before, View(), lastHashes);
        if AllFresh(graph, env, bs.states, before, lastHashes) && !graph.builds[id].Phony() {
          NullIsClean(graph, env, bs.states, before, View(), lastHashes, Times(fileState), id);
        }
      }
      if dirty.Ok? {
        var v := dirty.value;
        assert dirty == Ok(v);
      }
    }

    /**
     Handles the next ready build: clean ones are finished, dirty ones queued
     (or recorded, when adopting). Ok(false) when there was none. In a null
     rebuild the answer is never dirty and never an error.
     */
    method ProcessReady() returns (r: Result<bool, FileId>)
      requires Valid()
      modifies bs, `trace, `fileState, `discovered, `logged, `disk, `clock
      ensures r.Ok? ==> Valid() && SameRunning(old(bs.states), bs.states)
      ensures r == Ok(false) ==> bs.ready == [] && bs.states == old(bs.states) && bs.pools == old(bs.pools) && trace == old(trace)
      ensures r == Ok(true) ==> Weight(graph, bs.states) < Weight(graph, old(bs.states))
      ensures r.Ok? ==> OnlySettled(old(trace), trace)
      ensures r.Err? ==> InOrder(graph, trace)
      ensures r == Ok(true) ==> old(bs.ready) != [] && Decided(old(bs.ready)[0])
      ensures old(NullRun()) ==> r.Ok? && NullRun() && disk == old(disk)
    {
      hide Counted, ReadyListed, PoolsAgree, Ordered, Progressed, Validated, HistoryOk, FilesOk, Explained;
      hide Weight, HasPool, OrderedDeps, Present, AllFresh, InOrder, CommandsOnly, Relogged, EntriesOf, Decided;
      TraceInOrder();
      Tick();
      if old(NullRun()) {
        QuietDisk(graph, bs.states, old(disk), disk);
      }
      var next := bs.PopReady();
      if next.None? {
        return Ok(false);
      }
      var err := SettleOrQueue(next.value);
      r := if err.Ok? then Ok(true) else Err(err.error);
    }

    /**
     Whether a build that has been handled is queued or Done is what the dirty check
     says, for the times the check has left in the stat cache.
     */
    ghost predicate Decided(id: BuildId)
      reads this, bs
    {
      && id < |bs.states| && bs.states[id] in {Queued, Done} && id < |graph.builds| && graph.builds[id].Sized()
      && (!adopt ==> (bs.states[id] == Done <==>
                      graph.builds[id].Phony() || UpToDate(graph, env, Times(fileState), discovered, lastHashes, id)))
      && (adopt ==> bs.states[id] == Done)
    }

    /** Finishes a ready build that is clean, and queues one that is dirty, or records it when adopting. */
    method SettleOrQueue(id: BuildId) returns (r: Result<(), FileId>)
      requires Midway({id}) && Kept(bs.states) && id < |graph.builds| && bs.states[id] == Ready
      modifies bs, `trace, `fileState, `discovered, `logged
      ensures r.Ok? ==> Valid() && SameRunning(old(bs.states), bs.states) && Decided(id) && OnlySettled(old(trace), trace)
      ensures r.Ok? ==> Weight(graph, bs.states) < Weight(graph, old(bs.states))
      ensures r.Err? ==> trace == old(trace)
      ensures old(NullRun()) ==> r.Ok? && NullRun()
    {
      hide Counted, ReadyListed, PoolsAgree, Ordered, Progressed, Validated, HistoryOk, FilesOk, Explained;
      hide Weight, HasPool, OrderedDeps, UpToDate, Fresh, Present, AllFresh, InOrder;
      hide Relogged, EntriesOf, FoundMissing, CommandsOnly;
      OutputMaker(graph, id, 0);
      ghost var before := View();
      var dirty := Inspect(id);
      if dirty.Err? {
        return Err(dirty.error);
      }
      ghost var midway := bs.states;
      if !dirty.value {
        FinishClean(id);
        NullKept(graph, env, midway, bs.states, before, View(), lastHashes, id);
      } else if adopt {
        FinishRecorded(id, None, {id});
      } else {
        var queued := QueueDirty(id);
        if queued.Err? {
          return Err(id);
        }
      }
      r := Ok(());
    }

    method QueueDirty(id: BuildId) returns (r: Result<(), string>)
      requires Midway({id}) && id < |graph.builds| && bs.states[id] == Ready && Kept(bs.states)
      requires !graph.builds[id].Phony() && !adopt
      modifies bs
      ensures r.Ok? ==> Valid() && bs.states == old(bs.states)[id := Queued]
      ensures r.Ok? <==> old(HasPool(bs.pools, graph.builds[id].PoolName()))
      ensures Weight(graph, bs.states) < Weight(graph, old(bs.states))
    {
      hide Counted, ReadyListed, PoolsAgree, Ordered, Progressed, Validated, HistoryOk, FilesOk, Explained;
      hide Weight, HasPool, OrderedDeps;
      MoveKeeps(graph, env, adopt, bs.states, bs.order, trace, View(), lastHashes, id, Queued);
      assert trace + [] == trace;
      r := bs.Enqueue(id);
    }

    /** Handles ready builds until there are none. */
    method DrainReady() returns (r: Result<bool, FileId>)
      requires Valid()
      modifies bs, `trace, `fileState, `discovered, `logged, `disk, `clock
      ensures r.Ok? ==> Valid() && bs.ready == [] && SameRunning(old(bs.states), bs.states)
      ensures r == Ok(false) ==> bs.states == old(bs.states) && bs.pools == old(bs.pools)
      ensures r == Ok(true) ==> Weight(graph, bs.states) < Weight(graph, old(bs.states))
      ensures r.Ok? ==> OnlySettled(old(trace), trace)
      ensures r.Err? ==> InOrder(graph, trace)
      ensures old(NullRun()) ==> r.Ok? && NullRun() && disk == old(disk)
    {
      hide Counted, ReadyListed, PoolsAgree, Ordered, Progressed, Validated, HistoryOk, FilesOk, Explained;
      hide Weight, AllFresh, OrderedDeps, InOrder;
      var progress := false;
      while true
        invariant Valid() && SameRunning(old(bs.states), bs.states)
        invariant OnlySettled(old(trace), trace)
        invariant old(NullRun()) ==> NullRun() && disk == old(disk)
        invariant if progress then Weight(graph, bs.states) < Weight(graph, old(bs.states))
                  else bs.states == old(bs.states) && bs.pools == old(bs.pools)
        decreases Weight(graph, bs.states)
      {
        ghost var before := trace;
        var step := ProcessReady();
        if step.Err? {
          return Err(step.error);
        }
        OnlySettledTrans(old(trace), before, trace);
        if !step.value {
          return Ok(progress);
        }
        progress := true;
      }
    }

    /** The tasks that are out are exactly the Running builds. */
    ghost predicate Synced(runner: Runner)
      reads this, bs, runner
    {
      && runner.Valid() && runner.parallelism == parallelism
      && forall b: nat :: b in runner.tasks <==> b < |bs.states| && bs.states[b] == Running
    }

    /** Starts one queued build. Its inputs are all Done, it has a command, and it was never started before. */
    method StartOne(runner: Runner, id: BuildId)
      requires Midway({id}) && Synced(runner) && runner.CanStartMore() && Kept(bs.states)
      requires id < |graph.builds| && bs.states[id] == Queued && !graph.builds[id].Phony()
      requires exists k | 0 <= k < |bs.pools| ::
                 bs.pools[k].name == graph.builds[id].PoolName() && bs.pools[k].HasRoom()
      modifies bs, runner, `trace
      ensures Valid() && Synced(runner)
      ensures bs.states == old(bs.states)[id := Running]
      ensures trace == old(trace) + [Started(id)]
      ensures Weight(graph, bs.states) < Weight(graph, old(bs.states))
    {
      hide Counted, ReadyListed, PoolsAgree, Ordered, Progressed, Validated, HistoryOk, FilesOk, Explained;
      hide Weight, HasPool, OrderedDeps, Claimed, CommandsOnly, EntriesOf, Relogged;
      CommandsMove(graph, bs.states, id, Running);
      MoveKeeps(graph, env, adopt, bs.states, bs.order, trace, View(), lastHashes, id, Running);
      bs.Set(id, Running, {id});
      assert {id} - {id} == {};
      trace := trace + [Started(id)];
      runner.Start(id);
    }

    /** Starts queued builds while the runner and the pools allow it. */
    method StartQueued(runner: Runner) returns (started: bool)
      requires Valid() && Synced(runner)
      modifies bs, runner, `trace
      ensures Valid() && Synced(runner)
      ensures SameFailed(old(bs.states), bs.states)
      ensures !started ==> bs.states == old(bs.states)
      ensures !started && runner.CanStartMore() ==> forall p | p in bs.pools :: p.HasRoom() ==> p.queued == []
      ensures started ==> Weight(graph, bs.states) < Weight(graph, old(bs.states))
      ensures old(NullRun()) ==> !started && trace == old(trace) && NullRun()
    {
      hide *;
      SameFailedRefl(bs.states);
      started := false;
      while runner.CanStartMore()
        invariant Valid() && Synced(runner) && SameFailed(old(bs.states), bs.states)
        invariant if started then Weight(graph, bs.states) < Weight(graph, old(bs.states))
                  else bs.states == old(bs.states) && trace == old(trace)
        invariant old(NullRun()) ==> !started && NullRun()
        decreases Weight(graph, bs.states)
      {
        ghost var before := bs.states;
        var next := StartNext(runner);
        if !next {
          return;
        }
        SameFailedTrans(old(bs.states), before, bs.states);
        started := true;
      }
    }

    /** Starts the next queued build of a pool with room, if there is one. */
    method StartNext(runner: Runner) returns (started: bool)
      requires Valid() && Synced(runner) && runner.CanStartMore()
      modifies bs, runner, `trace
      ensures Valid() && Synced(runner) && SameFailed(old(bs.states), bs.states)
      ensures !started ==> bs.states == old(bs.states) && trace == old(trace) && runner.CanStartMore()
      ensures !started ==> forall p | p in bs.pools :: p.HasRoom() ==> p.queued == []
      ensures started ==> Weight(graph, bs.states) < Weight(graph, old(bs.states))
      ensures old(NullRun()) ==> !started && NullRun()
    {
      hide Counted, ReadyListed, PoolsAgree, Ordered, Progressed, Validated, HistoryOk, FilesOk, Explained;
      hide Weight, AllFresh, OrderedDeps, HasPool, Claimed;
      var next := bs.PopQueued();
      if next.None? {
        return false;
      }
      StartOne(runner, next.value);
      started := true;
    }

    /** `id` is Running but its task has just come back. */
    ghost predicate SyncedBut(runner: Runner, id: BuildId)
      reads this, bs, runner
    {
      && runner.Valid() && runner.parallelism == parallelism
      && id < |bs.states| && bs.states[id] == Running
      && forall b: nat :: b in runner.tasks <==> b < |bs.states| && bs.states[b] == Running && b != id
    }

    /** Waits for any one of the tasks that are out. */
    method Wait(runner: Runner) returns (id: BuildId)
      requires Valid() && Synced(runner) && runner.running > 0
      modifies runner, `disk, `clock
      ensures Valid() && SyncedBut(runner, id) && id in old(runner.tasks)
    {
      hide Counted, ReadyListed, PoolsAgree, Ordered, Progressed, Validated, HistoryOk, FilesOk, Explained;
      hide OrderedDeps, HasPool, Claimed;
      Tick();
      assert runner.tasks.Keys != {};
      id :| id in runner.tasks.Keys;
      runner.Finish(id);
    }

    /** Counts a failure against the budget, in a machine word that wraps; true when it is used up. */
    method SpendFailure(runner: Runner, ghost id: BuildId) returns (spent: bool)
      requires Valid() && SyncedBut(runner, id)
      modifies `failuresLeft
      ensures Valid() && SyncedBut(runner, id)
      ensures spent <==> old(failuresLeft) == Some(1)
      ensures old(failuresLeft).None? <==> failuresLeft.None?
      ensures old(failuresLeft).Some? && old(failuresLeft.value) > 0 ==> failuresLeft.value == old(failuresLeft.value) - 1
      ensures old(failuresLeft) == Some(0) ==> failuresLeft == Some(WORD - 1)
    {
      hide Counted, ReadyListed, PoolsAgree, Ordered, Progressed, Validated, HistoryOk, FilesOk, Explained;
      hide OrderedDeps, HasPool, Claimed;
      spent := false;
      if failuresLeft.Some? {
        failuresLeft := Some(if failuresLeft.value == 0 then WORD - 1 else failuresLeft.value - 1);
        spent := failuresLeft.value == 0;
      }
    }

    /** Marks a build whose command failed. */
    method MarkFailed(runner: Runner, id: BuildId)
      requires Valid() && SyncedBut(runner, id) && env.outcome(id).Failure?
      modifies bs, `trace
      ensures Valid() && Synced(runner) && !NoneFailed(bs.states) && SameWanted(old(bs.states), bs.states)
      ensures id < |old(bs.states)| && bs.states == old(bs.states)[id := Failed] && trace == old(trace) + [Broke(id)]
      ensures Weight(graph, bs.states) < Weight(graph, old(bs.states))
    {
      hide Counted, ReadyListed, PoolsAgree, Ordered, Progressed, Validated, HistoryOk, FilesOk, Explained;
      hide Weight, HasPool, OrderedDeps;
      MoveKeeps(graph, env, adopt, bs.states, bs.order, trace, View(), lastHashes, id, Failed);
      bs.Set(id, Failed, {});
      assert {} - {id} == {};
      trace := trace + [Broke(id)];
    }

    /** Records a command that succeeded. */
    method TaskSucceeded(runner: Runner, id: BuildId)
      requires Valid() && SyncedBut(runner, id) && env.outcome(id).Success?
      modifies this, bs
      ensures Valid() && Synced(runner) && id < |bs.states| && bs.states[id] == Done
      ensures tasksRun == old(tasksRun) + 1
      ensures SameFailed(old(bs.states), bs.states) && failuresLeft == old(failuresLeft)
      ensures Weight(graph, bs.states) < Weight(graph, old(bs.states))
    {
      hide Counted, ReadyListed, PoolsAgree, Ordered, Progressed, Validated, HistoryOk, FilesOk, Explained;
      hide Weight, HasPool, OrderedDeps, Claimed;
      tasksRun := tasksRun + 1;
      OutputMaker(graph, id, 0);
      FinishRecorded(id, env.deps(id), {});
    }

    /** A command that was started, and whose build is Running still, ended so. */
    ghost predicate CutShort(how: Termination)
      reads this, bs
    {
      exists b: nat :: Started(b) in trace && env.outcome(b) == how && b < |bs.states| && bs.states[b] == Running
    }

    lemma WasStarted(b: BuildId)
      requires Valid() && b < |bs.states|
      ensures Explained(graph, env, adopt, bs.states, trace, disk, discovered, lastHashes)
      ensures bs.states[b] == Running ==> CutShort(env.outcome(b))
    {
    }

    lemma CommandsEnded()
      requires Valid() && Idle(bs.states)
      ensures Explained(graph, env, adopt, bs.states, trace, disk, discovered, lastHashes) && AllEnded(env, trace)
      ensures AllDoneOrUnknown(bs.states) ==> AllSucceeded(env, trace)
    {
      ExplainedIdle(graph, env, adopt, bs.states, trace, disk, discovered, lastHashes);
    }

    lemma RunStarts(runner: Runner)
      requires Valid() && BetweenRuns(bs.states)
      requires runner.Valid() && runner.parallelism == parallelism && runner.tasks == map[]
      ensures Synced(runner) && NoneFailed(bs.states) && SameWanted(bs.states, bs.states)
    {
    }

    lemma NullQuiet(runner: Runner)
      requires NullRun() && Synced(runner) && |bs.states| == |graph.builds|
      ensures runner.running == 0 && NoneFailed(bs.states)
    {
      assert runner.tasks == map[];
    }

    lemma ValidStates()
      requires Valid()
      ensures |bs.states| == |graph.builds| && Ordered(graph, bs.states, bs.order) && Progressed(graph, bs.states, {})
      ensures bs.totalPending == |In(bs.states, AllBuilds(graph), PENDING)|
    {
    }

    /** Starts what can be started and settles what is ready; Ok(false) when there was neither. */
    method MakeProgress(runner: Runner) returns (r: Result<bool, FileId>)
      requires Valid() && Synced(runner)
      modifies bs, runner, `trace, `fileState, `discovered, `logged, `disk, `clock
      ensures r.Ok? ==> SameFailed(old(bs.states), bs.states)
      ensures r.Ok? ==> Valid() && Synced(runner)
      ensures r == Ok(true) ==> Weight(graph, bs.states) < Weight(graph, old(bs.states))
      ensures r == Ok(false) ==> bs.states == old(bs.states) && (runner.running == 0 ==> Idle(bs.states))
      ensures r.Err? ==> InOrder(graph, trace)
      ensures old(NullRun()) ==> r.Ok? && NullRun() && disk == old(disk) && OnlySettled(old(trace), trace)
    {
      hide Counted, ReadyListed, PoolsAgree, Ordered, Progressed, Validated, HistoryOk, FilesOk, Explained;
      hide Weight, AllFresh, OrderedDeps, HasPool, Claimed, OnlySettled, Idle, InOrder, Unneeded;
      hide Relogged, EntriesOf, CommandsOnly;
      var started := StartQueued(runner);
      ghost var mid := bs.states;
      var drained := DrainReady();
      if drained.Err? {
        return Err(drained.error);
      }
      assert !drained.value ==> bs.states == mid;
      if !started && !drained.value && runner.running == 0 {
        NothingRunning(runner);
      }
      r := Ok(started || drained.value);
    }

    lemma NothingRunning(runner: Runner)
      requires Valid() && Synced(runner) && runner.running == 0 && bs.ready == []
      requires forall p | p in bs.pools :: p.HasRoom() ==> p.queued == []
      ensures Idle(bs.states)
    {
      hide Counted, ReadyListed, PoolsAgree, Ordered, Progressed, Validated, HistoryOk, FilesOk, Explained, HasPool, OrderedDeps;
      assert runner.tasks == map[];
      NothingToDo(graph, bs.states, bs.pools, bs.ready);
    }

    lemma IsRunning(runner: Runner, id: BuildId)
      requires SyncedBut(runner, id)
      ensures id < |bs.states| && bs.states[id] == Running
    {
    }

    /** Waits for a task and handles its end. `spent` says the failure budget ran out. */
    method FinishOne(runner: Runner) returns (how: Termination, spent: bool, ghost id: BuildId)
      requires Valid() && Synced(runner) && runner.running > 0
      modifies this, bs, runner
      ensures Valid() && SameWanted(old(bs.states), bs.states)
      ensures id in old(runner.tasks) && id < |bs.states| && how == env.outcome(id)
      ensures bs.states[id] == if how.Success? then Done else if how.Failure? && !spent then Failed else Running
      ensures how.Success? || (how.Failure? && !spent) ==>
                Synced(runner) && Weight(graph, bs.states) < Weight(graph, old(bs.states))
      ensures spent ==> how.Failure? && old(failuresLeft) == Some(1)
      ensures !spent ==> Spent(old(failuresLeft), failuresLeft, if how.Failure? then 1 else 0)
      ensures |FailedOf(bs.states)| == |FailedOf(old(bs.states))| + if how.Failure? && !spent then 1 else 0
    {
      hide *;
      SameWantedRefl(bs.states);
      ghost var before := bs.states;
      var task := Wait(runner);
      id := task;
      IsRunning(runner, task);
      how, spent := env.outcome(task), false;
      match how {
        case Failure =>
          spent := SpendFailure(runner, task);
          if spent {
            return;
          }
          OneSpent(old(failuresLeft), failuresLeft);
          FailedMore(bs.states, task);
          MarkFailed(runner, task);
        case Interrupted =>
        case Success =>
          TaskSucceeded(runner, task);
          SameFailedWanted(before, bs.states);
      }
      if !how.Failure? {
        NoneSpent(failuresLeft);
      }
    }

    /** Every build was started and settled once, after everything it is ordered after was settled. */
    lemma TraceInOrder()
      requires Valid()
      ensures InOrder(graph, trace)
    {
    }

    /**
     Runs the build. It always ends, never finds itself out of work without a
     failure, and when it ends by itself a wanted build is Done exactly when
     nothing it is ordered after, itself included, has failed. The last failure
     the budget allows ends it, and no earlier one does. Every command it starts
     comes to what its task came to: a run that succeeds has had no command fail,
     and one that gives up or is interrupted has a started command that did so.
     */
    method Run(interrupted: bool) returns (r: Result<bool, FileId>, ending: Ending)
      requires Valid() && BetweenRuns(bs.states)
      modifies this, bs
      ensures r.Err? <==> ending.Refused?
      ensures r.Ok? ==> Valid() && SameWanted(old(bs.states), bs.states)
      ensures InOrder(graph, trace)
      ensures ending.FailuresSpent? || ending.WasInterrupted? ==> r == Ok(false)
      ensures ending.Ran? ==> Idle(bs.states) && BlockedByFailures(graph, bs.states)
      ensures ending.Ran? ==> r == Ok(!interrupted && AllDoneOrUnknown(bs.states)) && AllEnded(env, trace)
      ensures r.Ok? ==> Explained(graph, env, adopt, bs.states, trace, disk, discovered, lastHashes)
      ensures r == Ok(true) ==> AllSucceeded(env, trace)
      ensures ending.WasInterrupted? ==> CutShort(Interrupted)
      ensures ending.FailuresSpent? ==> CutShort(Failure)
      ensures old(NullRun()) ==> r == Ok(!interrupted) && ending.Ran? && disk == old(disk) && OnlySettled(old(trace), trace)
      ensures ending.FailuresSpent? ==> old(failuresLeft).Some? && |FailedOf(bs.states)| + 1 == Allowed(old(failuresLeft.value))
      ensures r == Ok(true) ==> ending.Ran?
      ensures r.Ok? && !ending.FailuresSpent? && old(failuresLeft).Some? ==> |FailedOf(bs.states)| < Allowed(old(failuresLeft.value))
    {
      hide *;
      var tasksFailed := 0;
      NoneFailedOf(bs.states);
      NoneSpent(failuresLeft);
      var runner := new Runner(parallelism);
      RunStarts(runner);
      OnlySettledRefl(trace);
      while bs.totalPending > 0
        invariant Valid() && Synced(runner) && fresh(runner) && SameWanted(old(bs.states), bs.states)
        invariant tasksFailed == |FailedOf(bs.states)| && Spent(old(failuresLeft), failuresLeft, tasksFailed)
        invariant old(NullRun()) ==> NullRun() && disk == old(disk) && OnlySettled(old(trace), trace)
        decreases Weight(graph, bs.states)
      {
        ghost var before := trace;
        ValidStates();
        ghost var wanted := bs.states;
        var progress := MakeProgress(runner);
        if progress.Err? {
          return Err(progress.error), Refused;
        }
        SameFailedWanted(wanted, bs.states);
        SameWantedTrans(old(bs.states), wanted, bs.states);
        if old(NullRun()) {
          OnlySettledTrans(old(trace), before, trace);
          ValidStates();
          NullQuiet(runner);
        }
        if progress.value {
          continue;
        }
        if runner.running == 0 {
          if tasksFailed > 0 {
            break;
          }
          ValidStates();
          NoneFailedOf(bs.states);
          NeverStuck(graph, bs.states, bs.order);
          assert false;
        }
        wanted := bs.states;
        ghost var left := failuresLeft;
        var how, spent, id := FinishOne(runner);
        SameWantedTrans(old(bs.states), wanted, bs.states);
        TraceInOrder();
        WasStarted(id);
        if spent {
          SpentWhole(old(failuresLeft), left, tasksFailed);
          return Ok(false), FailuresSpent;
        }
        SpentMore(old(failuresLeft), left, failuresLeft, tasksFailed, if how.Failure? then 1 else 0);
        if how.Interrupted? {
          return Ok(false), WasInterrupted;
        }
        if how.Failure? {
          tasksFailed := tasksFailed + 1;
        }
      }
      ValidStates();
      if old(NullRun()) {
        NullQuiet(runner);
      }
      RunEnded(graph, bs.states, bs.order);
      NoneFailedOf(bs.states);
      NoneSpent(failuresLeft);
      SpentMore(old(failuresLeft), failuresLeft, failuresLeft, tasksFailed, 0);
      TraceInOrder();
      CommandsEnded();
      r, ending := Ok(tasksFailed == 0 && !interrupted), Ran;
    }
  }

  /** A state change on the way to Done, with its event, keeps all that is about states, history and files. */
  lemma MoveKeeps(g: WfGraph, env: Env, adopt: bool, states: seq<BuildState>, order: seq<BuildId>, trace: seq<Event>,
                  fs: Files, last: map<BuildId, nat>, id: BuildId, state: BuildState)
    requires Ordered(g, states, order) && Progressed(g, states, {}) && Validated(g, states, {}) && HistoryOk(g, states, trace)
    requires Explained(g, env, adopt, states, trace, fs.disk, fs.discovered, last)
    requires env.hygienic ==> FilesOk(g, env, states, fs, last)
    requires id < |states| && match state
                              case Queued => states[id] == Ready && !adopt
                              case Running => states[id] == Queued
                              case Failed => states[id] == Running && env.outcome(id).Failure?
                              case _ => false
    ensures var after := states[id := state];
            && Ordered(g, after, order) && Progressed(g, after, {}) && Validated(g, after, {})
            && HistoryOk(g, after, trace + EventsOf(id, state))
            && Explained(g, env, adopt, after, trace + EventsOf(id, state), fs.disk, fs.discovered, last)
            && (env.hygienic ==> FilesOk(g, env, after, fs, last))
            && Weight(g, after) < Weight(g, states)
  {
    hide Ordered, Progressed, Validated, HistoryOk, FilesOk, Explained, Weight;
    OrderedSizes(g, states, order);
    PastWant(g, states, {}, id);
    ProgressedMove(g, states, order, id, state);
    HistoryStep(g, states, trace, id, state);
    ExplainedStep(g, env, adopt, states, trace, fs.disk, fs.discovered, last, id, state);
    WeightFalls(g, states, id, state);
    if env.hygienic {
      FilesOkMove(g, env, states, fs, last, id, state);
    }
  }

  lemma CommandsMove(g: Graph, states: seq<BuildState>, id: BuildId, state: BuildState)
    requires |states| == |g.builds| && CommandsOnly(g, states) && id < |states| && !g.builds[id].Phony()
    ensures CommandsOnly(g, states[id := state])
  {
  }

  lemma OrderedSizes(g: WfGraph, states: seq<BuildState>, order: seq<BuildId>)
    requires Ordered(g, states, order)
    ensures |states| == |g.builds|
  {
  }

  lemma OnlySettledRefl(trace: seq<Event>)
    ensures OnlySettled(trace, trace)
  {
  }

  // ---- The null rebuild. ----

  /** The wanted builds are exactly those reachable from the targets. */
  ghost predicate WantedExactly(g: WfGraph, states: seq<BuildState>, targets: seq<FileId>) {
    |states| == |g.builds| && forall b | 0 <= b < |states| ::
      states[b] != Unknown <==> exists f :: f in targets && b in ReachedFrom(g, f)
  }

  /** Every command the targets need has an up to date record, and no file of it is missing. */
  ghost predicate TargetsFresh(g: WfGraph, env: Env, targets: seq<FileId>, disk: map<FileId, nat>,
                               discovered: map<BuildId, seq<FileId>>, last: map<BuildId, nat>) {
    forall states | WantedExactly(g, states, targets) ::
      AllFresh(g, env, states, Files(disk, map[], discovered, map[]), last)
  }

  /** Reported and remembered inputs that are generated come from builds ordered before. */
  ghost predicate InputsOrdered(g: WfGraph, env: Env, discovered: map<BuildId, seq<FileId>>) {
    forall b | 0 <= b < |g.builds| ::
      (env.deps(b).Some? ==> OrderedDeps(g, b, env.deps(b).value)) && OrderedDeps(g, b, Discovered(discovered, b))
  }

  lemma StartsFresh(g: WfGraph, env: Env, states: seq<BuildState>, targets: seq<FileId>, fs: Files, last: map<BuildId, nat>)
    requires WantedExactly(g, states, targets) && TargetsFresh(g, env, targets, fs.disk, fs.discovered, last)
    requires BetweenRuns(states)
    ensures AllFresh(g, env, states, fs, last) && Unneeded(states)
  {
    assert AllFresh(g, env, states, Files(fs.disk, map[], fs.discovered, map[]), last);
  }

  lemma WantedExactlyKept(g: WfGraph, states: seq<BuildState>, states': seq<BuildState>, targets: seq<FileId>)
    requires WantedExactly(g, states, targets) && SameWanted(states, states')
    ensures WantedExactly(g, states', targets)
  {
  }

  /** How a whole build ends: all built, refused for a cycle, or stopped on the way. */
  datatype Outcome = Built(work: Work) | Cyclic(files: seq<FileId>) | Stopped(work: Work, ending: Ending)

  /**
   A whole build: want the targets, run. It is refused exactly when an ordering
   cycle can be reached from a target; otherwise it has built all that the
   targets lead to, or says what stopped it. Every command it started came to what
   its task came to, and the others it settled were up to date.
   */
  method BuildOnce(graph: WfGraph, env: Env, lastHashes: map<BuildId, nat>, discovered: map<BuildId, seq<FileId>>,
                   disk: map<FileId, nat>, parallelism: nat, failuresLeft: Option<nat>, depths: seq<(string, nat)>,
                   targets: seq<FileId>)
    returns (r: Outcome)
    requires parallelism > 0 && (forall f | f in targets :: f < |graph.files|)
    requires env.hygienic ==> InputsOrdered(graph, env, discovered)
    ensures r.Cyclic? <==> exists f | f in targets :: CycleFrom(graph, false, f)
    ensures r.Cyclic? ==> FileCycle(graph, false, r.files)
    ensures !r.Cyclic? ==> fresh(r.work) && fresh(r.work.bs) && r.work.graph == graph && r.work.env == env && r.work.lastHashes == lastHashes
    ensures !r.Cyclic? ==> InOrder(graph, r.work.trace)
    ensures !r.Cyclic? ==> r.work.known == (map b | b in lastHashes :: (Discovered(discovered, b), lastHashes[b]))
    ensures r.Built? ==> r.work.Valid() && |r.work.bs.states| == |graph.builds|
    ensures r.Built? ==> AllDoneOrUnknown(r.work.bs.states) && WantedExactly(graph, r.work.bs.states, targets)
    ensures r.Stopped? && r.ending.Ran? ==> |r.work.bs.states| == |graph.builds| && WantedExactly(graph, r.work.bs.states, targets)
    ensures r.Stopped? && r.ending.Ran? ==> BlockedByFailures(graph, r.work.bs.states) && !AllDoneOrUnknown(r.work.bs.states)
    ensures !r.Cyclic? ==> !r.work.adopt
    ensures r.Built? ==> AllSucceeded(env, r.work.trace)
    ensures r.Built? || (r.Stopped? && r.ending.Ran?) ==> AllEnded(env, r.work.trace)
    ensures r.Built? || (r.Stopped? && !r.ending.Refused?) ==>
              Explained(graph, env, false, r.work.bs.states, r.work.trace, r.work.disk, r.work.discovered, lastHashes)
    ensures r.Stopped? && r.ending.WasInterrupted? ==> r.work.CutShort(Interrupted)
    ensures r.Stopped? && r.ending.FailuresSpent? ==> r.work.CutShort(Failure)
    ensures r.Stopped? && r.ending.FailuresSpent? ==> failuresLeft.Some? && |FailedOf(r.work.bs.states)| + 1 == Allowed(failuresLeft.value)
    ensures env.hygienic && TargetsFresh(graph, env, targets, disk, discovered, lastHashes) && !r.Cyclic? ==>
              r.Built? && r.work.disk == disk && forall e | e in r.work.trace :: e.Settled?
  {
    hide Counted, ReadyListed, PoolsAgree, Ordered, Progressed, Validated, HistoryOk, FilesOk, Explained;
    hide HasPool, OrderedDeps, CycleFrom, ReachedFrom, FileCycle, TargetsFresh, AllFresh, InOrder;
    hide BlockedByFailures, AllDoneOrUnknown, Idle, FailedOf, Explained, AllEnded, AllSucceeded;
    var work := new Work(graph, env, lastHashes, discovered, disk, parallelism, failuresLeft, false, depths);
    var wanted := work.WantTargets(targets);
    if wanted.Err? {
      return Cyclic(wanted.error);
    }
    ghost var before := work.bs.states;
    assert WantedExactly(graph, before, targets);
    if env.hygienic && TargetsFresh(graph, env, targets, disk, discovered, lastHashes) {
      StartsFresh(graph, env, before, targets, work.View(), lastHashes);
    }
    var ok, ending := work.Run(false);
    if ok.Ok? {
      WantedExactlyKept(graph, before, work.bs.states, targets);
    }
    r := if ok == Ok(true) then Built(work) else Stopped(work, ending);
  }

  /** No file of a finished command is missing. */
  ghost predicate NothingMissing(g: WfGraph, states: seq<BuildState>, disk: map<FileId, nat>,
                                 discovered: map<BuildId, seq<FileId>>)
    requires |states| == |g.builds|
  {
    forall b | 0 <= b < |states| && states[b] == Done && !g.builds[b].Phony() ::
      g.builds[b].Sized() && Present(disk, Touched(g, discovered, b))
  }

  /** Finishing a clean build leaves a null rebuild one. */
  lemma NullKept(g: WfGraph, env: Env, states: seq<BuildState>, states': seq<BuildState>, fs: Files, fs': Files,
                 last: map<BuildId, nat>, id: BuildId)
    requires |states| == |g.builds| && Woken(states, states', id) && states[id] == Ready
    requires fs' == fs.(stat := fs'.stat)
    ensures SameRunning(states, states')
    ensures Unneeded(states) ==> Unneeded(states')
    ensures AllFresh(g, env, states, fs, last) ==> AllFresh(g, env, states', fs', last)
  {
  }

  /**
   What the inputs of a build decide. The first that is missing or unknown is an
   error if it is generated and was never stat-ed, or a declared source; it makes
   the build dirty if it is declared and generated, or was discovered. With all of
   them there, there is no error.
   */
  ghost predicate InputsAnswer(g: Graph, stat: map<FileId, Option<nat>>, disk: map<FileId, nat>, declared: seq<FileId>,
                               found: seq<FileId>, r: Result<bool, FileId>)
  {
    && (forall i | FirstBad(g, stat, disk, declared, i) ::
          r == if Learnt(g, stat, disk, declared[i]).None? || Maker(g, declared[i]).None? then Err(declared[i]) else Ok(true))
    && ((forall f | f in declared :: Fine(g, stat, disk, f)) ==>
          && (forall i | FirstBad(g, stat, disk, found, i) ::
                r == if Learnt(g, stat, disk, found[i]).None? then Err(found[i]) else Ok(true))
          && ((forall f | f in found :: Fine(g, stat, disk, f)) ==> r.Ok?))
  }

  /** How the answer follows from the first input that stands in the way. */
  lemma InputsAnswers(g: Graph, stat: map<FileId, Option<nat>>, disk: map<FileId, nat>, declared: seq<FileId>, found: seq<FileId>)
    ensures (forall f | f in declared :: Fine(g, stat, disk, f)) || exists i :: FirstBad(g, stat, disk, declared, i)
    ensures (forall f | f in found :: Fine(g, stat, disk, f)) || exists i :: FirstBad(g, stat, disk, found, i)
    ensures forall i | FirstBad(g, stat, disk, declared, i) ::
              InputsAnswer(g, stat, disk, declared, found,
                           if Learnt(g, stat, disk, declared[i]).None? || Maker(g, declared[i]).None? then Err(declared[i]) else Ok(true))
    ensures (forall f | f in declared :: Fine(g, stat, disk, f)) ==> forall i | FirstBad(g, stat, disk, found, i) ::
                InputsAnswer(g, stat, disk, declared, found,
                             if Learnt(g, stat, disk, found[i]).None? then Err(found[i]) else Ok(true))
    ensures (forall f | f in declared :: Fine(g, stat, disk, f)) && (forall f | f in found :: Fine(g, stat, disk, f)) ==>
              forall dirty :: InputsAnswer(g, stat, disk, declared, found, Ok(dirty))
  {
    hide Fine, Learnt;
    FirstBadIn(g, stat, disk, declared);
    FirstBadIn(g, stat, disk, found);
    OneFirstBad(g, stat, disk, declared);
    OneFirstBad(g, stat, disk, found);
  }

  lemma OneFirstBad(g: Graph, stat: map<FileId, Option<nat>>, disk: map<FileId, nat>, fs: seq<FileId>)
    ensures forall i, j | FirstBad(g, stat, disk, fs, i) && FirstBad(g, stat, disk, fs, j) :: i == j
    ensures forall i | FirstBad(g, stat, disk, fs, i) :: fs[i] in fs && !Fine(g, stat, disk, fs[i])
  {
    hide Fine;
  }

  lemma InputsFine(g: Graph, stat: map<FileId, Option<nat>>, disk: map<FileId, nat>, declared: seq<FileId>, found: seq<FileId>)
    requires InputsAnswer(g, stat, disk, declared, found, Ok(false))
    ensures forall dirty :: InputsAnswer(g, stat, disk, declared, found, Ok(dirty))
  {
    hide Fine, Learnt;
    FirstBadIn(g, stat, disk, declared);
    FirstBadIn(g, stat, disk, found);
  }

  lemma FirstBadIn(g: Graph, stat: map<FileId, Option<nat>>, disk: map<FileId, nat>, fs: seq<FileId>)
    ensures (forall f | f in fs :: Fine(g, stat, disk, f)) || exists i :: FirstBad(g, stat, disk, fs, i)
  {
    if fs != [] && !forall f | f in fs :: Fine(g, stat, disk, f) {
      FirstBadUpto(g, stat, disk, fs, |fs|);
    }
  }

  lemma {:induction false} FirstBadUpto(g: Graph, stat: map<FileId, Option<nat>>, disk: map<FileId, nat>, fs: seq<FileId>, n: nat)
    requires n <= |fs| && exists k :: 0 <= k < n && !Fine(g, stat, disk, fs[k])
    ensures exists i :: FirstBad(g, stat, disk, fs, i)
  {
    if forall k | 0 <= k < n - 1 :: Fine(g, stat, disk, fs[k]) {
      assert FirstBad(g, stat, disk, fs, n - 1);
    } else {
      FirstBadUpto(g, stat, disk, fs, n - 1);
    }
  }

  /** Stat-ing source files teaches nothing that was not known to be learnt. */
  lemma LearntStill(g: Graph, stat: map<FileId, Option<nat>>, stat': map<FileId, Option<nat>>, disk: map<FileId, nat>)
    requires Restatted(disk, stat, stat') && forall f | f in stat :: stat'[f] == stat[f]
    requires forall f | f in stat' && f !in stat :: Maker(g, f).None?
    ensures forall f :: Learnt(g, stat', disk, f) == Learnt(g, stat, disk, f)
    ensures forall f :: Fine(g, stat', disk, f) <==> Fine(g, stat, disk, f)
    ensures forall fs, i :: FirstBad(g, stat', disk, fs, i) <==> FirstBad(g, stat, disk, fs, i)
  {
  }

  lemma NoneReported(g: Graph, discovered: map<BuildId, seq<FileId>>, id: BuildId)
    requires id < |g.builds| && g.builds[id].Sized()
    ensures Elements(Discovered(discovered, id)) == {} - Elements(g.builds[id].DirtyingIns()) ==> Discovered(discovered, id) == []
  {
    var ds := Discovered(discovered, id);
    assert ds != [] ==> ds[0] in Elements(ds);
  }

  lemma OrderedSubset(g: WfGraph, id: BuildId, deps: seq<FileId>, names: Option<seq<FileId>>)
    requires id < |g.builds| && g.builds[id].Sized()
    requires Elements(deps) == (if names.Some? then Elements(names.value) else {}) - Elements(g.builds[id].DirtyingIns())
    requires names.Some? ==> OrderedDeps(g, id, names.value)
    ensures OrderedDeps(g, id, deps)
  {
    forall f | f in deps
      ensures names.Some? && f in names.value
    {
      assert f in Elements(deps);
    }
  }

  lemma RecordedFresh(g: WfGraph, env: Env, before: Files, after: Files, id: BuildId)
    requires id < |g.builds| && g.builds[id].Sized() && after.disk == before.disk
    requires forall f | f in Touched(g, after.discovered, id) :: f in after.stat && after.stat[f] == Stat(after.disk, f)
    requires after.log == if Present(after.disk, Touched(g, after.discovered, id))
                          then before.log[id := (Discovered(after.discovered, id), HashOf(g, env, after.disk, after.discovered, id))]
                          else before.log
    ensures forall f | f in g.builds[id].outs :: f in after.stat && after.stat[f] == Stat(before.disk, f)
    ensures forall b | b != id :: b in after.log <==> b in before.log
    ensures forall b | b != id && b in before.log :: after.log[b] == before.log[b]
    ensures id in after.log ==> after.log[id].0 == Discovered(after.discovered, id) || (id in before.log && after.log[id] == before.log[id])
    ensures Present(after.disk, Touched(g, after.discovered, id)) ==> Fresh(g, env, after, id)
  {
    assert forall f | f in g.builds[id].outs :: f in Touched(g, after.discovered, id);
  }
}
