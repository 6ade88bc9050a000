/**
 One request to the daemon: paths are merged by derivation, long output lists
 are split, and the replies are pooled by output name.
 */
module RealiseRequest {
  import opened FanOut
  import opened Sequences
  import opened Wrappers

  type StorePath = string
  type Drv = string
  type OutputName = string

  /** What is asked for: a path as it is, or one output of a derivation. */
  datatype DerivedPath = Opaque(path: StorePath) | Built(drv: Drv, output: OutputName)

  /** One entry of a request: a path, or a derivation with the outputs wanted of it. */
  datatype Request = Plain(path: StorePath) | Outputs(drv: Drv, names: seq<OutputName>)

  datatype Key = PathKey(path: StorePath) | DrvKey(drv: Drv)

  /** A daemon that builds the same thing every time: where outputs end up, and what cannot be built. */
  datatype Daemon = Daemon(place: (Drv, OutputName) -> StorePath, broken: Key -> bool)

  /**
   What the daemon answers to one entry. The answer names the derivation it
   resolved, which need not be the one that was asked for.
   */
  datatype Reply = Success(key: Key, outputs: map<OutputName, StorePath>) | Failure(key: Key)

  datatype Error = BuildFailed | MissingBuildResult

  function KeyOf(p: DerivedPath): Key {
    match p
    case Opaque(path) => PathKey(path)
    case Built(drv, _) => DrvKey(drv)
  }

  /** What asking for one path alone gives. */
  function Realisation(d: Daemon, p: DerivedPath): Result<StorePath, Error> {
    if d.broken(KeyOf(p)) then Err(BuildFailed)
    else match p
         case Opaque(path) => Ok(path)
         case Built(drv, output) => Ok(d.place(drv, output))
  }

  /** A truthful answer: it may carry more outputs than were asked for, and any key for a derivation. */
  ghost predicate Truthful(d: Daemon, q: Request, reply: Reply) {
    match q
    case Plain(path) =>
      reply.key == PathKey(path)
      && if d.broken(PathKey(path)) then reply.Failure? else reply.Success? && reply.outputs == map[]
    case Outputs(drv, names) =>
      reply.key.DrvKey?
      && if d.broken(DrvKey(drv)) then reply.Failure?
      else reply.Success? && (forall o | o in names :: o in reply.outputs)
           && forall o | o in reply.outputs :: reply.outputs[o] == d.place(drv, o)
  }

  // ---- Merging. ----

  predicate Asks(q: Request, p: DerivedPath) {
    match p
    case Opaque(path) => q == Plain(path)
    case Built(drv, output) => q.Outputs? && q.drv == drv && output in q.names
  }

  function RequestKey(q: Request): Key {
    match q
    case Plain(path) => PathKey(path)
    case Outputs(drv, _) => DrvKey(drv)
  }

  /** The requests ask for the paths, for nothing else, and once per derivation or path. */
  ghost predicate MergedFrom(qs: seq<Request>, paths: seq<DerivedPath>) {
    && (forall p | p in paths :: exists q :: q in qs && Asks(q, p))
    && (forall k | 0 <= k < |qs| :: match qs[k]
                                    case Plain(path) => Opaque(path) in paths
                                    case Outputs(drv, names) => names != [] && NoDup(names) && forall o | o in names :: Built(drv, o) in paths)
    && (forall i, j | 0 <= i < j < |qs| :: RequestKey(qs[i]) != RequestKey(qs[j]))
  }

  /** Where each key's entry is. */
  ghost predicate Keyed(qs: seq<Request>, index: map<Key, nat>) {
    && (forall k | k in index :: index[k] < |qs| && RequestKey(qs[index[k]]) == k)
    && (forall i | 0 <= i < |qs| :: RequestKey(qs[i]) in index && index[RequestKey(qs[i])] == i)
  }

  /** Where the entry with that key is, if there is one. */
  function FindKey(qs: seq<Request>, key: Key): (r: Option<nat>)
    ensures r.Some? ==> r.value < |qs| && RequestKey(qs[r.value]) == key
    ensures r.None? ==> forall i | 0 <= i < |qs| :: RequestKey(qs[i]) != key
  {
    if qs == [] then None
    else if RequestKey(qs[|qs| - 1]) == key then Some(|qs| - 1)
    else FindKey(qs[..|qs| - 1], key)
  }

  function EntryFor(p: DerivedPath): Request {
    match p
    case Opaque(path) => Plain(path)
    case Built(drv, output) => Outputs(drv, [output])
  }

  /** One more output of a derivation that has an entry already. */
  function WithOutput(q: Request, p: DerivedPath): Request
    requires RequestKey(q) == KeyOf(p)
  {
    if p.Opaque? || p.output in q.names then q else Outputs(p.drv, q.names + [p.output])
  }

  /** One path more. */
  function MergeOne(qs: seq<Request>, p: DerivedPath): seq<Request> {
    var at := FindKey(qs, KeyOf(p));
    if at.None? then qs + [EntryFor(p)] else qs[at.value := WithOutput(qs[at.value], p)]
  }

  /** The paths, merged into one entry per derivation. */
  function Merged(paths: seq<DerivedPath>): seq<Request> {
    if paths == [] then [] else MergeOne(Merged(paths[..|paths| - 1]), paths[|paths| - 1])
  }

  lemma MergeOneRight(qs: seq<Request>, paths: seq<DerivedPath>, p: DerivedPath)
    requires MergedFrom(qs, paths)
    ensures MergedFrom(MergeOne(qs, p), paths + [p])
  {
    hide MergedFrom;
    var at := FindKey(qs, KeyOf(p));
    if at.None? {
      KeyIsNew(qs, p);
      MergedNew(qs, MergeOne(qs, p), paths, p);
    } else {
      MergedInto(qs, MergeOne(qs, p), paths, p, at.value);
    }
  }

  lemma KeyIsNew(qs: seq<Request>, p: DerivedPath)
    requires FindKey(qs, KeyOf(p)).None?
    ensures forall k | 0 <= k < |qs| :: RequestKey(qs[k]) != KeyOf(p)
  {
  }

  lemma {:induction false} MergedRight(paths: seq<DerivedPath>)
    ensures MergedFrom(Merged(paths), paths)
  {
    hide MergedFrom, MergeOne;
    if paths == [] {
      NothingMerged();
    } else {
      var n := |paths| - 1;
      MergedRight(paths[..n]);
      MergeOneRight(Merged(paths[..n]), paths[..n], paths[n]);
      assert paths == paths[..n] + [paths[n]];
    }
  }

  lemma NothingMerged()
    ensures MergedFrom([], [])
  {
  }

  lemma FoundByIndex(qs: seq<Request>, index: map<Key, nat>, key: Key)
    requires Keyed(qs, index)
    ensures FindKey(qs, key) == if key in index then Some(index[key]) else None
  {
  }

  /** Merges the paths into one entry per derivation. */
  method Merge(paths: seq<DerivedPath>) returns (qs: seq<Request>)
    ensures qs == Merged(paths) && MergedFrom(qs, paths)
  {
    hide FindKey, MergedFrom;
    qs := [];
    var index: map<Key, nat> := map[];
    assert paths[..0] == [];
    for i := 0 to |paths|
      invariant qs == Merged(paths[..i]) && Keyed(qs, index)
    {
      var p := paths[i];
      var key := KeyOf(p);
      FoundByIndex(qs, index, key);
      assert paths[..i + 1][..i] == paths[..i];
      if key in index {
        qs := qs[index[key] := WithOutput(qs[index[key]], p)];
      } else {
        index := index[key := |qs|];
        qs := qs + [EntryFor(p)];
      }
    }
    assert paths[..|paths|] == paths;
    MergedRight(paths);
  }

  lemma MergedInto(qs: seq<Request>, qs': seq<Request>, paths: seq<DerivedPath>, p: DerivedPath, at: nat)
    requires MergedFrom(qs, paths) && at < |qs| && RequestKey(qs[at]) == KeyOf(p)
    requires qs' == qs[at := WithOutput(qs[at], p)]
    ensures MergedFrom(qs', paths + [p])
  {
    forall x | x in paths + [p]
      ensures exists q :: q in qs' && Asks(q, x)
    {
      if x == p {
        assert qs'[at] in qs' && Asks(qs'[at], p);
      } else {
        var q :| q in qs && Asks(q, x);
        var k :| 0 <= k < |qs| && qs[k] == q;
        assert qs'[k] in qs' && Asks(qs'[k], x);
      }
    }
    if p.Built? && p.output !in qs[at].names {
      NoDupAppend(qs[at].names, p.output);
    }
  }

  lemma MergedNew(qs: seq<Request>, qs': seq<Request>, paths: seq<DerivedPath>, p: DerivedPath)
    requires MergedFrom(qs, paths) && forall k | 0 <= k < |qs| :: RequestKey(qs[k]) != KeyOf(p)
    requires qs' == qs + [EntryFor(p)]
    ensures MergedFrom(qs', paths + [p])
  {
    forall x | x in paths + [p]
      ensures exists q :: q in qs' && Asks(q, x)
    {
      if x == p {
        assert Asks(qs'[|qs|], p);
      } else {
        var q :| q in qs && Asks(q, x);
        assert q in qs';
      }
    }
  }

  // ---- Splitting long output lists. ----

  const MAX_SPEC_CHARS: nat := 4096

  /** How long a list of outputs is when printed. */
  function Printed(names: seq<OutputName>): nat {
    if names == [] then 0 else Printed(names[..|names| - 1]) + |names[|names| - 1]| + 1
  }

  function Joined(qs: seq<Request>): seq<OutputName> {
    if qs == [] then [] else
    Joined(qs[..|qs| - 1]) + (match qs[|qs| - 1] case Plain(_) => [] case Outputs(_, names) => names)
  }

  /** An entry for `drv` that is short enough, or has a single output. */
  predicate ShortEntry(q: Request, drv: Drv) {
    q.Outputs? && q.drv == drv && q.names != [] && (Printed(q.names) <= MAX_SPEC_CHARS || |q.names| == 1)
  }

  lemma JoinedSnoc(qs: seq<Request>, q: Request)
    requires q.Outputs?
    ensures Joined(qs + [q]) == Joined(qs) + q.names
    ensures qs == [] ==> Joined([q]) == q.names
  {
    assert qs == [] ==> qs + [q] == [q];
    assert (qs + [q])[..|qs|] == qs;
  }

  /** The entries that are full, and the outputs of the one that is being filled. */
  function Filled(drv: Drv, names: seq<OutputName>): (seq<Request>, seq<OutputName>) {
    if names == [] then ([], []) else
    var (full, cur) := Filled(drv, names[..|names| - 1]);
    var o := names[|names| - 1];
    if Printed(cur) + |o| + 1 > MAX_SPEC_CHARS && cur != [] then (full + [Outputs(drv, cur)], [o])
    else (full, cur + [o])
  }

  /** The outputs of a derivation in entries that are short enough. */
  function Chunks(drv: Drv, names: seq<OutputName>): seq<Request> {
    if Printed(names) <= MAX_SPEC_CHARS then [Outputs(drv, names)]
    else Filled(drv, names).0 + [Outputs(drv, Filled(drv, names).1)]
  }

  lemma {:induction false} FilledRight(drv: Drv, names: seq<OutputName>)
    ensures var (full, cur) := Filled(drv, names);
            && Joined(full) + cur == names
            && (forall q | q in full :: ShortEntry(q, drv))
            && (Printed(cur) <= MAX_SPEC_CHARS || |cur| == 1)
            && (names != [] ==> cur != [])
  {
    hide Joined, Printed;
    PrintedNothing();
    if names != [] {
      var n := |names| - 1;
      FilledRight(drv, names[..n]);
      var (full, cur) := Filled(drv, names[..n]);
      JoinedSnoc(full, Outputs(drv, cur));
      PrintedSnoc(cur, names[n]);
      assert names == names[..n] + [names[n]];
    }
  }

  /** Nothing is lost, the order stands, and the entries are short enough. */
  lemma ChunksRight(drv: Drv, names: seq<OutputName>)
    requires names != []
    ensures Joined(Chunks(drv, names)) == names
    ensures forall q | q in Chunks(drv, names) :: ShortEntry(q, drv)
  {
    hide Joined, Printed;
    FilledRight(drv, names);
    JoinedSnoc([], Outputs(drv, names));
    JoinedSnoc(Filled(drv, names).0, Outputs(drv, Filled(drv, names).1));
  }

  /** Splits the outputs of a derivation into entries that are short enough, in order and without loss. */
  method Chunk(drv: Drv, names: seq<OutputName>) returns (chunks: seq<Request>)
    requires names != []
    ensures chunks == Chunks(drv, names) && Joined(chunks) == names
    ensures forall q | q in chunks :: ShortEntry(q, drv)
  {
    hide Joined, Printed;
    ChunksRight(drv, names);
    if Printed(names) <= MAX_SPEC_CHARS {
      return [Outputs(drv, names)];
    }
    chunks := [];
    var cur: seq<OutputName> := [];
    var curLen: nat := 0;
    PrintedNothing();
    assert names[..0] == [];
    for i := 0 to |names|
      invariant Filled(drv, names[..i]) == (chunks, cur) && curLen == Printed(cur)
    {
      assert names[..i + 1][..i] == names[..i] && names[..i + 1][i] == names[i];
      assert [] + [names[i]] == [names[i]];
      var l := |names[i]| + 1;
      if curLen + l > MAX_SPEC_CHARS && cur != [] {
        chunks := chunks + [Outputs(drv, cur)];
        cur, curLen := [], 0;
      }
      PrintedSnoc(cur, names[i]);
      curLen := curLen + l;
      cur := cur + [names[i]];
    }
    assert names[..|names|] == names;
    chunks := chunks + [Outputs(drv, cur)];
  }

  lemma PrintedNothing()
    ensures Printed([]) == 0 && Joined([]) == []
  {
  }

  lemma PrintedSnoc(names: seq<OutputName>, o: OutputName)
    ensures Printed(names + [o]) == Printed(names) + |o| + 1
  {
    assert (names + [o])[..|names|] == names;
  }

  ghost predicate AnyAsks(qs: seq<Request>, p: DerivedPath) {
    exists q :: q in qs && Asks(q, p)
  }

  lemma AnyAsksSplit(qs: seq<Request>, rs: seq<Request>, p: DerivedPath)
    ensures AnyAsks(qs + rs, p) <==> AnyAsks(qs, p) || AnyAsks(rs, p)
  {
    if q :| q in qs && Asks(q, p) {
      assert q in qs + rs;
    }
    if q :| q in rs && Asks(q, p) {
      assert q in qs + rs;
    }
  }

  lemma AnyAsksOne(q: Request, p: DerivedPath)
    ensures AnyAsks([q], p) <==> Asks(q, p)
  {
    assert q in [q];
  }

  lemma {:induction false} JoinedAsks(qs: seq<Request>, drv: Drv, o: OutputName)
    requires forall q | q in qs :: q.Outputs? && q.drv == drv
    ensures o in Joined(qs) <==> AnyAsks(qs, Built(drv, o))
  {
    if qs != [] {
      var n := |qs| - 1;
      JoinedAsks(qs[..n], drv, o);
      assert qs == qs[..n] + [qs[n]];
      AnyAsksSplit(qs[..n], [qs[n]], Built(drv, o));
      AnyAsksOne(qs[n], Built(drv, o));
      assert qs[n] in qs;
      assert Joined(qs) == Joined(qs[..n]) + qs[n].names;
    }
  }

  /** The same paths are asked for. */
  ghost predicate SameAsks(qs: seq<Request>, rs: seq<Request>) {
    forall p :: AnyAsks(qs, p) <==> AnyAsks(rs, p)
  }

  predicate Named(q: Request) {
    q.Outputs? ==> q.names != []
  }

  /** The entries, those that are too long split. */
  function SplitAll(qs: seq<Request>): seq<Request> {
    if qs == [] then [] else
    var q := qs[|qs| - 1];
    SplitAll(qs[..|qs| - 1]) + (match q case Plain(_) => [q] case Outputs(drv, names) => Chunks(drv, names))
  }

  lemma {:induction false} SplitAllRight(qs: seq<Request>)
    requires forall k | 0 <= k < |qs| :: Named(qs[k])
    ensures SameAsks(qs, SplitAll(qs)) && forall q | q in SplitAll(qs) :: Named(q)
  {
    hide SameAsks, Chunks;
    SameAsksRefl(qs);
    if qs != [] {
      var n := |qs| - 1;
      SplitAllRight(qs[..n]);
      assert qs == qs[..n] + [qs[n]] && Named(qs[n]);
      match qs[n] {
        case Plain(_) =>
          SameAsksRefl([qs[n]]);
          SameAsksMore(qs[..n], SplitAll(qs[..n]), qs[n], [qs[n]]);
        case Outputs(drv, names) =>
          ChunksRight(drv, names);
          ChunksAsk(drv, names, Chunks(drv, names));
          SameAsksMore(qs[..n], SplitAll(qs[..n]), qs[n], Chunks(drv, names));
      }
    }
  }

  /** Splits every entry that is too long. */
  method SplitLong(qs: seq<Request>) returns (rs: seq<Request>)
    requires forall k | 0 <= k < |qs| :: Named(qs[k])
    ensures rs == SplitAll(qs) && SameAsks(qs, rs) && forall q | q in rs :: Named(q)
  {
    hide SameAsks, Chunks;
    rs := [];
    assert qs[..0] == [];
    for i := 0 to |qs|
      invariant rs == SplitAll(qs[..i])
    {
      assert qs[..i + 1][..i] == qs[..i];
      match qs[i] {
        case Plain(_) =>
          rs := rs + [qs[i]];
        case Outputs(drv, names) =>
          assert Named(qs[i]);
          var chunks := Chunk(drv, names);
          rs := rs + chunks;
      }
    }
    assert qs[..|qs|] == qs;
    SplitAllRight(qs);
  }

  lemma SameAsksRefl(qs: seq<Request>)
    ensures SameAsks(qs, qs)
  {
  }

  lemma ChunksAsk(drv: Drv, names: seq<OutputName>, chunks: seq<Request>)
    requires Joined(chunks) == names && forall q | q in chunks :: ShortEntry(q, drv)
    ensures SameAsks([Outputs(drv, names)], chunks)
  {
    forall p
      ensures AnyAsks([Outputs(drv, names)], p) <==> AnyAsks(chunks, p)
    {
      if p.Built? && p.drv == drv {
        JoinedAsks(chunks, drv, p.output);
      }
      assert Asks(Outputs(drv, names), p) ==> Outputs(drv, names) in [Outputs(drv, names)];
    }
  }

  lemma SameAsksMore(qs: seq<Request>, rs: seq<Request>, q: Request, more: seq<Request>)
    requires SameAsks(qs, rs) && SameAsks([q], more)
    ensures SameAsks(qs + [q], rs + more)
  {
    forall p
      ensures AnyAsks(qs + [q], p) <==> AnyAsks(rs + more, p)
    {
      AnyAsksSplit(qs, [q], p);
      AnyAsksSplit(rs, more, p);
    }
  }

  // ---- The replies. ----

  /** The replies by the key they carry, their outputs by name, and whether any of them is a failure. */
  ghost predicate Pooled(replies: seq<Reply>, byKey: map<Key, Reply>, pool: map<OutputName, StorePath>, failed: bool) {
    && (forall k | k in byKey :: byKey[k] in replies && byKey[k].key == k)
    && (forall r | r in replies :: r.key in byKey)
    && (forall o | o in pool :: exists r :: r in replies && Supplies(r, o, pool[o]))
    && (forall r, o | r in replies && r.Success? && o in r.outputs :: o in pool)
    && (failed <==> exists r :: r in replies && r.Failure?)
  }

  predicate Supplies(r: Reply, o: OutputName, sp: StorePath) {
    r.Success? && o in r.outputs && r.outputs[o] == sp
  }

  datatype Pooling = Pooling(byKey: map<Key, Reply>, pool: map<OutputName, StorePath>, failed: bool)

  /** The replies taken in one after the other: by key, the outputs by name, and whether one failed. */
  function PoolAll(replies: seq<Reply>): Pooling {
    if replies == [] then Pooling(map[], map[], false) else
    var r := replies[|replies| - 1];
    var p := PoolAll(replies[..|replies| - 1]);
    Pooling(p.byKey[r.key := r], if r.Success? then p.pool + r.outputs else p.pool, p.failed || r.Failure?)
  }

  lemma {:induction false} PoolAllRight(replies: seq<Reply>)
    ensures Pooled(replies, PoolAll(replies).byKey, PoolAll(replies).pool, PoolAll(replies).failed)
  {
    hide Pooled;
    if replies == [] {
      NothingPooled();
    } else {
      var n := |replies| - 1;
      PoolAllRight(replies[..n]);
      var p := PoolAll(replies[..n]);
      PooledMore(replies[..n], replies[n], p.byKey, p.pool, p.failed);
      assert replies == replies[..n] + [replies[n]];
    }
  }

  lemma NothingPooled()
    ensures Pooled([], map[], map[], false)
  {
  }

  method PoolReplies(replies: seq<Reply>) returns (p: Pooling)
    ensures p == PoolAll(replies) && Pooled(replies, p.byKey, p.pool, p.failed)
  {
    hide Pooled;
    p := Pooling(map[], map[], false);
    assert replies[..0] == [];
    for i := 0 to |replies|
      invariant p == PoolAll(replies[..i])
    {
      var r := replies[i];
      assert replies[..i + 1][..i] == replies[..i];
      if r.Success? {
        p := p.(pool := p.pool + r.outputs);
      } else {
        p := p.(failed := true);
      }
      p := p.(byKey := p.byKey[r.key := r]);
    }
    assert replies[..|replies|] == replies;
    PoolAllRight(replies);
  }

  lemma PooledMore(replies: seq<Reply>, r: Reply, byKey: map<Key, Reply>, pool: map<OutputName, StorePath>, failed: bool)
    requires Pooled(replies, byKey, pool, failed)
    ensures Pooled(replies + [r], byKey[r.key := r], if r.Success? then pool + r.outputs else pool, failed || r.Failure?)
  {
    var pool' := if r.Success? then pool + r.outputs else pool;
    forall o | o in pool'
      ensures exists x :: x in replies + [r] && Supplies(x, o, pool'[o])
    {
      if r.Success? && o in r.outputs {
        assert Supplies(r, o, pool'[o]);
      } else {
        var x :| x in replies && Supplies(x, o, pool[o]);
        assert x in replies + [r] && Supplies(x, o, pool'[o]);
      }
    }
    if failed {
      var x :| x in replies && x.Failure?;
      assert x in replies + [r];
    }
  }

  /** The answer for one path, from the replies. */
  function Lookup(p: DerivedPath, byKey: map<Key, Reply>, pool: map<OutputName, StorePath>,
                  failed: bool): Result<StorePath, Error> {
    if KeyOf(p) in byKey && byKey[KeyOf(p)].Failure? then Err(BuildFailed)
    else match p
         case Opaque(path) => Ok(path)
         case Built(_, output) =>
           if output in pool then Ok(pool[output])
           else if failed then Err(BuildFailed) else Err(MissingBuildResult)
  }

  /** All the outputs asked for are outputs of one derivation. */
  ghost predicate OneDerivation(paths: seq<DerivedPath>) {
    forall p, q | p in paths && q in paths && p.Built? && q.Built? :: p.drv == q.drv
  }

  /** The entries ask for the paths and nothing else. */
  ghost predicate AskFor(qs: seq<Request>, paths: seq<DerivedPath>) {
    && (forall p :: p in paths <==> AnyAsks(qs, p))
    && (forall q | q in qs :: Named(q))
  }

  /** The replies are truthful answers to the entries. */
  ghost predicate Answers(d: Daemon, qs: seq<Request>, replies: seq<Reply>) {
    |replies| == |qs| && forall k | 0 <= k < |qs| :: Truthful(d, qs[k], replies[k])
  }

  lemma ReplyTo(d: Daemon, qs: seq<Request>, replies: seq<Reply>, r: Reply) returns (q: Request)
    requires Answers(d, qs, replies) && r in replies
    ensures q in qs && Truthful(d, q, r)
  {
    var k :| 0 <= k < |replies| && replies[k] == r;
    q := qs[k];
  }

  lemma ReplyFor(d: Daemon, qs: seq<Request>, replies: seq<Reply>, q: Request) returns (r: Reply)
    requires Answers(d, qs, replies) && q in qs
    ensures r in replies && Truthful(d, q, r)
  {
    var k :| 0 <= k < |qs| && qs[k] == q;
    r := replies[k];
  }

  /** With one derivation to a request, looking an output up by its name alone finds the right one. */
  lemma LookupRight(d: Daemon, paths: seq<DerivedPath>, qs: seq<Request>, replies: seq<Reply>,
                    byKey: map<Key, Reply>, pool: map<OutputName, StorePath>, failed: bool, p: DerivedPath)
    requires OneDerivation(paths) && AskFor(qs, paths) && Answers(d, qs, replies) && Pooled(replies, byKey, pool, failed)
    requires p in paths
    ensures Lookup(p, byKey, pool, failed) == Realisation(d, p)
  {
    hide OneDerivation, Answers;
    assert AnyAsks(qs, p);
    var q :| q in qs && Asks(q, p);
    var mine := ReplyFor(d, qs, replies, q);
    hide AskFor;
    match p
    case Opaque(path) =>
      if PathKey(path) in byKey {
        PathReply(d, qs, replies, byKey[PathKey(path)], path);
      }
      assert mine.key in byKey;
    case Built(drv, output) =>
      if DrvKey(drv) in byKey {
        SameDerivation(d, paths, qs, replies, byKey[DrvKey(drv)], drv, output);
      }
      if output in pool {
        var r :| r in replies && Supplies(r, output, pool[output]);
        SuccessKey(d, qs, replies, r, output);
        SameDerivation(d, paths, qs, replies, r, drv, output);
      }
  }

  lemma PathReply(d: Daemon, qs: seq<Request>, replies: seq<Reply>, r: Reply, path: StorePath)
    requires Answers(d, qs, replies) && r in replies && r.key == PathKey(path)
    ensures r.Failure? <==> d.broken(PathKey(path))
  {
    hide Answers;
    var q := ReplyTo(d, qs, replies, r);
  }

  /** Only derivations have outputs. */
  lemma SuccessKey(d: Daemon, qs: seq<Request>, replies: seq<Reply>, r: Reply, o: OutputName)
    requires Answers(d, qs, replies) && r in replies && r.Success? && o in r.outputs
    ensures r.key.DrvKey?
  {
    hide Answers;
    var q := ReplyTo(d, qs, replies, r);
  }

  lemma SameRequest(paths: seq<DerivedPath>, qs: seq<Request>, q: Request, drv: Drv, o: OutputName)
    requires OneDerivation(paths) && AskFor(qs, paths) && q in qs && q.Outputs? && Built(drv, o) in paths
    ensures q.drv == drv
  {
    var p := Built(q.drv, q.names[0]);
    assert Named(q) && Asks(q, p);
    assert AnyAsks(qs, p);
    assert p in paths;
  }

  lemma SameDerivation(d: Daemon, paths: seq<DerivedPath>, qs: seq<Request>, replies: seq<Reply>, r: Reply,
                       drv: Drv, o: OutputName)
    requires OneDerivation(paths) && AskFor(qs, paths) && Answers(d, qs, replies) && r in replies && r.key.DrvKey?
    requires Built(drv, o) in paths
    ensures r.Failure? <==> d.broken(DrvKey(drv))
    ensures r.Success? ==> forall x | x in r.outputs :: r.outputs[x] == d.place(drv, x)
  {
    hide OneDerivation, AskFor, Answers;
    var q := ReplyTo(d, qs, replies, r);
    SameRequest(paths, qs, q, drv, o);
  }

  /** What the daemon replies to a request for some paths, entry by entry. */
  function Replies(reply: Request -> Reply, paths: seq<DerivedPath>): (r: seq<Reply>)
    ensures |r| == |SplitAll(Merged(paths))| && forall k | 0 <= k < |r| :: r[k] == reply(SplitAll(Merged(paths))[k])
  {
    var qs := SplitAll(Merged(paths));
    seq(|qs|, k requires 0 <= k < |qs| => reply(qs[k]))
  }

  /** What the pooled replies say of each path. */
  function LookupAt(paths: seq<DerivedPath>, pooled: Pooling): nat -> Result<StorePath, Error> {
    (i: nat) => if i < |paths| then Lookup(paths[i], pooled.byKey, pooled.pool, pooled.failed) else Err(MissingBuildResult)
  }

  /** What one request for some paths comes to: it is made of the replies alone. */
  function RequestAnswer(reply: Request -> Reply, paths: seq<DerivedPath>): Result<seq<StorePath>, Error> {
    Sequential(|paths|, LookupAt(paths, PoolAll(Replies(reply, paths))))
  }

  /**
   One request to the daemon: the paths are merged, long entries are split, and
   each path is looked up in the pooled replies.
   */
  method BuildPathsUncached(paths: seq<DerivedPath>, reply: Request -> Reply) returns (r: Result<seq<StorePath>, Error>)
    ensures r == RequestAnswer(reply, paths)
    ensures forall d: Daemon | OneDerivation(paths) && forall q :: Truthful(d, q, reply(q)) :: r == AskEach(d, paths)
  {
    hide MergedFrom, SameAsks, Pooled, OneDerivation, Lookup, Truthful, AskEach, PoolAll;
    forall d: Daemon | OneDerivation(paths) && forall q :: Truthful(d, q, reply(q))
      ensures RequestAnswer(reply, paths) == AskEach(d, paths)
    {
      RequestAnswerRight(d, reply, paths);
    }
    hide RequestAnswer;
    var merged := Merge(paths);
    MergedNames(merged, paths);
    var qs := SplitLong(merged);
    var replies := seq(|qs|, k requires 0 <= k < |qs| => reply(qs[k]));
    assert replies == Replies(reply, paths);
    var pooled := PoolReplies(replies);
    r := LookupEach(paths, pooled);
    AnswerIs(reply, paths);
  }

  lemma AnswerIs(reply: Request -> Reply, paths: seq<DerivedPath>)
    ensures RequestAnswer(reply, paths) == Sequential(|paths|, LookupAt(paths, PoolAll(Replies(reply, paths))))
  {
    hide PoolAll, Replies, Sequential, LookupAt;
  }

  /** Looks the paths up one after the other. */
  method LookupEach(paths: seq<DerivedPath>, pooled: Pooling) returns (r: Result<seq<StorePath>, Error>)
    ensures r == Sequential(|paths|, LookupAt(paths, pooled))
  {
    hide Lookup;
    var out: seq<StorePath> := [];
    for i := 0 to |paths|
      invariant Sequential(i, LookupAt(paths, pooled)) == Ok(out)
    {
      var got := Lookup(paths[i], pooled.byKey, pooled.pool, pooled.failed);
      if got.Err? {
        SequentialStops(|paths|, LookupAt(paths, pooled), i + 1);
        return Err(got.error);
      }
      out := out + [got.value];
    }
    r := Ok(out);
  }

  /**
   When a request names one derivation the answers are those of asking for each
   path alone, whatever keys the replies carry.
   */
  lemma RequestAnswerRight(d: Daemon, reply: Request -> Reply, paths: seq<DerivedPath>)
    requires OneDerivation(paths) && forall q :: Truthful(d, q, reply(q))
    ensures RequestAnswer(reply, paths) == AskEach(d, paths)
  {
    hide MergedFrom, SameAsks, Pooled, OneDerivation, Answers, AskFor, Lookup, Realisation, Truthful, PoolAll;
    var qs, replies := SplitAll(Merged(paths)), Replies(reply, paths);
    MergedRight(paths);
    MergedNames(Merged(paths), paths);
    SplitAllRight(Merged(paths));
    SplitAskFor(Merged(paths), qs, paths);
    RepliesAnswer(d, qs, reply, replies);
    PoolAllRight(replies);
    var pooled := PoolAll(replies);
    forall i: nat | i < |paths|
      ensures LookupAt(paths, pooled)(i) == AskOne(d, paths)(i)
    {
      assert paths[i] in paths;
      LookupRight(d, paths, qs, replies, pooled.byKey, pooled.pool, pooled.failed, paths[i]);
    }
    SequentialSame(|paths|, LookupAt(paths, pooled), AskOne(d, paths));
  }

  function AskOne(d: Daemon, paths: seq<DerivedPath>): nat -> Result<StorePath, Error> {
    (i: nat) => if i < |paths| then Realisation(d, paths[i]) else Err(MissingBuildResult)
  }

  /** Asking for each path alone, one after the other. */
  function AskEach(d: Daemon, paths: seq<DerivedPath>): Result<seq<StorePath>, Error> {
    Sequential(|paths|, AskOne(d, paths))
  }

  lemma MergedNames(qs: seq<Request>, paths: seq<DerivedPath>)
    requires MergedFrom(qs, paths)
    ensures forall k | 0 <= k < |qs| :: Named(qs[k])
  {
  }

  lemma SplitAskFor(qs: seq<Request>, rs: seq<Request>, paths: seq<DerivedPath>)
    requires MergedFrom(qs, paths) && SameAsks(qs, rs) && forall q | q in rs :: Named(q)
    ensures AskFor(rs, paths)
  {
    forall p
      ensures p in paths <==> AnyAsks(rs, p)
    {
      assert AnyAsks(qs, p) <==> AnyAsks(rs, p);
      if q :| q in qs && Asks(q, p) {
        var k :| 0 <= k < |qs| && qs[k] == q;
      }
    }
  }

  lemma RepliesAnswer(d: Daemon, qs: seq<Request>, reply: Request -> Reply, replies: seq<Reply>)
    requires |replies| == |qs| && forall k | 0 <= k < |qs| :: replies[k] == reply(qs[k])
    requires forall q :: Truthful(d, q, reply(q))
    ensures Answers(d, qs, replies)
  {
  }

  /**
   With two derivations to a request that share an output name, and put it in
   different places, one of the two answers is wrong, whatever was pooled.
   */
  lemma SharedNameIsWrong(d: Daemon, drv: Drv, drv': Drv, o: OutputName,
                          byKey: map<Key, Reply>, pool: map<OutputName, StorePath>, failed: bool)
    requires !d.broken(DrvKey(drv)) && !d.broken(DrvKey(drv')) && d.place(drv, o) != d.place(drv', o)
    ensures Lookup(Built(drv, o), byKey, pool, failed) != Realisation(d, Built(drv, o))
            || Lookup(Built(drv', o), byKey, pool, failed) != Realisation(d, Built(drv', o))
  {
    var p, q := Lookup(Built(drv, o), byKey, pool, failed), Lookup(Built(drv', o), byKey, pool, failed);
    assert p.Ok? && q.Ok? ==> p == q;
  }

  /** So a request that names both is answered wrongly, whatever the daemon replies. */
  lemma SharedRequestIsWrong(d: Daemon, reply: Request -> Reply, drv: Drv, drv': Drv, o: OutputName)
    requires !d.broken(DrvKey(drv)) && !d.broken(DrvKey(drv')) && d.place(drv, o) != d.place(drv', o)
    ensures RequestAnswer(reply, [Built(drv, o), Built(drv', o)]) != AskEach(d, [Built(drv, o), Built(drv', o)])
  {
    hide PoolAll, Replies, Lookup;
    var paths := [Built(drv, o), Built(drv', o)];
    var pooled := PoolAll(Replies(reply, paths));
    SharedNameIsWrong(d, drv, drv', o, pooled.byKey, pooled.pool, pooled.failed);
    SequentialTwo(LookupAt(paths, pooled));
    SequentialTwo(AskOne(d, paths));
    AnswerIs(reply, paths);
  }

  lemma SequentialTwo<T, E>(f: nat -> Result<T, E>)
    ensures Sequential(2, f).Ok? <==> f(0).Ok? && f(1).Ok?
    ensures Sequential(2, f).Ok? ==> Sequential(2, f).value == [f(0).value, f(1).value]
  {
    assert Sequential(1, f) == if f(0).Err? then Err(f(0).error) else Ok([] + [f(0).value]);
  }
}
