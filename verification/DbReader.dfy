/** Replaying a build log into a freshly loaded graph. */
module DbReader {
  import opened Wrappers
  import opened BuildGraph
  import opened Db
  import opened DbFormat
  import opened DbLog
  import opened GraphStore
  import opened Sequences

  datatype ReadError = UnexpectedEof | BadSignature | BadVersion | BadId

  /** The build that makes a file of that name. */
  function MakerOf(files: seq<File>, byName: map<string, FileId>, name: string): Option<BuildId> {
    if name in byName && byName[name] < |files| then files[byName[name]].input else None
  }

  ghost predicate Agrees(files: seq<File>, byName: map<string, FileId>, maker: string -> Option<BuildId>) {
    forall n :: maker(n) == MakerOf(files, byName, n)
  }

  /** What every build with a record is known by is what its last record says. */
  ghost predicate Replayed(files: seq<File>, fs: seq<Finish>, maker: string -> Option<BuildId>,
                           discovered: map<BuildId, seq<FileId>>, hashes: map<BuildId, nat>) {
    && discovered.Keys == hashes.Keys
    && forall b :: (b in hashes <==> LastFor(fs, maker, b).Some?)
                   && (b in hashes ==> ReplayedBuild(files, LastFor(fs, maker, b), discovered[b], hashes[b]))
  }

  ghost predicate ReplayedBuild(files: seq<File>, last: Option<Finish>, deps: seq<FileId>, hash: nat) {
    && last.Some? && last.value.hash == hash
    && (forall f | f in deps :: f < |files|)
    && FileNames(files, deps) == last.value.deps
  }

  /** The file ids stand for the names of the log. */
  ghost predicate Named(files: seq<File>, names: seq<string>, fileIds: seq<FileId>) {
    && |fileIds| == |names|
    && forall i | 0 <= i < |fileIds| :: fileIds[i] < |files| && files[fileIds[i]].name == names[i]
  }

  /** Every file knows the last of its log ids. */
  ghost predicate Indexed(fileIds: seq<FileId>, dbIds: map<FileId, Id>) {
    && (forall i | 0 <= i < |fileIds| :: fileIds[i] in dbIds && i <= dbIds[fileIds[i]])
    && (forall f | f in dbIds :: dbIds[f] < |fileIds| && fileIds[dbIds[f]] == f)
  }

  class Reader {
    const content: string
    var pos: nat
    const store: Store
    var fileIds: seq<FileId>
    var dbIds: map<FileId, Id>
    var discovered: map<BuildId, seq<FileId>>
    var hashes: map<BuildId, nat>

    constructor (content: string, store: Store)
      ensures this.content == content && pos == 0 && this.store == store
      ensures fileIds == [] && dbIds == map[] && discovered == map[] && hashes == map[]
    {
      this.content, this.store := content, store;
      pos, fileIds, dbIds, discovered, hashes := 0, [], map[], map[], map[];
    }

    /** Reads a number of `width` bytes; the bytes there are too few for it exactly when there is none. */
    method ReadNumber(width: nat) returns (r: Option<nat>)
      requires pos <= |content|
      modifies `pos
      ensures r.None? <==> old(pos) + width > |content|
      ensures r.Some? ==> pos == old(pos) + width && r.value == LeValue(content[old(pos)..pos])
      ensures r.None? ==> pos <= |content|
    {
      if pos + width > |content| {
        pos := |content|;
        return None;
      }
      r := Some(LeValue(content[pos..pos + width]));
      pos := pos + width;
    }

    /** A name, which takes the next id. */
    method ReadPath(len: nat) returns (ok: bool)
      requires pos <= |content| && store.Valid()
      modifies `pos, `fileIds, `dbIds, store
      ensures ok <==> old(pos) + len <= |content|
      ensures store.Valid() && store.builds == old(store.builds) && old(store.files) <= store.files
      ensures !ok ==> store.files == old(store.files) && fileIds == old(fileIds)
      ensures Bytes(content) && ByteNames(old(store.files)) ==> ByteNames(store.files)
      ensures ok ==>
                var name := content[old(pos)..old(pos) + len];
                && pos == old(pos) + len
                && (store.files == old(store.files) || store.files == old(store.files) + [File(name, None, [])])
                && name in store.byName && store.byName == old(store.byName)[name := store.byName[name]]
                && (name in old(store.byName) ==> store.files == old(store.files) && store.byName == old(store.byName))
                && (name !in old(store.byName) ==>
                      store.byName[name] == |old(store.files)| && store.files == old(store.files) + [File(name, None, [])])
                && fileIds == old(fileIds) + [store.byName[name]]
                && dbIds == old(dbIds)[store.byName[name] := |old(fileIds)|]
    {
      if pos + len > |content| {
        return false;
      }
      var name := content[pos..pos + len];
      pos := pos + len;
      var fileId := store.IdFromCanonical(name);
      dbIds := dbIds[fileId := |fileIds|];
      fileIds := fileIds + [fileId];
      ok := true;
    }

    /** The owner of a record, from its outputs. */
    method ReadOuts(len: nat) returns (r: Result<Option<BuildId>, ReadError>, ghost ids: seq<Id>)
      requires pos <= |content| && InFiles(store.files, fileIds)
      modifies `pos
      ensures r.Ok? ==> pos == old(pos) + 3 * len <= |content| && ids == ReadIds(content[old(pos)..pos], len)
      ensures r.Ok? && Below(ids, |fileIds|) ==> r.value == Owner(Inputs(store.files, fileIds, ids))
      ensures r.Err? && old(pos) + 3 * len <= |content| ==>
                !Below(ReadIds(content[old(pos)..old(pos) + 3 * len], len), |fileIds|)
    {
      hide ReadIds, Owner, Below, LeValue;
      var unique: Option<BuildId> := None;
      var obsolete := false;
      ghost var start := pos;
      ids := [];
      NoneBelow(store.files, fileIds);
      for i := 0 to len
        invariant pos == start + 3 * i <= |content| && |ids| == i && IdsAt(content, start, ids)
        invariant Below(ids, |fileIds|) ==> Scan(Inputs(store.files, fileIds, ids)) == (unique, obsolete)
      {
        var id := ReadNumber(3);
        if id.None? {
          return Err(UnexpectedEof), ids;
        }
        ids := ids + [id.value];
        if !obsolete {
          if id.value >= |fileIds| {
            IdTooLarge(content, start, len, i, |fileIds|);
            return Err(BadId), ids;
          }
          OneMore(store.files, fileIds, ids);
          match store.files[fileIds[id.value]].input {
            case None => obsolete := true;
            case Some(bid) =>
              if unique.None? {
                unique := Some(bid);
              } else if unique.value != bid {
                unique := None;
                obsolete := true;
              }
          }
        } else {
          ScanStopped(store.files, fileIds, ids);
        }
      }
      IdsRead(content, start, ids);
      if Below(ids, |fileIds|) {
        ScanFindsOwner(Inputs(store.files, fileIds, ids));
      }
      r := Ok(unique);
    }

    /** The discovered inputs of a record. */
    method ReadDeps(len: nat) returns (r: Result<seq<FileId>, ReadError>, ghost ids: seq<Id>)
      requires pos <= |content|
      modifies `pos
      ensures r.Ok? ==> pos == old(pos) + 3 * len <= |content| && ids == ReadIds(content[old(pos)..pos], len)
      ensures r.Ok? ==> Below(ids, |fileIds|) && |r.value| == |ids| && forall k | 0 <= k < |ids| :: r.value[k] == fileIds[ids[k]]
      ensures r.Err? && old(pos) + 3 * len <= |content| ==>
                !Below(ReadIds(content[old(pos)..old(pos) + 3 * len], len), |fileIds|)
    {
      hide ReadIds, LeValue;
      ghost var start := pos;
      var deps: seq<FileId> := [];
      ids := [];
      for i := 0 to len
        invariant pos == start + 3 * i <= |content| && |ids| == i && IdsAt(content, start, ids)
        invariant Below(ids, |fileIds|) && |deps| == i && forall k | 0 <= k < i :: deps[k] == fileIds[ids[k]]
      {
        var id := ReadNumber(3);
        if id.None? {
          return Err(UnexpectedEof), ids;
        }
        if id.value >= |fileIds| {
          IdTooLarge(content, start, len, i, |fileIds|);
          return Err(BadId), ids;
        }
        ids := ids + [id.value];
        deps := deps + [fileIds[id.value]];
      }
      IdsRead(content, start, ids);
      r := Ok(deps);
    }

    /** What a build record says about its build, if it has one. */
    method ReadBuild(len: nat) returns (r: Result<(), ReadError>, ghost record: Record)
      requires 2 <= pos <= |content| && InFiles(store.files, fileIds)
      modifies `pos, `discovered, `hashes
      ensures r.Ok? ==> old(pos) <= pos <= |content|
      ensures r.Ok? ==> ParseBuild(content[old(pos) - 2..], len) == Parsed(record, pos - (old(pos) - 2)) && record.BuildRecord?
      ensures r.Ok? && Below(record.outs, |fileIds|) ==>
                && Below(record.deps, |fileIds|)
                && var owner := Owner(Inputs(store.files, fileIds, record.outs));
                Noted(fileIds, record.deps, record.hash, owner, old(discovered), old(hashes), discovered, hashes)
      ensures r.Err? ==>
                var p := ParseBuild(content[old(pos) - 2..], len);
                p.Parsed? ==> p.record.BuildRecord? && !(Below(p.record.outs, |fileIds|) && Below(p.record.deps, |fileIds|))
    {
      hide ReadIds, LeValue, Owner, Below, Inputs, InFiles;
      ghost var at := pos - 2;
      BuildPieces(content, at, len);
      var unique, outs := ReadOuts(len);
      if unique.Err? {
        return Err(unique.error), BuildRecord([], [], 0);
      }
      var count := ReadNumber(2);
      if count.None? {
        return Err(UnexpectedEof), BuildRecord([], [], 0);
      }
      var deps, depIds := ReadDeps(count.value);
      if deps.Err? {
        return Err(deps.error), BuildRecord([], [], 0);
      }
      var hash := ReadNumber(8);
      if hash.None? {
        return Err(UnexpectedEof), BuildRecord([], [], 0);
      }
      if unique.value.Some? {
        discovered := discovered[unique.value.value := deps.value];
        hashes := hashes[unique.value.value := hash.value];
      }
      record := BuildRecord(outs, depIds, hash.value);
      r := Ok(());
    }

    ghost predicate Following(rs: seq<Record>, maker: string -> Option<BuildId>)
      reads this, store
    {
      && pos <= |content| && store.Valid()
      && Follows(store.files, store.byName, rs, maker, fileIds, dbIds, discovered, hashes)
    }

    /** The magic and the version. */
    method ReadSignature() returns (r: Result<(), ReadError>)
      requires pos == 0
      modifies `pos
      ensures r.Ok? ==> pos == 8 <= |content|
      ensures Bytes(content) ==> (r.Ok? <==> |content| >= 8 && content[..8] == Signature())
    {
      hide Le, LeValue;
      if |content| < 4 {
        return Err(UnexpectedEof);
      }
      if content[..4] != "n2db" {
        SignatureParts(content);
        return Err(BadSignature);
      }
      pos := 4;
      var version := ReadNumber(4);
      if version.None? {
        return Err(UnexpectedEof);
      }
      SignatureParts(content);
      if version.value != 1 {
        return Err(BadVersion);
      }
      r := Ok(());
    }

    /** One record, or the end of the log. */
    method ReadRecord(ghost rs: seq<Record>, ghost maker: string -> Option<BuildId>)
      returns (r: Result<bool, ReadError>, ghost record: Record)
      requires Following(rs, maker)
      modifies this, store
      ensures store.builds == old(store.builds) && old(store.files) <= store.files
      ensures |store.files| + |old(fileIds)| <= |old(store.files)| + |fileIds|
      ensures Bytes(content) && ByteNames(old(store.files)) ==> ByteNames(store.files)
      ensures r == Ok(false) ==> ParseRecord(content[old(pos)..]).NoMore? && Following(rs, maker)
      ensures r == Ok(true) ==>
                && old(pos) < pos && Following(rs + [record], maker)
                && ParseRecord(content[old(pos)..]) == Parsed(record, pos - old(pos))
      ensures r.Err? ==>
                var p := ParseRecord(content[old(pos)..]);
                p.Cut? || (p.Parsed? && !RefsEarlier(rs + [p.record]))
    {
      hide Follows, Agrees, RefsEarlier, ParseBuild, LeValue, PathNames;
      record := PathRecord("");
      ghost var at := pos;
      ghost var files, byName := store.files, store.byName;
      FollowsFiles(files, byName, rs, maker, fileIds, dbIds, discovered, hashes);
      HeadPieces(content, pos);
      var len := ReadNumber(2);
      if len.None? {
        return Ok(false), record;
      }
      if len.value < MARK {
        var ok := ReadPath(len.value);
        if !ok {
          return Err(UnexpectedEof), record;
        }
        record := PathRecord(content[at + 2..pos]);
        PathFollows(files, byName, store.files, store.byName, rs, maker, old(fileIds), old(dbIds), discovered, hashes, record.name);
      } else {
        var got: Result<(), ReadError>;
        got, record := ReadBuild(len.value - MARK);
        if got.Err? {
          BadRefs(rs, |fileIds|, ParseBuild(content[at..], len.value - MARK));
          return Err(got.error), record;
        }
        BuildFollows(files, byName, rs, record, maker, fileIds, dbIds, old(discovered), old(hashes), discovered, hashes);
      }
      r := Ok(true);
    }

    /**
     Replays the log. A log of whole records whose ids were defined before
     they were used is read to the end, and then every build is known by the
     last record that counts for it.
     */
    method ReadFile(ghost maker: string -> Option<BuildId>) returns (r: Result<(), ReadError>, ghost rs: seq<Record>)
      requires pos == 0 && store.Valid() && Agrees(store.files, store.byName, maker) && Bytes(content)
      requires fileIds == [] && dbIds == map[] && discovered == map[] && hashes == map[]
      modifies this, store
      ensures r.Ok? ==> |content| >= 8 && content[..8] == Signature() && ParseAll(content[8..]) == Some(rs)
      ensures r.Ok? ==> Following(rs, maker)
      ensures |content| >= 8 && content[..8] == Signature() && ParseAll(content[8..]).Some? && RefsEarlier(ParseAll(content[8..]).value) ==>
                r.Ok?
      ensures store.builds == old(store.builds) && old(store.files) <= store.files
      ensures |store.files| + |old(fileIds)| <= |old(store.files)| + |fileIds|
      ensures Bytes(content) && ByteNames(old(store.files)) ==> ByteNames(store.files)
    {
      hide Follows, Agrees, Signature, RefsEarlier, ParseRecord, ParseAll;
      rs := [];
      var signed := ReadSignature();
      if signed.Err? {
        return Err(signed.error), rs;
      }
      StartFollows(store.files, store.byName, maker);
      ghost var body := content[8..];
      PrependNothing(body);
      while true
        invariant 8 <= pos <= |content| && Following(rs, maker)
        invariant store.builds == old(store.builds) && old(store.files) <= store.files
        invariant |store.files| <= |old(store.files)| + |fileIds|
        invariant Bytes(content) && ByteNames(old(store.files)) ==> ByteNames(store.files)
        invariant ParseAll(body) == Prepend(rs, ParseAll(content[pos..]))
        decreases |content| - pos
      {
        ghost var at := pos;
        var more, record := ReadRecord(rs, maker);
        ParseStep(rs, content, at);
        if more.Err? {
          return Err(more.error), rs;
        }
        if !more.value {
          return Ok(()), rs;
        }
        rs := rs + [record];
      }
    }
  }

  lemma FollowsFiles(files: seq<File>, byName: map<string, FileId>, rs: seq<Record>, maker: string -> Option<BuildId>,
                     fileIds: seq<FileId>, dbIds: map<FileId, Id>,
                     discovered: map<BuildId, seq<FileId>>, hashes: map<BuildId, nat>)
    requires Follows(files, byName, rs, maker, fileIds, dbIds, discovered, hashes)
    ensures InFiles(files, fileIds) && |fileIds| == |PathNames(rs)|
  {
  }

  /** What the first two bytes of a record say. */
  lemma HeadPieces(content: string, at: nat)
    requires at <= |content|
    ensures at + 2 > |content| ==> ParseRecord(content[at..]).NoMore?
    ensures at + 2 <= |content| ==>
              var len := LeValue(content[at..at + 2]);
              if len >= MARK then ParseRecord(content[at..]) == ParseBuild(content[at..], len - MARK)
              else if at + 2 + len > |content| then ParseRecord(content[at..]).Cut?
              else ParseRecord(content[at..]) == Parsed(PathRecord(content[at + 2..at + 2 + len]), 2 + len)
  {
    hide LeValue, ParseBuild;
    assert content[at..] == content[at..|content|];
    if at + 2 <= |content| {
      SliceOfSlice(content, at, |content|, 0, 2);
      var len := LeValue(content[at..at + 2]);
      if at + 2 + len <= |content| {
        SliceOfSlice(content, at, |content|, 2, 2 + len);
      }
    }
  }

  lemma BadRefs(rs: seq<Record>, n: nat, p: Parse)
    requires n == |PathNames(rs)|
    requires p.Parsed? ==> p.record.BuildRecord? && !(Below(p.record.outs, n) && Below(p.record.deps, n))
    ensures p.Parsed? ==> !RefsEarlier(rs + [p.record])
  {
    if p.Parsed? {
      assert (rs + [p.record])[..|rs|] == rs;
    }
  }

  lemma {:induction false} RefsPrefix(rs: seq<Record>, more: seq<Record>)
    requires RefsEarlier(rs + more)
    ensures RefsEarlier(rs)
    decreases |more|
  {
    if more == [] {
      assert rs + more == rs;
    } else {
      assert (rs + more)[..|rs + more| - 1] == rs + more[..|more| - 1];
      RefsPrefix(rs, more[..|more| - 1]);
    }
  }

  lemma PrependNothing(t: string)
    ensures Prepend([], ParseAll(t)) == ParseAll(t)
  {
    if ParseAll(t).Some? {
      assert [] + ParseAll(t).value == ParseAll(t).value;
    }
  }

  /** One record further, or none. */
  lemma ParseStep(rs: seq<Record>, content: string, at: nat)
    requires at <= |content|
    ensures ParseRecord(content[at..]).NoMore? ==> Prepend(rs, ParseAll(content[at..])) == Some(rs)
    ensures ParseRecord(content[at..]).Cut? ==> Prepend(rs, ParseAll(content[at..])) == None
    ensures ParseRecord(content[at..]).Parsed? ==>
              var p := ParseRecord(content[at..]);
              var all := Prepend(rs, ParseAll(content[at..]));
              && all == Prepend(rs + [p.record], ParseAll(content[at + p.size..]))
              && (all.Some? && RefsEarlier(all.value) ==> RefsEarlier(rs + [p.record]))
  {
    hide RefsEarlier, ParseRecord;
    var p := ParseRecord(content[at..]);
    if p.NoMore? {
      assert rs + [] == rs;
    } else if p.Parsed? {
      assert content[at..][p.size..] == content[at + p.size..];
      var rest := ParseAll(content[at + p.size..]);
      if rest.Some? {
        assert rs + ([p.record] + rest.value) == rs + [p.record] + rest.value;
        if RefsEarlier(rs + [p.record] + rest.value) {
          RefsPrefix(rs + [p.record], rest.value);
        }
      }
    }
  }

  /** What parsing gives when `rs` has been parsed already. */
  function Prepend(rs: seq<Record>, rest: Option<seq<Record>>): Option<seq<Record>> {
    if rest.None? then None else Some(rs + rest.value)
  }

  lemma SignatureParts(content: string)
    requires |content| >= 4
    ensures Signature()[..4] == "n2db"
    ensures |content| >= 8 && content[..8] == Signature() ==> content[..4] == "n2db"
    ensures |content| >= 8 && Bytes(content) && content[..4] == "n2db" ==>
              (content[..8] == Signature() <==> LeValue(content[4..8]) == 1)
  {
    hide Le, LeValue;
    assert Signature()[4..] == Le(1, 4);
    assert Signature()[..4] == "n2db";
    if |content| >= 8 {
      assert content[..8] == content[..4] + content[4..8];
      assert content[..8][..4] == content[..4] && content[..8][4..] == content[4..8];
      if Bytes(content) {
        LeInverse(content[4..8]);
        LeRoundTrip(1, 4);
        Limits();
      }
    }
  }

  /** The build that owns a record, if there is one, is known by it from now on. */
  ghost predicate Noted(fileIds: seq<FileId>, depIds: seq<Id>, hash: nat, owner: Option<BuildId>,
                        discovered: map<BuildId, seq<FileId>>, hashes: map<BuildId, nat>,
                        discovered': map<BuildId, seq<FileId>>, hashes': map<BuildId, nat>)
    requires Below(depIds, |fileIds|)
  {
    if owner.None? then discovered' == discovered && hashes' == hashes
    else
      && hashes' == hashes[owner.value := hash]
      && exists deps: seq<FileId> ::
           && |deps| == |depIds| && (forall k | 0 <= k < |deps| :: deps[k] == fileIds[depIds[k]])
           && discovered' == discovered[owner.value := deps]
  }

  /** Where the parts of a build record lie in the log. */
  lemma BuildPieces(content: string, at: nat, n: nat)
    requires at + 2 <= |content|
    ensures var a := at + 2 + 3 * n;
            var p := ParseBuild(content[at..], n);
            if a + 2 > |content| then p.Cut?
            else
              var m := LeValue(content[a..a + 2]);
              var e := a + 2 + 3 * m;
              if e + 8 > |content| then p.Cut?
              else p == Parsed(BuildRecord(ReadIds(content[at + 2..a], n), ReadIds(content[a + 2..e], m), LeValue(content[e..e + 8])), e + 8 - at)
  {
    hide ReadIds, LeValue;
    var t := content[at..];
    assert t == content[at..|content|];
    var a := 2 + 3 * n;
    if |t| >= a + 2 {
      SliceOfSlice(content, at, |content|, a, a + 2);
      SliceOfSlice(content, at, |content|, 2, a);
      var m := LeValue(t[a..a + 2]);
      var e := a + 2 + 3 * m;
      if |t| >= e + 8 {
        SliceOfSlice(content, at, |content|, a + 2, e);
        SliceOfSlice(content, at, |content|, e, e + 8);
      }
    }
  }

  ghost predicate InFiles(files: seq<File>, fileIds: seq<FileId>) {
    forall i | 0 <= i < |fileIds| :: fileIds[i] < |files|
  }

  /** The makers of the files behind some log ids. */
  ghost function Inputs(files: seq<File>, fileIds: seq<FileId>, ids: seq<Id>): (r: seq<Option<BuildId>>)
    requires InFiles(files, fileIds) && Below(ids, |fileIds|)
    ensures |r| == |ids|
  {
    seq(|ids|, k requires 0 <= k < |ids| => files[fileIds[ids[k]]].input)
  }

  /** The ids written one after the other from `start` on. */
  ghost predicate IdsAt(content: string, start: nat, ids: seq<Id>) {
    forall k | 0 <= k < |ids| ::
      start + 3 * k + 3 <= |content| && ids[k] == LeValue(content[start + 3 * k..start + 3 * k + 3])
  }

  lemma {:induction false} ReadIdsAt(t: string, n: nat, k: nat)
    requires 3 * n <= |t| && k < n
    ensures ReadIds(t, n)[k] == LeValue(t[3 * k..3 * k + 3])
    decreases n
  {
    if k > 0 {
      ReadIdsAt(t[3..], n - 1, k - 1);
      assert t[3..] == t[3..|t|];
      SliceOfSlice(t, 3, |t|, 3 * (k - 1), 3 * (k - 1) + 3);
    }
  }

  lemma IdsRead(content: string, start: nat, ids: seq<Id>)
    requires start + 3 * |ids| <= |content| && IdsAt(content, start, ids)
    ensures ids == ReadIds(content[start..start + 3 * |ids|], |ids|)
  {
    hide ReadIds, LeValue;
    var t := content[start..start + 3 * |ids|];
    forall k | 0 <= k < |ids|
      ensures ids[k] == ReadIds(t, |ids|)[k]
    {
      ReadIdsAt(t, |ids|, k);
      SliceOfSlice(content, start, start + 3 * |ids|, 3 * k, 3 * k + 3);
    }
  }

  lemma IdTooLarge(content: string, start: nat, len: nat, k: nat, bound: nat)
    requires k < len && start + 3 * k + 3 <= |content|
    requires LeValue(content[start + 3 * k..start + 3 * k + 3]) >= bound
    ensures start + 3 * len <= |content| ==> !Below(ReadIds(content[start..start + 3 * len], len), bound)
  {
    hide ReadIds, LeValue;
    if start + 3 * len <= |content| {
      var t := content[start..start + 3 * len];
      ReadIdsAt(t, len, k);
      SliceOfSlice(content, start, start + 3 * len, 3 * k, 3 * k + 3);
      assert ReadIds(t, len)[k] >= bound;
    }
  }

  lemma NoneBelow(files: seq<File>, fileIds: seq<FileId>)
    requires InFiles(files, fileIds)
    ensures Below([], |fileIds|) && Scan(Inputs(files, fileIds, [])) == (None, false)
  {
  }

  /** One more output, whose maker is known. */
  lemma OneMore(files: seq<File>, fileIds: seq<FileId>, ids: seq<Id>)
    requires InFiles(files, fileIds) && ids != [] && ids[|ids| - 1] < |fileIds|
    ensures Below(ids, |fileIds|) ==>
              && Below(ids[..|ids| - 1], |fileIds|)
              && Scan(Inputs(files, fileIds, ids))
                 == ScanStep(Scan(Inputs(files, fileIds, ids[..|ids| - 1])), files[fileIds[ids[|ids| - 1]]].input)
  {
    if Below(ids, |fileIds|) {
      var n := |ids| - 1;
      assert Below(ids[..n], |fileIds|);
      assert Inputs(files, fileIds, ids)[..n] == Inputs(files, fileIds, ids[..n]);
    }
  }

  lemma ScanStopped(files: seq<File>, fileIds: seq<FileId>, ids: seq<Id>)
    requires InFiles(files, fileIds) && ids != []
    ensures Below(ids, |fileIds|) ==> Below(ids[..|ids| - 1], |fileIds|)
    ensures Below(ids, |fileIds|) && Scan(Inputs(files, fileIds, ids[..|ids| - 1])).1 ==>
              Scan(Inputs(files, fileIds, ids)) == Scan(Inputs(files, fileIds, ids[..|ids| - 1]))
  {
    if Below(ids, |fileIds|) {
      assert Below(ids[..|ids| - 1], |fileIds|);
      OneMore(files, fileIds, ids);
    }
  }

  // ---- What the reader knows after some records. ----

  ghost predicate Follows(files: seq<File>, byName: map<string, FileId>, rs: seq<Record>, maker: string -> Option<BuildId>,
                          fileIds: seq<FileId>, dbIds: map<FileId, Id>,
                          discovered: map<BuildId, seq<FileId>>, hashes: map<BuildId, nat>) {
    && Agrees(files, byName, maker)
    && Named(files, PathNames(rs), fileIds)
    && Indexed(fileIds, dbIds)
    && (RefsEarlier(rs) ==> Replayed(files, Finishes(rs), maker, discovered, hashes))
  }

  lemma StartFollows(files: seq<File>, byName: map<string, FileId>, maker: string -> Option<BuildId>)
    requires Agrees(files, byName, maker)
    ensures Follows(files, byName, [], maker, [], map[], map[], map[])
  {
  }

  /** A file read from the log adds a name at most; the makers stay as they are. */
  ghost predicate Interns(files: seq<File>, byName: map<string, FileId>, files': seq<File>,
                          byName': map<string, FileId>, name: string) {
    && name in byName' && byName' == byName[name := byName'[name]]
    && (name in byName ==> files' == files && byName' == byName)
    && (name !in byName ==> byName'[name] == |files| && files' == files + [File(name, None, [])])
  }

  lemma AgreesMore(files: seq<File>, byName: map<string, FileId>, files': seq<File>, byName': map<string, FileId>,
                   name: string, maker: string -> Option<BuildId>)
    requires Interned(files, byName) && Interns(files, byName, files', byName', name) && Agrees(files, byName, maker)
    ensures Agrees(files', byName', maker)
  {
    forall n
      ensures maker(n) == MakerOf(files', byName', n)
    {
      assert maker(n) == MakerOf(files, byName, n);
    }
  }

  lemma FileNamesMore(files: seq<File>, files': seq<File>, fs: seq<FileId>)
    requires files <= files' && forall f | f in fs :: f < |files|
    ensures (forall f | f in fs :: f < |files'|) && FileNames(files', fs) == FileNames(files, fs)
  {
    forall i | 0 <= i < |fs|
      ensures FileNames(files', fs)[i] == FileNames(files, fs)[i]
    {
      assert fs[i] in fs;
    }
  }

  lemma ReplayedMore(files: seq<File>, files': seq<File>, fs: seq<Finish>, maker: string -> Option<BuildId>,
                     discovered: map<BuildId, seq<FileId>>, hashes: map<BuildId, nat>)
    requires files <= files' && Replayed(files, fs, maker, discovered, hashes)
    ensures Replayed(files', fs, maker, discovered, hashes)
  {
    hide LastFor;
    forall b | b in hashes
      ensures ReplayedBuild(files', LastFor(fs, maker, b), discovered[b], hashes[b])
    {
      assert ReplayedBuild(files, LastFor(fs, maker, b), discovered[b], hashes[b]);
      FileNamesMore(files, files', discovered[b]);
    }
  }

  lemma PathFollows(files: seq<File>, byName: map<string, FileId>, files': seq<File>, byName': map<string, FileId>,
                    rs: seq<Record>, maker: string -> Option<BuildId>, fileIds: seq<FileId>, dbIds: map<FileId, Id>,
                    discovered: map<BuildId, seq<FileId>>, hashes: map<BuildId, nat>, name: string)
    requires Follows(files, byName, rs, maker, fileIds, dbIds, discovered, hashes)
    requires Interned(files, byName) && Interned(files', byName') && Interns(files, byName, files', byName', name)
    ensures Follows(files', byName', rs + [PathRecord(name)], maker, fileIds + [byName'[name]],
                    dbIds[byName'[name] := |fileIds|], discovered, hashes)
  {
    hide Agrees, Replayed, Finishes, RefsEarlier, PathNames;
    AgreesMore(files, byName, files', byName', name, maker);
    PathSplit(rs, name);
    if RefsEarlier(rs + [PathRecord(name)]) {
      ReplayedMore(files, files', Finishes(rs), maker, discovered, hashes);
    }
    IndexedMore(fileIds, dbIds, byName'[name]);
  }

  lemma PathSplit(rs: seq<Record>, name: string)
    ensures PathNames(rs + [PathRecord(name)]) == PathNames(rs) + [name]
    ensures RefsEarlier(rs + [PathRecord(name)]) <==> RefsEarlier(rs)
    ensures RefsEarlier(rs) ==> Finishes(rs + [PathRecord(name)]) == Finishes(rs)
  {
    assert (rs + [PathRecord(name)])[..|rs|] == rs;
    if RefsEarlier(rs) {
      PathAppended(rs, name);
    }
  }

  lemma IndexedMore(fileIds: seq<FileId>, dbIds: map<FileId, Id>, f: FileId)
    requires Indexed(fileIds, dbIds)
    ensures Indexed(fileIds + [f], dbIds[f := |fileIds|])
  {
  }

  lemma BuildFollows(files: seq<File>, byName: map<string, FileId>, rs: seq<Record>, record: Record,
                     maker: string -> Option<BuildId>, fileIds: seq<FileId>, dbIds: map<FileId, Id>,
                     discovered: map<BuildId, seq<FileId>>, hashes: map<BuildId, nat>,
                     discovered': map<BuildId, seq<FileId>>, hashes': map<BuildId, nat>)
    requires Follows(files, byName, rs, maker, fileIds, dbIds, discovered, hashes)
    requires Interned(files, byName) && record.BuildRecord? && InFiles(files, fileIds)
    requires Below(record.outs, |fileIds|) ==>
               && Below(record.deps, |fileIds|)
               && var owner := Owner(Inputs(files, fileIds, record.outs));
               Noted(fileIds, record.deps, record.hash, owner, discovered, hashes, discovered', hashes')
    ensures Follows(files, byName, rs + [record], maker, fileIds, dbIds, discovered', hashes')
  {
    hide Agrees, Replayed, Owner, Noted, Indexed, Inputs, InFiles;
    assert (rs + [record])[..|rs|] == rs;
    if RefsEarlier(rs + [record]) {
      var names := PathNames(rs);
      BuildAppended(rs, record.outs, record.deps, record.hash);
      var f := Finish(NamesOf(names, record.outs), NamesOf(names, record.deps), record.hash);
      MakersAre(files, byName, names, maker, fileIds, record.outs);
      FinishReplayed(files, names, Finishes(rs), maker, fileIds, record.deps, f, discovered, hashes, discovered', hashes');
    }
  }

  lemma MakersAre(files: seq<File>, byName: map<string, FileId>, names: seq<string>, maker: string -> Option<BuildId>,
                  fileIds: seq<FileId>, ids: seq<Id>)
    requires Interned(files, byName) && Agrees(files, byName, maker) && Named(files, names, fileIds) && Below(ids, |names|)
    ensures InFiles(files, fileIds) && Makers(maker, NamesOf(names, ids)) == Inputs(files, fileIds, ids)
  {
    forall k | 0 <= k < |ids|
      ensures maker(names[ids[k]]) == files[fileIds[ids[k]]].input
    {
      assert files[fileIds[ids[k]]].name == names[ids[k]];
    }
  }

  lemma FinishReplayed(files: seq<File>, names: seq<string>, fs: seq<Finish>, maker: string -> Option<BuildId>,
                       fileIds: seq<FileId>, depIds: seq<Id>, f: Finish,
                       discovered: map<BuildId, seq<FileId>>, hashes: map<BuildId, nat>,
                       discovered': map<BuildId, seq<FileId>>, hashes': map<BuildId, nat>)
    requires Replayed(files, fs, maker, discovered, hashes) && Named(files, names, fileIds) && Below(depIds, |fileIds|)
    requires f.deps == NamesOf(names, depIds)
    requires Noted(fileIds, depIds, f.hash, Owner(Makers(maker, f.outs)), discovered, hashes, discovered', hashes')
    ensures Replayed(files, fs + [f], maker, discovered', hashes')
  {
    hide Owner, Makers, LastFor, ReplayedBuild, Named;
    var owner := Owner(Makers(maker, f.outs));
    if owner.Some? {
      NotedDeps(files, names, fileIds, depIds, discovered'[owner.value]);
      FinishFits(files, f, discovered'[owner.value]);
    }
    forall b: BuildId
      ensures LastFor(fs + [f], maker, b) == if owner == Some(b) then Some(f) else LastFor(fs, maker, b)
    {
      LastForMore(fs, f, maker, b);
    }
  }

  lemma LastForMore(fs: seq<Finish>, f: Finish, maker: string -> Option<BuildId>, b: BuildId)
    ensures LastFor(fs + [f], maker, b) == if Owner(Makers(maker, f.outs)) == Some(b) then Some(f) else LastFor(fs, maker, b)
  {
    hide Owner, Makers;
    assert (fs + [f])[..|fs|] == fs;
  }

  lemma FinishFits(files: seq<File>, f: Finish, deps: seq<FileId>)
    requires (forall x | x in deps :: x < |files|) && FileNames(files, deps) == f.deps
    ensures ReplayedBuild(files, Some(f), deps, f.hash)
  {
  }

  lemma NotedDeps(files: seq<File>, names: seq<string>, fileIds: seq<FileId>, depIds: seq<Id>, deps: seq<FileId>)
    requires Named(files, names, fileIds) && Below(depIds, |fileIds|)
    requires |deps| == |depIds| && forall k | 0 <= k < |deps| :: deps[k] == fileIds[depIds[k]]
    ensures (forall f | f in deps :: f < |files|) && FileNames(files, deps) == NamesOf(names, depIds)
  {
  }

  // ---- Sessions. ----

  /** With every name logged once the two id maps are each other's inverse. */
  lemma IndexedMapped(files: seq<File>, rs: seq<Record>, fileIds: seq<FileId>, dbIds: map<FileId, Id>)
    requires Named(files, PathNames(rs), fileIds) && Indexed(fileIds, dbIds) && NoDup(PathNames(rs))
    ensures Mapped(files, rs, fileIds, dbIds)
  {
    forall i | 0 <= i < |fileIds|
      ensures dbIds[fileIds[i]] == i
    {
      var j := dbIds[fileIds[i]];
      assert PathNames(rs)[j] == PathNames(rs)[i];
    }
  }

  /** What a log that was written as it should be parses to. */
  lemma HoldsParse(content: string, rs: seq<Record>)
    requires Holds(content, rs)
    ensures |content| >= 8 && content[..8] == Signature() && ParseAll(content[8..]) == Some(rs)
  {
    hide Signature;
    assert content[8..] == EncodeAll(rs) && content[..8] == Signature();
    ParseAllEncoded(rs);
  }

  /**
   Opens the log of earlier sessions, or begins a new one. Whatever sessions
   wrote it, the writer goes on where they stopped, and every build of the
   graph is known by its last record.
   */
  method Open(file: Option<string>, ghost rs: seq<Record>, store: Store, ghost maker: string -> Option<BuildId>)
    returns (r: Result<Writer, ReadError>, discovered: map<BuildId, seq<FileId>>, hashes: map<BuildId, nat>)
    requires store.Valid() && Agrees(store.files, store.byName, maker)
    requires ByteNames(store.files) && if file.None? then rs == [] else Holds(file.value, rs)
    modifies store
    ensures r.Ok? && fresh(r.value) && r.value.Valid(store.files) && r.value.records == rs
    ensures file.Some? ==> r.value.content == file.value
    ensures Replayed(store.files, Finishes(rs), maker, discovered, hashes)
    ensures store.Valid() && store.builds == old(store.builds) && Agrees(store.files, store.byName, maker)
    ensures old(store.files) <= store.files && ByteNames(store.files)
    ensures |store.files| <= |old(store.files)| + |PathNames(rs)|
  {
    hide Holds, Replayed, Agrees, Signature, RefsEarlier, Mapped, Named, Indexed, ParseAll, Finishes;
    hide PathNames, Interned;
    if file.None? {
      NothingReplayed(store.files, maker);
      var w := new Writer.Create(store.files);
      return Ok(w), map[], map[];
    }
    HoldsParse(file.value, rs);
    HoldsRefs(file.value, rs);
    var reader := new Reader(file.value, store);
    var got, read := reader.ReadFile(maker);
    FollowsAll(store.files, store.byName, rs, maker, reader.fileIds, reader.dbIds, reader.discovered, reader.hashes);
    IndexedMapped(store.files, rs, reader.fileIds, reader.dbIds);
    var writer := new Writer.FromOpened(store.files, rs, file.value, reader.fileIds, reader.dbIds);
    r, discovered, hashes := Ok(writer), reader.discovered, reader.hashes;
  }

  lemma NothingReplayed(files: seq<File>, maker: string -> Option<BuildId>)
    ensures Replayed(files, Finishes([]), maker, map[], map[])
  {
  }

  lemma HoldsRefs(content: string, rs: seq<Record>)
    requires Holds(content, rs)
    ensures RefsEarlier(rs) && NoDup(PathNames(rs)) && Bytes(content)
  {
  }

  lemma FollowsAll(files: seq<File>, byName: map<string, FileId>, rs: seq<Record>, maker: string -> Option<BuildId>,
                   fileIds: seq<FileId>, dbIds: map<FileId, Id>,
                   discovered: map<BuildId, seq<FileId>>, hashes: map<BuildId, nat>)
    requires Follows(files, byName, rs, maker, fileIds, dbIds, discovered, hashes) && RefsEarlier(rs)
    ensures Agrees(files, byName, maker) && Named(files, PathNames(rs), fileIds) && Indexed(fileIds, dbIds)
    ensures Replayed(files, Finishes(rs), maker, discovered, hashes)
  {
  }

  /** One build that finished in a session, its inputs by name: they may be new to the graph. */
  datatype Entry = Entry(outs: seq<FileId>, deps: seq<string>, hash: nat)

  /** The outputs exist, and the names and the counts fit in the format. */
  predicate Loggable(files: seq<File>, e: Entry) {
    && (forall f | f in e.outs :: f < |files| && |files[f].name| < MARK)
    && (forall d | d in e.deps :: |d| < MARK && Bytes(d))
    && |e.outs| < MARK && |e.deps| < Limit(2) && e.hash < Limit(8)
  }

  function FinishOf(files: seq<File>, e: Entry): Finish
    requires Loggable(files, e)
  {
    Finish(FileNames(files, e.outs), e.deps, e.hash)
  }

  function Entered(files: seq<File>, es: seq<Entry>): (r: seq<Finish>)
    requires forall k | 0 <= k < |es| :: Loggable(files, es[k])
    ensures |r| == |es| && forall k | 0 <= k < |es| :: r[k] == FinishOf(files, es[k])
  {
    seq(|es|, k requires 0 <= k < |es| => FinishOf(files, es[k]))
  }

  /** How many inputs the entries name. */
  function DepCount(es: seq<Entry>): nat {
    if es == [] then 0 else DepCount(es[..|es| - 1]) + |es[|es| - 1].deps|
  }

  lemma {:induction false} DepCountMore(es: seq<Entry>, n: nat)
    requires n <= |es|
    ensures DepCount(es[..n]) <= DepCount(es)
    decreases |es|
  {
    if n == |es| {
      assert es[..n] == es;
    } else {
      DepCountMore(es[..|es| - 1], n);
      assert es[..|es| - 1][..n] == es[..n];
    }
  }

  /**
   A whole session on an earlier log: the builds are replayed, some are run
   and logged, with inputs nobody knew of before, and the log that is left
   holds what it held and then those. The next session can open it in the same
   way, so any number may follow.
   */
  method Session(file: Option<string>, ghost rs: seq<Record>, store: Store, ghost maker: string -> Option<BuildId>,
                 entries: seq<Entry>)
    returns (content: string, ghost rs': seq<Record>, discovered: map<BuildId, seq<FileId>>, hashes: map<BuildId, nat>)
    requires store.Valid() && Agrees(store.files, store.byName, maker)
    requires ByteNames(store.files) && if file.None? then rs == [] else Holds(file.value, rs)
    requires forall k | 0 <= k < |entries| :: Loggable(store.files, entries[k])
    requires |store.files| + |PathNames(rs)| + DepCount(entries) <= Limit(3)
    modifies store
    ensures RefsEarlier(rs) && Replayed(store.files, Finishes(rs), maker, discovered, hashes)
    ensures Holds(content, rs') && Finishes(rs') == Finishes(rs) + Entered(old(store.files), entries)
    ensures store.Valid() && Agrees(store.files, store.byName, maker) && ByteNames(store.files)
    ensures old(store.files) <= store.files && store.builds == old(store.builds)
  {
    hide Holds, Replayed, Agrees, RefsEarlier, Finishes, PathNames, Interned, Mapped, Limit;
    hide ByteNames, Signature, Loggable;
    ghost var files0 := store.files;
    var log, found, known := Open(file, rs, store, maker);
    var w := log.value;
    ghost var files1 := store.files;
    EnteredMore(files0, files1, entries);
    WriterHolds(w, store.files);
    WriteAll(w, store, maker, entries);
    ReplayedMore(files1, store.files, Finishes(rs), maker, found, known);
    content, rs', discovered, hashes := w.content, w.records, found, known;
  }

  /** The ids of some names; names met for the first time get new ones. */
  method InternAll(store: Store, ghost maker: string -> Option<BuildId>, names: seq<string>) returns (ids: seq<FileId>)
    requires store.Valid() && Agrees(store.files, store.byName, maker)
    requires ByteNames(store.files) && forall n | n in names :: Bytes(n)
    modifies store
    ensures store.Valid() && Agrees(store.files, store.byName, maker) && ByteNames(store.files)
    ensures old(store.files) <= store.files && store.builds == old(store.builds)
    ensures |store.files| <= |old(store.files)| + |names|
    ensures (forall f | f in ids :: f < |store.files|) && FileNames(store.files, ids) == names
  {
    hide Agrees, Interned;
    ids := [];
    for i := 0 to |names|
      invariant store.Valid() && Agrees(store.files, store.byName, maker) && ByteNames(store.files)
      invariant old(store.files) <= store.files && store.builds == old(store.builds)
      invariant |store.files| <= |old(store.files)| + i
      invariant |ids| == i && forall k | 0 <= k < i :: ids[k] < |store.files| && store.files[ids[k]].name == names[k]
    {
      assert names[i] in names;
      var id := InternOne(store, maker, names[i]);
      ids := ids + [id];
    }
  }

  lemma StoreInterned(store: Store)
    requires store.Valid()
    ensures Interned(store.files, store.byName)
  {
  }

  /** The id of a name; the makers stay as they are. */
  method InternOne(store: Store, ghost maker: string -> Option<BuildId>, name: string) returns (id: FileId)
    requires store.Valid() && Agrees(store.files, store.byName, maker) && ByteNames(store.files) && Bytes(name)
    modifies store
    ensures store.Valid() && Agrees(store.files, store.byName, maker) && ByteNames(store.files)
    ensures old(store.files) <= store.files && store.builds == old(store.builds)
    ensures |store.files| <= |old(store.files)| + 1
    ensures id < |store.files| && store.files[id].name == name
  {
    hide Agrees, Interned;
    ghost var files, byName := store.files, store.byName;
    StoreInterned(store);
    id := store.IdFromCanonical(name);
    StoreInterned(store);
    OneId(files, byName, store.files, store.byName, name);
    AgreesMore(files, byName, store.files, store.byName, name, maker);
  }

  /** A name that was known keeps its id. */
  lemma OneId(files: seq<File>, byName: map<string, FileId>, files': seq<File>, byName': map<string, FileId>, name: string)
    requires Interned(files, byName) && Interned(files', byName') && files <= files' && name in byName'
    ensures name in byName ==> byName'[name] == byName[name] && byName[name := byName'[name]] == byName
  {
    if name in byName {
      assert files[byName[name]].name == name;
    }
  }

  /** The builds of a session are logged one after the other. */
  method WriteAll(w: Writer, store: Store, ghost maker: string -> Option<BuildId>, entries: seq<Entry>)
    requires w.Valid(store.files) && store.Valid() && ByteNames(store.files) && Agrees(store.files, store.byName, maker)
    requires forall k | 0 <= k < |entries| :: Loggable(store.files, entries[k])
    requires |store.files| + DepCount(entries) <= Limit(3)
    modifies w, store
    ensures w.Valid(store.files) && RefsEarlier(old(w.records)) && RefsEarlier(w.records)
    ensures Finishes(w.records) == Finishes(old(w.records)) + Entered(old(store.files), entries)
    ensures store.Valid() && Agrees(store.files, store.byName, maker) && ByteNames(store.files)
    ensures old(store.files) <= store.files && store.builds == old(store.builds)
  {
    hide Holds, RefsEarlier, Finishes, PathNames, Interned, Mapped, Limit, ByteNames, Signature, Agrees, Loggable;
    hide FinishOf;
    WriterHolds(w, store.files);
    ghost var start, files0 := Finishes(w.records), store.files;
    assert start + Entered(files0, entries[..0]) == start;
    assert entries[..0] == [];
    for i := 0 to |entries|
      invariant w.Valid(store.files) && RefsEarlier(w.records)
      invariant Finishes(w.records) == start + Entered(files0, entries[..i])
      invariant store.Valid() && Agrees(store.files, store.byName, maker) && ByteNames(store.files)
      invariant files0 <= store.files && store.builds == old(store.builds)
      invariant |store.files| <= |files0| + DepCount(entries[..i])
    {
      DepCountMore(entries, i + 1);
      assert entries[..i + 1][..i] == entries[..i];
      LoggableMore(files0, store.files, entries[i]);
      WriteEntry(w, store, maker, entries[i]);
      EnteredSnoc(files0, entries, i, start);
    }
    assert entries[..|entries|] == entries;
  }

  lemma EnteredSnoc(files: seq<File>, es: seq<Entry>, i: nat, start: seq<Finish>)
    requires i < |es| && forall k | 0 <= k < |es| :: Loggable(files, es[k])
    ensures start + Entered(files, es[..i]) + [FinishOf(files, es[i])] == start + Entered(files, es[..i + 1])
  {
    hide Loggable, FinishOf;
  }

  /** Interns the inputs one build was found to have, and logs it. */
  method WriteEntry(w: Writer, store: Store, ghost maker: string -> Option<BuildId>, e: Entry)
    requires w.Valid(store.files) && store.Valid() && ByteNames(store.files) && Agrees(store.files, store.byName, maker)
    requires Loggable(store.files, e) && |store.files| + |e.deps| <= Limit(3)
    modifies w, store
    ensures w.Valid(store.files) && RefsEarlier(old(w.records)) && RefsEarlier(w.records)
    ensures Finishes(w.records) == Finishes(old(w.records)) + [FinishOf(old(store.files), e)]
    ensures store.Valid() && Agrees(store.files, store.byName, maker) && ByteNames(store.files)
    ensures old(store.files) <= store.files && store.builds == old(store.builds)
    ensures |store.files| <= |old(store.files)| + |e.deps|
  {
    hide Holds, RefsEarlier, Finishes, PathNames, Interned, Mapped, Limit, ByteNames, Signature, Agrees, Bytes;
    WriterHolds(w, store.files);
    ghost var files0 := store.files;
    var deps := InternAll(store, maker, e.deps);
    StoreInterned(store);
    StillMapped(w, files0, store.files);
    LoggableMore(files0, store.files, e);
    ShortNames(store.files, deps, e.deps);
    var logged := w.WriteBuild(store.files, store.byName, e.outs, deps, e.hash);
    WriterHolds(w, store.files);
  }

  lemma ShortNames(files: seq<File>, deps: seq<FileId>, names: seq<string>)
    requires (forall f | f in deps :: f < |files|) && FileNames(files, deps) == names
    requires forall n | n in names :: |n| < MARK
    ensures forall f | f in deps :: |files[f].name| < MARK
  {
    forall f | f in deps
      ensures |files[f].name| < MARK
    {
      var k :| 0 <= k < |deps| && deps[k] == f;
      assert names[k] in names;
    }
  }

  /** More files in the graph do not disturb a writer. */
  lemma StillMapped(w: Writer, files: seq<File>, files': seq<File>)
    requires w.Valid(files) && files <= files'
    ensures w.Valid(files')
  {
    hide Holds, PathNames;
  }

  lemma WriterHolds(w: Writer, files: seq<File>)
    requires w.Valid(files)
    ensures RefsEarlier(w.records) && Holds(w.content, w.records)
  {
  }

  lemma LoggableMore(files: seq<File>, files': seq<File>, e: Entry)
    requires Loggable(files, e) && files <= files'
    ensures Loggable(files', e) && FinishOf(files', e) == FinishOf(files, e)
  {
    FileNamesMore(files, files', e.outs);
  }

  lemma EnteredMore(files: seq<File>, files': seq<File>, es: seq<Entry>)
    requires files <= files' && forall k | 0 <= k < |es| :: Loggable(files, es[k])
    ensures (forall k | 0 <= k < |es| :: Loggable(files', es[k])) && Entered(files', es) == Entered(files, es)
  {
    forall k | 0 <= k < |es|
      ensures Loggable(files', es[k]) && FinishOf(files', es[k]) == FinishOf(files, es[k])
    {
      LoggableMore(files, files', es[k]);
    }
  }

  /** Position `k` is the last that holds `b`. */
  ghost predicate LastAt(tags: seq<BuildId>, k: nat, b: BuildId) {
    k < |tags| && tags[k] == b && forall j | k < j < |tags| :: tags[j] != b
  }

  /**
   In an unchanged graph the replay gives every build the inputs and the hash
   it was last logged with, and knows of no other build.
   */
  lemma {:induction false} LastLogged(fs: seq<Finish>, tags: seq<BuildId>, maker: string -> Option<BuildId>, b: BuildId)
    requires |fs| == |tags|
    requires forall k | 0 <= k < |fs| :: fs[k].outs != [] && forall o | o in fs[k].outs :: maker(o) == Some(tags[k])
    ensures b !in tags ==> LastFor(fs, maker, b) == None
    ensures forall k: nat | LastAt(tags, k, b) :: LastFor(fs, maker, b) == Some(fs[k])
    decreases |fs|
  {
    hide Owner, Makers;
    if fs != [] {
      var n := |fs| - 1;
      LastOwner(fs, tags, maker);
      if tags[n] != b {
        LastLogged(fs[..n], tags[..n], maker, b);
        assert forall k: nat | LastAt(tags, k, b) :: LastAt(tags[..n], k, b);
      } else {
        assert forall k: nat | LastAt(tags, k, b) :: k == n;
      }
    }
  }

  lemma LastOwner(fs: seq<Finish>, tags: seq<BuildId>, maker: string -> Option<BuildId>)
    requires |fs| == |tags| && fs != []
    requires forall k | 0 <= k < |fs| :: fs[k].outs != [] && forall o | o in fs[k].outs :: maker(o) == Some(tags[k])
    ensures Owner(Makers(maker, fs[|fs| - 1].outs)) == Some(tags[|fs| - 1])
  {
    var outs := fs[|fs| - 1].outs;
    assert forall k | 0 <= k < |outs| :: outs[k] in outs;
    OwnerUnchanged(Makers(maker, outs), tags[|fs| - 1]);
  }
}
