/**
 The build log in use: the writer appends records and gives out ids, the
 reader replays a log into a freshly loaded graph.
 */
module Db {
  import opened Wrappers
  import opened BuildGraph
  import opened DbFormat
  import opened DbLog
  import opened GraphStore
  import opened Sequences

  /** The magic of the log and its version. */
  function Signature(): (r: string)
    ensures |r| == 8
  {
    "n2db" + Le(1, 4)
  }

  /** A log file that holds `rs`, every id defined before it is used and every name given one id. */
  ghost predicate Holds(content: string, rs: seq<Record>) {
    content == Signature() + EncodeAll(rs) && Bytes(content) && AllFit(rs) && RefsEarlier(rs) && NoDup(PathNames(rs))
  }

  ghost predicate ByteNames(files: seq<File>) {
    forall f | 0 <= f < |files| :: Bytes(files[f].name)
  }

  /** Log ids and file ids are each other's inverse, and stand for the names of the log. */
  ghost predicate Mapped(files: seq<File>, rs: seq<Record>, fileIds: seq<FileId>, dbIds: map<FileId, Id>) {
    && |fileIds| == |PathNames(rs)|
    && (forall i | 0 <= i < |fileIds| :: fileIds[i] < |files| && files[fileIds[i]].name == PathNames(rs)[i])
    && (forall i | 0 <= i < |fileIds| :: fileIds[i] in dbIds && dbIds[fileIds[i]] == i)
    && (forall f | f in dbIds :: dbIds[f] < |fileIds| && fileIds[dbIds[f]] == f)
  }

  function FileNames(files: seq<File>, fs: seq<FileId>): (r: seq<string>)
    requires forall f | f in fs :: f < |files|
    ensures |r| == |fs|
  {
    seq(|fs|, i requires 0 <= i < |fs| => assert fs[i] in fs; files[fs[i]].name)
  }

  datatype WriteError = NameTooLong | TooManyFiles

  /** An opened log, ready for writes. */
  class Writer {
    var fileIds: seq<FileId>
    var dbIds: map<FileId, Id>
    var content: string
    ghost var records: seq<Record>

    ghost predicate Valid(files: seq<File>)
      reads this
    {
      Holds(content, records) && Mapped(files, records, fileIds, dbIds)
    }

    /** A new log. */
    constructor Create(ghost files: seq<File>)
      ensures Valid(files) && records == []
    {
      fileIds, dbIds, records := [], map[], [];
      content := Signature();
      new;
      assert Signature() + EncodeAll([]) == Signature();
      LeRoundTrip(1, 4);
    }

    constructor FromOpened(ghost files: seq<File>, ghost records: seq<Record>, content: string,
                           fileIds: seq<FileId>, dbIds: map<FileId, Id>)
      requires Holds(content, records) && Mapped(files, records, fileIds, dbIds)
      ensures Valid(files) && this.records == records && this.content == content
    {
      this.fileIds, this.dbIds, this.content, this.records := fileIds, dbIds, content, records;
    }

    /** The id of a file; a file that has none yet gets the next one, and its name is written. */
    method EnsureId(files: seq<File>, ghost byName: map<string, FileId>, f: FileId) returns (r: Result<Id, WriteError>)
      requires Valid(files) && Interned(files, byName) && ByteNames(files) && f < |files|
      modifies this
      ensures r.Ok? ==> Valid(files) && Finishes(records) == Finishes(old(records))
      ensures r.Ok? ==> r.value < |fileIds| && fileIds[r.value] == f && PathNames(records)[r.value] == files[f].name
      ensures r.Ok? ==> old(fileIds) <= fileIds && PathNames(old(records)) <= PathNames(records)
      ensures r.Err? <==> f !in old(dbIds) && |files[f].name| >= MARK
    {
      hide Encode, Finishes, EncodeAll;
      if f in dbIds {
        return Ok(dbIds[f]);
      }
      var name := files[f].name;
      if |name| >= MARK {
        return Err(NameTooLong);
      }
      PathWritten(files, byName, content, records, fileIds, dbIds, f);
      var id := |fileIds|;
      fileIds := fileIds + [f];
      dbIds := dbIds[f := id];
      content := content + Encode(PathRecord(name));
      records := records + [PathRecord(name)];
      r := Ok(id);
    }

    /** Writes the ids of some files into the buffer, giving out the ids that are missing. */
    method WriteIds(files: seq<File>, ghost byName: map<string, FileId>, fs: seq<FileId>, buf: string)
      returns (r: Result<string, WriteError>, ghost ids: seq<Id>)
      requires Valid(files) && Interned(files, byName) && ByteNames(files) && forall f | f in fs :: f < |files|
      modifies this
      ensures r.Ok? ==> Valid(files) && Finishes(records) == Finishes(old(records))
      ensures r.Ok? ==> PathNames(old(records)) <= PathNames(records)
      ensures r.Ok? ==> r.value == buf + LeIds(ids) && Below(ids, |PathNames(records)|)
      ensures r.Ok? ==> NamesOf(PathNames(records), ids) == FileNames(files, fs)
      ensures r.Ok? ==> |fileIds| <= |files|
      ensures |files| <= Limit(3) && (forall f | f in fs :: |files[f].name| < MARK) ==> r.Ok?
    {
      hide EncodeAll, RefsEarlier, AllFit, Signature, NoDup, PathNames, Finishes, Le, LeIds, Limit, Interned, Mapped;
      assert forall k | 0 <= k < |fs| :: fs[k] in fs;
      ids := [];
      var out := buf;
      LeIdsNone(buf);
      for i := 0 to |fs|
        invariant Valid(files) && Finishes(records) == Finishes(old(records))
        invariant PathNames(old(records)) <= PathNames(records)
        invariant out == buf + LeIds(ids) && |ids| == i && Below(ids, |PathNames(records)|)
        invariant forall k | 0 <= k < i :: PathNames(records)[ids[k]] == files[fs[k]].name
      {
        assert fs[i] in fs;
        var id := EnsureId(files, byName, fs[i]);
        if id.Err? {
          return Err(id.error), ids;
        }
        FewerIds(files, records, fileIds, dbIds);
        Limits();
        if id.value > 0x100_0000 {
          return Err(TooManyFiles), ids;
        }
        LeIdsAppend(buf, ids, id.value);
        out := out + Le(id.value, 3);
        ids := ids + [id.value];
      }
      FewerIds(files, records, fileIds, dbIds);
      r := Ok(out);
    }

    /**
     Records a finished build: its outputs, the inputs it was found to have,
     and its hash. As long as the counts fit in the format, the log then says
     what it said before and this build after it.
     */
    method WriteBuild(files: seq<File>, ghost byName: map<string, FileId>, outs: seq<FileId>, deps: seq<FileId>, hash: nat)
      returns (r: Result<(), WriteError>)
      requires Valid(files) && Interned(files, byName) && ByteNames(files) && hash < Limit(8)
      requires (forall f | f in outs :: f < |files|) && forall f | f in deps :: f < |files|
      modifies this
      ensures r.Ok? && |outs| < MARK && |deps| < Limit(2) && |files| <= Limit(3) ==>
                && Valid(files) && PathNames(old(records)) <= PathNames(records)
                && Finishes(records) == Finishes(old(records)) + [Finish(FileNames(files, outs), FileNames(files, deps), hash)]
      ensures |files| <= Limit(3) && (forall f | f in outs || f in deps :: |files[f].name| < MARK) ==> r.Ok?
    {
      hide EncodeAll, RefsEarlier, AllFit, Signature, NoDup, PathNames, Finishes, Le, LeIds, Limit;
      hide Interned, Mapped, Encode;
      ghost var outIds, depIds;
      var w := Le(MARK + |outs| % MARK, 2);
      var buf: Result<string, WriteError>;
      buf, outIds := WriteIds(files, byName, outs, w);
      if buf.Err? {
        return Err(buf.error);
      }
      ghost var names := PathNames(records);
      w := buf.value + Le(|deps|, 2);
      buf, depIds := WriteIds(files, byName, deps, w);
      if buf.Err? {
        return Err(buf.error);
      }
      w := buf.value + Le(hash, 8);
      EncodeBuild(outIds, depIds, hash);
      NamesKept(names, PathNames(records), outIds);
      ghost var record := BuildRecord(outIds, depIds, hash);
      if |outs| < MARK && |deps| < Limit(2) && |files| <= Limit(3) {
        BuildWritten(files, content, records, fileIds, dbIds, outIds, depIds, hash);
      }
      content := content + w;
      records := records + [record];
      r := Ok(());
    }
  }

  /** A file that has no id yet has a name the log does not hold. */
  lemma PathWritten(files: seq<File>, byName: map<string, FileId>, content: string, rs: seq<Record>,
                    fileIds: seq<FileId>, dbIds: map<FileId, Id>, f: FileId)
    requires Holds(content, rs) && Mapped(files, rs, fileIds, dbIds) && Interned(files, byName)
    requires f < |files| && f !in dbIds && |files[f].name| < MARK && Bytes(files[f].name)
    ensures var rs' := rs + [PathRecord(files[f].name)];
            && Holds(content + Encode(PathRecord(files[f].name)), rs')
            && Mapped(files, rs', fileIds + [f], dbIds[f := |fileIds|])
            && Finishes(rs') == Finishes(rs) && PathNames(rs') == PathNames(rs) + [files[f].name]
  {
    hide Encode, EncodeAll, Finishes, RefsEarlier, PathNames, Signature, Limit;
    var name := files[f].name;
    PathAppended(rs, name);
    Appended(content, rs, PathRecord(name));
    forall i | 0 <= i < |PathNames(rs)|
      ensures PathNames(rs)[i] != name
    {
      assert byName[files[fileIds[i]].name] == fileIds[i] != f;
    }
    NoDupAppend(PathNames(rs), name);
  }

  lemma LeIdsNone(buf: string)
    ensures buf + LeIds([]) == buf
  {
  }

  lemma {:induction false} LeIdsSnoc(ids: seq<Id>, id: Id)
    ensures LeIds(ids + [id]) == LeIds(ids) + Le(id, 3)
    decreases |ids|
  {
    if ids == [] {
      assert (ids + [id])[1..] == [];
    } else {
      LeIdsSnoc(ids[1..], id);
      assert (ids + [id])[1..] == ids[1..] + [id];
    }
  }

  lemma LeIdsAppend(buf: string, ids: seq<Id>, id: Id)
    ensures buf + LeIds(ids + [id]) == buf + LeIds(ids) + Le(id, 3)
  {
    LeIdsSnoc(ids, id);
  }

  /** There are no more ids than files. */
  lemma FewerIds(files: seq<File>, rs: seq<Record>, fileIds: seq<FileId>, dbIds: map<FileId, Id>)
    requires Mapped(files, rs, fileIds, dbIds)
    ensures |fileIds| <= |files| && |fileIds| == |PathNames(rs)|
  {
    forall i, j | 0 <= i < j < |fileIds|
      ensures fileIds[i] != fileIds[j]
    {
      assert dbIds[fileIds[i]] == i && dbIds[fileIds[j]] == j;
    }
    NoDupCardinality(fileIds);
    assert Elements(fileIds) <= Upto(|files|);
    SubsetCardinality(Elements(fileIds), Upto(|files|));
  }

  lemma NamesKept(names: seq<string>, names': seq<string>, ids: seq<Id>)
    requires names <= names' && Below(ids, |names|)
    ensures Below(ids, |names'|) && NamesOf(names', ids) == NamesOf(names, ids)
  {
  }

  /** The build record that follows the path records of its files. */
  lemma BuildWritten(files: seq<File>, content: string, rs: seq<Record>, fileIds: seq<FileId>, dbIds: map<FileId, Id>,
                     outs: seq<Id>, deps: seq<Id>, hash: nat)
    requires Holds(content, rs) && Mapped(files, rs, fileIds, dbIds)
    requires Below(outs, |PathNames(rs)|) && Below(deps, |PathNames(rs)|) && |fileIds| <= |files| <= Limit(3)
    requires |outs| < MARK && |deps| < Limit(2) && hash < Limit(8)
    ensures var rs' := rs + [BuildRecord(outs, deps, hash)];
            && Holds(content + Encode(BuildRecord(outs, deps, hash)), rs')
            && Mapped(files, rs', fileIds, dbIds) && PathNames(rs') == PathNames(rs)
            && Finishes(rs') == Finishes(rs) + [Finish(NamesOf(PathNames(rs), outs), NamesOf(PathNames(rs), deps), hash)]
  {
    hide EncodeAll, Encode, Finishes, Le, LeIds, Limit, Fits, RefsEarlier, PathNames, Signature;
    var record := BuildRecord(outs, deps, hash);
    BuildAppended(rs, outs, deps, hash);
    BuildFits(outs, deps, hash, |PathNames(rs)|);
    Appended(content, rs, record);
  }

  lemma EncodeBuild(outs: seq<Id>, deps: seq<Id>, hash: nat)
    ensures Encode(BuildRecord(outs, deps, hash))
         == Le(MARK + |outs| % MARK, 2) + LeIds(outs) + Le(|deps|, 2) + LeIds(deps) + Le(hash, 8)
  {
    hide Le, LeIds;
  }

  lemma BuildFits(outs: seq<Id>, deps: seq<Id>, hash: nat, n: nat)
    requires Below(outs, n) && Below(deps, n) && n <= Limit(3)
    requires |outs| < MARK && |deps| < Limit(2) && hash < Limit(8)
    ensures Fits(BuildRecord(outs, deps, hash))
  {
  }

  lemma Appended(content: string, rs: seq<Record>, record: Record)
    requires content == Signature() + EncodeAll(rs) && Bytes(content) && (record.PathRecord? ==> Bytes(record.name))
    ensures content + Encode(record) == Signature() + EncodeAll(rs + [record]) && Bytes(content + Encode(record))
  {
    hide EncodeAll, Encode, Signature;
    EncodeBytes(record);
    EncodeAllAppend(rs, [record]);
    EncodeOne(record);
    assert Signature() + EncodeAll(rs) + Encode(record) == Signature() + (EncodeAll(rs) + Encode(record));
  }
}
