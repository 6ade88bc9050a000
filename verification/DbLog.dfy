/**
 The build log as a list of records: reading it back, what a cut leaves of
 it, and what its records mean in terms of file names.
 */
module DbLog {
  import opened Wrappers
  import opened BuildGraph
  import opened DbFormat
  import opened Sequences

  function EncodeAll(rs: seq<Record>): string {
    if rs == [] then "" else Encode(rs[0]) + EncodeAll(rs[1..])
  }

  ghost predicate AllFit(rs: seq<Record>) {
    forall i | 0 <= i < |rs| :: Fits(rs[i])
  }

  /** All the records of a log; none when the last one is cut off. */
  function ParseAll(t: string): Option<seq<Record>>
    decreases |t|
  {
    match ParseRecord(t)
    case NoMore => Some([])
    case Cut => None
    case Parsed(r, n) =>
      var rest := ParseAll(t[n..]);
      if rest.None? then None else Some([r] + rest.value)
  }

  lemma {:induction false} ParseAllEncoded(rs: seq<Record>)
    requires AllFit(rs)
    ensures ParseAll(EncodeAll(rs)) == Some(rs)
    decreases |rs|
  {
    hide Encode, ParseRecord, Fits;
    if rs == [] {
      ParseNothing("");
    } else {
      var rest := EncodeAll(rs[1..]);
      ParseEncode(rs[0], rest);
      assert (Encode(rs[0]) + rest)[|Encode(rs[0])|..] == rest;
      assert forall i | 0 <= i < |rs[1..]| :: rs[1..][i] == rs[i + 1];
      ParseAllEncoded(rs[1..]);
      assert [rs[0]] + rs[1..] == rs;
    }
  }

  lemma {:induction false} EncodeAllAppend(rs: seq<Record>, more: seq<Record>)
    ensures EncodeAll(rs + more) == EncodeAll(rs) + EncodeAll(more)
    decreases |rs|
  {
    if rs == [] {
      assert rs + more == more;
      assert EncodeAll(rs) + EncodeAll(more) == EncodeAll(more);
    } else {
      assert (rs + more)[1..] == rs[1..] + more;
      EncodeAllAppend(rs[1..], more);
      assert Encode(rs[0]) + (EncodeAll(rs[1..]) + EncodeAll(more)) == Encode(rs[0]) + EncodeAll(rs[1..]) + EncodeAll(more);
    }
  }

  lemma EncodeOne(r: Record)
    ensures EncodeAll([r]) == Encode(r)
  {
    assert [r][1..] == [];
    assert Encode(r) + "" == Encode(r);
  }

  // ---- A log that was cut off. ----

  /** A record that is cut off after its length is noticed. */
  lemma ParseCut(r: Record, k: nat)
    requires Fits(r) && 2 <= k < |Encode(r)|
    ensures ParseRecord(Encode(r)[..k]) == Cut
  {
    hide Le, LeIds, LeValue, Limit, ReadIds, SmallIds;
    Limits();
    var t := Encode(r)[..k];
    assert t[..2] == Encode(r)[..2];
    assert Encode(r) + "" == Encode(r);
    match r
    case PathRecord(name) =>
      LeRoundTrip(|name|, 2);
      PathParts(name, "");
    case BuildRecord(outs, deps, hash) =>
      LeRoundTrip(MARK + |outs|, 2);
      LeRoundTrip(|deps|, 2);
      BuildParts(outs, deps, hash, "");
      var at := 2 + 3 * |outs|;
      if k >= at + 2 {
        assert t[at..at + 2] == Encode(r)[at..at + 2];
      }
  }

  /** How many records a log cut to `k` bytes still holds in full. */
  function Whole(rs: seq<Record>, k: nat): (n: nat)
    ensures n <= |rs|
    decreases |rs|
  {
    if rs == [] || k < |Encode(rs[0])| then 0 else 1 + Whole(rs[1..], k - |Encode(rs[0])|)
  }

  /** Those records end at or before the cut, and the next one after it. */
  lemma {:induction false} WholeExactly(rs: seq<Record>, k: nat)
    requires k <= |EncodeAll(rs)|
    ensures |EncodeAll(rs[..Whole(rs, k)])| <= k
    ensures Whole(rs, k) < |rs| ==> k < |EncodeAll(rs[..Whole(rs, k) + 1])|
    ensures Whole(rs, k) == |rs| ==> k == |EncodeAll(rs)|
    decreases |rs|
  {
    hide Encode;
    if rs == [] {
      assert rs[..0] == [];
    } else if k < |Encode(rs[0])| {
      assert rs[..0] == [] && rs[..1] == [rs[0]];
      EncodeOne(rs[0]);
    } else {
      var w := Whole(rs[1..], k - |Encode(rs[0])|);
      WholeExactly(rs[1..], k - |Encode(rs[0])|);
      TakeOne(rs, w + 1);
      if w + 2 <= |rs| {
        TakeOne(rs, w + 2);
      }
    }
  }

  lemma TakeOne(rs: seq<Record>, n: nat)
    requires 0 < n <= |rs|
    ensures EncodeAll(rs[..n]) == Encode(rs[0]) + EncodeAll(rs[1..][..n - 1])
  {
    hide Encode;
    assert rs[..n][1..] == rs[1..][..n - 1];
  }

  /** The bytes of the log past its last whole record, when it is cut to `k`. */
  function Spill(rs: seq<Record>, k: nat): nat {
    var n := |EncodeAll(rs[..Whole(rs, k)])|;
    if n <= k then k - n else 0
  }

  /**
   A log cut anywhere is accepted exactly when the cut is at the end of a
   record or one byte past it, and then gives the records before the cut.
   */
  lemma {:induction false} CutLog(rs: seq<Record>, k: nat)
    requires AllFit(rs) && k <= |EncodeAll(rs)|
    ensures ParseAll(EncodeAll(rs)[..k]) == if Spill(rs, k) < 2 then Some(rs[..Whole(rs, k)]) else None
    decreases |rs|
  {
    hide Encode, ParseRecord, Fits;
    WholeExactly(rs, k);
    if rs == [] {
      ParseNothing(EncodeAll(rs)[..k]);
    } else {
      var first, rest := Encode(rs[0]), EncodeAll(rs[1..]);
      var t := (first + rest)[..k];
      if k < |first| {
        assert t == first[..k] && rs[..0] == [];
        if k < 2 {
          ParseNothing(t);
        } else {
          ParseCut(rs[0], k);
        }
      } else {
        CutLater(rs, k);
        CutLog(rs[1..], k - |first|);
      }
    }
  }

  lemma ParseNothing(t: string)
    requires |t| < 2
    ensures ParseAll(t) == Some([])
  {
  }

  /** A cut behind the first record. */
  lemma CutLater(rs: seq<Record>, k: nat)
    requires rs != [] && AllFit(rs) && |Encode(rs[0])| <= k <= |EncodeAll(rs)|
    ensures AllFit(rs[1..]) && Spill(rs, k) == Spill(rs[1..], k - |Encode(rs[0])|)
    ensures rs[..Whole(rs, k)] == [rs[0]] + rs[1..][..Whole(rs[1..], k - |Encode(rs[0])|)]
    ensures var rest := ParseAll(EncodeAll(rs[1..])[..k - |Encode(rs[0])|]);
            ParseAll(EncodeAll(rs)[..k]) == if rest.None? then None else Some([rs[0]] + rest.value)
  {
    hide Encode, ParseRecord, Fits;
    var first, rest := Encode(rs[0]), EncodeAll(rs[1..]);
    var t := EncodeAll(rs)[..k];
    assert forall i | 0 <= i < |rs[1..]| :: rs[1..][i] == rs[i + 1];
    assert t == first + rest[..k - |first|] && t[|first|..] == rest[..k - |first|];
    ParseEncode(rs[0], rest[..k - |first|]);
    TakeOne(rs, Whole(rs, k));
  }

  // ---- Appending to a log that was cut off. ----

  /** What comes behind whole records is read as if it stood alone. */
  lemma {:induction false} ParseAllAfter(rs: seq<Record>, tail: string)
    requires AllFit(rs)
    ensures ParseAll(EncodeAll(rs) + tail) ==
            if ParseAll(tail).None? then None else Some(rs + ParseAll(tail).value)
    decreases |rs|
  {
    hide Encode, ParseRecord, Fits;
    if rs == [] {
      assert EncodeAll(rs) + tail == tail;
      assert forall more: seq<Record> :: rs + more == more;
    } else {
      var first, rest := Encode(rs[0]), EncodeAll(rs[1..]) + tail;
      assert EncodeAll(rs) + tail == first + rest && (first + rest)[|first|..] == rest;
      ParseEncode(rs[0], rest);
      assert forall i | 0 <= i < |rs[1..]| :: rs[1..][i] == rs[i + 1];
      ParseAllAfter(rs[1..], tail);
      assert forall more: seq<Record> :: [rs[0]] + (rs[1..] + more) == rs + more;
    }
  }

  /** A log that is accepted is what the writer would have put down, and at most one byte. */
  lemma {:induction false} ParseAllFits(t: string)
    requires Bytes(t) && ParseAll(t).Some?
    ensures AllFit(ParseAll(t).value)
    ensures var log := EncodeAll(ParseAll(t).value);
            |log| <= |t| < |log| + 2 && t[..|log|] == log
    decreases |t|
  {
    hide Encode, Fits;
    var p := ParseRecord(t);
    if p.Parsed? {
      ParseFits(t);
      ParseAllFits(t[p.size..]);
      var rest := ParseAll(t[p.size..]).value;
      assert ([p.record] + rest)[1..] == rest;
      assert t[..p.size] + t[p.size..][..|EncodeAll(rest)|] == t[..p.size + |EncodeAll(rest)|];
    }
  }

  /** All of `t` is the one byte `c`. */
  ghost predicate RunOf(t: string, c: char) {
    forall i | 0 <= i < |t| :: t[i] == c
  }

  /** A text can be moved by one byte only if all its bytes are that one. */
  lemma ShiftedExactly(t: string, c: char)
    ensures (exists d: char :: [c] + t == t + [d]) <==> RunOf(t, c)
  {
    if d: char :| [c] + t == t + [d] {
      for i := 0 to |t|
        invariant forall j | 0 <= j < i :: t[j] == c
      {
        assert ([c] + t)[i] == (t + [d])[i];
      }
    }
    if RunOf(t, c) {
      assert [c] + t == t + [c];
    }
  }

  /** Records behind one stray byte are read as themselves only if their bytes are a run of it. */
  lemma BehindStrayExactly(stray: char, more: seq<Record>)
    requires AllFit(more) && Bytes([stray]) && Bytes(EncodeAll(more))
    ensures ParseAll([stray] + EncodeAll(more)) == Some(more) <==> RunOf(EncodeAll(more), stray)
  {
    hide EncodeAll, ParseAll;
    var log := EncodeAll(more);
    ShiftedExactly(log, stray);
    if ParseAll([stray] + log) == Some(more) {
      assert forall i | 0 < i <= |log| :: ([stray] + log)[i] == log[i - 1];
      ParseAllFits([stray] + log);
      assert [stray] + log == log + [([stray] + log)[|log|]];
    }
    if d: char :| [stray] + log == log + [d] {
      ParseAllAfter(more, [d]);
      ParseNothing([d]);
      assert more + [] == more;
    }
  }

  /** A cut leaves whole records, and the start of the next one. */
  lemma CutParts(rs: seq<Record>, k: nat)
    requires k <= |EncodeAll(rs)|
    ensures var w := Whole(rs, k);
            var kept := EncodeAll(rs[..w]);
            && |kept| <= k && Spill(rs, k) == k - |kept| <= |EncodeAll(rs[w..])|
            && EncodeAll(rs)[..k] == kept + EncodeAll(rs[w..])[..Spill(rs, k)]
            && (Spill(rs, k) > 0 ==> w < |rs|)
  {
    hide Encode;
    WholeExactly(rs, k);
    var w := Whole(rs, k);
    EncodeAllAppend(rs[..w], rs[w..]);
    assert rs[..w] + rs[w..] == rs;
    if w == |rs| {
      assert rs[..w] == rs;
    }
    assert |EncodeAll(rs[w..])| >= Spill(rs, k);
  }

  /** Every record starts with a byte. */
  lemma FirstByte(rs: seq<Record>)
    requires rs != []
    ensures EncodeAll(rs) != "" && Bytes(EncodeAll(rs)[..1])
  {
    hide LeIds;
    var r := rs[0];
    var n := if r.PathRecord? then |r.name| else MARK + |r.outs| % MARK;
    LeRoundTrip(n, 2);
    assert Encode(r)[..1] == Le(n, 2)[..1] && EncodeAll(rs)[..1] == Encode(r)[..1];
  }

  /**
   What is appended to an accepted log is read back, behind the records the cut
   left whole, if and only if the cut was at the end of a record, or what is
   appended is nothing but copies of the stray byte the cut left behind.
   */
  lemma AppendedExactly(rs: seq<Record>, k: nat, more: seq<Record>)
    requires AllFit(rs) && AllFit(more) && k <= |EncodeAll(rs)| && Bytes(EncodeAll(more)) && Spill(rs, k) < 2
    ensures ParseAll(EncodeAll(rs)[..k] + EncodeAll(more)) == Some(rs[..Whole(rs, k)] + more) <==>
            Spill(rs, k) == 0 || RunOf(EncodeAll(more), EncodeAll(rs)[k - 1])
  {
    hide Encode, Fits, EncodeAll, ParseAll, Whole, Spill, Bytes, RunOf;
    var w, added := Whole(rs, k), EncodeAll(more);
    CutParts(rs, k);
    var kept, spilled := EncodeAll(rs[..w]), EncodeAll(rs[w..])[..Spill(rs, k)];
    assert EncodeAll(rs)[..k] + added == kept + (spilled + added);
    assert AllFit(rs[..w]);
    ParseAllAfter(rs[..w], spilled + added);
    if Spill(rs, k) == 0 {
      assert spilled + added == added;
      ParseAllEncoded(more);
    } else {
      FirstByte(rs[w..]);
      var stray := EncodeAll(rs)[k - 1];
      assert (kept + spilled)[|kept|] == spilled[0];
      assert spilled == [stray];
      assert EncodeAll(rs[w..])[..1] == [stray];
      BehindStrayExactly(stray, more);
      var got := ParseAll(spilled + added);
      if got.Some? && rs[..w] + got.value == rs[..w] + more {
        assert got.value == (rs[..w] + got.value)[w..] == (rs[..w] + more)[w..] == more;
      }
    }
  }

  /** There are such records: the stray byte 1, and a name of 257 characters that are all 1. */
  lemma StrayRunSurvives()
    ensures var more := [PathRecord(seq(257, i => 1 as char))];
            AllFit(more) && RunOf(EncodeAll(more), 1 as char)
  {
    var r := PathRecord(seq(257, i => 1 as char));
    EncodeOne(r);
    assert Le(1, 1) == [1 as char];
    assert Le(257, 2) == [1 as char, 1 as char];
  }

  /** A byte past the last record is not noticed when the log is opened; here it spoils what is appended. */
  lemma StrayByteSpoils()
    ensures var log := EncodeAll([PathRecord("a"), PathRecord("b")]);
            && ParseAll(log[..4]) == Some([PathRecord("a")])
            && ParseAll(log[..4] + Encode(PathRecord("b"))) == None
  {
    var a, b := PathRecord("a"), PathRecord("b");
    var rs := [a, b];
    assert rs[1..] == [b] && rs[..1] == [a];
    EncodeOne(a);
    EncodeOne(b);
    var one := Le(1, 2);
    assert one == [1 as char, 0 as char] by {
      assert Le(0, 1) == [0 as char];
    }
    var log := EncodeAll(rs);
    assert log == one + "a" + one + "b";
    assert Whole(rs[1..], 1) == 0;
    assert Whole(rs, 4) == 1 && Spill(rs, 4) == 1;
    assert AllFit(rs);
    CutLog(rs, 4);
    var spoiled := [1 as char] + Encode(b);
    assert log[..4] + Encode(b) == Encode(a) + spoiled;
    ParseEncode(a, spoiled);
    assert (Encode(a) + spoiled)[|Encode(a)|..] == spoiled;
    assert spoiled[..2] == [1 as char, 1 as char];
    assert LeValue([1 as char, 1 as char]) == 257 by {
      var high := [1 as char];
      assert high[1..] == "" && LeValue(high) == 1;
      assert [1 as char, 1 as char][1..] == high;
    }
    assert ParseRecord(spoiled) == Cut;
  }

  // ---- What the records mean. ----

  /** The names that have ids, in the order of their ids. */
  function PathNames(rs: seq<Record>): (r: seq<string>)
    ensures |r| <= |rs|
  {
    if rs == [] then [] else
    var n := |rs| - 1;
    PathNames(rs[..n]) + (if rs[n].PathRecord? then [rs[n].name] else [])
  }

  ghost predicate Below(ids: seq<Id>, n: nat) {
    forall i | 0 <= i < |ids| :: ids[i] < n
  }

  /** Every id of a build record belongs to an earlier path record. */
  ghost predicate RefsEarlier(rs: seq<Record>) {
    if rs == [] then true else
    var n := |rs| - 1;
    && RefsEarlier(rs[..n])
    && (rs[n].BuildRecord? ==>
          Below(rs[n].outs, |PathNames(rs[..n])|) && Below(rs[n].deps, |PathNames(rs[..n])|))
  }

  /** A finished build, its files given by name. */
  datatype Finish = Finish(outs: seq<string>, deps: seq<string>, hash: nat)

  function NamesOf(names: seq<string>, ids: seq<Id>): (r: seq<string>)
    requires forall i | 0 <= i < |ids| :: ids[i] < |names|
    ensures |r| == |ids| && forall i | 0 <= i < |ids| :: r[i] == names[ids[i]]
  {
    seq(|ids|, i requires 0 <= i < |ids| => names[ids[i]])
  }

  /** The builds a log records, in order. */
  function Finishes(rs: seq<Record>): seq<Finish>
    requires RefsEarlier(rs)
  {
    if rs == [] then [] else
    var n := |rs| - 1;
    var names := PathNames(rs[..n]);
    Finishes(rs[..n]) +
    (match rs[n]
     case PathRecord(_) => []
     case BuildRecord(outs, deps, hash) =>
       assert Below(outs, |names|) && Below(deps, |names|);
       [Finish(NamesOf(names, outs), NamesOf(names, deps), hash)])
  }

  /** Adding a name leaves the builds as they were. */
  lemma PathAppended(rs: seq<Record>, name: string)
    requires RefsEarlier(rs)
    ensures PathNames(rs + [PathRecord(name)]) == PathNames(rs) + [name]
    ensures RefsEarlier(rs + [PathRecord(name)]) && Finishes(rs + [PathRecord(name)]) == Finishes(rs)
  {
    assert (rs + [PathRecord(name)])[..|rs|] == rs;
  }

  lemma BuildAppended(rs: seq<Record>, outs: seq<Id>, deps: seq<Id>, hash: nat)
    requires RefsEarlier(rs) && Below(outs, |PathNames(rs)|) && Below(deps, |PathNames(rs)|)
    ensures PathNames(rs + [BuildRecord(outs, deps, hash)]) == PathNames(rs)
    ensures RefsEarlier(rs + [BuildRecord(outs, deps, hash)])
    ensures Finishes(rs + [BuildRecord(outs, deps, hash)])
         == Finishes(rs) + [Finish(NamesOf(PathNames(rs), outs), NamesOf(PathNames(rs), deps), hash)]
  {
    assert (rs + [BuildRecord(outs, deps, hash)])[..|rs|] == rs;
  }

  // ---- Whose build it was. ----

  /** The position of the first output that is not made by the same build as output 0, if any. */
  function FirstOther(makers: seq<Option<BuildId>>): (r: Option<nat>)
    requires makers != []
    ensures r.Some? ==> 0 < r.value < |makers| && makers[r.value] != makers[0]
    ensures forall k | 0 <= k < (if r.Some? then r.value else |makers|) :: makers[k] == makers[0]
  {
    OtherFrom(makers, 1)
  }

  function OtherFrom(makers: seq<Option<BuildId>>, i: nat): (r: Option<nat>)
    requires 0 < i <= |makers|
    ensures r.Some? ==> i <= r.value < |makers| && makers[r.value] != makers[0]
    ensures forall k | i <= k < (if r.Some? then r.value else |makers|) :: makers[k] == makers[0]
    decreases |makers| - i
  {
    if i == |makers| then None
    else if makers[i] != makers[0] then Some(i)
    else OtherFrom(makers, i + 1)
  }

  /**
   The build a record counts for: the one that makes its first output, unless
   the first output that has another maker has a maker at all.
   */
  function Owner(makers: seq<Option<BuildId>>): Option<BuildId> {
    if makers == [] || makers[0].None? then None
    else if FirstOther(makers).Some? && makers[FirstOther(makers).value].Some? then None
    else makers[0]
  }

  /** In an unchanged graph a record counts for the build that wrote it. */
  lemma OwnerUnchanged(makers: seq<Option<BuildId>>, b: BuildId)
    requires makers != [] && forall k | 0 <= k < |makers| :: makers[k] == Some(b)
    ensures Owner(makers) == Some(b)
  {
  }

  /** `b` makes one of the outputs, and nothing else makes any of them. */
  ghost predicate OnlyMaker(makers: seq<Option<BuildId>>, b: BuildId) {
    Some(b) in makers && forall m | m in makers :: m == Some(b) || m == None
  }

  /** The outputs before the first that nothing makes. */
  function MadeFirst(makers: seq<Option<BuildId>>): (r: seq<Option<BuildId>>)
    ensures r <= makers && None !in r && (|r| < |makers| ==> makers[|r|] == None)
  {
    if makers == [] || makers[0].None? then [] else [makers[0]] + MadeFirst(makers[1..])
  }

  /**
   A record is meant to count for the one build that still makes any of its
   outputs, and for none when there are two such. What the code asks is whether
   this is so of the outputs before the first that nothing makes any more. The
   two differ exactly when another build comes behind that output, or when it
   comes first.
   */
  lemma OwnerExactly(makers: seq<Option<BuildId>>, b: BuildId)
    ensures Owner(makers) == Some(b) <==> OnlyMaker(MadeFirst(makers), b)
    ensures var made := MadeFirst(makers);
            (Owner(makers) == Some(b) <==> OnlyMaker(makers, b)) <==>
            !(OnlyMaker(made, b) && OtherIn(makers[|made|..], b)) && !(made == [] && OnlyMaker(makers, b))
  {
    hide Owner, MadeFirst, OnlyMaker;
    OwnerReads(makers, b);
    OnlyMakerSplit(MadeFirst(makers), makers[|MadeFirst(makers)|..], b);
    assert makers == MadeFirst(makers) + makers[|MadeFirst(makers)|..];
  }

  ghost predicate OtherIn(makers: seq<Option<BuildId>>, b: BuildId) {
    exists m :: m in makers && m != None && m != Some(b)
  }

  lemma OnlyMakerSplit(made: seq<Option<BuildId>>, rest: seq<Option<BuildId>>, b: BuildId)
    requires None !in made
    ensures OnlyMaker(made, b) && OtherIn(rest, b) ==> !OnlyMaker(made + rest, b)
    ensures OnlyMaker(made, b) && !OtherIn(rest, b) ==> OnlyMaker(made + rest, b)
    ensures !OnlyMaker(made, b) && made != [] ==> !OnlyMaker(made + rest, b)
    ensures !OnlyMaker([], b)
  {
    assert forall m :: m in made + rest <==> m in made || m in rest;
    if made != [] {
      assert made[0] in made;
    }
  }

  /** The code judges by the outputs before the first that nothing makes. */
  lemma OwnerReads(makers: seq<Option<BuildId>>, b: BuildId)
    ensures Owner(makers) == Some(b) <==> OnlyMaker(MadeFirst(makers), b)
  {
    hide MadeFirst, FirstOther;
    if makers != [] {
      FirstMade(makers);
      var made, other := MadeFirst(makers), FirstOther(makers);
      assert forall k | 0 <= k < |made| :: makers[k] == made[k] && made[k] in made;
      if Owner(makers) == Some(b) {
        assert forall k | 0 <= k < |made| :: made[k] == Some(b);
      }
    }
  }

  lemma FirstMade(makers: seq<Option<BuildId>>)
    requires makers != []
    ensures MadeFirst(makers) == [] <==> makers[0] == None
  {
  }

  /** An output that nothing makes hides another maker behind it, and the only maker when it comes first. */
  lemma OwnerMistaken()
    ensures Owner([Some(0), None, Some(1)]) == Some(0) && forall b :: !OnlyMaker([Some(0), None, Some(1)], b)
    ensures Owner([None, Some(0)]) == None && OnlyMaker([None, Some(0)], 0)
  {
    var makers: seq<Option<BuildId>> := [Some(0), None, Some(1)];
    assert FirstOther(makers) == Some(1);
    assert makers[0] in makers && makers[2] in makers;
    var late: seq<Option<BuildId>> := [None, Some(0)];
    assert late[1] in late;
  }

  /** The last of `fs` that counts for `b`. */
  function LastFor(fs: seq<Finish>, maker: string -> Option<BuildId>, b: BuildId): (r: Option<Finish>)
    ensures r.Some? ==> r.value in fs
  {
    if fs == [] then None else
    var n := |fs| - 1;
    if Owner(Makers(maker, fs[n].outs)) == Some(b) then Some(fs[n]) else LastFor(fs[..n], maker, b)
  }

  function Makers(maker: string -> Option<BuildId>, outs: seq<string>): (r: seq<Option<BuildId>>)
    ensures |r| == |outs| && forall i | 0 <= i < |outs| :: r[i] == maker(outs[i])
  {
    seq(|outs|, i requires 0 <= i < |outs| => maker(outs[i]))
  }

  /** The owner as it is found one output after the other, and whether the search has stopped. */
  function Scan(makers: seq<Option<BuildId>>): (Option<BuildId>, bool) {
    if makers == [] then (None, false) else
    var n := |makers| - 1;
    ScanStep(Scan(makers[..n]), makers[n])
  }

  function ScanStep(so: (Option<BuildId>, bool), maker: Option<BuildId>): (Option<BuildId>, bool) {
    if so.1 then so
    else if maker.None? then (so.0, true)
    else if so.0.None? || so.0 == maker then (maker, false)
    else (None, true)
  }

  lemma {:induction false} ScanFindsOwner(makers: seq<Option<BuildId>>)
    ensures Scan(makers).0 == Owner(makers)
    ensures Scan(makers).1 <==> makers != [] && (makers[0].None? || FirstOther(makers).Some?)
    decreases |makers|
  {
    if makers != [] {
      var n := |makers| - 1;
      ScanFindsOwner(makers[..n]);
      if n > 0 {
        FirstOtherSnoc(makers);
      }
    }
  }

  lemma FirstOtherSnoc(makers: seq<Option<BuildId>>)
    requires |makers| > 1
    ensures var n := |makers| - 1;
            FirstOther(makers) ==
            if FirstOther(makers[..n]).Some? then FirstOther(makers[..n])
            else if makers[n] != makers[0] then Some(n)
            else None
  {
    var n := |makers| - 1;
    var short := FirstOther(makers[..n]);
    var long := FirstOther(makers);
    assert forall k | 0 <= k < n :: makers[..n][k] == makers[k];
    if short.Some? {
      assert makers[short.value] != makers[0];
    }
  }
}
