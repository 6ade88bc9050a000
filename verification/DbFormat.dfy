/**
 The bytes of the build log: little-endian numbers, and one record for each
 file name and for each finished build. A byte is a character below 256.
 */
module DbFormat {
  import opened Wrappers

  type Id = nat

  // ---- Numbers. ----

  /** How many numbers fit in `width` bytes. */
  function Limit(width: nat): (n: nat)
    ensures n > 0
  {
    if width == 0 then 1 else 256 * Limit(width - 1)
  }

  lemma Limits()
    ensures Limit(2) == 0x1_0000 && Limit(3) == 0x100_0000 && Limit(8) == 0x1_0000_0000_0000_0000
  {
    assert Limit(4) == 256 * Limit(3) && Limit(5) == 256 * Limit(4);
    assert Limit(6) == 256 * Limit(5) && Limit(7) == 256 * Limit(6) && Limit(8) == 256 * Limit(7);
  }

  /** The low `width` bytes of `n`, lowest first. */
  function Le(n: nat, width: nat): (r: string)
    ensures |r| == width
  {
    if width == 0 then "" else [(n % 256) as char] + Le(n / 256, width - 1)
  }

  function LeValue(s: string): nat {
    if s == "" then 0 else s[0] as int + 256 * LeValue(s[1..])
  }

  predicate Bytes(s: string) {
    forall i | 0 <= i < |s| :: s[i] as int < 256
  }

  /** Writing keeps the value exactly when it fits. */
  lemma {:induction false} LeRoundTrip(n: nat, width: nat)
    ensures LeValue(Le(n, width)) < Limit(width) && Bytes(Le(n, width))
    ensures LeValue(Le(n, width)) == n <==> n < Limit(width)
  {
    if width > 0 {
      LeRoundTrip(n / 256, width - 1);
      assert Le(n, width)[1..] == Le(n / 256, width - 1);
    }
  }

  lemma {:induction false} LeInverse(s: string)
    requires Bytes(s)
    ensures LeValue(s) < Limit(|s|) && Le(LeValue(s), |s|) == s
  {
    if s != "" {
      LeInverse(s[1..]);
      var n := LeValue(s);
      assert n % 256 == s[0] as int && n / 256 == LeValue(s[1..]);
      assert s == [s[0]] + s[1..];
    }
  }

  // ---- Ids. ----

  function LeIds(ids: seq<Id>): (r: string)
    ensures |r| == 3 * |ids|
  {
    if ids == [] then "" else Le(ids[0], 3) + LeIds(ids[1..])
  }

  function ReadIds(t: string, n: nat): (r: seq<Id>)
    requires 3 * n <= |t|
    ensures |r| == n
    decreases n
  {
    if n == 0 then [] else [LeValue(t[..3])] + ReadIds(t[3..], n - 1)
  }

  ghost predicate SmallIds(ids: seq<Id>) {
    forall i | 0 <= i < |ids| :: ids[i] < Limit(3)
  }

  lemma {:induction false} ReadIdsRoundTrip(ids: seq<Id>, rest: string)
    requires SmallIds(ids)
    ensures ReadIds(LeIds(ids) + rest, |ids|) == ids
    decreases |ids|
  {
    hide Le, LeValue, Limit;
    if ids != [] {
      var t := LeIds(ids) + rest;
      FirstId(ids, rest);
      LeRoundTrip(ids[0], 3);
      assert SmallIds(ids[1..]);
      ReadIdsRoundTrip(ids[1..], rest);
    }
  }

  lemma FirstId(ids: seq<Id>, rest: string)
    requires ids != []
    ensures (LeIds(ids) + rest)[..3] == Le(ids[0], 3) && (LeIds(ids) + rest)[3..] == LeIds(ids[1..]) + rest
  {
    hide Le;
    assert LeIds(ids) + rest == Le(ids[0], 3) + (LeIds(ids[1..]) + rest);
  }

  lemma {:induction false} ReadIdsInverse(t: string, n: nat)
    requires 3 * n <= |t| && Bytes(t)
    ensures SmallIds(ReadIds(t, n)) && LeIds(ReadIds(t, n)) == t[..3 * n]
    decreases n
  {
    if n > 0 {
      LeInverse(t[..3]);
      ReadIdsInverse(t[3..], n - 1);
      assert ReadIds(t, n)[1..] == ReadIds(t[3..], n - 1);
      assert t[..3 * n] == t[..3] + t[3..][..3 * (n - 1)];
    }
  }

  // ---- Records. ----

  /** A file name, which takes the next id; or a finished build, its files given by their ids. */
  datatype Record = PathRecord(name: string) | BuildRecord(outs: seq<Id>, deps: seq<Id>, hash: nat)

  const MARK: nat := 0x8000

  /** What the writer puts down: lengths are cut to 15 and 16 bits, ids to 24. */
  function Encode(r: Record): string {
    match r
    case PathRecord(name) => Le(|name|, 2) + name
    case BuildRecord(outs, deps, hash) =>
      Le(MARK + |outs| % MARK, 2) + LeIds(outs) + Le(|deps|, 2) + LeIds(deps) + Le(hash, 8)
  }

  /** Two records byte by byte: the name "a", and the build of file 0 from file 1 with hash 0x102. */
  lemma BytesOfRecords()
    ensures Encode(PathRecord("a")) == [1 as char, 0 as char, 'a']
    ensures Encode(BuildRecord([0], [1], 0x102))
         == [1 as char, 128 as char] + [0 as char, 0 as char, 0 as char]
            + [1 as char, 0 as char] + [1 as char, 0 as char, 0 as char]
            + [2 as char, 1 as char, 0 as char, 0 as char, 0 as char, 0 as char, 0 as char, 0 as char]
  {
    hide Le;
    SmallNumbers();
    assert LeIds([0]) == Le(0, 3) + LeIds([]) && LeIds([1]) == Le(1, 3) + LeIds([]);
  }

  lemma SmallNumbers()
    ensures Le(0, 3) == [0 as char, 0 as char, 0 as char] && Le(1, 3) == [1 as char, 0 as char, 0 as char]
    ensures Le(1, 2) == [1 as char, 0 as char] && Le(MARK + 1, 2) == [1 as char, 128 as char]
    ensures Le(0x102, 8) == [2 as char, 1 as char, 0 as char, 0 as char, 0 as char, 0 as char, 0 as char, 0 as char]
  {
    var zero := 0 as char;
    assert Le(0, 1) == [zero] && Le(0, 2) == [zero] + Le(0, 1) && Le(0, 3) == [zero] + Le(0, 2) && Le(0, 4) == [zero] + Le(0, 3);
    assert Le(0, 5) == [zero] + Le(0, 4) && Le(0, 6) == [zero] + Le(0, 5);
    assert Le(0x102, 8) == [2 as char] + Le(1, 7) && Le(1, 7) == [1 as char] + Le(0, 6);
    assert Le(1, 3) == [1 as char] + Le(0, 2) && Le(1, 2) == [1 as char] + Le(0, 1);
    assert Le(MARK + 1, 2) == [1 as char] + Le(128, 1) && Le(128, 1) == [128 as char] + Le(0, 0);
  }

  /** The records that survive being written. */
  ghost predicate Fits(r: Record) {
    match r
    case PathRecord(name) => |name| < MARK
    case BuildRecord(outs, deps, hash) =>
      |outs| < MARK && |deps| < Limit(2) && SmallIds(outs) && SmallIds(deps) && hash < Limit(8)
  }

  /** One record at the start of `t`: there is none, it is cut off, or it is there. */
  datatype Parse = NoMore | Cut | Parsed(record: Record, size: nat)

  function ParseRecord(t: string): (p: Parse)
    ensures p.Parsed? ==> 2 <= p.size <= |t|
  {
    if |t| < 2 then NoMore
    else
      var len := LeValue(t[..2]);
      if len < MARK then
        if |t| < 2 + len then Cut else Parsed(PathRecord(t[2..2 + len]), 2 + len)
      else
        ParseBuild(t, len - MARK)
  }

  /** A build record with `n` outputs. */
  function ParseBuild(t: string, n: nat): (p: Parse)
    requires |t| >= 2
    ensures !p.NoMore? && (p.Parsed? ==> 2 <= p.size <= |t|)
  {
    var at := 2 + 3 * n;
    if |t| < at + 2 then Cut
    else
      var m := LeValue(t[at..at + 2]);
      var end := at + 2 + 3 * m;
      if |t| < end + 8 then Cut
      else Parsed(BuildRecord(ReadIds(t[2..at], n), ReadIds(t[at + 2..end], m), LeValue(t[end..end + 8])), end + 8)
  }

  lemma LastPart(t: string, u: string, v: string)
    requires u + v <= t
    ensures |u| + |v| <= |t| && t[|u|..|u| + |v|] == v && u <= t
  {
    assert t[..|u + v|] == u + v;
    assert t[..|u|] == (u + v)[..|u|] == u;
    assert t[|u|..|u| + |v|] == (u + v)[|u|..];
  }

  lemma FiveParts(a: string, b: string, c: string, d: string, e: string, rest: string)
    ensures var t := a + b + c + d + e + rest;
            var b0, c0 := |a|, |a| + |b|;
            var d0, e0 := c0 + |c|, c0 + |c| + |d|;
            && t[..b0] == a && t[b0..c0] == b && t[c0..d0] == c && t[d0..e0] == d && t[e0..e0 + |e|] == e
  {
    var t := a + b + c + d + e + rest;
    LastPart(t, a + b + c + d, e);
    LastPart(t, a + b + c, d);
    LastPart(t, a + b, c);
    LastPart(t, a, b);
  }

  lemma PathParts(name: string, rest: string)
    ensures var t := Encode(PathRecord(name)) + rest;
            t[..2] == Le(|name|, 2) && t[2..2 + |name|] == name && |t| == 2 + |name| + |rest|
  {
    hide Le;
    FiveParts(Le(|name|, 2), name, "", "", "", rest);
    assert Le(|name|, 2) + name + "" + "" + "" == Le(|name|, 2) + name;
  }

  lemma BuildParts(outs: seq<Id>, deps: seq<Id>, hash: nat, rest: string)
    requires |outs| < MARK
    ensures var t := Encode(BuildRecord(outs, deps, hash)) + rest;
            var at := 2 + 3 * |outs|;
            var end := at + 2 + 3 * |deps|;
            && |t| == end + 8 + |rest|
            && t[..2] == Le(MARK + |outs|, 2) && t[2..at] == LeIds(outs) && t[at..at + 2] == Le(|deps|, 2)
            && t[at + 2..end] == LeIds(deps) && t[end..end + 8] == Le(hash, 8)
  {
    hide Le, LeIds;
    FiveParts(Le(MARK + |outs|, 2), LeIds(outs), Le(|deps|, 2), LeIds(deps), Le(hash, 8), rest);
  }

  /** A record that fits is read back, whatever follows it. */
  lemma ParseEncode(r: Record, rest: string)
    requires Fits(r)
    ensures ParseRecord(Encode(r) + rest) == Parsed(r, |Encode(r)|)
  {
    hide Le, LeIds, LeValue, Limit, ReadIds, SmallIds, Encode;
    Limits();
    match r
    case PathRecord(name) =>
      LeRoundTrip(|name|, 2);
      PathParts(name, rest);
    case BuildRecord(outs, deps, hash) =>
      LeRoundTrip(MARK + |outs|, 2);
      LeRoundTrip(|deps|, 2);
      LeRoundTrip(hash, 8);
      BuildParts(outs, deps, hash, rest);
      ReadIdsRoundTrip(outs, "");
      ReadIdsRoundTrip(deps, "");
      assert LeIds(outs) + "" == LeIds(outs) && LeIds(deps) + "" == LeIds(deps);
  }

  /** What is read fits, and is what the writer would have put down. */
  lemma ParseFits(t: string)
    requires Bytes(t) && ParseRecord(t).Parsed?
    ensures Fits(ParseRecord(t).record) && Encode(ParseRecord(t).record) == t[..ParseRecord(t).size]
  {
    hide Le, LeIds, LeValue, Limit, ReadIds, SmallIds;
    Limits();
    LeInverse(t[..2]);
    var len := LeValue(t[..2]);
    if len < MARK {
      assert t[..2 + len] == t[..2] + t[2..2 + len];
    } else {
      ParseBuildFits(t, len - MARK);
    }
  }

  lemma ParseBuildFits(t: string, n: nat)
    requires Bytes(t) && |t| >= 2 && n < MARK && t[..2] == Le(MARK + n, 2) && ParseBuild(t, n).Parsed?
    ensures Fits(ParseBuild(t, n).record) && Encode(ParseBuild(t, n).record) == t[..ParseBuild(t, n).size]
  {
    hide Le, LeIds, LeValue, Limit, ReadIds, SmallIds;
    Limits();
    var at := 2 + 3 * n;
    LeInverse(t[at..at + 2]);
    var m := LeValue(t[at..at + 2]);
    var end := at + 2 + 3 * m;
    LeInverse(t[end..end + 8]);
    ReadIdsInverse(t[2..at], n);
    ReadIdsInverse(t[at + 2..end], m);
    assert t[2..at][..3 * n] == t[2..at] && t[at + 2..end][..3 * m] == t[at + 2..end];
    Glue(t, 2, at);
    Glue(t, at, at + 2);
    Glue(t, at + 2, end);
    Glue(t, end, end + 8);
  }

  lemma Glue(t: string, i: nat, j: nat)
    requires i <= j <= |t|
    ensures t[..j] == t[..i] + t[i..j]
  {
  }

  /**
   A record is read back exactly when it fits. The writer lets an id of 2^24
   through, and does not check the number of outputs or of inputs.
   */
  lemma ReadBackExactly(r: Record)
    requires r.PathRecord? ==> Bytes(r.name)
    ensures ParseRecord(Encode(r)) == Parsed(r, |Encode(r)|) <==> Fits(r)
  {
    EncodeBytes(r);
    if Fits(r) {
      ParseEncode(r, "");
      assert Encode(r) + "" == Encode(r);
    } else if ParseRecord(Encode(r)) == Parsed(r, |Encode(r)|) {
      ParseFits(Encode(r));
    }
  }

  lemma EncodeBytes(r: Record)
    requires r.PathRecord? ==> Bytes(r.name)
    ensures Bytes(Encode(r))
  {
    match r
    case PathRecord(name) => LeRoundTrip(|name|, 2);
    case BuildRecord(outs, deps, hash) =>
      LeRoundTrip(MARK + |outs| % MARK, 2);
      LeRoundTrip(|deps|, 2);
      LeRoundTrip(hash, 8);
      LeIdsBytes(outs);
      LeIdsBytes(deps);
  }

  lemma {:induction false} LeIdsBytes(ids: seq<Id>)
    ensures Bytes(LeIds(ids))
    decreases |ids|
  {
    if ids != [] {
      LeRoundTrip(ids[0], 3);
      LeIdsBytes(ids[1..]);
    }
  }

  /** The largest id that is not refused is written as 0. */
  lemma LargestIdWraps()
    ensures Encode(BuildRecord([Limit(3)], [], 0)) == Encode(BuildRecord([0], [], 0))
  {
    assert Le(Limit(3), 3) == Le(0, 3);
    assert LeIds([Limit(3)]) == LeIds([0]);
  }
}
