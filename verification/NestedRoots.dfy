/**
 Moving a text from one pair of directories to another when one directory is
 inside the other: the inner one is set aside under a placeholder first.
 */
module NestedRoots {

  /** `pat` is at the start of `t`. */
  predicate Starts(t: string, pat: string) {
    pat <= t
  }

  /** Every occurrence of `pat` from left to right, none overlapping another, becomes `put`. */
  function Replace(t: string, pat: string, put: string): string
    requires pat != ""
    decreases |t|
  {
    if t == "" then ""
    else if Starts(t, pat) then put + Replace(t[|pat|..], pat, put)
    else [t[0]] + Replace(t[1..], pat, put)
  }

  /** The stretches between the occurrences of `pat`. */
  function Split(t: string, pat: string): (r: seq<string>)
    requires pat != ""
    ensures r != []
    decreases |t|
  {
    if t == "" then [""]
    else if Starts(t, pat) then [""] + Split(t[|pat|..], pat)
    else
      var rest := Split(t[1..], pat);
      [[t[0]] + rest[0]] + rest[1..]
  }

  function Join(sep: string, pieces: seq<string>): string
    requires pieces != []
  {
    if |pieces| == 1 then pieces[0] else pieces[0] + sep + Join(sep, pieces[1..])
  }

  /** `Replace` in each piece. */
  function ReplaceEach(pieces: seq<string>, pat: string, put: string): (r: seq<string>)
    requires pat != ""
    ensures |r| == |pieces| && forall k | 0 <= k < |r| :: r[k] == Replace(pieces[k], pat, put)
  {
    seq(|pieces|, k requires 0 <= k < |pieces| => Replace(pieces[k], pat, put))
  }

  const NUL: char := '\0'
  const HOLD: string := "\0NN_BINDIR\0"

  /** Replaces the binary directory and the source directory in one go, put way of the placeholder. */
  function RewriteNestedRoots(text: string, binDir: string, srcDir: string, newBin: string, newSrc: string): string
    requires binDir != "" && srcDir != ""
  {
    Replace(Replace(Replace(text, binDir, HOLD), srcDir, newSrc), HOLD, newBin)
  }

  /** Replacing is splitting and joining again. */
  lemma {:induction false} ReplaceJoins(t: string, pat: string, put: string)
    requires pat != ""
    ensures Replace(t, pat, put) == Join(put, Split(t, pat))
    decreases |t|
  {
    if t == "" {
    } else if Starts(t, pat) {
      var rest := Split(t[|pat|..], pat);
      ReplaceJoins(t[|pat|..], pat, put);
      assert ([""] + rest)[1..] == rest;
      assert "" + put == put;
    } else {
      var rest := Split(t[1..], pat);
      ReplaceJoins(t[1..], pat, put);
      JoinHead(put, [t[0]], rest);
    }
  }

  /** The pattern does not begin in `piece`, even if it is let to reach into `after`. */
  ghost predicate Clear(piece: string, after: string, pat: string) {
    forall i | 0 <= i < |piece| :: !StartsAt(piece + after, i, pat)
  }

  predicate StartsAt(t: string, i: nat, pat: string) {
    i <= |t| && Starts(t[i..], pat)
  }

  /** No piece holds the pattern, nor does one begin in a piece and reach into the next separator. */
  ghost predicate FirstFound(pieces: seq<string>, pat: string) {
    forall k | 0 <= k < |pieces| :: Clear(pieces[k], if k + 1 < |pieces| then pat else "", pat)
  }

  /** The pieces, joined by the pattern, are the text, which was cut at the first place each time. */
  lemma {:induction false} SplitExactly(t: string, pat: string)
    requires pat != ""
    ensures Join(pat, Split(t, pat)) == t && FirstFound(Split(t, pat), pat)
    decreases |t|
  {
    if t == "" {
    } else if Starts(t, pat) {
      var rest := Split(t[|pat|..], pat);
      SplitExactly(t[|pat|..], pat);
      assert ([""] + rest)[1..] == rest;
      assert "" + pat + t[|pat|..] == t;
      FoundPushed("", rest, pat);
    } else {
      var rest := Split(t[1..], pat);
      SplitExactly(t[1..], pat);
      JoinHead(pat, [t[0]], rest);
      assert [t[0]] + t[1..] == t;
      FoundLonger(t, rest, pat);
    }
  }

  lemma FoundPushed(piece: string, rest: seq<string>, pat: string)
    requires piece == "" && rest != [] && FirstFound(rest, pat)
    ensures FirstFound([piece] + rest, pat)
  {
    hide StartsAt;
    var pieces := [piece] + rest;
    forall k | 0 <= k < |pieces|
      ensures Clear(pieces[k], if k + 1 < |pieces| then pat else "", pat)
    {
      if k > 0 {
        assert pieces[k] == rest[k - 1];
      }
    }
  }

  lemma FoundLonger(t: string, rest: seq<string>, pat: string)
    requires t != "" && pat != "" && rest != [] && t[1..] == Join(pat, rest) && !Starts(t, pat) && FirstFound(rest, pat)
    ensures FirstFound([[t[0]] + rest[0]] + rest[1..], pat)
  {
    var pieces := [[t[0]] + rest[0]] + rest[1..];
    var after := if |rest| > 1 then pat else "";
    assert rest[0] + after <= t[1..] by {
      if |rest| > 1 {
        assert rest[0] + pat + Join(pat, rest[1..]) == t[1..];
      } else {
        assert rest[0] + "" == rest[0];
      }
    }
    LongerClear(t, rest[0], after, pat);
    hide Clear;
    forall k | 0 <= k < |pieces|
      ensures Clear(pieces[k], if k + 1 < |pieces| then pat else "", pat)
    {
      if k > 0 {
        assert pieces[k] == rest[k];
      }
    }
  }

  lemma LongerClear(t: string, piece: string, after: string, pat: string)
    requires t != "" && piece + after <= t[1..] && !Starts(t, pat) && Clear(piece, after, pat)
    ensures Clear([t[0]] + piece, after, pat)
  {
    var longer := [t[0]] + piece + after;
    assert longer == [t[0]] + (piece + after);
    assert [t[0]] + t[1..] == t && longer <= t;
    forall i | 0 <= i < |[t[0]] + piece|
      ensures !StartsAt(longer, i, pat)
    {
      if i == 0 {
        assert longer[0..] == longer;
      } else {
        assert longer[i..] == (piece + after)[i - 1..];
        assert !StartsAt(piece + after, i - 1, pat);
      }
    }
  }

  lemma JoinHead(sep: string, c: string, pieces: seq<string>)
    requires pieces != []
    ensures Join(sep, [c + pieces[0]] + pieces[1..]) == c + Join(sep, pieces)
  {
    var longer := [c + pieces[0]] + pieces[1..];
    assert longer[1..] == pieces[1..];
    if |pieces| > 1 {
      assert c + (pieces[0] + sep + Join(sep, pieces[1..])) == c + pieces[0] + sep + Join(sep, pieces[1..]);
    }
  }

  ghost predicate NoNul(t: string) {
    NUL !in t
  }

  /** The stretches of a text hold no character the text does not hold. */
  lemma {:induction false} SplitNoNul(t: string, pat: string)
    requires pat != "" && NoNul(t)
    ensures forall k | 0 <= k < |Split(t, pat)| :: NoNul(Split(t, pat)[k])
    decreases |t|
  {
    if t == "" {
    } else if Starts(t, pat) {
      SplitNoNul(t[|pat|..], pat);
    } else {
      SplitNoNul(t[1..], pat);
    }
  }

  /** A pattern without the separator's first character is found only inside the pieces. */
  lemma {:induction false} ReplacePiece(g: string, h: string, rest: string, pat: string, put: string)
    requires pat != "" && NoNul(pat) && (h + rest == "" || (h + rest)[0] == NUL)
    ensures Replace(g + h + rest, pat, put) == Replace(g, pat, put) + Replace(h + rest, pat, put)
    decreases |g|
  {
    var tail := h + rest;
    var after := Replace(tail, pat, put);
    assert g + h + rest == g + tail;
    if g == "" {
      assert g + tail == tail;
      assert "" + after == after;
    } else {
      PieceStarts(g, tail, pat);
      if Starts(g, pat) {
        assert (g + tail)[|pat|..] == g[|pat|..] + tail == g[|pat|..] + h + rest;
        ReplacePiece(g[|pat|..], h, rest, pat, put);
        Associate(put, Replace(g[|pat|..], pat, put), after);
      } else {
        assert (g + tail)[1..] == g[1..] + tail == g[1..] + h + rest && (g + tail)[0] == g[0];
        ReplacePiece(g[1..], h, rest, pat, put);
        Associate([g[0]], Replace(g[1..], pat, put), after);
      }
    }
  }

  lemma Associate(a: string, b: string, c: string)
    ensures a + (b + c) == a + b + c
  {
  }

  lemma PieceStarts(g: string, tail: string, pat: string)
    requires NoNul(pat) && (tail == "" || tail[0] == NUL)
    ensures Starts(g + tail, pat) <==> Starts(g, pat)
  {
    var t := g + tail;
    if |pat| > |g| {
      assert pat[|g|] != NUL;
      assert tail != "" ==> t[|g|] == NUL;
    } else {
      assert t[..|pat|] == g[..|pat|];
    }
  }

  /** A text without a slash holds no pattern that begins with one. */
  lemma {:induction false} ReplacePast(h: string, rest: string, pat: string, put: string)
    requires pat != "" && pat[0] == '/' && '/' !in h
    ensures Replace(h + rest, pat, put) == h + Replace(rest, pat, put)
    decreases |h|
  {
    if h == "" {
      assert h + rest == rest && "" + Replace(rest, pat, put) == Replace(rest, pat, put);
    } else {
      var t := h + rest;
      assert t[0] == h[0] && t[1..] == h[1..] + rest;
      ReplacePast(h[1..], rest, pat, put);
      assert [h[0]] + (h[1..] + Replace(rest, pat, put)) == h + Replace(rest, pat, put);
    }
  }

  lemma HoldHasNoSlash()
    ensures '/' !in HOLD && HOLD[0] == NUL && |HOLD| == 11
  {
  }

  /** Between placeholders the pieces are rewritten one put one. */
  lemma {:induction false} ReplaceBetween(pieces: seq<string>, pat: string, put: string)
    requires pieces != [] && pat != "" && pat[0] == '/' && NoNul(pat)
    requires forall k | 0 <= k < |pieces| :: NoNul(pieces[k])
    ensures Replace(Join(HOLD, pieces), pat, put) == Join(HOLD, ReplaceEach(pieces, pat, put))
    decreases |pieces|
  {
    HoldHasNoSlash();
    var g := pieces[0];
    if |pieces| == 1 {
    } else {
      var rest := pieces[1..];
      ReplaceBetween(rest, pat, put);
      ReplacePiece(g, HOLD, Join(HOLD, rest), pat, put);
      ReplacePast(HOLD, Join(HOLD, rest), pat, put);
      assert ReplaceEach(pieces, pat, put)[1..] == ReplaceEach(rest, pat, put);
      var r := Replace(g, pat, put);
      assert r + (HOLD + Replace(Join(HOLD, rest), pat, put)) == r + HOLD + Replace(Join(HOLD, rest), pat, put);
    }
  }

  lemma {:induction false} ReplaceNothing(g: string, put: string)
    requires NoNul(g)
    ensures Replace(g, HOLD, put) == g
  {
    HoldHasNoSlash();
    if g != "" {
      assert g[0] != HOLD[0];
      ReplaceNothing(g[1..], put);
      assert [g[0]] + g[1..] == g;
    }
  }

  /** The placeholder is found where it was put, and nowhere else. */
  lemma {:induction false} ReplaceHold(g: string, rest: string, put: string)
    requires NoNul(g)
    ensures Replace(g + HOLD + rest, HOLD, put) == g + put + Replace(rest, HOLD, put)
    decreases |g|
  {
    HoldHasNoSlash();
    var t := g + HOLD + rest;
    if g == "" {
      assert t == HOLD + rest;
      assert t[|HOLD|..] == rest && t[..|HOLD|] == HOLD;
      assert "" + put == put;
    } else {
      assert t[0] == g[0] != HOLD[0];
      assert t[1..] == g[1..] + HOLD + rest;
      ReplaceHold(g[1..], rest, put);
      assert [g[0]] + (g[1..] + put + Replace(rest, HOLD, put)) == g + put + Replace(rest, HOLD, put);
    }
  }

  lemma {:induction false} ReplaceHolds(pieces: seq<string>, put: string)
    requires pieces != [] && forall k | 0 <= k < |pieces| :: NoNul(pieces[k])
    ensures Replace(Join(HOLD, pieces), HOLD, put) == Join(put, pieces)
    decreases |pieces|
  {
    if |pieces| == 1 {
      ReplaceNothing(pieces[0], put);
    } else {
      ReplaceHolds(pieces[1..], put);
      ReplaceHold(pieces[0], Join(HOLD, pieces[1..]), put);
    }
  }

  lemma {:induction false} ReplaceNoNul(t: string, pat: string, put: string)
    requires pat != "" && NoNul(t) && NoNul(put)
    ensures NoNul(Replace(t, pat, put))
    decreases |t|
  {
    if t == "" {
    } else if Starts(t, pat) {
      ReplaceNoNul(t[|pat|..], pat, put);
    } else {
      ReplaceNoNul(t[1..], pat, put);
    }
  }

  /**
   The rewriting never touches its own output: the text is cut at the binary
   directory, the source directory is replaced inside the pieces alone, and the
   pieces are joined with the new binary directory, whatever that contains.
   */
  lemma RewriteIsSplit(text: string, binDir: string, srcDir: string, newBin: string, newSrc: string)
    requires binDir != "" && srcDir != "" && srcDir[0] == '/'
    requires NoNul(text) && NoNul(srcDir) && NoNul(newSrc)
    ensures RewriteNestedRoots(text, binDir, srcDir, newBin, newSrc)
         == Join(newBin, ReplaceEach(Split(text, binDir), srcDir, newSrc))
  {
    var pieces := Split(text, binDir);
    ReplaceJoins(text, binDir, HOLD);
    SplitNoNul(text, binDir);
    ReplaceBetween(pieces, srcDir, newSrc);
    var after := ReplaceEach(pieces, srcDir, newSrc);
    forall k | 0 <= k < |after|
      ensures NoNul(after[k])
    {
      ReplaceNoNul(pieces[k], srcDir, newSrc);
    }
    ReplaceHolds(after, newBin);
  }

  // ---- Without the placeholder. ----

  /** A character of a text, or an occurrence of the pattern. */
  datatype Mark = Char(c: char) | Hit

  /** What a replacement sees: the occurrences it finds from left to right, and the characters between. */
  function Marks(t: string, pat: string): seq<Mark>
    requires pat != ""
    decreases |t|
  {
    if t == "" then []
    else if Starts(t, pat) then [Hit] + Marks(t[|pat|..], pat)
    else [Char(t[0])] + Marks(t[1..], pat)
  }

  /** The characters of a text, nothing found. */
  function Chars(t: string): seq<Mark> {
    if t == "" then [] else [Char(t[0])] + Chars(t[1..])
  }

  /** What is seen when only the pieces are looked at. */
  function MarksApart(sep: string, pieces: seq<string>, pat: string): seq<Mark>
    requires pieces != [] && pat != ""
  {
    if |pieces| == 1 then Marks(pieces[0], pat)
    else Marks(pieces[0], pat) + (Chars(sep) + MarksApart(sep, pieces[1..], pat))
  }

  /** The text with `put` for every occurrence. */
  function Spell(ms: seq<Mark>, put: string): string {
    if ms == [] then "" else (match ms[0] case Char(c) => [c] case Hit => put) + Spell(ms[1..], put)
  }

  lemma {:induction false} SpellMarks(t: string, pat: string, put: string)
    requires pat != ""
    ensures Spell(Marks(t, pat), put) == Replace(t, pat, put)
    decreases |t|
  {
    if t == "" {
    } else if Starts(t, pat) {
      SpellMarks(t[|pat|..], pat, put);
      assert Marks(t, pat)[1..] == Marks(t[|pat|..], pat);
    } else {
      SpellMarks(t[1..], pat, put);
      assert Marks(t, pat)[1..] == Marks(t[1..], pat);
    }
  }

  lemma {:induction false} SpellChars(t: string, put: string)
    ensures Spell(Chars(t), put) == t
  {
    if t != "" {
      SpellChars(t[1..], put);
      assert Chars(t)[1..] == Chars(t[1..]);
      assert [t[0]] + t[1..] == t;
    }
  }

  lemma {:induction false} SpellAppend(a: seq<Mark>, b: seq<Mark>, put: string)
    ensures Spell(a + b, put) == Spell(a, put) + Spell(b, put)
    decreases |a|
  {
    if a == [] {
      assert a + b == b;
      assert "" + Spell(b, put) == Spell(b, put);
    } else {
      SpellAppend(a[1..], b, put);
      assert (a + b)[1..] == a[1..] + b && (a + b)[0] == a[0];
      var head := match a[0] case Char(c) => [c] case Hit => put;
      Associate(head, Spell(a[1..], put), Spell(b, put));
    }
  }

  lemma {:induction false} SpellApart(sep: string, pieces: seq<string>, pat: string, put: string)
    requires pieces != [] && pat != ""
    ensures Spell(MarksApart(sep, pieces, pat), put) == Join(sep, ReplaceEach(pieces, pat, put))
    decreases |pieces|
  {
    SpellMarks(pieces[0], pat, put);
    var each := ReplaceEach(pieces, pat, put);
    if |pieces| > 1 {
      var rest := MarksApart(sep, pieces[1..], pat);
      SpellApart(sep, pieces[1..], pat, put);
      assert each[1..] == ReplaceEach(pieces[1..], pat, put);
      SpellAppend(Marks(pieces[0], pat), Chars(sep) + rest, put);
      SpellAppend(Chars(sep), rest, put);
      SpellChars(sep, put);
      Associate(each[0], sep, Join(sep, each[1..]));
    }
  }

  /** `b` is what `a` sees, some occurrences of `pat` left as characters. */
  ghost predicate SeesLess(a: seq<Mark>, b: seq<Mark>, pat: string)
    decreases |a|
  {
    if a == [] then b == []
    else if b != [] && b[0] == a[0] then SeesLess(a[1..], b[1..], pat)
    else a[0].Hit? && Chars(pat) <= b && SeesLess(a[1..], b[|Chars(pat)|..], pat)
  }

  lemma {:induction false} SpellLess(a: seq<Mark>, b: seq<Mark>, pat: string, put: string)
    requires SeesLess(a, b, pat)
    ensures |put| >= |pat| ==> |Spell(a, put)| >= |Spell(b, put)|
    ensures |put| <= |pat| ==> |Spell(a, put)| <= |Spell(b, put)|
    ensures Spell(a, put) == Spell(b, put) <==> put == pat || a == b
    decreases |a|
  {
    if a == [] {
    } else if b != [] && b[0] == a[0] {
      SpellLess(a[1..], b[1..], pat, put);
      assert a == [a[0]] + a[1..] && b == [b[0]] + b[1..];
      var head := match a[0] case Char(c) => [c] case Hit => put;
      SameTail(head, Spell(a[1..], put), Spell(b[1..], put));
    } else {
      var n := |Chars(pat)|;
      SpellLess(a[1..], b[n..], pat, put);
      assert b == Chars(pat) + b[n..];
      SpellAppend(Chars(pat), b[n..], put);
      SpellChars(pat, put);
      OtherHead(put, Spell(a[1..], put), pat, Spell(b[n..], put));
    }
  }

  lemma SameTail(head: string, a: string, b: string)
    ensures head + a == head + b <==> a == b
  {
    if head + a == head + b {
      assert a == (head + a)[|head|..] && b == (head + b)[|head|..];
    }
  }

  lemma OtherHead(put: string, a: string, pat: string, b: string)
    requires |put| >= |pat| ==> |a| >= |b|
    requires |put| <= |pat| ==> |a| <= |b|
    ensures put + a == pat + b ==> put == pat
  {
    if put + a == pat + b {
      assert |put| + |a| == |pat| + |b|;
      assert put == (put + a)[..|put|] && pat == (pat + b)[..|pat|];
    }
  }

  /** No occurrence of `pat` can begin inside another. */
  ghost predicate NoOverlap(pat: string) {
    forall k | 0 < k < |pat| :: pat[k..] != pat[..|pat| - k]
  }

  lemma DifferAt(a: string, b: string) returns (j: nat)
    requires |a| == |b| && a != b
    ensures j < |a| && a[j] != b[j]
  {
    j :| 0 <= j < |a| && a[j] != b[j];
  }

  lemma NotInside(pat: string, k: nat, t: string)
    requires NoOverlap(pat) && 0 < k < |pat|
    ensures !Starts(pat[k..] + t, pat)
  {
    var j := DifferAt(pat[k..], pat[..|pat| - k]);
    assert (pat[k..] + t)[j] == pat[k..][j] != pat[j];
  }

  /** Nothing is found in what is left of an occurrence that began earlier. */
  lemma {:induction false} RestOfHit(pat: string, k: nat, t: string)
    requires NoOverlap(pat) && 0 < k <= |pat|
    ensures Marks(pat[k..] + t, pat) == Chars(pat[k..]) + Marks(t, pat)
    decreases |pat| - k
  {
    hide NoOverlap;
    if k == |pat| {
      assert pat[k..] + t == t && Chars(pat[k..]) == [];
    } else {
      var u := pat[k..] + t;
      NotInside(pat, k, t);
      assert u[0] == pat[k] && u[1..] == pat[k + 1..] + t;
      RestOfHit(pat, k + 1, t);
      assert pat[k..][1..] == pat[k + 1..];
      assert [Char(pat[k])] + (Chars(pat[k + 1..]) + Marks(t, pat)) == [Char(pat[k])] + Chars(pat[k + 1..]) + Marks(t, pat);
    }
  }

  /** Sees one thing more, or spells one occurrence more out. */
  lemma SeesCons(m: Mark, a: seq<Mark>, b: seq<Mark>, pat: string)
    requires SeesLess(a, b, pat)
    ensures SeesLess([m] + a, [m] + b, pat)
  {
    assert ([m] + a)[1..] == a && ([m] + b)[1..] == b;
  }

  lemma SeesSpelled(a: seq<Mark>, b: seq<Mark>, pat: string)
    requires SeesLess(a, b, pat) && pat != ""
    ensures SeesLess([Hit] + a, Chars(pat) + b, pat)
  {
    var c, d := [Hit] + a, Chars(pat) + b;
    assert c[1..] == a && d[|Chars(pat)|..] == b && d[0] == Char(pat[0]);
  }

  lemma InsideStarts(g: string, tail: string, pat: string)
    requires |g| >= |pat|
    ensures Starts(g + tail, pat) <==> Starts(g, pat)
  {
    assert (g + tail)[..|pat|] == g[..|pat|];
  }

  lemma {:induction false} CharsFirst(x: string, a: seq<Mark>, b: seq<Mark>, pat: string)
    requires SeesLess(Chars(x) + a, b, pat)
    ensures Chars(x) <= b && SeesLess(a, b[|Chars(x)|..], pat)
    decreases |x|
  {
    var c := Chars(x) + a;
    if x == "" {
      assert c == a && b[0..] == b;
    } else {
      assert c[1..] == Chars(x[1..]) + a && c[0] == Char(x[0]);
      CharsFirst(x[1..], a, b[1..], pat);
      assert b == [b[0]] + b[1..];
      assert b[1..][|Chars(x[1..])|..] == b[|Chars(x)|..];
    }
  }

  lemma {:induction false} NothingShort(g: string, pat: string)
    requires |g| < |pat|
    ensures Marks(g, pat) == Chars(g)
  {
    if g != "" {
      NothingShort(g[1..], pat);
    }
  }

  lemma {:induction false} CharsAppend(a: string, b: string)
    ensures Chars(a + b) == Chars(a) + Chars(b)
    decreases |a|
  {
    if a == "" {
      assert a + b == b;
    } else {
      assert (a + b)[1..] == a[1..] + b;
      CharsAppend(a[1..], b);
    }
  }

  /** An occurrence that begins in `g` and ends in `tail`. */
  lemma Straddles(g: string, tail: string, v: seq<Mark>, pat: string)
    requires NoOverlap(pat) && 0 < |g| < |pat| && Starts(g + tail, pat) && SeesLess(Marks(tail, pat), v, pat)
    ensures SeesLess(Marks(g + tail, pat), Chars(g) + v, pat)
  {
    hide NoOverlap, SeesLess;
    var t, x, rest := g + tail, tail[..|pat| - |g|], tail[|pat| - |g|..];
    StraddleParts(g, tail, pat);
    RestOfHit(pat, |g|, rest);
    CharsFirst(x, Marks(rest, pat), v, pat);
    var w := v[|Chars(x)|..];
    CharsAppend(g, x);
    assert v == Chars(x) + w && Chars(g) + (Chars(x) + w) == Chars(g) + Chars(x) + w;
    SeesSpelled(Marks(rest, pat), w, pat);
    assert Marks(t, pat) == [Hit] + Marks(t[|pat|..], pat);
  }

  lemma StraddleParts(g: string, tail: string, pat: string)
    requires |g| < |pat| && Starts(g + tail, pat)
    ensures |pat| - |g| <= |tail|
    ensures var m := |pat| - |g|;
            pat == g + tail[..m] && pat[|g|..] == tail[..m] && tail == pat[|g|..] + tail[m..] && (g + tail)[|pat|..] == tail[m..]
  {
    var t, m := g + tail, |pat| - |g|;
    assert t[..|pat|] == pat;
    assert t[..|pat|] == g + tail[..m];
  }

  lemma MarksStep(t: string, pat: string)
    requires t != "" && pat != ""
    ensures Starts(t, pat) ==> Marks(t, pat) == [Hit] + Marks(t[|pat|..], pat)
    ensures !Starts(t, pat) ==> Marks(t, pat) == [Char(t[0])] + Marks(t[1..], pat)
    ensures Chars(t) == [Char(t[0])] + Chars(t[1..])
  {
  }

  lemma JoinedMarks(a: seq<Mark>, b: seq<Mark>, c: seq<Mark>)
    ensures a + (b + c) == a + b + c
  {
  }

  lemma NoMarks(pat: string)
    requires pat != ""
    ensures Marks("", pat) == [] == Chars("")
  {
  }

  /** Looking at the whole text finds what looking at a piece and at the rest finds, and what lies across. */
  lemma {:induction false} PieceSeesLess(g: string, tail: string, v: seq<Mark>, pat: string)
    requires NoOverlap(pat) && pat != "" && SeesLess(Marks(tail, pat), v, pat)
    ensures SeesLess(Marks(g + tail, pat), Marks(g, pat) + v, pat)
    decreases |g|
  {
    hide NoOverlap, SeesLess, Marks, Chars, Starts;
    var t := g + tail;
    if g == "" {
      NoMarks(pat);
      assert t == tail && [] + v == v;
    } else {
      MarksStep(g, pat);
      MarksStep(t, pat);
      if |g| >= |pat| {
        InsideStarts(g, tail, pat);
      }
      if |g| >= |pat| && Starts(g, pat) {
        var rest := g[|pat|..];
        assert t[|pat|..] == rest + tail;
        PieceSeesLess(rest, tail, v, pat);
        SeesCons(Hit, Marks(rest + tail, pat), Marks(rest, pat) + v, pat);
        JoinedMarks([Hit], Marks(rest, pat), v);
      } else if Starts(t, pat) {
        NothingShort(g, pat);
        Straddles(g, tail, v, pat);
      } else {
        ShorterStarts(g, pat);
        assert t[0] == g[0] && t[1..] == g[1..] + tail;
        PieceSeesLess(g[1..], tail, v, pat);
        SeesCons(Char(g[0]), Marks(g[1..] + tail, pat), Marks(g[1..], pat) + v, pat);
        JoinedMarks([Char(g[0])], Marks(g[1..], pat), v);
      }
    }
  }

  lemma ShorterStarts(g: string, pat: string)
    ensures |g| < |pat| ==> !Starts(g, pat)
  {
  }

  /** The same with what lies in `g` left alone. */
  lemma {:induction false} SepSeesLess(g: string, tail: string, v: seq<Mark>, pat: string)
    requires NoOverlap(pat) && pat != "" && SeesLess(Marks(tail, pat), v, pat)
    ensures SeesLess(Marks(g + tail, pat), Chars(g) + v, pat)
    decreases |g|
  {
    hide NoOverlap, SeesLess, Marks, Chars, Starts;
    var t := g + tail;
    if g == "" {
      NoMarks(pat);
      assert t == tail && [] + v == v;
    } else {
      MarksStep(g, pat);
      MarksStep(t, pat);
      if |g| >= |pat| {
        InsideStarts(g, tail, pat);
      }
      if |g| >= |pat| && Starts(g, pat) {
        var rest := g[|pat|..];
        assert t[|pat|..] == rest + tail;
        SepSeesLess(rest, tail, v, pat);
        SeesSpelled(Marks(rest + tail, pat), Chars(rest) + v, pat);
        StartsWith(g, pat);
        CharsAppend(pat, rest);
        JoinedMarks(Chars(pat), Chars(rest), v);
      } else if Starts(t, pat) {
        Straddles(g, tail, v, pat);
      } else {
        assert t[0] == g[0] && t[1..] == g[1..] + tail;
        SepSeesLess(g[1..], tail, v, pat);
        SeesCons(Char(g[0]), Marks(g[1..] + tail, pat), Chars(g[1..]) + v, pat);
        JoinedMarks([Char(g[0])], Chars(g[1..]), v);
      }
    }
  }

  lemma StartsWith(g: string, pat: string)
    requires Starts(g, pat)
    ensures g == pat + g[|pat|..]
  {
  }

  lemma {:induction false} SeesLessRefl(a: seq<Mark>, pat: string)
    ensures SeesLess(a, a, pat)
  {
    if a != [] {
      SeesLessRefl(a[1..], pat);
    }
  }

  lemma {:induction false} ApartSeesLess(sep: string, pieces: seq<string>, pat: string)
    requires NoOverlap(pat) && pieces != [] && pat != ""
    ensures SeesLess(Marks(Join(sep, pieces), pat), MarksApart(sep, pieces, pat), pat)
    decreases |pieces|
  {
    hide NoOverlap, SeesLess, Marks;
    if |pieces| == 1 {
      SeesLessRefl(Marks(pieces[0], pat), pat);
    } else {
      var rest := Join(sep, pieces[1..]);
      ApartSeesLess(sep, pieces[1..], pat);
      SepSeesLess(sep, rest, MarksApart(sep, pieces[1..], pat), pat);
      PieceSeesLess(pieces[0], sep + rest, Chars(sep) + MarksApart(sep, pieces[1..], pat), pat);
      assert pieces[0] + sep + rest == pieces[0] + (sep + rest);
    }
  }

  /** In the text with the new binary directory in place, the source directory is found only inside the pieces. */
  predicate FoundApart(text: string, binDir: string, srcDir: string, newBin: string)
    requires binDir != "" && srcDir != ""
  {
    Marks(Replace(text, binDir, newBin), srcDir) == MarksApart(newBin, Split(text, binDir), srcDir)
  }

  /**
   Replacing one after the other without the placeholder, the second replacement
   runs over what the first put in. That comes out right when the source
   directory is found only inside the pieces of the text, or stays as it is; and
   only then, if the source directory cannot overlap itself, or if the text is the
   binary directory itself.
   */
  lemma TwoReplacesExactly(text: string, binDir: string, srcDir: string, newBin: string, newSrc: string)
    requires binDir != "" && srcDir != "" && srcDir[0] == '/'
    requires NoNul(text) && NoNul(srcDir) && NoNul(newSrc)
    ensures newSrc == srcDir || FoundApart(text, binDir, srcDir, newBin) ==>
              Replace(Replace(text, binDir, newBin), srcDir, newSrc) == RewriteNestedRoots(text, binDir, srcDir, newBin, newSrc)
    ensures NoOverlap(srcDir) || text == binDir ==>
              (Replace(Replace(text, binDir, newBin), srcDir, newSrc) == RewriteNestedRoots(text, binDir, srcDir, newBin, newSrc)
               <==> newSrc == srcDir || FoundApart(text, binDir, srcDir, newBin))
  {
    var pieces := Split(text, binDir);
    var joined := Replace(text, binDir, newBin);
    ReplaceJoins(text, binDir, newBin);
    RewriteIsSplit(text, binDir, srcDir, newBin, newSrc);
    SpellMarks(joined, srcDir, newSrc);
    SpellApart(newBin, pieces, srcDir, newSrc);
    if newSrc == srcDir {
      SpellMarks(joined, srcDir, srcDir);
      ReplaceSelf(joined, srcDir);
      EachSelf(newBin, pieces, srcDir);
    }
    if NoOverlap(srcDir) || text == binDir {
      if NoOverlap(srcDir) {
        ApartSeesLess(newBin, pieces, srcDir);
      } else {
        WholeSeesLess(binDir, srcDir, newBin);
      }
      SpellLess(Marks(joined, srcDir), MarksApart(newBin, pieces, srcDir), srcDir, newSrc);
    }
  }

  lemma {:induction false} CharsSeeLess(t: string, pat: string)
    requires pat != ""
    ensures SeesLess(Marks(t, pat), Chars(t), pat)
    decreases |t|
  {
    hide SeesLess, Marks, Chars, Starts;
    if t == "" {
      NoMarks(pat);
      SeesLessRefl([], pat);
    } else {
      MarksStep(t, pat);
      if Starts(t, pat) {
        StartsWith(t, pat);
        CharsSeeLess(t[|pat|..], pat);
        SeesSpelled(Marks(t[|pat|..], pat), Chars(t[|pat|..]), pat);
        CharsAppend(pat, t[|pat|..]);
      } else {
        CharsSeeLess(t[1..], pat);
        SeesCons(Char(t[0]), Marks(t[1..], pat), Chars(t[1..]), pat);
      }
    }
  }

  lemma ReplaceWhole(pat: string, put: string)
    requires pat != ""
    ensures Replace(pat, pat, put) == put && Split(pat, pat) == ["", ""]
  {
    assert pat[|pat|..] == "";
    assert put + "" == put;
  }

  lemma WholeSeesLess(binDir: string, srcDir: string, newBin: string)
    requires binDir != "" && srcDir != ""
    ensures MarksApart(newBin, Split(binDir, binDir), srcDir) == Chars(newBin)
    ensures SeesLess(Marks(Replace(binDir, binDir, newBin), srcDir), Chars(newBin), srcDir)
  {
    ReplaceWhole(binDir, newBin);
    CharsSeeLess(newBin, srcDir);
    assert ["", ""][1..] == [""];
    assert MarksApart(newBin, [""], srcDir) == [];
    assert [] + (Chars(newBin) + []) == Chars(newBin);
  }

  ghost predicate Occurs(t: string, pat: string) {
    exists i :: 0 <= i <= |t| && Starts(t[i..], pat)
  }

  lemma OccursLater(t: string, pat: string)
    requires t != "" && pat != "" && !Starts(t, pat)
    ensures Occurs(t[1..], pat) <==> Occurs(t, pat)
  {
    if i :| 0 <= i <= |t[1..]| && Starts(t[1..][i..], pat) {
      assert t[1..][i..] == t[i + 1..];
    }
    if i :| 0 <= i <= |t| && Starts(t[i..], pat) {
      assert t[0..] == t;
      assert t[1..][i - 1..] == t[i..];
    }
  }

  /** For the binary directory itself it comes to this: whether the new one holds the source directory. */
  lemma WholeFoundApart(binDir: string, srcDir: string, newBin: string)
    requires binDir != "" && srcDir != ""
    ensures FoundApart(binDir, binDir, srcDir, newBin) <==> !Occurs(newBin, srcDir)
  {
    WholeSeesLess(binDir, srcDir, newBin);
    ReplaceWhole(binDir, newBin);
    NothingFound(newBin, srcDir);
  }

  lemma {:induction false} NothingFound(t: string, pat: string)
    requires pat != ""
    ensures Marks(t, pat) == Chars(t) <==> !Occurs(t, pat)
    decreases |t|
  {
    if t != "" {
      MarksStep(t, pat);
      if Starts(t, pat) {
        assert t[0..] == t;
        assert Marks(t, pat)[0] == Hit;
      } else {
        OccursLater(t, pat);
        NothingFound(t[1..], pat);
        assert Marks(t, pat)[1..] == Marks(t[1..], pat) && Chars(t)[1..] == Chars(t[1..]);
      }
    }
  }

  lemma {:induction false} ReplaceSelf(t: string, pat: string)
    requires pat != ""
    ensures Replace(t, pat, pat) == t
    decreases |t|
  {
    if t == "" {
    } else if Starts(t, pat) {
      ReplaceSelf(t[|pat|..], pat);
      assert t == pat + t[|pat|..];
    } else {
      ReplaceSelf(t[1..], pat);
      assert t == [t[0]] + t[1..];
    }
  }

  lemma EachSelf(sep: string, pieces: seq<string>, pat: string)
    requires pieces != [] && pat != ""
    ensures Join(sep, ReplaceEach(pieces, pat, pat)) == Join(sep, pieces)
  {
    forall k | 0 <= k < |pieces|
      ensures ReplaceEach(pieces, pat, pat)[k] == pieces[k]
    {
      ReplaceSelf(pieces[k], pat);
    }
    assert ReplaceEach(pieces, pat, pat) == pieces;
  }

  /** The new binary directory holds the source directory, which is then replaced a second time. */
  lemma TwoReplacesCorrupt(newSrc: string)
    requires NoNul(newSrc) && newSrc != "/s"
    ensures Replace(Replace("/s/b", "/s/b", "/n/s/b"), "/s", newSrc) != RewriteNestedRoots("/s/b", "/s/b", "/s", "/n/s/b", newSrc)
  {
    hide Marks, FoundApart, Replace, Split, RewriteNestedRoots;
    assert "/n/s/b"[2..] == "/s/b" && "/s/b"[..2] == "/s";
    assert Starts("/n/s/b"[2..], "/s");
    WholeFoundApart("/s/b", "/s", "/n/s/b");
    TwoReplacesExactly("/s/b", "/s/b", "/s", "/n/s/b", newSrc);
  }
}
