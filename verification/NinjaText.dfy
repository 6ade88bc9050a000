/**
 Scanning a ninja file and reading strings from it. Positions are kept within
 the buffer, which ends in a NUL, and lines are counted as they are passed.
 */
module NinjaText {
  import opened EvalStrings
  import opened Wrappers

  predicate Terminated(buf: string) {
    buf != "" && buf[|buf| - 1] == '\0'
  }

  function Newlines(t: string): nat {
    if t == "" then 0 else Newlines(t[..|t| - 1]) + (if t[|t| - 1] == '\n' then 1 else 0)
  }

  lemma NewlinesMore(buf: string, o: nat)
    requires o < |buf|
    ensures Newlines(buf[..o + 1]) == Newlines(buf[..o]) + (if buf[o] == '\n' then 1 else 0)
  {
    assert buf[..o + 1][..o] == buf[..o];
  }

  /** Where going back from `o` leads: over a carriage return too when it goes back over a newline. */
  function BackFrom(buf: string, o: nat): (p: nat)
    requires 0 < o <= |buf|
    ensures p < o && o <= p + 2
  {
    if buf[o - 1] == '\n' && o > 1 && buf[o - 2] == '\r' then o - 2 else o - 1
  }

  class Scanner {
    const buf: string
    var ofs: nat
    var line: nat

    /** The position is in the buffer, and the line is one more than the newlines before it. */
    ghost predicate Valid()
      reads this
    {
      Terminated(buf) && ofs <= |buf| && line == 1 + Newlines(buf[..ofs])
    }

    constructor (buf: string)
      requires Terminated(buf)
      ensures Valid() && this.buf == buf && ofs == 0
    {
      this.buf := buf;
      ofs, line := 0, 1;
    }

    method Peek() returns (c: char)
      requires Valid() && ofs < |buf|
      ensures c == buf[ofs]
    {
      c := buf[ofs];
    }

    method Read() returns (c: char)
      requires Valid() && ofs < |buf|
      modifies this
      ensures Valid() && ofs == old(ofs) + 1 && c == buf[old(ofs)]
    {
      NewlinesMore(buf, ofs);
      c := buf[ofs];
      if c == '\n' {
        line := line + 1;
      }
      ofs := ofs + 1;
    }

    method Back()
      requires Valid() && ofs > 0
      modifies this
      ensures Valid() && ofs == BackFrom(buf, old(ofs))
    {
      NewlinesMore(buf, ofs - 1);
      ofs := ofs - 1;
      if buf[ofs] == '\n' {
        if ofs > 0 && buf[ofs - 1] == '\r' {
          NewlinesMore(buf, ofs - 1);
          ofs := ofs - 1;
        }
        line := line - 1;
      }
    }

    method Skip(ch: char) returns (r: bool)
      requires Valid() && ofs < |buf|
      modifies this
      ensures Valid() && (r <==> buf[old(ofs)] == ch)
      ensures ofs == if r then old(ofs) + 1 else BackFrom(buf, old(ofs) + 1)
    {
      var c := Read();
      if c != ch {
        Back();
        return false;
      }
      r := true;
    }

    method SkipSpaces()
      requires Valid() && ofs < |buf|
      modifies this
      ensures Valid() && SpaceEnd(buf, old(ofs)) < |buf| && ofs == BackFrom(buf, SpaceEnd(buf, old(ofs)) + 1)
    {
      ghost var end := SpaceEnd(buf, ofs);
      SpaceEndInside(buf, ofs);
      while true
        invariant Valid() && ofs <= end < |buf| && SpaceEnd(buf, ofs) == end
        decreases end - ofs
      {
        var more := Skip(' ');
        if !more {
          break;
        }
      }
    }

    method Expect(ch: char) returns (ok: bool)
      requires Valid() && ofs < |buf|
      modifies this
      ensures Valid() && (ok <==> buf[old(ofs)] == ch)
      ensures ofs == if ok then old(ofs) + 1 else BackFrom(buf, old(ofs) + 1)
    {
      var r := Read();
      if r != ch {
        Back();
        return false;
      }
      ok := true;
    }
  }

  // ---- What is read from where. ----

  predicate NameChar(c: char) {
    'a' <= c <= 'z' || 'A' <= c <= 'Z' || '0' <= c <= '9' || c == '_' || c == '-'
  }

  function SpaceEnd(buf: string, o: nat): (e: nat)
    ensures o <= e && (o <= |buf| ==> e <= |buf|)
    decreases |buf| - o
  {
    if o < |buf| && buf[o] == ' ' then SpaceEnd(buf, o + 1) else o
  }

  lemma {:induction false} SpaceEndInside(buf: string, o: nat)
    requires Terminated(buf) && o < |buf|
    ensures SpaceEnd(buf, o) < |buf| && buf[SpaceEnd(buf, o)] != ' '
    decreases |buf| - o
  {
    if buf[o] == ' ' {
      SpaceEndInside(buf, o + 1);
    }
  }

  lemma {:induction false} SpaceEndBefore(buf: string, o: nat)
    requires 0 < o <= |buf| && buf[o - 1] != '\r'
    ensures buf[SpaceEnd(buf, o) - 1] != '\r'
    decreases |buf| - o
  {
    if o < |buf| && buf[o] == ' ' {
      SpaceEndBefore(buf, o + 1);
    }
  }

  function NameEnd(buf: string, o: nat): (e: nat)
    ensures o <= e && (o <= |buf| ==> e <= |buf|) && (e < |buf| ==> !NameChar(buf[e]))
    ensures forall k | o <= k < e :: k < |buf| && NameChar(buf[k])
    decreases |buf| - o
  {
    if o < |buf| && NameChar(buf[o]) then NameEnd(buf, o + 1) else o
  }

  /** The closing brace, if one comes before a NUL. */
  function BraceEnd(buf: string, o: nat): (e: Option<nat>)
    ensures e.Some? ==> o <= e.value < |buf| && buf[e.value] == '}'
    decreases |buf| - o
  {
    if o >= |buf| || buf[o] == '\0' then None
    else if buf[o] == '}' then Some(o)
    else BraceEnd(buf, o + 1)
  }

  /** What follows a '$' at `o`, and where it ends. */
  function EscapeAt(buf: string, o: nat): (r: Option<(Part, nat)>)
    ensures r.Some? ==> o < r.value.1 <= |buf|
    ensures r.Some? && Terminated(buf) ==> r.value.1 < |buf|
  {
    if o >= |buf| then None
    else if buf[o] == '\n' then
      var e := SpaceEnd(buf, o + 1);
      if e >= |buf| then None else Some((Literal(""), e))
    else if buf[o] in {' ', '$', ':'} then Some((Literal([buf[o]]), o + 1))
    else if buf[o] == '{' then
      var e := BraceEnd(buf, o + 1);
      if e.None? then None else Some((VarRef(buf[o + 1..e.value]), e.value + 1))
    else
      var e := NameEnd(buf, o);
      if e == o then None else Some((VarRef(buf[o..e]), e))
  }

  predicate Stops(c: char, paths: bool) {
    c == '\n' || (paths && c in {' ', ':', '|'})
  }

  function Flush(buf: string, from: nat, to: nat): Eval
    requires to <= |buf|
  {
    if to > from then [Literal(buf[from..to])] else []
  }

  /** The parts of a string read from `o` on, the plain text begun at `lit`, and where it stops. */
  function EvalFrom(buf: string, lit: nat, o: nat, paths: bool): (r: Option<(Eval, nat)>)
    decreases |buf| - o
  {
    if o >= |buf| || buf[o] == '\0' then None
    else if Stops(buf[o], paths) then
      var e := BackFrom(buf, o + 1);
      Some((Flush(buf, lit, e), e))
    else if buf[o] == '$' then
      var escape := EscapeAt(buf, o + 1);
      if escape.None? then None else
      var rest := EvalFrom(buf, escape.value.1, escape.value.1, paths);
      if rest.None? then None
      else Some((Flush(buf, lit, o) + [escape.value.0] + rest.value.0, rest.value.1))
    else EvalFrom(buf, lit, o + 1, paths)
  }

  /** The string at `o`; an empty one is an error. */
  function EvalAt(buf: string, o: nat, paths: bool): Option<(Eval, nat)> {
    var r := EvalFrom(buf, o, o, paths);
    if r.Some? && r.value.0 == [] then None else r
  }

  // ---- The reader. ----

  method ReadSimpleVarname(s: Scanner) returns (r: Option<string>)
    requires s.Valid() && s.ofs < |s.buf| && s.buf[s.ofs] != '\n'
    modifies s
    ensures s.Valid()
    ensures r == (if NameEnd(s.buf, old(s.ofs)) == old(s.ofs) then None else Some(s.buf[old(s.ofs)..NameEnd(s.buf, old(s.ofs))]))
    ensures r.Some? ==> s.ofs == NameEnd(s.buf, old(s.ofs)) < |s.buf|
  {
    var start := s.ofs;
    ghost var end := NameEnd(s.buf, start);
    while true
      invariant s.Valid() && start <= s.ofs <= end < |s.buf| && NameEnd(s.buf, s.ofs) == end
      decreases end - s.ofs
    {
      var c := s.Read();
      if !NameChar(c) {
        break;
      }
    }
    s.Back();
    if s.ofs == start {
      return None;
    }
    r := Some(s.buf[start..s.ofs]);
  }

  /** What follows a '$' that was just read. */
  method ReadEscape(s: Scanner) returns (r: Option<Part>)
    requires s.Valid() && s.ofs < |s.buf|
    modifies s
    ensures s.Valid()
    ensures match EscapeAt(s.buf, old(s.ofs))
            case None => r == None
            case Some(pe) => r == Some(pe.0) && s.ofs == pe.1
  {
    ghost var o := s.ofs;
    var c := s.Read();
    match c {
      case '\n' =>
        SpaceEndInside(s.buf, s.ofs);
        SpaceEndBefore(s.buf, s.ofs);
        s.SkipSpaces();
        r := Some(Literal(""));
      case ' ' => r := Some(Literal(" "));
      case '$' => r := Some(Literal("$"));
      case ':' => r := Some(Literal(":"));
      case '{' =>
        var start := s.ofs;
        while true
          invariant s.Valid() && start <= s.ofs < |s.buf| && BraceEnd(s.buf, s.ofs) == BraceEnd(s.buf, start)
          decreases |s.buf| - s.ofs
        {
          var d := s.Read();
          if d == '\0' {
            return None;
          }
          if d == '}' {
            break;
          }
        }
        r := Some(VarRef(s.buf[start..s.ofs - 1]));
      case _ =>
        s.Back();
        var name := ReadSimpleVarname(s);
        if name.None? {
          return None;
        }
        r := Some(VarRef(name.value));
    }
  }

  /**
   Reads a string up to a newline, or up to a path separator. On success the
   scanner stands on what stopped it, inside the buffer.
   */
  method ReadEval(s: Scanner, paths: bool) returns (r: Option<Eval>)
    requires s.Valid() && s.ofs < |s.buf|
    modifies s
    ensures s.Valid()
    ensures match EvalAt(s.buf, old(s.ofs), paths)
            case None => r == None
            case Some(pe) => r == Some(pe.0) && s.ofs == pe.1 < |s.buf|
  {
    var parts: Eval := [];
    var lit := s.ofs;
    ghost var start := s.ofs;
    PrependedNothing(EvalFrom(s.buf, start, start, paths));
    while true
      invariant s.Valid() && s.ofs < |s.buf|
      invariant Prepended(parts, EvalFrom(s.buf, lit, s.ofs, paths)) == EvalFrom(s.buf, start, start, paths)
      decreases |s.buf| - s.ofs
    {
      ghost var o := s.ofs;
      var c := s.Read();
      if c == '\0' {
        return None;
      } else if Stops(c, paths) {
        s.Back();
        break;
      } else if c == '$' {
        PrependedEscape(s.buf, lit, o, paths, parts);
        var end := s.ofs - 1;
        parts := parts + Flush(s.buf, lit, end);
        var escape := ReadEscape(s);
        if escape.None? {
          return None;
        }
        parts := parts + [escape.value];
        lit := s.ofs;
      } else {
        NotLast(s.buf, o);
      }
    }
    parts := parts + Flush(s.buf, lit, s.ofs);
    if parts == [] {
      return None;
    }
    r := Some(parts);
  }

  function Prepended(parts: Eval, rest: Option<(Eval, nat)>): Option<(Eval, nat)> {
    if rest.None? then None else Some((parts + rest.value.0, rest.value.1))
  }

  lemma PrependedNothing(rest: Option<(Eval, nat)>)
    ensures Prepended([], rest) == rest
  {
    if rest.Some? {
      assert [] + rest.value.0 == rest.value.0;
    }
  }

  lemma PrependedEscape(buf: string, lit: nat, o: nat, paths: bool, parts: Eval)
    requires o < |buf| && buf[o] == '$'
    ensures var escape := EscapeAt(buf, o + 1);
            Prepended(parts, EvalFrom(buf, lit, o, paths)) ==
            if escape.None? then None
            else Prepended(parts + Flush(buf, lit, o) + [escape.value.0], EvalFrom(buf, escape.value.1, escape.value.1, paths))
  {
    var escape := EscapeAt(buf, o + 1);
    if escape.Some? {
      var rest := EvalFrom(buf, escape.value.1, escape.value.1, paths);
      if rest.Some? {
        assert parts + (Flush(buf, lit, o) + [escape.value.0] + rest.value.0)
            == parts + Flush(buf, lit, o) + [escape.value.0] + rest.value.0;
      }
    }
  }

  lemma NotLast(buf: string, o: nat)
    requires Terminated(buf) && o < |buf| && buf[o] != '\0'
    ensures o + 1 < |buf|
  {
  }

  // ---- References and continuations. ----

  lemma {:induction false} BraceEndAt(buf: string, o: nat, n: string)
    requires At(buf, o, n + "}") && '}' !in n && '\0' !in n
    ensures BraceEnd(buf, o) == Some(o + |n|)
    decreases |n|
  {
    AtEach(buf, o, n + "}");
    if n != "" {
      assert (n + "}")[1..] == n[1..] + "}";
      BraceEndAt(buf, o + 1, n[1..]);
    }
  }

  lemma AtEach(buf: string, o: nat, t: string)
    requires At(buf, o, t)
    ensures t != "" ==> buf[o] == t[0]
    ensures t != "" ==> At(buf, o + 1, t[1..])
  {
    var here := buf[o..o + |t|];
    assert forall k | 0 <= k < |t| :: here[k] == t[k];
    if t != "" {
      assert buf[o + 1..o + |t|] == buf[o..o + |t|][1..];
    }
  }

  /** A name in braces behind a '$' is a reference to it, whatever follows. */
  lemma BracedIsReference(buf: string, o: nat, n: string)
    requires At(buf, o, "{" + n + "}") && '}' !in n && '\0' !in n
    ensures EscapeAt(buf, o) == Some((VarRef(n), o + |n| + 2))
  {
    var t := "{" + n + "}";
    AtEach(buf, o, t);
    assert t[0] == '{' && t[1..] == n + "}";
    BraceEndAt(buf, o + 1, n);
    assert buf[o + 1..o + 1 + |n|] == buf[o + 1..o + 1 + |n + "}"|][..|n|];
  }

  lemma {:induction false} NameEndAt(buf: string, o: nat, n: string)
    requires At(buf, o, n) && forall k | 0 <= k < |n| :: NameChar(n[k])
    requires o + |n| < |buf| ==> !NameChar(buf[o + |n|])
    ensures NameEnd(buf, o) == o + |n|
    decreases |n|
  {
    AtEach(buf, o, n);
    if n != "" {
      NameEndAt(buf, o + 1, n[1..]);
    }
  }

  /** The longest run of name characters behind a '$' is a reference to it. */
  lemma NameIsReference(buf: string, o: nat, n: string)
    requires n != "" && At(buf, o, n) && forall k | 0 <= k < |n| :: NameChar(n[k])
    requires o + |n| < |buf| ==> !NameChar(buf[o + |n|])
    ensures EscapeAt(buf, o) == Some((VarRef(n), o + |n|))
  {
    AtEach(buf, o, n);
    NameEndAt(buf, o, n);
    assert NameChar(buf[o]);
    assert buf[o..o + |n|] == n;
  }

  lemma {:induction false} SpaceEndAt(buf: string, o: nat, e: nat)
    requires o <= e < |buf| && (forall k | o <= k < e :: buf[k] == ' ') && buf[e] != ' '
    ensures SpaceEnd(buf, o) == e
    decreases e - o
  {
    if o < e {
      SpaceEndAt(buf, o + 1, e);
    }
  }

  /** A '$' at the end of a line drops the newline and the blanks that begin the next. */
  lemma ContinuationIsNothing(buf: string, o: nat, e: nat)
    requires o < e < |buf| && buf[o] == '\n' && (forall k | o < k < e :: buf[k] == ' ') && buf[e] != ' '
    ensures EscapeAt(buf, o) == Some((Literal(""), e))
  {
    SpaceEndAt(buf, o + 1, e);
  }

  /** A value on the rest of a line needs no escapes: blanks, colons and bars are text like any other. */
  lemma {:induction false} PlainValue(buf: string, lit: nat, o: nat, text: string)
    requires lit <= o && At(buf, o, text) && o + |text| < |buf| && buf[o + |text|] == '\n'
    requires (forall k | 0 <= k < |text| :: text[k] !in {'\n', '\0', '$', '\r'}) && (text == "" ==> lit < o && buf[o - 1] != '\r')
    ensures EvalFrom(buf, lit, o, false) == Some(([Literal(buf[lit..o + |text|])], o + |text|))
    decreases |text|
  {
    AtEach(buf, o, text);
    if text != "" {
      assert text[0] !in {'\n', '\0', '$', '\r'};
      PlainValue(buf, lit, o + 1, text[1..]);
    }
  }

  // ---- Escaping is undone by reading. ----

  /** How a file name is written in a ninja file. */
  function Escape(text: string): string {
    if text == "" then ""
    else (if text[0] in {' ', ':', '$'} then ['$', text[0]] else [text[0]]) + Escape(text[1..])
  }

  /** Text that can be written on one line among other paths. */
  predicate Writable(text: string) {
    forall i | 0 <= i < |text| :: text[i] !in {'\n', '\0', '\r', '|'}
  }

  /** `t` is at `o`. */
  predicate At(buf: string, o: nat, t: string) {
    o + |t| <= |buf| && buf[o..o + |t|] == t
  }

  /** Everything is plain text, and the text is `text`. */
  ghost predicate Reads(e: Eval, text: string) {
    (forall k | 0 <= k < |e| :: e[k].Literal?) && forall envs :: Expand(e, envs) == text
  }

  lemma ReadsFlush(buf: string, from: nat, to: nat)
    requires from <= to <= |buf|
    ensures Reads(Flush(buf, from, to), buf[from..to])
  {
    forall envs
      ensures Expand(Flush(buf, from, to), envs) == buf[from..to]
    {
      if to > from {
        LiteralText([Literal(buf[from..to])], envs);
      }
    }
  }

  lemma ReadsAppend(a: Eval, b: Eval, x: string, y: string)
    requires Reads(a, x) && Reads(b, y)
    ensures Reads(a + b, x + y)
  {
    forall envs
      ensures Expand(a + b, envs) == x + y
    {
      ExpandAppend(a, b, envs);
    }
  }

  lemma ReadsOne(c: char)
    ensures Reads([Literal([c])], [c])
  {
    forall envs
      ensures Expand([Literal([c])], envs) == [c]
    {
      LiteralText([Literal([c])], envs);
    }
  }

  /** The escaped text from `o` on is read as the text, after what was plain since `lit`. */
  lemma {:induction false} EscapeReads(buf: string, lit: nat, o: nat, text: string, paths: bool)
    requires lit <= o && Writable(text) && At(buf, o, Escape(text))
    requires o + |Escape(text)| < |buf| && Stops(buf[o + |Escape(text)|], paths)
    requires o > 0 && buf[o - 1] == '\r' ==> text != ""
    ensures var r := EvalFrom(buf, lit, o, paths);
            r.Some? && r.value.1 == o + |Escape(text)| && Reads(r.value.0, buf[lit..o] + text)
    decreases |text|
  {
    hide Reads, EscapeAt, Flush, Escape, Writable;
    if text == "" {
      EscapeNothing();
      ReadsFlush(buf, lit, o);
      assert buf[lit..o] + text == buf[lit..o];
    } else {
      var c, more := text[0], text[1..];
      WritableMore(text);
      assert [c] + more == text;
      if c in {' ', ':', '$'} {
        EscapedNext(buf, o, c, more);
        EscapeReads(buf, o + 2, o + 2, more, paths);
        EscapedJoins(buf, lit, o, c, more, EvalFrom(buf, o + 2, o + 2, paths).value.0);
      } else {
        PlainNext(buf, o, c, more);
        EscapeReads(buf, lit, o + 1, more, paths);
        PlainJoins(buf, lit, o, c, more);
      }
    }
  }

  lemma EscapeNothing()
    ensures Escape("") == ""
  {
  }

  lemma WritableMore(text: string)
    requires text != "" && Writable(text)
    ensures Writable(text[1..]) && text[0] !in {'\n', '\0', '\r', '|'}
  {
  }

  lemma PlainJoins(buf: string, lit: nat, o: nat, c: char, more: string)
    requires lit <= o < |buf| && buf[o] == c
    ensures buf[lit..o + 1] + more == buf[lit..o] + ([c] + more)
  {
    assert buf[lit..o + 1] == buf[lit..o] + [c];
  }

  lemma EscapedJoins(buf: string, lit: nat, o: nat, c: char, more: string, rest: Eval)
    requires lit <= o && o + 2 <= |buf| && Reads(rest, buf[o + 2..o + 2] + more)
    ensures Reads(Flush(buf, lit, o) + [Literal([c])] + rest, buf[lit..o] + ([c] + more))
  {
    hide Reads, Flush;
    ReadsFlush(buf, lit, o);
    ReadsOne(c);
    ReadsAppend(Flush(buf, lit, o), [Literal([c])], buf[lit..o], [c]);
    ReadsAppend(Flush(buf, lit, o) + [Literal([c])], rest, buf[lit..o] + [c], buf[o + 2..o + 2] + more);
    assert buf[lit..o] + [c] + (buf[o + 2..o + 2] + more) == buf[lit..o] + ([c] + more);
  }

  lemma EscapedNext(buf: string, o: nat, c: char, more: string)
    requires c in {' ', ':', '$'} && At(buf, o, Escape([c] + more))
    ensures |Escape([c] + more)| == 2 + |Escape(more)|
    ensures buf[o] == '$' && buf[o + 1] == c && EscapeAt(buf, o + 1) == Some((Literal([c]), o + 2)) && At(buf, o + 2, Escape(more))
  {
    var t := Escape([c] + more);
    assert ([c] + more)[1..] == more;
    assert t == ['$', c] + Escape(more);
    assert buf[o] == buf[o..o + |t|][0] && buf[o + 1] == buf[o..o + |t|][1];
    assert buf[o + 2..o + |t|] == buf[o..o + |t|][2..] == Escape(more);
  }

  lemma PlainNext(buf: string, o: nat, c: char, more: string)
    requires c !in {' ', ':', '$'} && At(buf, o, Escape([c] + more))
    ensures |Escape([c] + more)| == 1 + |Escape(more)|
    ensures buf[o] == c && At(buf, o + 1, Escape(more))
  {
    var t := Escape([c] + more);
    assert ([c] + more)[1..] == more;
    assert t == [c] + Escape(more);
    assert buf[o] == buf[o..o + |t|][0];
    assert buf[o + 1..o + |t|] == buf[o..o + |t|][1..] == Escape(more);
  }

  /**
   Escaped text is read back: the scanner stops where the text ends, and what
   was read expands to the text under any scopes.
   */
  lemma EscapeRoundTrip(buf: string, o: nat, text: string, paths: bool)
    requires text != "" && Writable(text) && At(buf, o, Escape(text))
    requires o + |Escape(text)| < |buf|
    requires buf[o + |Escape(text)|] == '\n' || (paths && buf[o + |Escape(text)|] in {' ', ':', '|'})
    ensures var r := EvalAt(buf, o, paths);
            r.Some? && r.value.1 == o + |Escape(text)| && Reads(r.value.0, text)
  {
    EscapeReads(buf, o, o, text, paths);
    assert buf[o..o] + text == text;
    var r := EvalFrom(buf, o, o, paths).value;
    assert Expand(r.0, []) == text;
  }
}
