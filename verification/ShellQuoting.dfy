/**
 Quoting file names for the shell, and the shell's own reading of what was
 quoted: section 2.2 of POSIX.1-2017, Shell Command Language.
 */
module ShellQuoting {
  import opened Wrappers

  /** The characters that reach a shell unquoted. */
  predicate ShellSafe(c: char) {
    'a' <= c <= 'z' || 'A' <= c <= 'Z' || '0' <= c <= '9' || c in {'_', '+', '-', '.', '/'}
  }

  predicate AllSafe(s: string) {
    forall i | 0 <= i < |s| :: ShellSafe(s[i])
  }

  /** A quoted text, up to its closing quote: an embedded quote is closed, escaped and reopened. */
  function Quoted(s: string): string {
    if s == "" then "'"
    else if s[0] == '\'' then "'\\''" + Quoted(s[1..])
    else [s[0]] + Quoted(s[1..])
  }

  function Escaped(path: string): string {
    if AllSafe(path) then path else "'" + Quoted(path)
  }

  /** Appends a path so that a shell reads it as one argument. */
  method ShellEscapeInto(path: string, out: string) returns (r: string)
    ensures r == out + Escaped(path)
  {
    var safe := true;
    for i := 0 to |path|
      invariant safe <==> forall k | 0 <= k < i :: ShellSafe(path[k])
    {
      safe := safe && ShellSafe(path[i]);
    }
    if safe {
      return out + path;
    }
    r := out + "'";
    for i := 0 to |path|
      invariant r + Quoted(path[i..]) == out + "'" + Quoted(path)
    {
      assert path[i..][1..] == path[i + 1..];
      if path[i] == '\'' {
        assert r + ("'\\''" + Quoted(path[i + 1..])) == r + "'\\''" + Quoted(path[i + 1..]);
        r := r + "'\\''";
      } else {
        assert r + ([path[i]] + Quoted(path[i + 1..])) == r + [path[i]] + Quoted(path[i + 1..]);
        r := r + [path[i]];
      }
    }
    assert path[|path|..] == "";
    r := r + "'";
    assert out + ("'" + Quoted(path)) == out + "'" + Quoted(path);
  }

  /** The names, quoted and separated; nothing separates what comes before the first text. */
  function FileText(names: seq<string>, sep: char): string {
    if names == [] then "" else
    var before := FileText(names[..|names| - 1], sep);
    before + (if before == "" then "" else [sep]) + Escaped(names[|names| - 1])
  }

  method FileList(names: seq<string>, sep: char) returns (out: string)
    ensures out == FileText(names, sep)
  {
    out := "";
    for i := 0 to |names|
      invariant out == FileText(names[..i], sep)
    {
      assert names[..i + 1][..i] == names[..i];
      if out != "" {
        out := out + [sep];
      }
      out := ShellEscapeInto(names[i], out);
    }
    assert names[..|names|] == names;
  }

  // ---- How a shell reads it. ----

  predicate Blank(c: char) {
    c in {' ', '\t', '\n'}
  }

  /** Unquoted, these start an operator, an expansion, a pattern or a comment. */
  predicate Special(c: char) {
    c in {'|', '&', ';', '<', '>', '(', ')', '$', '`', '"', '*', '?', '[', '#', '~', '=', '%', '!', '{', '}'}
  }

  function Close(s: string): (k: Option<nat>)
    ensures k.Some? ==> k.value < |s| && s[k.value] == '\''
  {
    if s == "" then None
    else if s[0] == '\'' then Some(0)
    else
      var k := Close(s[1..]);
      if k.None? then None else Some(k.value + 1)
  }

  function Flush(word: Option<string>): seq<string> {
    if word.None? then [] else [word.value]
  }

  function Grow(word: Option<string>, more: string): Option<string> {
    Some((if word.None? then "" else word.value) + more)
  }

  /**
   The words of a command, `word` being the one begun. None when a quote is
   left open, or when an unquoted character would mean something else.
   */
  function Words(s: string, word: Option<string>): Option<seq<string>>
    decreases |s|
  {
    if s == "" then Some(Flush(word))
    else if s[0] == '\'' then
      var k := Close(s[1..]);
      if k.None? then None else Words(s[k.value + 2..], Grow(word, s[1..k.value + 1]))
    else if s[0] == '\\' then
      if |s| < 2 then None
      else if s[1] == '\n' then Words(s[2..], word)
      else Words(s[2..], Grow(word, [s[1]]))
    else if Blank(s[0]) then
      var rest := Words(s[1..], None);
      if rest.None? then None else Some(Flush(word) + rest.value)
    else if Special(s[0]) then None
    else Words(s[1..], Grow(word, [s[0]]))
  }

  // ---- Quoting is undone. ----

  lemma {:induction false} WordsSafe(s: string, rest: string, word: Option<string>)
    requires AllSafe(s)
    ensures Words(s + rest, word) == Words(rest, if s == "" then word else Grow(word, s))
    decreases |s|
  {
    if s == "" {
      assert s + rest == rest;
    } else {
      var t := s + rest;
      assert t[0] == s[0] && t[1..] == s[1..] + rest && ShellSafe(s[0]);
      WordsSafe(s[1..], rest, Grow(word, [s[0]]));
      GrowTwice(word, [s[0]], s[1..]);
      assert [s[0]] + s[1..] == s;
      assert s[1..] == "" ==> [s[0]] == s;
    }
  }

  lemma GrowTwice(word: Option<string>, a: string, b: string)
    ensures Grow(Grow(word, a), b) == Grow(word, a + b)
  {
    var w := if word.None? then "" else word.value;
    assert w + a + b == w + (a + b);
  }

  /** The stretch up to the next quote. */
  function Plain(s: string): (n: nat)
    ensures n <= |s| && (n < |s| ==> s[n] == '\'') && forall k | 0 <= k < n :: s[k] != '\''
  {
    if s == "" || s[0] == '\'' then 0 else 1 + Plain(s[1..])
  }

  lemma Regroup(a: string, b: string, c: string, d: string)
    ensures a + (b + c + d) == a + b + c + d == a + b + (c + d)
  {
  }

  /** A quoted text is plain up to its first quote, which is closed, escaped and reopened. */
  lemma {:induction false} QuotedSplit(s: string)
    ensures Quoted(s) == if Plain(s) == |s| then s + "'" else s[..Plain(s)] + "'\\''" + Quoted(s[Plain(s) + 1..])
    decreases |s|
  {
    if s == "" {
      assert "" + "'" == "'";
    } else if s[0] == '\'' {
      assert s[..0] + "'\\''" == "'\\''";
    } else {
      QuotedSplit(s[1..]);
      var n := Plain(s[1..]);
      assert [s[0]] + s[1..] == s && s[..n + 1] == [s[0]] + s[1..][..n];
      if n < |s[1..]| {
        assert s[1..][n + 1..] == s[n + 2..];
        Regroup([s[0]], s[1..][..n], "'\\''", Quoted(s[n + 2..]));
      } else {
        assert [s[0]] + (s[1..] + "'") == s + "'";
      }
    }
  }

  lemma {:induction false} CloseAt(a: string, tail: string)
    requires '\'' !in a
    ensures Close(a + "'" + tail) == Some(|a|)
  {
    var t := a + "'" + tail;
    if a == "" {
      assert t[0] == '\'';
    } else {
      assert t[0] == a[0] && t[1..] == a[1..] + "'" + tail;
      CloseAt(a[1..], tail);
    }
  }

  /** A quoted stretch is read as it is. */
  lemma WordsStretch(a: string, tail: string, word: Option<string>)
    requires '\'' !in a
    ensures Words("'" + (a + "'" + tail), word) == Words(tail, Grow(word, a))
  {
    var t := "'" + (a + "'" + tail);
    CloseAt(a, tail);
    assert t[1..] == a + "'" + tail;
    assert t[1..|a| + 1] == a && t[|a| + 2..] == tail;
  }

  lemma PlainNoQuote(s: string)
    ensures '\'' !in s[..Plain(s)]
  {
  }

  /** A quoted text is read as what was quoted. */
  lemma {:induction false} WordsQuoted(s: string, rest: string, word: Option<string>)
    ensures Words("'" + Quoted(s) + rest, word) == Words(rest, Grow(word, s))
    decreases |s|
  {
    hide Grow, Quoted, Plain, Words;
    var n := Plain(s);
    QuotedSplit(s);
    PlainNoQuote(s);
    if n == |s| {
      assert s[..n] == s;
      WordsStretch(s, rest, word);
      assert "'" + (s + "'") + rest == "'" + (s + "'" + rest);
    } else {
      var after := Quoted(s[n + 1..]) + rest;
      WordsStretch(s[..n], "\\''" + after, word);
      RegroupQuote(s[..n], Quoted(s[n + 1..]), rest);
      var w := Grow(word, s[..n]);
      WordsBackslash(after, w);
      WordsQuoted(s[n + 1..], rest, Grow(w, "'"));
      Regroup("'", Quoted(s[n + 1..]), rest, "");
      assert "'" + Quoted(s[n + 1..]) + rest == "'" + after;
      GrowTwice(word, s[..n], "'");
      GrowTwice(word, s[..n] + "'", s[n + 1..]);
      assert s[..n] + "'" + s[n + 1..] == s;
    }
  }

  lemma RegroupQuote(a: string, q: string, rest: string)
    ensures "'" + (a + "'\\''" + q) + rest == "'" + (a + "'" + ("\\''" + (q + rest)))
  {
    assert "'\\''" == "'" + "\\''";
  }

  lemma WordsBackslash(after: string, word: Option<string>)
    ensures Words("\\''" + after, word) == Words("'" + after, Grow(word, "'"))
  {
    var u := "\\''" + after;
    assert u[0] == '\\' && u[1] == '\'' && u[2..] == "'" + after;
  }

  lemma WordsEscaped(name: string, rest: string, word: Option<string>)
    ensures Words(Escaped(name) + rest, word) == Words(rest, if name == "" then word else Grow(word, name))
  {
    if AllSafe(name) {
      WordsSafe(name, rest, word);
    } else {
      WordsQuoted(name, rest, word);
    }
  }

  function NonEmpty(names: seq<string>): seq<string> {
    if names == [] then [] else
    NonEmpty(names[..|names| - 1]) + (if names[|names| - 1] == "" then [] else [names[|names| - 1]])
  }

  /** What follows a complete word. */
  lemma WordThen(rest: string, word: Option<string>)
    requires rest == "" || Blank(rest[0])
    ensures var more := Words(rest, None);
            Words(rest, word) == if more.None? then None else Some(Flush(word) + more.value)
  {
    if rest == "" {
      assert Flush(word) + [] == Flush(word);
    } else if Words(rest[1..], None).Some? {
      assert [] + Words(rest[1..], None).value == Words(rest[1..], None).value;
    }
  }

  lemma AfterWord(name: string, rest: string)
    requires rest == "" || Blank(rest[0])
    ensures var more := Words(rest, None);
            Words(Escaped(name) + rest, None) ==
            if more.None? then None else Some((if name == "" then [] else [name]) + more.value)
  {
    hide Escaped;
    WordsEscaped(name, rest, None);
    assert "" + name == name;
    WordThen(rest, if name == "" then None else Some(name));
  }

  /** The names of a list, and then what follows it. */
  lemma {:induction false} WordsList(names: seq<string>, sep: char, rest: string)
    requires Blank(sep) && (rest == "" || Blank(rest[0]))
    ensures var more := Words(rest, None);
            Words(FileText(names, sep) + rest, None) == if more.None? then None else Some(NonEmpty(names) + more.value)
    decreases |names|
  {
    hide Escaped, Words, Blank;
    if names == [] {
      assert FileText(names, sep) + rest == rest;
      assert Words(rest, None).Some? ==> NonEmpty(names) + Words(rest, None).value == Words(rest, None).value;
    } else {
      var n := |names| - 1;
      var name := names[n];
      var before := FileText(names[..n], sep);
      AfterWord(name, rest);
      if before == "" {
        OnlyEmpty(names[..n], sep);
        assert FileText(names, sep) + rest == Escaped(name) + rest;
        assert NonEmpty(names) == if name == "" then [] else [name];
      } else {
        var tail := [sep] + (Escaped(name) + rest);
        assert FileText(names, sep) + rest == before + tail;
        WordsList(names[..n], sep, tail);
        BlankFirst(sep, Escaped(name) + rest);
        if Words(rest, None).Some? {
          var mine: seq<string> := if name == "" then [] else [name];
          assert NonEmpty(names[..n]) + (mine + Words(rest, None).value) == NonEmpty(names[..n]) + mine + Words(rest, None).value;
        }
      }
    }
  }

  lemma BlankFirst(sep: char, t: string)
    requires Blank(sep)
    ensures Words([sep] + t, None) == Words(t, None)
  {
    assert ([sep] + t)[1..] == t;
    if Words(t, None).Some? {
      assert [] + Words(t, None).value == Words(t, None).value;
    }
  }

  lemma {:induction false} OnlyEmpty(names: seq<string>, sep: char)
    requires FileText(names, sep) == ""
    ensures NonEmpty(names) == []
  {
    if names != [] {
      var n := |names| - 1;
      OnlyEmpty(names[..n], sep);
    }
  }

  /** A shell splits the list back into its names, those that are empty aside. */
  lemma ShellUndoesQuoting(names: seq<string>, sep: char)
    requires Blank(sep)
    ensures Words(FileText(names, sep), None) == Some(NonEmpty(names))
  {
    WordsList(names, sep, "");
    assert FileText(names, sep) + "" == FileText(names, sep);
    assert NonEmpty(names) + [] == NonEmpty(names);
  }

  lemma {:induction false} NonEmptyAll(names: seq<string>)
    ensures NonEmpty(names) == names <==> "" !in names
    ensures |NonEmpty(names)| <= |names| && "" !in NonEmpty(names)
  {
    if names != [] {
      var n := |names| - 1;
      NonEmptyAll(names[..n]);
      assert names == names[..n] + [names[n]];
    }
  }

  /** The list comes back unchanged exactly when no name is empty. */
  lemma ShellReadsNames(names: seq<string>, sep: char)
    requires Blank(sep)
    ensures Words(FileText(names, sep), None) == Some(names) <==> "" !in names
  {
    ShellUndoesQuoting(names, sep);
    NonEmptyAll(names);
  }
}
