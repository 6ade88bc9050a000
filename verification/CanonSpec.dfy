/**
 What canonicalizing a path means: a walk over its components that keeps the
 leading parent steps and a stack of names. The result is a normal form that
 leads to the same place.
 */
module CanonSpec {

  predicate IsSep(c: char) {
    c == '/' || c == '\\'
  }

  /** The index of the first separator, or the length. */
  function FirstSep(t: string): (i: nat)
    ensures i <= |t| && (i < |t| ==> IsSep(t[i])) && forall k | 0 <= k < i :: !IsSep(t[k])
  {
    if t == "" || IsSep(t[0]) then 0 else 1 + FirstSep(t[1..])
  }

  /** One past the component at the start of `t`, its separator included. */
  function PieceEnd(t: string): (n: nat)
    ensures n <= |t| && (t != "" ==> n > 0)
  {
    var i := FirstSep(t);
    if i < |t| then i + 1 else i
  }

  /** What the text at a component boundary starts with. */
  datatype Token = End | Skip(width: nat) | Up(sep: string) | Name(text: string)

  function NextToken(t: string): (k: Token)
    ensures t == "" ==> k == End
    ensures k.Skip? ==> 0 < k.width <= |t|
    ensures k.Up? ==> t[..FirstSep(t)] == ".." && k.sep == t[2..PieceEnd(t)]
    ensures k.Name? ==> t != "" && k.text == t[..PieceEnd(t)]
  {
    if t == "" then End
    else if IsSep(t[0]) then Skip(1)
    else if t == "." then End
    else if t[0] == '.' && IsSep(t[1]) then Skip(2)
    else if t[0] == '.' && t[1] == '.' && (|t| == 2 || IsSep(t[2])) then Up(if |t| == 2 then "" else [t[2]])
    else Name(t[..PieceEnd(t)])
  }

  /** The leading parent steps and the names below them, each with its separator. */
  datatype Dirs = Dirs(ups: seq<string>, names: seq<string>)

  function Flat(pieces: seq<string>): string {
    if pieces == [] then "" else Flat(pieces[..|pieces| - 1]) + pieces[|pieces| - 1]
  }

  function Text(d: Dirs): string {
    Flat(d.ups) + Flat(d.names)
  }

  /** A parent step takes the last name away, or is kept when there is none. */
  function StepUp(d: Dirs, sep: string): Dirs {
    if d.names == [] then Dirs(d.ups + [".." + sep], []) else Dirs(d.ups, d.names[..|d.names| - 1])
  }

  function Walk(t: string, d: Dirs): Dirs
    decreases |t|
  {
    match NextToken(t)
    case End => d
    case Skip(n) => Walk(t[n..], d)
    case Up(sep) => Walk(t[2 + |sep|..], StepUp(d, sep))
    case Name(text) => Walk(t[|text|..], Dirs(d.ups, d.names + [text]))
  }

  /** The most names the walk holds at once. */
  function Deepest(t: string, d: Dirs): nat
    decreases |t|
  {
    match NextToken(t)
    case End => |d.names|
    case Skip(n) => Deepest(t[n..], d)
    case Up(sep) => Most(|d.names|, Deepest(t[2 + |sep|..], StepUp(d, sep)))
    case Name(text) => Deepest(t[|text|..], Dirs(d.ups, d.names + [text]))
  }

  function Most(a: nat, b: nat): nat {
    if a < b then b else a
  }

  function Root(s: string): (r: string)
    ensures |r| <= |s| && r == s[..|r|]
  {
    if s != "" && IsSep(s[0]) then s[..1] else ""
  }

  function Canon(s: string): string {
    var r := Root(s) + Text(Walk(s[|Root(s)|..], Dirs([], [])));
    if r == "" then "." else r
  }

  // ---- Shape of the result. ----

  predicate PlainName(n: string) {
    n != "" && n != "." && n != ".." && forall k | 0 <= k < |n| :: !IsSep(n[k])
  }

  /** A piece is a name and its separator; the last one may go without. */
  predicate Piece(p: string) {
    PieceEnd(p) == |p|
  }

  function NameOf(p: string): string {
    p[..FirstSep(p)]
  }

  predicate Closes(p: string) {
    p != "" && IsSep(p[|p| - 1])
  }

  /** Parent steps first, then plain names; only the very last piece may lack its separator. */
  ghost predicate Shaped(d: Dirs, ended: bool) {
    && (forall k | 0 <= k < |d.ups| :: Piece(d.ups[k]) && NameOf(d.ups[k]) == "..")
    && (forall k | 0 <= k < |d.names| :: Piece(d.names[k]) && PlainName(NameOf(d.names[k])))
    && (forall k | 0 <= k < |d.ups| && !(ended && d.names == [] && k == |d.ups| - 1) :: Closes(d.ups[k]))
    && (forall k | 0 <= k < |d.names| && !(ended && k == |d.names| - 1) :: Closes(d.names[k]))
  }

  lemma TokenShape(t: string)
    ensures NextToken(t).Up? ==>
              && t == ".." + NextToken(t).sep + t[2 + |NextToken(t).sep|..]
              && Piece(".." + NextToken(t).sep) && NameOf(".." + NextToken(t).sep) == ".."
              && (NextToken(t).sep == "" ==> |t| == 2) && (NextToken(t).sep != "" ==> Closes(".." + NextToken(t).sep))
    ensures NextToken(t).Name? ==>
              && Piece(NextToken(t).text) && PlainName(NameOf(NextToken(t).text))
              && (NextToken(t).text == t || Closes(NextToken(t).text))
  {
    match NextToken(t)
    case Up(sep) =>
      var p := ".." + sep;
      assert FirstSep(p) == 2;
    case Name(text) =>
      var i := FirstSep(t);
      assert FirstSep(text) == i;
    case _ =>
  }

  lemma {:induction false} WalkShaped(t: string, d: Dirs)
    requires Shaped(d, t == "")
    ensures Shaped(Walk(t, d), true)
    decreases |t|
  {
    TokenShape(t);
    match NextToken(t)
    case End =>
    case Skip(n) => WalkShaped(t[n..], d);
    case Up(sep) => WalkShaped(t[2 + |sep|..], StepUp(d, sep));
    case Name(text) => WalkShaped(t[|text|..], Dirs(d.ups, d.names + [text]));
  }

  // ---- The result is a normal form. ----

  lemma {:induction false} FlatCons(p: string, ps: seq<string>)
    ensures Flat([p] + ps) == p + Flat(ps)
    decreases |ps|
  {
    var all := [p] + ps;
    if ps == [] {
      assert all[..0] == [];
      assert Flat(all) == Flat([]) + p;
    } else {
      var n := |ps| - 1;
      FlatCons(p, ps[..n]);
      assert all[..|all| - 1] == [p] + ps[..n];
    }
  }

  lemma FlatNothing()
    ensures Flat([]) == ""
  {
  }

  /** The token a parent step or a name comes from. */
  lemma UpToken(p: string, rest: string)
    requires Piece(p) && NameOf(p) == ".." && (rest == "" || Closes(p))
    ensures NextToken(p + rest) == Up(p[2..]) && p == ".." + p[2..] && (p + rest)[|p|..] == rest
  {
    var t := p + rest;
    assert FirstSep(p) == 2;
    assert t[0] == p[0] == NameOf(p)[0] && t[1] == p[1] == NameOf(p)[1];
    assert p == NameOf(p) + p[2..];
  }

  lemma NameToken(p: string, rest: string)
    requires Piece(p) && PlainName(NameOf(p)) && (rest == "" || Closes(p))
    ensures NextToken(p + rest) == Name(p) && (p + rest)[|p|..] == rest
  {
    var t := p + rest;
    var i := FirstSep(p);
    assert forall k | 0 <= k < i :: t[k] == p[k] == NameOf(p)[k] && !IsSep(NameOf(p)[k]);
    assert i < |p| ==> t[i] == p[i];
    assert FirstSep(t) == i;
    assert t[..|p|] == p;
    assert |p| == if i < |p| then i + 1 else i;
    assert PieceEnd(t) == |p|;
    assert NameOf(p) == t[..i];
    if |NameOf(p)| >= 2 {
      assert t[0] == NameOf(p)[0] && t[1] == NameOf(p)[1];
    }
  }

  lemma NamesRest(names: seq<string>)
    requires Shaped(Dirs([], names), true) && names != []
    ensures Piece(names[0]) && PlainName(NameOf(names[0])) && (Flat(names[1..]) == "" || Closes(names[0]))
    ensures Shaped(Dirs([], names[1..]), true) && Flat(names) == names[0] + Flat(names[1..])
  {
    var rest := names[1..];
    FlatCons(names[0], rest);
    assert names == [names[0]] + rest;
    assert forall k | 0 <= k < |rest| :: rest[k] == names[k + 1];
  }

  lemma UpsRest(ups: seq<string>, names: seq<string>)
    requires Shaped(Dirs(ups, names), true) && ups != []
    ensures Piece(ups[0]) && NameOf(ups[0]) == ".." && (Flat(ups[1..]) + Flat(names) == "" || Closes(ups[0]))
    ensures Shaped(Dirs(ups[1..], names), true) && Flat(ups) == ups[0] + Flat(ups[1..])
  {
    var rest := ups[1..];
    FlatCons(ups[0], rest);
    assert ups == [ups[0]] + rest;
    assert forall k | 0 <= k < |rest| :: rest[k] == ups[k + 1];
  }

  lemma {:induction false} WalkNames(before: Dirs, names: seq<string>)
    requires Shaped(Dirs([], names), true)
    ensures Walk(Flat(names), before) == Dirs(before.ups, before.names + names)
    decreases |names|
  {
    hide Shaped, PlainName, NameOf, Piece, Closes, NextToken, Flat, FirstSep, IsSep;
    FlatNothing();
    if names == [] {
      assert before.names + names == before.names;
    } else {
      var p, rest := names[0], names[1..];
      NamesRest(names);
      NameToken(p, Flat(rest));
      WalkNames(Dirs(before.ups, before.names + [p]), rest);
      assert before.names + [p] + rest == before.names + names;
    }
  }

  lemma {:induction false} WalkUps(done: seq<string>, ups: seq<string>, names: seq<string>)
    requires Shaped(Dirs(ups, names), true)
    ensures Walk(Flat(ups) + Flat(names), Dirs(done, [])) == Dirs(done + ups, names)
    decreases |ups|
  {
    hide Shaped, PlainName, NameOf, Piece, Closes, NextToken, Flat, FirstSep, IsSep;
    FlatNothing();
    if ups == [] {
      WalkNames(Dirs(done, []), names);
      assert Flat(ups) + Flat(names) == Flat(names) && done + ups == done;
      assert [] + names == names;
    } else {
      var p, rest := ups[0], ups[1..];
      UpsRest(ups, names);
      assert Flat(ups) + Flat(names) == p + (Flat(rest) + Flat(names));
      UpToken(p, Flat(rest) + Flat(names));
      WalkUps(done + [p], rest, names);
      assert done + [p] + rest == done + ups;
    }
  }

  /** Walking what a walk wrote gives back what was written. */
  lemma WalkText(d: Dirs)
    requires Shaped(d, true)
    ensures Walk(Text(d), Dirs([], [])) == d
  {
    WalkUps([], d.ups, d.names);
    assert [] + d.ups == d.ups;
  }

  lemma {:induction false} FlatStart(ps: seq<string>)
    requires forall k | 0 <= k < |ps| :: ps[k] != "" && !IsSep(ps[k][0])
    ensures Flat(ps) == "" <==> ps == []
    ensures ps != [] ==> Flat(ps)[0] == ps[0][0]
  {
    if ps != [] {
      FlatCons(ps[0], ps[1..]);
      assert ps == [ps[0]] + ps[1..];
    }
  }

  lemma TextStart(d: Dirs, ended: bool)
    requires Shaped(d, ended)
    ensures Text(d) != "" ==> !IsSep(Text(d)[0])
    ensures Text(d) == "" <==> d == Dirs([], [])
  {
    forall k | 0 <= k < |d.ups|
      ensures d.ups[k] != "" && !IsSep(d.ups[k][0])
    {
      assert NameOf(d.ups[k]) == "..";
      assert d.ups[k][0] == NameOf(d.ups[k])[0];
    }
    forall k | 0 <= k < |d.names|
      ensures d.names[k] != "" && !IsSep(d.names[k][0])
    {
      assert d.names[k][0] == NameOf(d.names[k])[0];
    }
    FlatStart(d.ups);
    FlatStart(d.names);
  }

  /** A canonical path is its root, the parent steps, and the names, or a single dot. */
  lemma CanonShape(s: string) returns (d: Dirs)
    ensures Shaped(d, true) && d == Walk(s[|Root(s)|..], Dirs([], []))
    ensures Canon(s) == if Root(s) + Text(d) == "" then "." else Root(s) + Text(d)
    ensures Canon(s) != ""
    ensures Canon(s) != "." ==> Root(Canon(s)) == Root(s) && Canon(s)[|Root(s)|..] == Text(d)
    ensures Canon(s) == "." <==> Root(s) == "" && d == Dirs([], [])
  {
    d := Walk(s[|Root(s)|..], Dirs([], []));
    WalkShaped(s[|Root(s)|..], Dirs([], []));
    TextStart(d, true);
    DotIsNoText(d);
    var c := Root(s) + Text(d);
    if Root(s) != "" {
      assert c[0] == Root(s)[0] && c[..1] == Root(s);
    } else {
      assert c == Text(d);
    }
  }

  lemma DotIsNoText(d: Dirs)
    requires Shaped(d, true)
    ensures Text(d) != "."
  {
    WalkText(d);
    assert NextToken(".") == End;
    assert Walk(".", Dirs([], [])) == Dirs([], []);
    assert Text(Dirs([], [])) == "";
  }

  /** Canonicalizing a second time changes nothing. */
  lemma CanonIdempotent(s: string)
    ensures Canon(Canon(s)) == Canon(s)
  {
    var d := CanonShape(s);
    if Canon(s) == "." {
      assert Root(".") == "" && NextToken("."[0..]) == End;
    } else {
      WalkText(d);
    }
  }

  // ---- The result leads to the same place. ----

  type Place = seq<string>

  /** Entering a directory entry. */
  function Enter(dir: Place, name: string): Place {
    if name == "" || name == "." then dir
    else if name == ".." then Parent(dir)
    else dir + [name]
  }

  function Parent(dir: Place): Place {
    if dir == [] then [] else dir[..|dir| - 1]
  }

  /** Following a path from a directory, one entry after the other. */
  function Follow(dir: Place, t: string): Place
    decreases |t|
  {
    var i := FirstSep(t);
    var d := Enter(dir, t[..i]);
    if i == |t| then d else Follow(d, t[i + 1..])
  }

  /** Where a path leads, seen from a working directory. */
  function Locate(cwd: Place, s: string): Place {
    if Root(s) != "" then Follow([], s[1..]) else Follow(cwd, s)
  }

  function Parents(dir: Place, n: nat): Place {
    if n == 0 then dir else Parent(Parents(dir, n - 1))
  }

  function Names(pieces: seq<string>): (r: Place)
    ensures |r| == |pieces|
  {
    seq(|pieces|, i requires 0 <= i < |pieces| => NameOf(pieces[i]))
  }

  function At(dir: Place, d: Dirs): Place {
    Parents(dir, |d.ups|) + Names(d.names)
  }

  lemma FollowNothing(dir: Place)
    ensures Follow(dir, "") == dir
  {
  }

  /** One token leads where following its text leads. */
  lemma FollowToken(dir: Place, t: string)
    ensures NextToken(t).End? ==> Follow(dir, t) == dir
    ensures NextToken(t).Skip? ==> Follow(dir, t) == Follow(dir, t[NextToken(t).width..])
    ensures NextToken(t).Up? ==> Follow(dir, t) == Follow(Parent(dir), t[2 + |NextToken(t).sep|..])
    ensures NextToken(t).Name? ==>
              Follow(dir, t) == Follow(dir + [NameOf(NextToken(t).text)], t[|NextToken(t).text|..])
  {
    hide Piece, PlainName, Closes, PieceEnd;
    match NextToken(t)
    case End =>
      assert FirstSep(t) == |t|;
    case Skip(n) =>
      assert n == FirstSep(t) + 1;
    case Up(sep) =>
      FollowUp(dir, t);
    case Name(text) =>
      FollowName(dir, t);
  }

  lemma FollowUp(dir: Place, t: string)
    requires NextToken(t).Up?
    ensures Follow(dir, t) == Follow(Parent(dir), t[2 + |NextToken(t).sep|..])
  {
    assert t[..FirstSep(t)] == "..";
    FollowNothing(Parent(dir));
  }

  lemma FollowName(dir: Place, t: string)
    requires NextToken(t).Name?
    ensures Follow(dir, t) == Follow(dir + [NameOf(NextToken(t).text)], t[|NextToken(t).text|..])
  {
    TokenShape(t);
    var i := FirstSep(t);
    var text := NextToken(t).text;
    assert text == t[..PieceEnd(t)];
    hide NextToken;
    assert FirstSep(text) == i && NameOf(text) == t[..i];
    FollowNothing(dir + [NameOf(text)]);
  }

  lemma AtSteps(dir: Place, d: Dirs, sep: string, text: string)
    ensures At(dir, StepUp(d, sep)) == Parent(At(dir, d))
    ensures At(dir, Dirs(d.ups, d.names + [text])) == At(dir, d) + [NameOf(text)]
  {
    var n := |d.names|;
    assert Names(d.names + [text]) == Names(d.names) + [NameOf(text)];
    if n == 0 {
      assert Names(d.names) == [];
      assert At(dir, d) == Parents(dir, |d.ups|);
    } else {
      assert Names(d.names[..n - 1]) == Names(d.names)[..n - 1];
      assert At(dir, d)[..|At(dir, d)| - 1] == Parents(dir, |d.ups|) + Names(d.names)[..n - 1];
    }
  }

  lemma {:induction false} WalkFollows(dir: Place, t: string, d: Dirs)
    ensures At(dir, Walk(t, d)) == Follow(At(dir, d), t)
    decreases |t|
  {
    FollowToken(At(dir, d), t);
    match NextToken(t)
    case End =>
    case Skip(n) => WalkFollows(dir, t[n..], d);
    case Up(sep) =>
      AtSteps(dir, d, sep, "");
      WalkFollows(dir, t[2 + |sep|..], StepUp(d, sep));
    case Name(text) =>
      AtSteps(dir, d, "", text);
      WalkFollows(dir, t[|text|..], Dirs(d.ups, d.names + [text]));
  }

  /** The canonical path leads to the same place, from every working directory. */
  lemma CanonLeadsThere(cwd: Place, s: string)
    ensures Locate(cwd, Canon(s)) == Locate(cwd, s)
  {
    var d := CanonShape(s);
    var dir: Place := if Root(s) != "" then [] else cwd;
    assert At(dir, Dirs([], [])) == dir;
    WalkFollows(dir, s[|Root(s)|..], Dirs([], []));
    assert Root(s) == "" ==> s[|Root(s)|..] == s;
    if Canon(s) == "." {
      FollowToken(cwd, ".");
    } else {
      WalkText(d);
      WalkFollows(dir, Text(d), Dirs([], []));
      assert Root(s) == "" ==> Canon(s)[|Root(s)|..] == Canon(s);
    }
  }

  /** Parent steps come first: the entries of a canonical path are "..", then plain names. */
  lemma CanonLeadingParents(s: string) returns (d: Dirs)
    ensures Canon(s) == "." || Canon(s) == Root(s) + Flat(d.ups) + Flat(d.names)
    ensures forall k | 0 <= k < |d.ups| :: NameOf(d.ups[k]) == ".."
    ensures forall k | 0 <= k < |d.names| :: PlainName(NameOf(d.names[k]))
  {
    hide Walk, NextToken, Root, Canon, NameOf, Piece, PlainName, Closes, Flat;
    d := CanonShape(s);
    assert Root(s) + Flat(d.ups) + Flat(d.names) == Root(s) + (Flat(d.ups) + Flat(d.names));
  }

  // ---- Lengths. ----

  lemma {:induction false} WalkShorter(t: string, d: Dirs)
    ensures |Text(Walk(t, d))| <= |Text(d)| + |t|
    decreases |t|
  {
    hide Text, StepUp, Piece, NameOf, FirstSep, PlainName, Closes;
    match NextToken(t)
    case End =>
    case Skip(n) => WalkShorter(t[n..], d);
    case Up(sep) =>
      TokenShape(t);
      StepUpText(d, sep);
      WalkShorter(t[2 + |sep|..], StepUp(d, sep));
    case Name(text) =>
      NameText(d, text);
      WalkShorter(t[|text|..], Dirs(d.ups, d.names + [text]));
  }

  lemma StepUpText(d: Dirs, sep: string)
    ensures d.names == [] ==> Text(StepUp(d, sep)) == Text(d) + ".." + sep
    ensures d.names != [] ==> Text(StepUp(d, sep)) == Text(d)[..|Text(d)| - |d.names[|d.names| - 1]|]
    ensures d.names != [] ==> |d.names[|d.names| - 1]| <= |Text(d)|
  {
    if d.names == [] {
      assert (d.ups + [".." + sep])[..|d.ups|] == d.ups;
      assert Text(d) == Flat(d.ups) + "";
    } else {
      var n := |d.names| - 1;
      assert Text(d) == (Flat(d.ups) + Flat(d.names[..n])) + d.names[n];
    }
  }

  lemma NameText(d: Dirs, text: string)
    ensures Text(Dirs(d.ups, d.names + [text])) == Text(d) + text
  {
    assert (d.names + [text])[..|d.names|] == d.names;
  }

  /** Canonicalizing never makes a path longer, nor empty. */
  lemma CanonShorter(s: string)
    requires s != ""
    ensures 0 < |Canon(s)| <= |s|
  {
    WalkShorter(s[|Root(s)|..], Dirs([], []));
    assert Text(Dirs([], [])) == "";
  }
}
