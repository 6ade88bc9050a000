/**
 Canonicalizing a path in its own buffer: a read cursor runs ahead of a write
 cursor, and a stack of offsets says where each name that was kept begins.
 */
module Canon {
  import opened Wrappers
  import opened CanonSpec

  const CAPACITY: nat := 60

  /** A fixed-size stack of offsets. */
  class StackStack {
    var n: nat
    const vals: array<nat>

    ghost predicate Valid()
      reads this
    {
      vals.Length == CAPACITY && n <= CAPACITY
    }

    ghost function Items(): seq<nat>
      requires Valid()
      reads this, vals
    {
      vals[..n]
    }

    constructor ()
      ensures Valid() && Items() == [] && fresh(vals)
    {
      n := 0;
      vals := new nat[CAPACITY];
    }

    /** Fails exactly when the stack is full. */
    method Push(val: nat) returns (ok: bool)
      requires Valid()
      modifies `n, vals
      ensures Valid() && ok == (|old(Items())| < CAPACITY)
      ensures Items() == if ok then old(Items()) + [val] else old(Items())
    {
      if n >= vals.Length {
        return false;
      }
      vals[n] := val;
      n := n + 1;
      ok := true;
    }

    method Pop() returns (r: Option<nat>)
      requires Valid()
      modifies `n
      ensures Valid() && (r.None? <==> old(Items()) == [])
      ensures Items() == if r.None? then [] else old(Items())[..|old(Items())| - 1]
      ensures r.Some? ==> r.value == old(Items())[|old(Items())| - 1]
    {
      if n > 0 {
        n := n - 1;
        r := Some(vals[n]);
      } else {
        r := None;
      }
    }
  }

  /** Where the name at each position of `names` was written. */
  function Offsets(base: nat, names: seq<string>): (r: seq<nat>)
    ensures |r| == |names|
  {
    if names == [] then [] else
    var n := |names| - 1;
    Offsets(base, names[..n]) + [base + |Flat(names[..n])|]
  }

  /** What is left to read; a parent step at the very end is read one past it. */
  function Unread(s: string, src: nat): string {
    if src <= |s| then s[src..] else ""
  }

  /**
   The cursors and the stack stand for the names kept so far: the text before
   the write cursor is what the walk has kept, the text from the read cursor on
   has not been touched, and the walk will end where it would have ended.
   */
  ghost predicate Placed(s: string, buf: string, src: nat, dst: nat, offsets: seq<nat>, d: Dirs) {
    && |buf| == |s| && dst <= src && dst <= |s| && src <= |s| + 1
    && buf[..dst] == Root(s) + Text(d)
    && Unread(buf, src) == Unread(s, src)
    && offsets == Offsets(|Root(s)| + |Flat(d.ups)|, d.names)
    && Walk(Unread(s, src), d) == Walk(s[|Root(s)|..], Dirs([], []))
    && |d.names| <= CAPACITY
    && (Deepest(Unread(s, src), d) > CAPACITY <==> Deepest(s[|Root(s)|..], Dirs([], [])) > CAPACITY)
  }

  lemma Starts(s: string)
    ensures Placed(s, s, |Root(s)|, |Root(s)|, [], Dirs([], []))
  {
    assert Text(Dirs([], [])) == "";
    assert s[..|Root(s)|] == Root(s) + "";
  }

  lemma UnreadMore(s: string, buf: string, src: nat, n: nat)
    requires |s| == |buf| && src < |s| && n <= |s| - src && Unread(buf, src) == Unread(s, src)
    ensures Unread(s, src)[n..] == Unread(s, src + n) == Unread(buf, src + n)
    ensures forall k | src <= k < |s| :: buf[k] == s[k] == Unread(s, src)[k - src]
  {
    assert Unread(buf, src)[n..] == Unread(buf, src + n);
    forall k | src <= k < |s|
      ensures buf[k] == s[k] == Unread(s, src)[k - src]
    {
      assert Unread(buf, src)[k - src] == buf[k];
    }
  }

  /** Moving over text that means nothing. */
  lemma SkipKeeps(s: string, buf: string, src: nat, dst: nat, offsets: seq<nat>, d: Dirs)
    requires Placed(s, buf, src, dst, offsets, d) && src < |s| && NextToken(Unread(s, src)).Skip?
    ensures Placed(s, buf, src + NextToken(Unread(s, src)).width, dst, offsets, d)
  {
    UnreadMore(s, buf, src, NextToken(Unread(s, src)).width);
  }

  /** What reading a parent step leaves to be read. */
  lemma UpRest(s: string, buf: string, src: nat)
    requires |s| == |buf| && src < |s| && Unread(buf, src) == Unread(s, src) && NextToken(Unread(s, src)).Up?
    ensures src + 2 + |NextToken(Unread(s, src)).sep| <= |s| && |NextToken(Unread(s, src)).sep| <= 1
    ensures Unread(s, src)[2 + |NextToken(Unread(s, src)).sep|..] == Unread(s, src + 3) == Unread(buf, src + 3)
  {
    TokenShape(Unread(s, src));
    var sep := NextToken(Unread(s, src)).sep;
    UnreadMore(s, buf, src, 2 + |sep|);
  }

  /** Reading a parent step takes a step up. */
  lemma UpRead(t: string, d: Dirs)
    requires NextToken(t).Up?
    ensures 2 + |NextToken(t).sep| <= |t|
    ensures Walk(t[2 + |NextToken(t).sep|..], StepUp(d, NextToken(t).sep)) == Walk(t, d)
    ensures Deepest(t, d) == Most(|d.names|, Deepest(t[2 + |NextToken(t).sep|..], StepUp(d, NextToken(t).sep)))
  {
    TokenShape(t);
  }

  lemma OffsetsPop(base: nat, names: seq<string>)
    requires names != []
    ensures Offsets(base, names) == Offsets(base, names[..|names| - 1]) + [base + |Flat(names[..|names| - 1])|]
  {
  }

  lemma OffsetsPush(base: nat, names: seq<string>, text: string)
    ensures Offsets(base, names + [text]) == Offsets(base, names) + [base + |Flat(names)|]
  {
    assert (names + [text])[..|names|] == names;
  }

  /** A parent step takes the last name away by moving the write cursor back to where it began. */
  lemma UpPops(s: string, buf: string, src: nat, dst: nat, offsets: seq<nat>, d: Dirs)
    requires Placed(s, buf, src, dst, offsets, d) && src < |s| && NextToken(Unread(s, src)).Up? && offsets != []
    ensures offsets[|offsets| - 1] <= dst
    ensures Placed(s, buf, src + 3, offsets[|offsets| - 1], offsets[..|offsets| - 1], StepUp(d, NextToken(Unread(s, src)).sep))
  {
    hide NextToken, Flat, Root, FirstSep, Piece, Closes, PlainName, NameOf, PieceEnd;
    var sep := NextToken(Unread(s, src)).sep;
    UpRest(s, buf, src);
    StepUpText(d, sep);
    var base := |Root(s)| + |Flat(d.ups)|;
    OffsetsPop(base, d.names);
    var n := |d.names| - 1;
    var ofs := base + |Flat(d.names[..n])|;
    assert offsets[|offsets| - 1] == ofs && offsets[..|offsets| - 1] == Offsets(base, d.names[..n]);
    var d' := StepUp(d, sep);
    assert Text(d') == Flat(d.ups) + Flat(d.names[..n]);
    assert buf[..ofs] == buf[..dst][..ofs];
    assert buf[..ofs] == Root(s) + Text(d');
  }

  /** A parent step with nothing to take away is written out. */
  lemma UpKept(s: string, buf: string, buf': string, src: nat, dst: nat, offsets: seq<nat>, d: Dirs)
    requires Placed(s, buf, src, dst, offsets, d) && src < |s| && NextToken(Unread(s, src)).Up? && offsets == []
    requires |buf'| == |buf| && dst + 2 + |NextToken(Unread(s, src)).sep| <= |s|
    requires buf'[..dst] == buf[..dst] && Unread(buf', src + 3) == Unread(buf, src + 3)
    requires buf'[dst..dst + 2 + |NextToken(Unread(s, src)).sep|] == ".." + NextToken(Unread(s, src)).sep
    ensures Placed(s, buf', src + 3, dst + 2 + |NextToken(Unread(s, src)).sep|, [], StepUp(d, NextToken(Unread(s, src)).sep))
  {
    hide NextToken, Flat, Root, FirstSep, PieceEnd, Walk, Deepest, Text, Unread;
    var sep := NextToken(Unread(s, src)).sep;
    UpRest(s, buf, src);
    UpRead(Unread(s, src), d);
    StepUpText(d, sep);
    var to := dst + 2 + |sep|;
    assert buf'[..to] == buf'[..dst] + buf'[dst..to];
    assert Root(s) + Text(d) + (".." + sep) == Root(s) + (Text(d) + ".." + sep);
  }

  /** A name is moved to the write cursor. */
  lemma NameKept(s: string, buf: string, buf': string, src: nat, dst: nat, offsets: seq<nat>, d: Dirs, n: nat)
    requires Placed(s, buf, src, dst, offsets, d) && src < |s| && NextToken(Unread(s, src)).Name?
    requires n == PieceEnd(Unread(s, src)) && |d.names| < CAPACITY
    requires dst <= src && src + n <= |buf| && buf' == Shifted(buf, src, n, dst)
    ensures Placed(s, buf', src + n, dst + n, offsets + [dst], Dirs(d.ups, d.names + [Unread(s, src)[..n]]))
  {
    hide NextToken, Flat, Root, FirstSep, PieceEnd, Walk, Deepest, Text, Offsets, Unread, Shifted;
    ShiftedParts(buf, src, n, dst);
    UnreadLength(s, src);
    UnreadMore(s, buf, src, n);
    NameRead(Unread(s, src), d);
    var text := Unread(s, src)[..n];
    assert buf[src..src + n] == text by {
      assert forall k | 0 <= k < n :: buf[src + k] == Unread(s, src)[k];
    }
    NameText(d, text);
    OffsetsPush(|Root(s)| + |Flat(d.ups)|, d.names, text);
    TextLength(s, buf, dst, d);
    assert buf'[..dst + n] == buf'[..dst] + buf'[dst..dst + n];
    assert Root(s) + Text(d) + text == Root(s) + (Text(d) + text);
  }

  lemma UnreadLength(s: string, src: nat)
    requires src <= |s|
    ensures |Unread(s, src)| == |s| - src
  {
  }

  lemma TextLength(s: string, buf: string, dst: nat, d: Dirs)
    requires dst <= |buf| && buf[..dst] == Root(s) + Text(d)
    ensures dst == |Root(s)| + |Flat(d.ups)| + |Flat(d.names)|
  {
    assert |buf[..dst]| == dst;
  }

  /** Reading a name adds it to the names. */
  lemma NameRead(t: string, d: Dirs)
    requires NextToken(t).Name?
    ensures PieceEnd(t) <= |t|
    ensures Walk(t[PieceEnd(t)..], Dirs(d.ups, d.names + [t[..PieceEnd(t)]])) == Walk(t, d)
    ensures Deepest(t[PieceEnd(t)..], Dirs(d.ups, d.names + [t[..PieceEnd(t)]])) == Deepest(t, d)
  {
  }

  lemma {:induction false} DeepestHolds(t: string, d: Dirs)
    ensures Deepest(t, d) >= |d.names|
    decreases |t|
  {
    match NextToken(t)
    case End =>
    case Skip(n) => DeepestHolds(t[n..], d);
    case Up(sep) =>
    case Name(text) => DeepestHolds(t[|text|..], Dirs(d.ups, d.names + [text]));
  }

  /** The buffer after the `n` characters at `from` have been moved to `dst`. */
  function Shifted(s: string, from: nat, n: nat, dst: nat): (r: string)
    requires dst <= from && from + n <= |s|
    ensures |r| == |s|
  {
    s[..dst] + s[from..from + n] + s[dst + n..]
  }

  lemma ShiftedParts(s: string, from: nat, n: nat, dst: nat)
    requires dst <= from && from + n <= |s|
    ensures Shifted(s, from, n, dst)[..dst] == s[..dst]
    ensures Shifted(s, from, n, dst)[dst..dst + n] == s[from..from + n]
    ensures Unread(Shifted(s, from, n, dst), from + n) == Unread(s, from + n)
  {
  }

  lemma ShiftedNone(s: string, from: nat, dst: nat)
    requires dst <= from <= |s|
    ensures Shifted(s, from, 0, dst) == s
  {
  }

  lemma ShiftedMore(s: string, from: nat, n: nat, dst: nat)
    requires dst <= from && from + n < |s|
    ensures var now := Shifted(s, from, n, dst);
            Shifted(s, from, n + 1, dst) == now[dst + n := now[from + n]]
  {
  }

  /** Moves a stretch of the buffer to the left, or nowhere. */
  method CopyWithin(data: array<char>, from: nat, to: nat, dst: nat)
    requires dst <= from <= to <= data.Length
    modifies data
    ensures data[..] == Shifted(old(data[..]), from, to - from, dst)
  {
    hide Shifted;
    ghost var s := data[..];
    ShiftedNone(s, from, dst);
    for i := 0 to to - from
      invariant data[..] == Shifted(s, from, i, dst)
    {
      ghost var now := data[..];
      ShiftedMore(s, from, i, dst);
      assert data[from + i] == now[from + i];
      data[dst + i] := data[from + i];
      assert data[..] == now[dst + i := now[from + i]];
    }
  }

  /** One past the component that begins at `src`, its separator included. */
  method ComponentEnd(data: array<char>, src: nat) returns (stop: nat)
    requires src < data.Length
    ensures stop == src + PieceEnd(data[src..])
  {
    stop := src;
    while stop < data.Length && !IsSep(data[stop])
      invariant src <= stop <= data.Length
      invariant forall k | src <= k < stop :: !IsSep(data[k])
    {
      stop := stop + 1;
    }
    FirstSepIs(data[src..], stop - src);
    if stop < data.Length {
      stop := stop + 1;
    }
  }

  lemma FirstSepIs(t: string, i: nat)
    requires i <= |t| && (i < |t| ==> IsSep(t[i])) && forall k | 0 <= k < i :: !IsSep(t[k])
    ensures FirstSep(t) == i
  {
  }


  /** At the end of the text, or at a trailing dot, the walk is over. */
  lemma Ended(s: string, buf: string, src: nat, dst: nat, offsets: seq<nat>, d: Dirs)
    requires Placed(s, buf, src, dst, offsets, d) && NextToken(Unread(s, src)).End?
    ensures Deepest(s[|Root(s)|..], Dirs([], [])) <= CAPACITY
    ensures Canon(s) == if dst == 0 then "." else buf[..dst]
  {
  }

  /** A name too many. */
  lemma TooDeep(s: string, buf: string, src: nat, dst: nat, offsets: seq<nat>, d: Dirs)
    requires Placed(s, buf, src, dst, offsets, d) && NextToken(Unread(s, src)).Name? && |offsets| >= CAPACITY
    ensures Deepest(s[|Root(s)|..], Dirs([], [])) > CAPACITY
  {
    var t := Unread(s, src);
    var text := NextToken(t).text;
    DeepestHolds(t[|text|..], Dirs(d.ups, d.names + [text]));
  }

  /** What the next characters say about the next token. */
  lemma Peek(s: string, buf: string, src: nat, dst: nat, offsets: seq<nat>, d: Dirs)
    requires Placed(s, buf, src, dst, offsets, d) && src < |s|
    ensures |buf| == |s| && Unread(buf, src) == Unread(s, src) == buf[src..] && dst <= src
    ensures |offsets| == |d.names|
    ensures if IsSep(buf[src]) then NextToken(Unread(s, src)) == Skip(1)
            else if buf[src] == '.' && src + 1 == |s| then NextToken(Unread(s, src)) == End
            else if buf[src] == '.' && IsSep(buf[src + 1]) then NextToken(Unread(s, src)) == Skip(2)
            else if buf[src] == '.' && buf[src + 1] == '.' && (src + 2 == |s| || IsSep(buf[src + 2])) then
              NextToken(Unread(s, src)) == Up(if src + 2 == |s| then "" else [buf[src + 2]])
            else NextToken(Unread(s, src)) == Name(Unread(s, src)[..PieceEnd(Unread(s, src))])
  {
    hide FirstSep, Flat, Walk, Deepest, PieceEnd;
    UnreadMore(s, buf, src, 0);
  }

  /** The state of the loop, with its cursors and its stack. */
  ghost predicate Reading(s: string, data: array<char>, components: StackStack, src: nat, dst: nat, d: Dirs)
    reads data, components, components.vals
  {
    components.Valid() && Placed(s, data[..], src, dst, components.Items(), d)
  }

  /** A parent step: back to where the last name began, or written out if there is none. */
  method BackUp(ghost s: string, data: array<char>, components: StackStack, src: nat, dst: nat, ghost d: Dirs)
    returns (dst': nat)
    requires Reading(s, data, components, src, dst, d) && src < |s| && NextToken(Unread(s, src)).Up?
    requires NextToken(Unread(s, src)).sep == if src + 2 == |s| then "" else data[src + 2..src + 3]
    requires data.Length == |s| && src + 2 <= |s| && dst <= src
    modifies data, components`n
    ensures Reading(s, data, components, src + 3, dst', StepUp(d, NextToken(Unread(s, src)).sep))
  {
    hide Placed, NextToken, Walk, Deepest, Flat, Offsets, Text, Unread, StepUp, Root;
    ghost var buf, items := data[..], components.Items();
    var ofs := components.Pop();
    if ofs.Some? {
      UpPops(s, buf, src, dst, items, d);
      return ofs.value;
    }
    ghost var text := NextToken(Unread(s, src)).sep;
    dst' := dst;
    data[dst'] := '.';
    dst' := dst' + 1;
    data[dst'] := '.';
    dst' := dst' + 1;
    if src + 2 < data.Length {
      data[dst'] := data[src + 2];
      dst' := dst' + 1;
    }
    assert data[dst..dst'] == ".." + text;
    SameFrom(buf, data[..], src + 3);
    UpKept(s, buf, data[..], src, dst, items, d);
  }

  lemma SameFrom(buf: string, buf': string, src: nat)
    requires |buf'| == |buf| && forall k | src <= k < |buf| :: buf'[k] == buf[k]
    ensures Unread(buf', src) == Unread(buf, src)
  {
  }

  /** A name: its beginning is remembered, and its text moved. None when the stack is full. */
  method KeepName(ghost s: string, data: array<char>, components: StackStack, src: nat, dst: nat, ghost d: Dirs)
    returns (n: Option<nat>)
    requires Reading(s, data, components, src, dst, d) && src < |s| && data.Length == |s| && dst <= src
    requires NextToken(Unread(s, src)) == Name(Unread(s, src)[..PieceEnd(Unread(s, src))])
    requires Unread(s, src) == data[src..]
    modifies data, components`n, components.vals
    ensures n.None? ==> Deepest(s[|Root(s)|..], Dirs([], [])) > CAPACITY
    ensures n.Some? ==> n.value == PieceEnd(Unread(s, src))
    ensures n.Some? ==> Reading(s, data, components, src + n.value, dst + n.value, Dirs(d.ups, d.names + [Unread(s, src)[..n.value]]))
  {
    hide Placed, NextToken, Walk, Deepest, Flat, Offsets, Text, Root, FirstSep, PieceEnd, Unread, Shifted;
    ghost var buf, items := data[..], components.Items();
    var pushed := components.Push(dst);
    if !pushed {
      TooDeep(s, buf, src, dst, items, d);
      return None;
    }
    var stop := ComponentEnd(data, src);
    CopyWithin(data, src, stop, dst);
    PlacedCount(s, buf, src, dst, items, d);
    NameKept(s, buf, data[..], src, dst, items, d, stop - src);
    n := Some(stop - src);
  }

  lemma PlacedCount(s: string, buf: string, src: nat, dst: nat, offsets: seq<nat>, d: Dirs)
    requires Placed(s, buf, src, dst, offsets, d)
    ensures |offsets| == |d.names|
  {
  }

  /**
   Canonicalizes the path in place and returns its new length, or None when
   more than 60 names have to be kept at once.
   */
  method CanonicalizePath(data: array<char>) returns (r: Option<nat>)
    requires data.Length > 0
    modifies data
    ensures r.None? <==> Deepest(old(data[..])[|Root(old(data[..]))|..], Dirs([], [])) > CAPACITY
    ensures r.Some? ==> 0 < r.value <= data.Length && data[..r.value] == Canon(old(data[..]))
  {
    hide Placed, NextToken, Walk, Deepest, Flat, Offsets, Text, Unread, StepUp, FirstSep, PieceEnd, Canon;
    ghost var s := data[..];
    var components := new StackStack();
    var src: nat, dst: nat := 0, 0;
    if IsSep(data[src]) {
      src, dst := src + 1, dst + 1;
    }
    ghost var d := Dirs([], []);
    Starts(s);
    while src < data.Length
      invariant components.Valid() && fresh(components) && fresh(components.vals)
      invariant Reading(s, data, components, src, dst, d)
      decreases |s| + 1 - src
    {
      Peek(s, data[..], src, dst, components.Items(), d);
      var current := data[src];
      if IsSep(current) {
        SkipKeeps(s, data[..], src, dst, components.Items(), d);
        src := src + 1;
        continue;
      }
      if current == '.' {
        if src + 1 == data.Length {
          break;
        }
        var next := data[src + 1];
        if IsSep(next) {
          SkipKeeps(s, data[..], src, dst, components.Items(), d);
          src := src + 2;
          continue;
        }
        if next == '.' && (src + 2 == data.Length || IsSep(data[src + 2])) {
          assert src + 2 < data.Length ==> data[src + 2..src + 3] == [data[src + 2]];
          ghost var sep := NextToken(Unread(s, src)).sep;
          dst := BackUp(s, data, components, src, dst, d);
          d := StepUp(d, sep);
          src := src + 3;
          continue;
        }
      }
      var n := KeepName(s, data, components, src, dst, d);
      if n.None? {
        return None;
      }
      d := Dirs(d.ups, d.names + [Unread(s, src)[..n.value]]);
      src, dst := src + n.value, dst + n.value;
    }
    AtEnd(s, src);
    PlacedBounds(s, data[..], src, dst, components.Items(), d);
    Ended(s, data[..], src, dst, components.Items(), d);
    if dst == 0 {
      data[0] := '.';
      dst := 1;
    }
    assert data[..][..dst] == data[..dst];
    r := Some(dst);
  }

  lemma AtEnd(s: string, src: nat)
    requires src >= |s| || NextToken(Unread(s, src)) == End
    ensures NextToken(Unread(s, src)) == End
  {
  }

  lemma PlacedBounds(s: string, buf: string, src: nat, dst: nat, offsets: seq<nat>, d: Dirs)
    requires Placed(s, buf, src, dst, offsets, d)
    ensures dst <= |s| == |buf| && dst <= src && src <= |s| + 1
  {
  }
}
