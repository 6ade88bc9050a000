/**
 What a build's hash is taken over: the token stream of its manifest. The
 hash function itself is a parameter of the model.
 */
module Manifest {
  import opened Wrappers

  /** One write to the hasher: a string, a time, a separator byte, or a response file. */
  datatype Token = Str(s: string) | Time(t: nat) | Separator | Response(path: string, content: string)

  datatype Entry = Entry(name: string, mtime: nat)

  datatype Manifest = Manifest(
    ins: seq<Entry>,
    discovered: seq<Entry>,
    cmdline: string,
    rspfile: Option<(string, string)>,
    outs: seq<Entry>)

  function FileTokens(es: seq<Entry>): (r: seq<Token>)
    decreases |es|
  {
    if es == [] then [Separator] else [Str(es[0].name), Time(es[0].mtime)] + FileTokens(es[1..])
  }

  function RspTokens(rsp: Option<(string, string)>): seq<Token> {
    if rsp.Some? then [Response(rsp.value.0, rsp.value.1)] else []
  }

  function Tokens(m: Manifest): (r: seq<Token>) {
    FileTokens(m.ins) + (FileTokens(m.discovered) + ([Str(m.cmdline), Separator] + (RspTokens(m.rspfile) + FileTokens(m.outs))))
  }

  lemma TokensInOrder(m: Manifest)
    ensures Tokens(m) == (((([] + FileTokens(m.ins)) + FileTokens(m.discovered)) + [Str(m.cmdline), Separator])
                          + RspTokens(m.rspfile)) + FileTokens(m.outs)
  {
    var a, b, c, d, e := FileTokens(m.ins), FileTokens(m.discovered), [Str(m.cmdline), Separator], RspTokens(m.rspfile), FileTokens(m.outs);
    assert [] + a == a;
    assert ((a + b) + c) + d + e == a + (b + (c + (d + e)));
  }

  /** A file list read off the front of a stream is unambiguous. */
  lemma {:induction false} FileTokensInjective(a: seq<Entry>, b: seq<Entry>, s: seq<Token>, t: seq<Token>)
    requires FileTokens(a) + s == FileTokens(b) + t
    ensures a == b && s == t
    decreases |a|
  {
    var left, right := FileTokens(a) + s, FileTokens(b) + t;
    if a == [] || b == [] {
      assert left[0] == right[0];
      assert left[1..] == s && right[1..] == t;
    } else {
      assert left[0] == right[0] && left[1] == right[1];
      assert left[2..] == FileTokens(a[1..]) + s;
      assert right[2..] == FileTokens(b[1..]) + t;
      FileTokensInjective(a[1..], b[1..], s, t);
      assert a == [a[0]] + a[1..] && b == [b[0]] + b[1..];
    }
  }

  /**
   Different manifests never give the hasher the same tokens: a changed time,
   or a file moved from one list to another, always changes the token sequence.
   */
  lemma TokensInjective(a: Manifest, b: Manifest)
    requires Tokens(a) == Tokens(b)
    ensures a == b
  {
    var restA := FileTokens(a.discovered) + ([Str(a.cmdline), Separator] + (RspTokens(a.rspfile) + FileTokens(a.outs)));
    var restB := FileTokens(b.discovered) + ([Str(b.cmdline), Separator] + (RspTokens(b.rspfile) + FileTokens(b.outs)));
    FileTokensInjective(a.ins, b.ins, restA, restB);
    var tailA := [Str(a.cmdline), Separator] + (RspTokens(a.rspfile) + FileTokens(a.outs));
    var tailB := [Str(b.cmdline), Separator] + (RspTokens(b.rspfile) + FileTokens(b.outs));
    FileTokensInjective(a.discovered, b.discovered, tailA, tailB);
    assert tailA[0] == tailB[0];
    var endA, endB := RspTokens(a.rspfile) + FileTokens(a.outs), RspTokens(b.rspfile) + FileTokens(b.outs);
    assert tailA[2..] == endA && tailB[2..] == endB;
    assert endA[0] == endB[0];
    if a.rspfile.Some? {
      assert endA[1..] == FileTokens(a.outs) && endB[1..] == FileTokens(b.outs);
    } else {
      assert endA == FileTokens(a.outs) && endB == FileTokens(b.outs);
    }
    assert FileTokens(a.outs) + [] == FileTokens(a.outs) && FileTokens(b.outs) + [] == FileTokens(b.outs);
    FileTokensInjective(a.outs, b.outs, [], []);
  }
}
