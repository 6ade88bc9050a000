/**
 Ninja strings with variable references, and their expansion in a list of
 scopes: a value is expanded in the scopes outside the one it was found in.
 */
module EvalStrings {
  import opened Wrappers

  datatype Part = Literal(text: string) | VarRef(name: string)

  type Eval = seq<Part>

  /** One scope: what each of its variables is bound to. */
  type Env = map<string, Eval>

  /** The index of the first scope that binds `v`, or the number of scopes. */
  function FirstWith(envs: seq<Env>, v: string): (i: nat)
    ensures i <= |envs| && (i < |envs| ==> v in envs[i]) && forall k | 0 <= k < i :: v !in envs[k]
  {
    if envs == [] || v in envs[0] then 0 else 1 + FirstWith(envs[1..], v)
  }

  /** The text of a string. A reference that no scope binds is empty. */
  function Expand(e: Eval, envs: seq<Env>): string
    decreases |envs|, |e|
  {
    if e == [] then "" else Expand(e[..|e| - 1], envs) + ExpandPart(e[|e| - 1], envs)
  }

  function ExpandPart(p: Part, envs: seq<Env>): string
    decreases |envs|, 0
  {
    match p
    case Literal(s) => s
    case VarRef(v) =>
      var i := FirstWith(envs, v);
      if i == |envs| then "" else Expand(envs[i][v], envs[i + 1..])
  }

  /** Appends the text of a string to `result`. */
  method EvaluateInner(e: Eval, result: string, envs: seq<Env>) returns (r: string)
    ensures r == result + Expand(e, envs)
    decreases |envs|
  {
    r := result;
    for k := 0 to |e|
      invariant r == result + Expand(e[..k], envs)
    {
      assert e[..k + 1][..k] == e[..k];
      match e[k] {
        case Literal(s) => r := r + s;
        case VarRef(v) =>
          var i := 0;
          while i < |envs| && v !in envs[i]
            invariant i <= |envs| && forall j | 0 <= j < i :: v !in envs[j]
          {
            i := i + 1;
          }
          FirstWithIs(envs, v, i);
          if i < |envs| {
            r := EvaluateInner(envs[i][v], r, envs[i + 1..]);
          }
      }
    }
    assert e[..|e|] == e;
  }

  lemma FirstWithIs(envs: seq<Env>, v: string, i: nat)
    requires i <= |envs| && (i < |envs| ==> v in envs[i]) && forall k | 0 <= k < i :: v !in envs[k]
    ensures FirstWith(envs, v) == i
  {
  }

  /** The length computed ahead of evaluation is the length of what evaluation gives. */
  method CalcEvaluatedLength(e: Eval, envs: seq<Env>) returns (n: nat)
    ensures n == |Expand(e, envs)|
    decreases |envs|
  {
    n := 0;
    for k := 0 to |e|
      invariant n == |Expand(e[..k], envs)|
    {
      assert e[..k + 1][..k] == e[..k];
      match e[k] {
        case Literal(s) => n := n + |s|;
        case VarRef(v) =>
          var i := 0;
          while i < |envs| && v !in envs[i]
            invariant i <= |envs| && forall j | 0 <= j < i :: v !in envs[j]
          {
            i := i + 1;
          }
          FirstWithIs(envs, v, i);
          if i < |envs| {
            var m := CalcEvaluatedLength(envs[i][v], envs[i + 1..]);
            n := n + m;
          }
      }
    }
    assert e[..|e|] == e;
  }

  /** Reserves what is needed, and fills exactly that. */
  method Evaluate(e: Eval, envs: seq<Env>) returns (result: string, reserved: nat)
    ensures result == Expand(e, envs) && reserved == |result|
  {
    reserved := CalcEvaluatedLength(e, envs);
    result := EvaluateInner(e, "", envs);
  }

  // ---- Scopes that are evaluated already. ----

  /** Every variable is bound to plain text. */
  ghost predicate Evaluated(env: Env) {
    forall v | v in env :: |env[v]| == 1 && env[v][0].Literal?
  }

  /** One scope with the bindings of all, inner ones first. */
  function Merged(envs: seq<Env>): Env {
    if envs == [] then map[] else Merged(envs[1..]) + envs[0]
  }

  lemma {:induction false} MergedLookup(envs: seq<Env>, v: string)
    ensures v in Merged(envs) <==> FirstWith(envs, v) < |envs|
    ensures v in Merged(envs) ==> Merged(envs)[v] == envs[FirstWith(envs, v)][v]
  {
    if envs != [] {
      MergedLookup(envs[1..], v);
    }
  }

  lemma LiteralText(e: Eval, envs: seq<Env>)
    requires |e| == 1 && e[0].Literal?
    ensures Expand(e, envs) == e[0].text
  {
    assert e[..0] == [];
    assert Expand(e[..0], envs) == "";
  }

  lemma FirstWithAppend(es: seq<Env>, frames: seq<Env>, v: string)
    ensures FirstWith(es + frames, v) == if FirstWith(es, v) < |es| then FirstWith(es, v) else |es| + FirstWith(frames, v)
  {
    var i := if FirstWith(es, v) < |es| then FirstWith(es, v) else |es| + FirstWith(frames, v);
    FirstWithIs(es + frames, v, i);
  }

  /**
   Below any scopes, a chain of evaluated scopes is as good as one scope in
   which the inner bindings win.
   */
  lemma {:induction false} ChainCollapses(e: Eval, es: seq<Env>, frames: seq<Env>)
    requires forall k | 0 <= k < |frames| :: Evaluated(frames[k])
    ensures Expand(e, es + frames) == Expand(e, es + [Merged(frames)])
    decreases |es|, |e|
  {
    if e != [] {
      ChainCollapses(e[..|e| - 1], es, frames);
      PartCollapses(e[|e| - 1], es, frames);
    }
  }

  lemma {:induction false} PartCollapses(p: Part, es: seq<Env>, frames: seq<Env>)
    requires forall k | 0 <= k < |frames| :: Evaluated(frames[k])
    ensures ExpandPart(p, es + frames) == ExpandPart(p, es + [Merged(frames)])
    decreases |es|, 0
  {
    hide Evaluated, Merged, Expand, FirstWith;
    if p.VarRef? {
      var v := p.name;
      FirstWithAppend(es, frames, v);
      FirstWithAppend(es, [Merged(frames)], v);
      var i := FirstWith(es, v);
      if i < |es| {
        assert (es + frames)[i + 1..] == es[i + 1..] + frames;
        assert (es + [Merged(frames)])[i + 1..] == es[i + 1..] + [Merged(frames)];
        ChainCollapses(es[i][v], es[i + 1..], frames);
      } else {
        MergedLookup(frames, v);
        var j := FirstWith(frames, v);
        FirstWithIs([Merged(frames)], v, if v in Merged(frames) then 0 else 1);
        if j < |frames| {
          EvaluatedText(frames[j], v, (es + frames)[|es| + j + 1..], (es + [Merged(frames)])[|es| + 1..]);
        }
      }
    }
  }

  lemma EvaluatedText(env: Env, v: string, envs: seq<Env>, envs': seq<Env>)
    requires Evaluated(env) && v in env
    ensures Expand(env[v], envs) == Expand(env[v], envs')
  {
    LiteralText(env[v], envs);
    LiteralText(env[v], envs');
  }

  // ---- What a string means. ----

  /** The plain text of a string, joined. */
  function PlainText(e: Eval): string {
    if e == [] then "" else PlainText(e[..|e| - 1]) + (if e[|e| - 1].Literal? then e[|e| - 1].text else "")
  }

  /** Without scopes, references give nothing. */
  lemma {:induction false} ExpandUnbound(e: Eval)
    ensures Expand(e, []) == PlainText(e)
  {
    if e != [] {
      ExpandUnbound(e[..|e| - 1]);
    }
  }

  /** The string with every reference that `env` binds replaced by its value. */
  function Substituted(e: Eval, env: Env): Eval {
    if e == [] then [] else
    var p := e[|e| - 1];
    Substituted(e[..|e| - 1], env) + (if p.VarRef? && p.name in env then env[p.name] else [p])
  }

  /**
   A scope is a substitution: the innermost one replaces what it binds, and the
   values it puts in are expanded in the scopes outside it.
   */
  lemma {:induction false} ExpandSubstitutes(e: Eval, env: Env, envs: seq<Env>)
    ensures Expand(e, [env] + envs) == Expand(Substituted(e, env), envs)
    decreases |e|
  {
    if e != [] {
      var p := e[|e| - 1];
      ExpandSubstitutes(e[..|e| - 1], env, envs);
      var put := if p.VarRef? && p.name in env then env[p.name] else [p];
      ExpandAppend(Substituted(e[..|e| - 1], env), put, envs);
      SubstitutesPart(p, env, envs);
    }
  }

  lemma SubstitutesPart(p: Part, env: Env, envs: seq<Env>)
    ensures ExpandPart(p, [env] + envs) == Expand(if p.VarRef? && p.name in env then env[p.name] else [p], envs)
  {
    assert ([env] + envs)[1..] == envs;
    ExpandOne(p, envs);
    if p.VarRef? && p.name !in env {
      var i := FirstWith(envs, p.name);
      assert FirstWith([env] + envs, p.name) == i + 1;
      assert i < |envs| ==> ([env] + envs)[i + 2..] == envs[i + 1..];
    }
  }

  lemma ExpandOne(p: Part, envs: seq<Env>)
    ensures Expand([p], envs) == ExpandPart(p, envs)
  {
    assert [p][..0] == [];
    assert Expand([p][..0], envs) == "";
  }

  /** Text and the values a scope of plain text gives, nothing for what it does not bind. */
  function Filled(e: Eval, env: Env): string {
    if e == [] then "" else
    Filled(e[..|e| - 1], env) +
    match e[|e| - 1]
    case Literal(s) => s
    case VarRef(v) => if v in env then PlainText(env[v]) else ""
  }

  /** In scopes that are evaluated already, the innermost binding of each name is filled in. */
  lemma {:induction false} ExpandFills(e: Eval, envs: seq<Env>)
    requires forall k | 0 <= k < |envs| :: Evaluated(envs[k])
    ensures Expand(e, envs) == Filled(e, Merged(envs))
    decreases |e|
  {
    if e != [] {
      hide Evaluated, ExpandPart;
      ExpandFills(e[..|e| - 1], envs);
      FillsPart(e[|e| - 1], envs);
    }
  }

  lemma FillsPart(p: Part, envs: seq<Env>)
    requires forall k | 0 <= k < |envs| :: Evaluated(envs[k])
    ensures ExpandPart(p, envs) == match p
                                   case Literal(s) => s
                                   case VarRef(v) => if v in Merged(envs) then PlainText(Merged(envs)[v]) else ""
  {
    if p.VarRef? {
      var i := FirstWith(envs, p.name);
      MergedLookup(envs, p.name);
      if i < |envs| {
        var bound := envs[i][p.name];
        LiteralText(bound, envs[i + 1..]);
        LiteralText(bound, []);
        ExpandUnbound(bound);
      }
    }
  }

  /** Plain text is the same in all scopes. */
  lemma {:induction false} LiteralsExpand(e: Eval, envs: seq<Env>)
    requires forall k | 0 <= k < |e| :: e[k].Literal?
    ensures Expand(e, envs) == Expand(e, [])
  {
    if e != [] {
      LiteralsExpand(e[..|e| - 1], envs);
    }
  }

  /** The text of two strings one after the other. */
  lemma {:induction false} ExpandAppend(a: Eval, b: Eval, envs: seq<Env>)
    ensures Expand(a + b, envs) == Expand(a, envs) + Expand(b, envs)
    decreases |b|
  {
    hide ExpandPart;
    if b == [] {
      assert a + b == a;
    } else {
      var n := |b| - 1;
      assert (a + b)[..|a + b| - 1] == a + b[..n] && (a + b)[|a + b| - 1] == b[n];
      ExpandAppend(a, b[..n], envs);
    }
  }
}
