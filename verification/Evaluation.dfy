/** Equations of the evaluator, one case at a time. */
module Evaluation {
  import opened Terms
  import opened Syntax
  import opened Semantics
  import opened Emit

  /** The declared data combinators are data in the program. */
  ghost predicate DataOk(P: Program, ds: set<Symbol>) {
    forall s :: s in ds ==> s in P && P[s] == DataDef
  }

  /** Literals and declared data combinators are values, alone or applied. */
  lemma PlainApply(n: nat, P: Program, ds: set<Symbol>, a: Atom, args: seq<Term>)
    requires !IsRedex(ds, Const(a)) && DataOk(P, ds)
    ensures Apply(n, P, Leaf(a), args) == Val(Normal(Leaf(a), args))
  {
  }

  lemma ConstValue(n: nat, P: Program, ds: set<Symbol>, a: Atom, tenv: Env)
    requires !IsRedex(ds, Const(a)) && DataOk(P, ds)
    ensures Eval(n, P, Const(a), tenv) == Val(Leaf(a))
  {
    hide Apply;
    PlainApply(n, P, ds, a, []);
  }

  /** Evaluating an application with a constant or variable head. */
  lemma SpineShape(n: nat, P: Program, e: Expr, tenv: Env)
    requires e.App? && |e.es| >= 2 && (e.es[0].Const? || (e.es[0].Var? && e.es[0].v in tenv))
    ensures var f := if e.es[0].Const? then Leaf(e.es[0].a) else tenv[e.es[0].v];
            var vs := EvalArgs(n, P, e.es[1..], tenv);
            EvalSpine(n, P, e, tenv) == if vs.Vals? then Spine(f, vs.ts) else Halt(vs.r)
  {
    hide EvalArgs;
    assert forall ts: seq<Term> :: [] + ts == ts;
  }

  lemma EvalShape(n: nat, P: Program, e: Expr, tenv: Env, extra: seq<Term>)
    requires !e.Let?
    ensures var s := EvalSpine(n, P, e, tenv);
            && EvalRoot(n, P, e, tenv, extra) == (if s.Spine? then Apply(n, P, s.f, s.args + extra) else s.r)
            && (!e.Var? ==> Eval(n, P, e, tenv) == (if s.Spine? then Apply(n, P, s.f, s.args) else s.r))
  {
    hide EvalSpine, Apply;
  }

  lemma ApplyShape(n: nat, P: Program, s: Symbol, ts: seq<Term>)
    ensures s !in P ==> Apply(n, P, Leaf(CombAtom(s)), ts) == Undef(s)
    ensures s in P && P[s].DataDef? ==> Apply(n, P, Leaf(CombAtom(s)), ts) == Val(Normal(Leaf(CombAtom(s)), ts))
    ensures s in P && P[s].ThrowDef? ==> Apply(n, P, Leaf(CombAtom(s)), ts) == if ts == [] then Val(Leaf(CombAtom(s))) else Exc(ts)
    ensures s in P && P[s].HandleDef? && |ts| < 2 ==> Apply(n, P, Leaf(CombAtom(s)), ts) == Val(Normal(Leaf(CombAtom(s)), ts))
    ensures s in P && P[s].HandleDef? && |ts| >= 2 ==>
      Apply(n, P, Leaf(CombAtom(s)), ts) ==
        if n == 0 then Out
        else
          var r := Apply(n - 1, P, ts[1], [NONE] + ts[2..]);
          if r.Exc? then Apply(n - 1, P, ts[0], [NONE] + r.ts) else r
  {
  }

  lemma ApplyCode(n: nat, P: Program, s: Symbol, ts: seq<Term>)
    requires s in P && P[s].CodeDef?
    ensures n == 0 ==> Apply(n, P, Leaf(CombAtom(s)), ts) == Out
    ensures n > 0 && Select(P[s].alts, ts).NoAlt? ==> Apply(n, P, Leaf(CombAtom(s)), ts) == Val(Normal(Leaf(CombAtom(s)), ts))
    ensures n > 0 && Select(P[s].alts, ts).Chosen? && Select(P[s].alts, ts).arity <= |ts| ==>
      var c := Select(P[s].alts, ts);
      Apply(n, P, Leaf(CombAtom(s)), ts) == EvalRoot(n - 1, P, c.body, c.env, ts[c.arity..])
  {
    hide Select, EvalRoot;
  }

  lemma ApplyNode(n: nat, P: Program, f: Term, ts: seq<Term>)
    requires f.Node? && f.ts != []
    ensures Apply(n, P, f, ts) == Apply(n, P, f.ts[0], f.ts[1..] + ts)
  {
  }

  lemma LetEval(n: nat, P: Program, e: Expr, tenv: Env, extra: seq<Term>)
    requires e.Let?
    ensures var w := Eval(n, P, e.rhs, tenv);
            EvalRoot(n, P, e, tenv, extra) == if w.Val? then EvalRoot(n, P, e.body, tenv[e.x := w.t], extra) else w
  {
    hide Eval;
  }

  /** Arguments are evaluated one by one. */
  lemma ConsArgs(n: nat, P: Program, e: Expr, es: seq<Expr>, env: Env)
    ensures var r := Eval(n, P, e, env);
            var v := EvalArgs(n, P, es, env);
            EvalArgs(n, P, [e] + es, env) == if !r.Val? then Stop(r) else if v.Vals? then Vals([r.t] + v.ts) else Stop(v.r)
  {
    hide Eval;
    assert ([e] + es)[1..] == es;
  }

  // Matching

  lemma {:induction false} MatchKeys(p: Pattern, t: Term, env: Env)
    requires Match(p, t, env).0
    ensures Match(p, t, env).1.Keys == env.Keys + PatVars(p)
    decreases p, 1
  {
    match p
    case PConst(_) =>
    case PVar(_) =>
    case PTag(q, _) => MatchKeys(q, t, env);
    case PApp(ps) => MatchesKeys(ps, t.ts, env);
  }

  lemma {:induction false} MatchesKeys(ps: seq<Pattern>, ts: seq<Term>, env: Env)
    requires |ps| == |ts| && Matches(ps, ts, env).0
    ensures Matches(ps, ts, env).1.Keys == env.Keys + PatsVars(ps)
    decreases ps, 0
  {
    if ps != [] {
      MatchKeys(ps[0], ts[0], env);
      MatchesKeys(ps[1..], ts[1..], Match(ps[0], ts[0], env).1);
    }
  }
}
