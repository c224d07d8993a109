/** Evaluations in which array patterns are only tried on applications. */
module Tameness {
  import opened Terms
  import opened Syntax
  import opened Semantics
  import opened Evaluation
  import opened Emit
  import opened LetNormal
  import opened Matching

  // Patterns

  /** Matching p against t splits applications only. */
  predicate Splits(p: Pattern, t: Term) {
    match p
    case PConst(_) => true
    case PVar(_) => true
    case PTag(q, _) => Splits(q, t)
    case PApp(ps) => t.Node? && (|t.ts| == |ps| ==> SplitsAll(ps, t.ts))
  }

  /** From left to right, as long as the patterns match. */
  predicate SplitsAll(ps: seq<Pattern>, ts: seq<Term>)
    requires |ps| == |ts|
  {
    ps == [] || (Splits(ps[0], ts[0]) && (Match(ps[0], ts[0], map[]).0 ==> SplitsAll(ps[1..], ts[1..])))
  }

  /** The alternatives that are tried split applications only. */
  predicate SplitsAlts(ms: seq<Alt>, ts: seq<Term>) {
    ms == [] ||
    (if |ms[0].pats| <= |ts|
     then SplitsAll(ms[0].pats, ts[..|ms[0].pats|]) && (Taken(ms[0].pats, ts) || SplitsAlts(ms[1..], ts))
     else SplitsAlts(ms[1..], ts))
  }

  // Evaluations: every definition that is tried splits applications only.

  predicate TameApply(n: nat, P: Program, f: Term, args: seq<Term>)
    decreases n, 0, f
  {
    match f
    case Node(ts) => ts == [] || TameApply(n, P, ts[0], ts[1..] + args)
    case Leaf(a) =>
      if !a.CombAtom? || a.sym !in P then true
      else match P[a.sym]
        case DataDef => true
        case ThrowDef => true
        case HandleDef =>
          if |args| < 2 || n == 0 then true
          else
            var r := Apply(n - 1, P, args[1], [NONE] + args[2..]);
            TameApply(n - 1, P, args[1], [NONE] + args[2..]) && (r.Exc? ==> TameApply(n - 1, P, args[0], [NONE] + r.ts))
        case CodeDef(alts) =>
          if n == 0 then true
          else
            SplitsAlts(alts, args) &&
            match Select(alts, args)
            case NoAlt => true
            case Chosen(env, body, k) => k <= |args| ==> TameRoot(n - 1, P, body, env, args[k..])
  }

  predicate TameRoot(n: nat, P: Program, e: Expr, env: Env, extra: seq<Term>)
    decreases n, 1, e, 1
  {
    match e
    case Let(x, r, b) =>
      var w := Eval(n, P, r, env);
      TameEval(n, P, r, env) && (w.Val? ==> TameRoot(n, P, b, env[x := w.t], extra))
    case _ =>
      TameSpine(n, P, e, env) &&
      match EvalSpine(n, P, e, env)
      case Spine(f, args) => TameApply(n, P, f, args + extra)
      case Halt(_) => true
  }

  predicate TameEval(n: nat, P: Program, e: Expr, env: Env)
    decreases n, 1, e, 2
  {
    match e
    case Var(_) => true
    case Let(_, _, _) => TameRoot(n, P, e, env, [])
    case _ =>
      TameSpine(n, P, e, env) &&
      match EvalSpine(n, P, e, env)
      case Spine(f, args) => TameApply(n, P, f, args)
      case Halt(_) => true
  }

  predicate TameSpine(n: nat, P: Program, e: Expr, env: Env)
    decreases n, 1, e, 0
  {
    match e
    case Const(_) => true
    case Var(_) => true
    case Let(_, _, _) => true
    case App(es) =>
      es == [] || (TameSpine(n, P, es[0], env) && (EvalSpine(n, P, es[0], env).Spine? ==> TameArgs(n, P, es[1..], env)))
  }

  predicate TameArgs(n: nat, P: Program, es: seq<Expr>, env: Env)
    decreases n, 1, es, 0
  {
    es == [] || (TameEval(n, P, es[0], env) && (Eval(n, P, es[0], env).Val? ==> TameArgs(n, P, es[1..], env)))
  }

  // Equations

  lemma TameShape(n: nat, P: Program, s: Symbol, ts: seq<Term>)
    ensures (s !in P || (!P[s].CodeDef? && (P[s].HandleDef? ==> |ts| < 2))) ==> TameApply(n, P, Leaf(CombAtom(s)), ts)
    ensures s in P && P[s].HandleDef? && |ts| >= 2 && n > 0 ==>
      var r := Apply(n - 1, P, ts[1], [NONE] + ts[2..]);
      TameApply(n, P, Leaf(CombAtom(s)), ts) <==>
        TameApply(n - 1, P, ts[1], [NONE] + ts[2..]) && (r.Exc? ==> TameApply(n - 1, P, ts[0], [NONE] + r.ts))
    ensures s in P && n == 0 ==> TameApply(n, P, Leaf(CombAtom(s)), ts)
  {
  }

  lemma TamePlain(n: nat, P: Program, f: Term, ts: seq<Term>)
    requires f.Leaf? && !f.a.CombAtom?
    ensures TameApply(n, P, f, ts)
  {
  }

  lemma TameCode(n: nat, P: Program, s: Symbol, ts: seq<Term>)
    requires s in P && P[s].CodeDef? && n > 0
    ensures Select(P[s].alts, ts).NoAlt? ==> (TameApply(n, P, Leaf(CombAtom(s)), ts) <==> SplitsAlts(P[s].alts, ts))
    ensures Select(P[s].alts, ts).Chosen? && Select(P[s].alts, ts).arity <= |ts| ==>
      var c := Select(P[s].alts, ts);
      TameApply(n, P, Leaf(CombAtom(s)), ts) <==> SplitsAlts(P[s].alts, ts) && TameRoot(n - 1, P, c.body, c.env, ts[c.arity..])
  {
    hide Select, TameRoot, SplitsAlts;
  }

  lemma TameNode(n: nat, P: Program, f: Term, ts: seq<Term>)
    requires f.Node? && f.ts != []
    ensures TameApply(n, P, f, ts) == TameApply(n, P, f.ts[0], f.ts[1..] + ts)
  {
  }

  lemma TameLet(n: nat, P: Program, e: Expr, tenv: Env, extra: seq<Term>)
    requires e.Let?
    ensures var w := Eval(n, P, e.rhs, tenv);
            TameRoot(n, P, e, tenv, extra) <==> TameEval(n, P, e.rhs, tenv) && (w.Val? ==> TameRoot(n, P, e.body, tenv[e.x := w.t], extra))
  {
    hide Eval, TameEval;
  }

  /** An application, once its head and arguments are known. */
  lemma TameEnd(n: nat, P: Program, e: Expr, tenv: Env, extra: seq<Term>)
    requires !e.Let?
    ensures var s := EvalSpine(n, P, e, tenv);
            && (TameRoot(n, P, e, tenv, extra) <==> TameSpine(n, P, e, tenv) && (s.Spine? ==> TameApply(n, P, s.f, s.args + extra)))
            && (!e.Var? ==> (TameEval(n, P, e, tenv) <==> TameSpine(n, P, e, tenv) && (s.Spine? ==> TameApply(n, P, s.f, s.args))))
  {
    hide EvalSpine, TameApply, TameSpine;
  }

  lemma TameHead(n: nat, P: Program, es: seq<Expr>, tenv: Env)
    requires es != [] && (es[0].Const? || (es[0].Var? && es[0].v in tenv))
    ensures TameSpine(n, P, App(es), tenv) <==> TameArgs(n, P, es[1..], tenv)
  {
    hide TameArgs;
  }

  // Trees are data.

  lemma {:induction false} TreeTame(n: nat, P: Program, ds: set<Symbol>, e: Expr, tenv: Env, extra: seq<Term>)
    requires TreeOk(ds, e) && DataOk(P, ds)
    ensures TameEval(n, P, e, tenv) && (!e.Var? ==> TameRoot(n, P, e, tenv, extra))
    decreases e, 1
  {
    hide TameApply, TameArgs, TameSpine, TameRoot, TameEval, TreesOk, IsRedex, EvalSpine, EvalArgs;
    if e.Var? {
      VarTame(n, P, e, tenv);
    } else {
      if e.App? {
        TreeParts(ds, e);
        TreesTame(n, P, ds, e.es[1..], tenv);
        TameHead(n, P, e.es, tenv);
        SpineShape(n, P, e, tenv);
      } else {
        LeafSpine(n, P, e, tenv);
      }
      var s := EvalSpine(n, P, e, tenv);
      TameEnd(n, P, e, tenv, extra);
      if s.Spine? {
        PlainTame(n, P, ds, s.f, s.args);
        PlainTame(n, P, ds, s.f, s.args + extra);
      }
    }
  }

  lemma {:induction false} TreesTame(n: nat, P: Program, ds: set<Symbol>, es: seq<Expr>, tenv: Env)
    requires TreesOk(ds, es) && DataOk(P, ds)
    ensures TameArgs(n, P, es, tenv)
    decreases es, 0
  {
    hide TameEval, TreeOk, Eval;
    if es != [] {
      TreeTame(n, P, ds, es[0], tenv, []);
      TreesTame(n, P, ds, es[1..], tenv);
    }
  }

  lemma VarTame(n: nat, P: Program, e: Expr, tenv: Env)
    requires e.Var?
    ensures TameEval(n, P, e, tenv)
  {
  }

  lemma TreeParts(ds: set<Symbol>, e: Expr)
    requires e.App? && TreeOk(ds, e)
    ensures |e.es| >= 2 && e.es[0].Const? && !IsRedex(ds, e.es[0]) && TreesOk(ds, e.es[1..])
  {
    assert TreeOk(ds, e.es[0]);
  }

  lemma LeafSpine(n: nat, P: Program, e: Expr, tenv: Env)
    ensures !e.App? ==> TameSpine(n, P, e, tenv)
    ensures e.Const? ==> EvalSpine(n, P, e, tenv) == Spine(Leaf(e.a), [])
  {
  }

  lemma PlainTame(n: nat, P: Program, ds: set<Symbol>, f: Term, args: seq<Term>)
    requires f.Leaf? && !IsRedex(ds, Const(f.a)) && DataOk(P, ds)
    ensures TameApply(n, P, f, args)
  {
  }
}
