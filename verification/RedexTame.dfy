/** Naming redexes changes nothing about which patterns are tried on which terms. */
module RedexTames {
  import opened Terms
  import opened Syntax
  import opened Semantics
  import opened Evaluation
  import opened Emit
  import opened LetNormal
  import opened Matching
  import opened Reredex
  import opened Tameness

  // Tame evaluations depend on the variables that occur.

  lemma {:induction false} TameAgree(n: nat, P: Program, e: Expr, env: Env, env1: Env)
    requires Core(e) && Agree(VarsOf(e), env, env1)
    ensures TameEval(n, P, e, env) == TameEval(n, P, e, env1) && TameSpine(n, P, e, env) == TameSpine(n, P, e, env1)
    decreases e, 1
  {
    hide TameApply, TameArgs, TameEval, TameSpine, EvalSpine, Core, VarsOf;
    EvalAgree(n, P, e, env, env1);
    if e.App? {
      SpineAgree(n, P, e, env, env1);
    } else {
      LeafSpine(n, P, e, env);
      LeafSpine(n, P, e, env1);
    }
    if e.Var? {
      VarTame(n, P, e, env);
      VarTame(n, P, e, env1);
    } else {
      NoLet(e);
      TameEnd(n, P, e, env, []);
      TameEnd(n, P, e, env1, []);
    }
  }

  lemma {:induction false} SpineAgree(n: nat, P: Program, e: Expr, env: Env, env1: Env)
    requires e.App? && Core(e) && Agree(VarsOf(e), env, env1)
    ensures TameSpine(n, P, e, env) == TameSpine(n, P, e, env1)
    decreases e, 0
  {
    hide TameApply, TameArgs, TameEval, EvalSpine;
    assert Core(e.es[0]) && VarsOf(e) == VarsOf(e.es[0]) + VarsOfAll(e.es[1..]);
    TameAgree(n, P, e.es[0], env, env1);
    EvalAgree(n, P, e.es[0], env, env1);
    TameArgsAgree(n, P, e.es[1..], env, env1);
  }

  lemma {:induction false} TameArgsAgree(n: nat, P: Program, es: seq<Expr>, env: Env, env1: Env)
    requires Cores(es) && Agree(VarsOfAll(es), env, env1)
    ensures TameArgs(n, P, es, env) == TameArgs(n, P, es, env1)
    decreases es, 0
  {
    hide TameEval, TameSpine, Eval, EvalSpine;
    if es != [] {
      TameAgree(n, P, es[0], env, env1);
      EvalAgree(n, P, es[0], env, env1);
      TameArgsAgree(n, P, es[1..], env, env1);
    }
  }

  // Named redexes

  /** The named redexes are evaluated in order, each of them tame. */
  predicate TameNamed(n: nat, P: Program, rs: seq<Named>, env: Env) {
    rs == [] ||
    (TameEval(n, P, rs[0].rhs, env) && (Eval(n, P, rs[0].rhs, env).Val? ==> TameNamed(n, P, rs[1..], env[rs[0].x := Eval(n, P, rs[0].rhs, env).t])))
  }

  lemma {:induction false} TameAppend(n: nat, P: Program, rs: seq<Named>, rs1: seq<Named>, env: Env)
    ensures TameNamed(n, P, rs + rs1, env) <==>
      TameNamed(n, P, rs, env) && (EvalNamed(n, P, rs, env).Bound? ==> TameNamed(n, P, rs1, EvalNamed(n, P, rs, env).env))
    decreases |rs|
  {
    hide Eval, TameEval;
    if rs == [] {
      assert rs + rs1 == rs1;
    } else {
      assert (rs + rs1)[1..] == rs[1..] + rs1;
      var w := Eval(n, P, rs[0].rhs, env);
      if w.Val? {
        TameAppend(n, P, rs[1..], rs1, env[rs[0].x := w.t]);
      }
    }
  }

  lemma TameOnce(n: nat, P: Program, r: Named, env: Env)
    ensures TameNamed(n, P, [r], env) <==> TameEval(n, P, r.rhs, env)
  {
    hide Eval, TameEval;
    assert [r][1..] == [];
  }

  lemma {:induction false} WrapTame(n: nat, P: Program, rs: seq<Named>, e: Expr, env: Env, extra: seq<Term>)
    ensures TameRoot(n, P, Wrap(rs, e), env, extra) <==>
      TameNamed(n, P, rs, env) && (EvalNamed(n, P, rs, env).Bound? ==> TameRoot(n, P, e, EvalNamed(n, P, rs, env).env, extra))
    decreases |rs|
  {
    hide Eval, TameEval, TameRoot;
    if rs != [] {
      TameLet(n, P, Wrap(rs, e), env, extra);
      var w := Eval(n, P, rs[0].rhs, env);
      if w.Val? {
        WrapTame(n, P, rs[1..], e, env[rs[0].x := w.t], extra);
      }
    }
  }

  /** A flat application whose head is no application. */
  lemma TameApp(n: nat, P: Program, f: Expr, es: seq<Expr>, env: Env, extra: seq<Term>)
    requires (f.Const? || (f.Var? && f.v in env)) && es != []
    ensures var g := if f.Const? then Leaf(f.a) else env[f.v];
            var v := EvalArgs(n, P, es, env);
            && (TameEval(n, P, App([f] + es), env) <==> TameArgs(n, P, es, env) && (v.Vals? ==> TameApply(n, P, g, v.ts)))
            && (TameRoot(n, P, App([f] + es), env, extra) <==> TameArgs(n, P, es, env) && (v.Vals? ==> TameApply(n, P, g, v.ts + extra)))
  {
    hide Eval, EvalRoot, EvalArgs, EvalSpine, Apply, TameApply, TameArgs, TameSpine, TameEval, TameRoot;
    assert ([f] + es)[1..] == es;
    SpineShape(n, P, App([f] + es), env);
    TameHead(n, P, [f] + es, env);
    TameEnd(n, P, App([f] + es), env, extra);
  }

  // The passes

  lemma {:induction false} InnerTame(n: nat, P: Program, ds: set<Symbol>, t: nat, e: Expr, env: Env)
    requires Core(e) && VarsOf(e) <= env.Keys && Fresh(env.Keys, t) && DataOk(P, ds)
    ensures TameEval(n, P, e, env) <==> TameNamed(n, P, Inner(ds, t, e).rs, env)
    decreases e, 1
  {
    hide Core, VarsOf, TameEval, TameNamed, Inner, Fresh, DataOk, IsRedex, RedexName;
    match e
    case Const(a) => ConstTame(n, P, ds, t, a, env);
    case Var(_) =>
      VarTame(n, P, e, env);
      NoneTame(n, P, env);
      VarInner(ds, t, e);
    case App(_) => AppTame(n, P, ds, t, e, env);
    case Let(_, _, _) => NoLet(e);
  }

  lemma NoneTame(n: nat, P: Program, env: Env)
    ensures TameNamed(n, P, [], env)
  {
  }

  lemma VarInner(ds: set<Symbol>, t: nat, e: Expr)
    requires e.Var?
    ensures Inner(ds, t, e).rs == []
  {
  }

  lemma ConstTame(n: nat, P: Program, ds: set<Symbol>, t: nat, a: Atom, env: Env)
    requires DataOk(P, ds)
    ensures TameEval(n, P, Const(a), env) <==> TameNamed(n, P, Inner(ds, t, Const(a)).rs, env)
  {
    hide DataOk, RedexName, TameEval, TameNamed, TameApply, TameSpine, EvalSpine;
    if IsRedex(ds, Const(a)) {
      var r := Named(RedexName(t), Const(a));
      assert [] + [r] == [r];
      TameOnce(n, P, r, env);
    } else {
      NoneTame(n, P, env);
      LeafSpine(n, P, Const(a), env);
      TameEnd(n, P, Const(a), env, []);
      PlainTame(n, P, ds, Leaf(a), []);
    }
  }

  lemma {:induction false} AppTame(n: nat, P: Program, ds: set<Symbol>, t: nat, e: Expr, env: Env)
    requires e.App? && Core(e) && VarsOf(e) <= env.Keys && Fresh(env.Keys, t) && DataOk(P, ds)
    ensures TameEval(n, P, e, env) <==> TameNamed(n, P, Inner(ds, t, e).rs, env)
    decreases e, 0
  {
    hide Core, Cores, VarsOf, VarsOfAll, Eval, EvalArgs, EvalNamed, Inner, Inners, Fresh, DataOk, IsRedex, PassesMean, RedexName, Grown, NameIt, PassesOk, TameEval, TameArgs, TameApply, TameNamed;
    AppCases(ds, env.Keys, e);
    var f, es := e.es[0], e.es[1..];
    HeadBound(f, env);
    assert [f] + es == e.es;
    InnerApp(ds, t, e);
    TameApp(n, P, f, es, env, []);
    InnersTame(n, P, ds, t, es, env);
    InnersMean(n, P, ds, t, es, env);
    InnersShape(ds, env.Keys, t, es);
    var p := Inners(ds, t, es);
    PassesSize(ds, env.Keys, t, |es|, p);
    if IsRedex(ds, f) {
      NamedTame(n, P, ds, t, env, f, p, EvalArgs(n, P, es, env), []);
      NameItTame(n, P, ds, t, env, f, p);
    } else {
      InnersHead(ds, t, e.es);
      var v := EvalArgs(n, P, es, env);
      if v.Vals? {
        PlainTame(n, P, ds, Leaf(f.a), v.ts);
      }
    }
  }

  /** What is left of an application, once the redexes in its arguments have names. */
  lemma NamedTame(n: nat, P: Program, ds: set<Symbol>, t: nat, env: Env, f: Expr, p: Passes, v: Vals, extra: seq<Term>)
    requires (f.Const? || (f.Var? && f.v in env)) && p.es != [] && PassesMean(n, P, t, env, v, p) && DataOk(P, ds)
    requires PassesOk(ds, env.Keys, t, |p.es|, p)
    ensures EvalNamed(n, P, p.rs, env).Bound? <==> v.Vals?
    ensures v.Vals? ==>
      var g := if f.Const? then Leaf(f.a) else env[f.v];
      var b := EvalNamed(n, P, p.rs, env).env;
      && (TameEval(n, P, App([f] + p.es), b) <==> TameApply(n, P, g, v.ts))
      && (TameRoot(n, P, App([f] + p.es), b, extra) <==> TameApply(n, P, g, v.ts + extra))
  {
    hide RedexName, EvalNamed, EvalArgs, TameApply, TameArgs, TameEval, TameRoot, DataOk, NamedOk, VarsOfAll, TreesOk;
    if v.Vals? {
      var b := EvalNamed(n, P, p.rs, env).env;
      TreesTame(n, P, ds, p.es, b);
      TameApp(n, P, f, p.es, b, extra);
    }
  }

  lemma NameItTame(n: nat, P: Program, ds: set<Symbol>, t: nat, env: Env, f: Expr, p: Passes)
    ensures var b := EvalNamed(n, P, p.rs, env);
            TameNamed(n, P, NameIt(App([f] + p.es), p.t, p.rs).rs, env) <==>
              TameNamed(n, P, p.rs, env) && (b.Bound? ==> TameEval(n, P, App([f] + p.es), b.env))
  {
    hide RedexName, EvalNamed, TameNamed, TameEval;
    var r := Named(RedexName(p.t), App([f] + p.es));
    TameAppend(n, P, p.rs, [r], env);
    var b := EvalNamed(n, P, p.rs, env);
    if b.Bound? {
      TameOnce(n, P, r, b.env);
    }
  }

  lemma {:induction false} InnersTame(n: nat, P: Program, ds: set<Symbol>, t: nat, es: seq<Expr>, env: Env)
    requires Cores(es) && VarsOfAll(es) <= env.Keys && Fresh(env.Keys, t) && DataOk(P, ds)
    ensures TameArgs(n, P, es, env) <==> TameNamed(n, P, Inners(ds, t, es).rs, env)
    decreases es, 0
  {
    hide Cores, VarsOfAll, TameNamed, Inners, Fresh, DataOk, RedexName;
    if es == [] {
      InnersNone(n, P, ds, t, env);
      NoneTame(n, P, env);
    } else {
      InnersTameStep(n, P, ds, t, es, env);
    }
  }

  lemma {:induction false} InnersTameStep(n: nat, P: Program, ds: set<Symbol>, t: nat, es: seq<Expr>, env: Env)
    requires es != [] && Cores(es) && VarsOfAll(es) <= env.Keys && Fresh(env.Keys, t) && DataOk(P, ds)
    ensures TameArgs(n, P, es, env) <==> TameNamed(n, P, Inners(ds, t, es).rs, env)
    decreases es, 0, 0
  {
    hide Core, Cores, VarsOf, VarsOfAll, EvalNamed, Inner, Inners, Fresh, DataOk, RedexName, Eval, Grown, PassOk, TameNamed, TameEval;
    ArgsStep(n, P, ds, t, es, env);
    var p := Inner(ds, t, es[0]);
    var q := Inners(ds, p.t, es[1..]);
    InnerMeans(n, P, ds, t, es[0], env);
    InnerTame(n, P, ds, t, es[0], env);
    InnerShape(ds, env.Keys, t, es[0]);
    PassNamed(ds, env.Keys, t, p);
    TameAppend(n, P, p.rs, q.rs, env);
    if Eval(n, P, es[0], env).Val? {
      var env0 := EvalNamed(n, P, p.rs, env).env;
      GrownFresh(env, env0, t, p.t);
      GrownAgree(env, env0, t, p.t, VarsOfAll(es[1..]));
      TameArgsAgree(n, P, es[1..], env, env0);
      InnersTame(n, P, ds, p.t, es[1..], env0);
    }
  }

  /** A body with its redexes named is tame exactly when the body is. */
  lemma RedexedTame(n: nat, P: Program, ds: set<Symbol>, e: Expr, env: Env, extra: seq<Term>)
    requires Core(e) && VarsOf(e) <= env.Keys && Fresh(env.Keys, 0) && DataOk(P, ds)
    ensures TameRoot(n, P, Redexed(ds, e), env, extra) <==> TameRoot(n, P, e, env, extra)
  {
    hide Core, VarsOf, TameRoot, Fresh, DataOk, Root, Inners, TameNamed, EvalNamed;
    var p := Root(ds, e);
    WrapTame(n, P, p.rs, p.e, env, extra);
    if e.App? {
      RootTame(n, P, ds, e, env, extra);
    } else {
      LeafPass(ds, e);
      NothingNamed(n, P, 0, env);
      NoneTame(n, P, env);
    }
  }

  lemma RootTame(n: nat, P: Program, ds: set<Symbol>, e: Expr, env: Env, extra: seq<Term>)
    requires e.App? && Core(e) && VarsOf(e) <= env.Keys && Fresh(env.Keys, 0) && DataOk(P, ds)
    ensures var p := Root(ds, e);
            var b := EvalNamed(n, P, p.rs, env);
            TameRoot(n, P, e, env, extra) <==> TameNamed(n, P, p.rs, env) && (b.Bound? ==> TameRoot(n, P, p.e, b.env, extra))
  {
    hide Core, Cores, VarsOf, VarsOfAll, Eval, TameRoot, EvalArgs, EvalNamed, Root, Inners, Fresh, DataOk, IsRedex, RedexName, PassesOk, PassesMean, TameApply, TameArgs, TameNamed;
    AppCases(ds, env.Keys, e);
    var f, es := e.es[0], e.es[1..];
    HeadBound(f, env);
    assert [f] + es == e.es;
    InnerApp(ds, 0, e);
    TameApp(n, P, f, es, env, extra);
    InnersTame(n, P, ds, 0, es, env);
    InnersMean(n, P, ds, 0, es, env);
    InnersShape(ds, env.Keys, 0, es);
    var p := Inners(ds, 0, es);
    PassesSize(ds, env.Keys, 0, |es|, p);
    if !IsRedex(ds, f) {
      InnersHead(ds, 0, e.es);
    }
    NamedTame(n, P, ds, 0, env, f, p, EvalArgs(n, P, es, env), extra);
  }

  // Programs

  lemma {:induction false} RedexedSplits(ds: set<Symbol>, ms: seq<Alt>, ts: seq<Term>)
    ensures SplitsAlts(RedexedAlts(ds, ms), ts) <==> SplitsAlts(ms, ts)
    decreases |ms|
  {
    hide Redexed, SplitsAll, Taken;
    if ms != [] {
      RedexedSplits(ds, ms[1..], ts);
    }
  }

  /** In the rewritten program an application is tame exactly when it is in the program. */
  lemma {:induction false} ProgramTame(n: nat, P: Program, ds: set<Symbol>, f: Term, args: seq<Term>)
    requires SourceProgram(P) && DataOk(P, ds)
    ensures TameApply(n, RedexedProgram(ds, P), f, args) <==> TameApply(n, P, f, args)
    decreases n, 0, f, 1
  {
    hide SourceProgram, DataOk, TameApply, RedexedDef;
    match f
    case Node(ts) =>
      if ts == [] {
        EmptyTame(n, P, args);
        EmptyTame(n, RedexedProgram(ds, P), args);
      } else {
        TameNode(n, P, f, args);
        TameNode(n, RedexedProgram(ds, P), f, args);
        ProgramTame(n, P, ds, ts[0], ts[1..] + args);
      }
    case Leaf(a) =>
      if a.CombAtom? {
        CombTame(n, P, ds, a.sym, args);
      } else {
        TamePlain(n, P, f, args);
        TamePlain(n, RedexedProgram(ds, P), f, args);
      }
  }

  lemma EmptyTame(n: nat, P: Program, args: seq<Term>)
    ensures TameApply(n, P, Node([]), args)
  {
  }

  lemma {:induction false} CombTame(n: nat, P: Program, ds: set<Symbol>, s: Symbol, args: seq<Term>)
    requires SourceProgram(P) && DataOk(P, ds)
    ensures TameApply(n, RedexedProgram(ds, P), Leaf(CombAtom(s)), args) <==> TameApply(n, P, Leaf(CombAtom(s)), args)
    decreases n, 0, Leaf(CombAtom(s)), 0
  {
    hide DataOk, Apply, TameApply, TameRoot, RedexedAlts, Redexed, Select, SourceAlts, Core, VarsOf, Fresh, SplitsAlts;
    var Q := RedexedProgram(ds, P);
    TameShape(n, P, s, args);
    TameShape(n, Q, s, args);
    if s in P && P[s].HandleDef? && |args| >= 2 && n > 0 {
      ProgramTame(n - 1, P, ds, args[1], [NONE] + args[2..]);
      ProgramApply(n - 1, P, ds, args[1], [NONE] + args[2..]);
      var r := Apply(n - 1, P, args[1], [NONE] + args[2..]);
      if r.Exc? {
        ProgramTame(n - 1, P, ds, args[0], [NONE] + r.ts);
      }
    } else if s in P && P[s].CodeDef? && n > 0 {
      TameCode(n, P, s, args);
      TameCode(n, Q, s, args);
      var ms := P[s].alts;
      RedexedSelect(ds, ms, args);
      RedexedSplits(ds, ms, args);
      if Select(ms, args).Chosen? {
        var c := Select(ms, args);
        RedexedData(P, ds);
        RedexedTame(n - 1, Q, ds, c.body, c.env, args[c.arity..]);
        RootsTame(n - 1, P, ds, c.body, c.env, args[c.arity..]);
      }
    }
  }

  lemma {:induction false} RootsTame(n: nat, P: Program, ds: set<Symbol>, e: Expr, env: Env, extra: seq<Term>)
    requires SourceProgram(P) && DataOk(P, ds) && Core(e)
    ensures TameRoot(n, RedexedProgram(ds, P), e, env, extra) <==> TameRoot(n, P, e, env, extra)
    decreases n, 1, e, 3
  {
    hide SourceProgram, DataOk, RedexedProgram, TameApply, TameRoot, TameSpine, EvalSpine, Core;
    NoLet(e);
    SpinesTame(n, P, ds, e, env);
    ProgramSpine(n, P, ds, e, env);
    TameEnd(n, P, e, env, extra);
    TameEnd(n, RedexedProgram(ds, P), e, env, extra);
    var s := EvalSpine(n, P, e, env);
    if s.Spine? {
      ProgramTame(n, P, ds, s.f, s.args + extra);
    }
  }

  lemma {:induction false} EvalsTame(n: nat, P: Program, ds: set<Symbol>, e: Expr, env: Env)
    requires SourceProgram(P) && DataOk(P, ds) && Core(e)
    ensures TameEval(n, RedexedProgram(ds, P), e, env) <==> TameEval(n, P, e, env)
    decreases n, 1, e, 2
  {
    hide SourceProgram, DataOk, RedexedProgram, TameApply, TameEval, TameSpine, EvalSpine, Core;
    NoLet(e);
    if e.Var? {
      VarTame(n, P, e, env);
      VarTame(n, RedexedProgram(ds, P), e, env);
    } else {
      SpinesTame(n, P, ds, e, env);
      ProgramSpine(n, P, ds, e, env);
      TameEnd(n, P, e, env, []);
      TameEnd(n, RedexedProgram(ds, P), e, env, []);
      var s := EvalSpine(n, P, e, env);
      if s.Spine? {
        ProgramTame(n, P, ds, s.f, s.args);
      }
    }
  }

  lemma {:induction false} SpinesTame(n: nat, P: Program, ds: set<Symbol>, e: Expr, env: Env)
    requires SourceProgram(P) && DataOk(P, ds) && Core(e)
    ensures TameSpine(n, RedexedProgram(ds, P), e, env) <==> TameSpine(n, P, e, env)
    decreases n, 1, e, 1
  {
    hide SourceProgram, DataOk, RedexedProgram, TameArgs, EvalSpine;
    if e.App? {
      assert Core(e.es[0]) && Cores(e.es[1..]);
      SpinesTame(n, P, ds, e.es[0], env);
      ProgramSpine(n, P, ds, e.es[0], env);
      ArgsTame(n, P, ds, e.es[1..], env);
    }
  }

  lemma {:induction false} ArgsTame(n: nat, P: Program, ds: set<Symbol>, es: seq<Expr>, env: Env)
    requires SourceProgram(P) && DataOk(P, ds) && Cores(es)
    ensures TameArgs(n, RedexedProgram(ds, P), es, env) <==> TameArgs(n, P, es, env)
    decreases n, 1, es, 0
  {
    hide SourceProgram, DataOk, RedexedProgram, Eval, TameEval;
    if es != [] {
      EvalsTame(n, P, ds, es[0], env);
      ProgramEval(n, P, ds, es[0], env);
      ArgsTame(n, P, ds, es[1..], env);
    }
  }
}
