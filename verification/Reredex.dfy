/** Naming of redexes: every inner redex of a body becomes a let, in the order of eager evaluation. */
module Reredex {
  import opened Terms
  import opened Syntax
  import opened Semantics
  import opened Evaluation
  import opened Emit
  import opened LetNormal
  import opened Decimals

  // Names of redexes

  function RedexName(i: nat): Name {
    "R_" + Decimal(i)
  }

  lemma NamesDiffer(i: nat, j: nat)
    requires RedexName(i) == RedexName(j)
    ensures i == j
  {
    assert RedexName(i)[2..] == Decimal(i) && RedexName(j)[2..] == Decimal(j);
    DecimalInjective(i, j);
  }

  // The pass

  datatype Named = Named(x: Name, rhs: Expr)

  /** A rewritten expression, the next number of a name, and the redexes named on the way, in order. */
  datatype Pass = Pass(e: Expr, t: nat, rs: seq<Named>)

  datatype Passes = Passes(es: seq<Expr>, t: nat, rs: seq<Named>)

  function NameIt(e: Expr, t: nat, rs: seq<Named>): Pass {
    Pass(Var(RedexName(t)), t + 1, rs + [Named(RedexName(t), e)])
  }

  /** An expression that is not the root of a body. */
  function Inner(ds: set<Symbol>, t: nat, e: Expr): Pass
    decreases e, 1
  {
    match e
    case Const(_) => if IsRedex(ds, e) then NameIt(e, t, []) else Pass(e, t, [])
    case App(es) =>
      if es != [] && IsRedex(ds, es[0]) && !es[0].App? then
        var p := Inners(ds, t, es[1..]);
        NameIt(App([es[0]] + p.es), p.t, p.rs)
      else
        var p := Inners(ds, t, es);
        Pass(App(p.es), p.t, p.rs)
    case _ => Pass(e, t, [])
  }

  function Inners(ds: set<Symbol>, t: nat, es: seq<Expr>): Passes
    decreases es, 0
  {
    if es == [] then Passes([], t, [])
    else
      var p := Inner(ds, t, es[0]);
      var q := Inners(ds, p.t, es[1..]);
      Passes([p.e] + q.es, q.t, p.rs + q.rs)
  }

  /** The root itself stays where it is, with its arguments rewritten. */
  function Root(ds: set<Symbol>, e: Expr): Pass {
    match e
    case App(es) =>
      if es != [] && IsRedex(ds, es[0]) && !es[0].App? then
        var p := Inners(ds, 0, es[1..]);
        Pass(App([es[0]] + p.es), p.t, p.rs)
      else
        var p := Inners(ds, 0, es);
        Pass(App(p.es), p.t, p.rs)
    case _ => Pass(e, 0, [])
  }

  /** Lets around a body: the redex named first is outermost. */
  function Wrap(rs: seq<Named>, e: Expr): Expr {
    if rs == [] then e else Let(rs[0].x, rs[0].rhs, Wrap(rs[1..], e))
  }

  function Redexed(ds: set<Symbol>, e: Expr): Expr {
    Wrap(Root(ds, e).rs, Root(ds, e).e)
  }

  function RedexedAlts(ds: set<Symbol>, ms: seq<Alt>): seq<Alt> {
    if ms == [] then [] else [Alt(ms[0].pats, Redexed(ds, ms[0].body))] + RedexedAlts(ds, ms[1..])
  }

  // Evaluation depends on the variables that occur.

  ghost predicate Agree(vs: set<Name>, env: Env, env1: Env) {
    forall v :: v in vs ==> v in env && v in env1 && env[v] == env1[v]
  }

  lemma {:induction false} EvalAgree(n: nat, P: Program, e: Expr, env: Env, env1: Env)
    requires Core(e) && Agree(VarsOf(e), env, env1)
    ensures Eval(n, P, e, env) == Eval(n, P, e, env1) && EvalSpine(n, P, e, env) == EvalSpine(n, P, e, env1)
    decreases e, 1
  {
    hide Apply, EvalArgs;
    if e.App? {
      assert Core(e.es[0]) && VarsOf(e) == VarsOf(e.es[0]) + VarsOfAll(e.es[1..]);
      EvalAgree(n, P, e.es[0], env, env1);
      ArgsAgree(n, P, e.es[1..], env, env1);
    }
  }

  lemma {:induction false} ArgsAgree(n: nat, P: Program, es: seq<Expr>, env: Env, env1: Env)
    requires Cores(es) && Agree(VarsOfAll(es), env, env1)
    ensures EvalArgs(n, P, es, env) == EvalArgs(n, P, es, env1)
    decreases es, 0
  {
    hide Eval, EvalSpine;
    if es != [] {
      EvalAgree(n, P, es[0], env, env1);
      ArgsAgree(n, P, es[1..], env, env1);
    }
  }

  // Evaluating named redexes

  datatype Bound = Bound(env: Env) | Broken(r: Res)

  /** The values of the named redexes, in order. */
  function EvalNamed(n: nat, P: Program, rs: seq<Named>, env: Env): Bound {
    if rs == [] then Bound(env)
    else
      var w := Eval(n, P, rs[0].rhs, env);
      if w.Val? then EvalNamed(n, P, rs[1..], env[rs[0].x := w.t]) else Broken(w)
  }

  lemma {:induction false} WrapEval(n: nat, P: Program, rs: seq<Named>, e: Expr, env: Env, extra: seq<Term>)
    ensures EvalRoot(n, P, Wrap(rs, e), env, extra) ==
      var b := EvalNamed(n, P, rs, env);
      if b.Bound? then EvalRoot(n, P, e, b.env, extra) else b.r
    decreases |rs|
  {
    hide Eval, EvalSpine;
    if rs != [] {
      var w := Eval(n, P, rs[0].rhs, env);
      if w.Val? {
        WrapEval(n, P, rs[1..], e, env[rs[0].x := w.t], extra);
      }
    }
  }

  lemma {:induction false} NamedAppend(n: nat, P: Program, rs: seq<Named>, rs1: seq<Named>, env: Env)
    ensures EvalNamed(n, P, rs + rs1, env) ==
      var b := EvalNamed(n, P, rs, env);
      if b.Bound? then EvalNamed(n, P, rs1, b.env) else b
    decreases |rs|
  {
    hide Eval;
    if rs == [] {
      assert rs + rs1 == rs1;
    } else {
      assert (rs + rs1)[1..] == rs[1..] + rs1;
      var w := Eval(n, P, rs[0].rhs, env);
      if w.Val? {
        NamedAppend(n, P, rs[1..], rs1, env[rs[0].x := w.t]);
      }
    }
  }

  // Shape: let-normal form

  /** The names with numbers t up to t1. */
  function NameSet(t: nat, t1: nat): set<Name> {
    set i: nat | t <= i < t1 :: RedexName(i)
  }

  /** No name from number t on is taken. */
  ghost predicate Fresh(s: set<Name>, t: nat) {
    forall i: nat :: t <= i ==> RedexName(i) !in s
  }

  ghost predicate NamedOk(ds: set<Symbol>, s: set<Name>, t: nat, rs: seq<Named>) {
    forall j :: 0 <= j < |rs| ==>
      && rs[j].x == RedexName(t + j) && RedexTree(ds, rs[j].rhs) && !rs[j].rhs.Var?
      && VarsOf(rs[j].rhs) <= s + NameSet(t, t + j)
  }

  lemma NamedJoin(ds: set<Symbol>, s: set<Name>, t: nat, rs: seq<Named>, rs1: seq<Named>)
    requires NamedOk(ds, s, t, rs) && NamedOk(ds, s, t + |rs|, rs1)
    ensures NamedOk(ds, s, t, rs + rs1)
  {
    hide RedexTree, VarsOf, RedexName;
    forall j | |rs| <= j < |rs| + |rs1| ensures (rs + rs1)[j].x == RedexName(t + j) && RedexTree(ds, (rs + rs1)[j].rhs) && !(rs + rs1)[j].rhs.Var? && VarsOf((rs + rs1)[j].rhs) <= s + NameSet(t, t + j) {
      assert (rs + rs1)[j] == rs1[j - |rs|];
      assert NameSet(t + |rs|, t + j) <= NameSet(t, t + j);
    }
  }

  lemma NamedOne(ds: set<Symbol>, s: set<Name>, t: nat, rs: seq<Named>, e: Expr)
    requires NamedOk(ds, s, t, rs) && RedexTree(ds, e) && !e.Var? && VarsOf(e) <= s + NameSet(t, t + |rs|)
    ensures NamedOk(ds, s, t, rs + [Named(RedexName(t + |rs|), e)])
  {
    hide RedexTree, VarsOf, RedexName;
  }

  ghost predicate PassOk(ds: set<Symbol>, s: set<Name>, t: nat, p: Pass) {
    TreeOk(ds, p.e) && VarsOf(p.e) <= s + NameSet(t, p.t) && NamedOk(ds, s, t, p.rs) && p.t == t + |p.rs|
  }

  ghost predicate PassesOk(ds: set<Symbol>, s: set<Name>, t: nat, n: nat, p: Passes) {
    |p.es| == n && TreesOk(ds, p.es) && VarsOfAll(p.es) <= s + NameSet(t, p.t) && NamedOk(ds, s, t, p.rs) && p.t == t + |p.rs|
  }

  lemma NameItOk(ds: set<Symbol>, s: set<Name>, t: nat, e: Expr, rs: seq<Named>)
    requires NamedOk(ds, s, t, rs) && RedexTree(ds, e) && !e.Var? && VarsOf(e) <= s + NameSet(t, t + |rs|)
    ensures PassOk(ds, s, t, NameIt(e, t + |rs|, rs))
  {
    hide RedexTree, NamedOk, RedexName;
    NamedOne(ds, s, t, rs, e);
    assert RedexName(t + |rs|) in NameSet(t, t + |rs| + 1);
  }

  lemma JoinPasses(ds: set<Symbol>, s: set<Name>, t: nat, p: Pass, n: nat, q: Passes)
    requires PassOk(ds, s, t, p) && PassesOk(ds, s, p.t, n, q)
    ensures PassesOk(ds, s, t, n + 1, Passes([p.e] + q.es, q.t, p.rs + q.rs))
  {
    hide TreeOk, NamedOk, RedexName;
    NamedJoin(ds, s, t, p.rs, q.rs);
    assert ([p.e] + q.es)[1..] == q.es;
    assert NameSet(t, p.t) <= NameSet(t, q.t) && NameSet(p.t, q.t) <= NameSet(t, q.t);
  }

  /** The cases of an application. */
  lemma AppCases(ds: set<Symbol>, s: set<Name>, e: Expr)
    requires e.App? && Core(e) && VarsOf(e) <= s
    ensures |e.es| >= 2 && Core(e.es[0]) && Cores(e.es[1..]) && Cores(e.es) && !e.es[0].App? && !e.es[0].Let?
    ensures VarsOf(e.es[0]) <= s && VarsOfAll(e.es[1..]) <= s && VarsOfAll(e.es) <= s
    ensures !IsRedex(ds, e.es[0]) ==> e.es[0].Const?
  {
  }

  lemma {:induction false} InnerShape(ds: set<Symbol>, s: set<Name>, t: nat, e: Expr)
    requires Core(e) && VarsOf(e) <= s
    ensures PassOk(ds, s, t, Inner(ds, t, e))
    decreases e, 1
  {
    match e
    case Const(_) =>
      if IsRedex(ds, e) {
        NameItOk(ds, s, t, e, []);
      }
    case Var(_) =>
    case App(es) =>
      AppShapeOk(ds, s, t, e);
  }

  lemma {:induction false} AppShapeOk(ds: set<Symbol>, s: set<Name>, t: nat, e: Expr)
    requires e.App? && Core(e) && VarsOf(e) <= s
    ensures PassOk(ds, s, t, Inner(ds, t, e))
    decreases e, 0
  {
    hide PassesOk, PassOk, NamedOk, Core, Cores, VarsOf, VarsOfAll, Inners, Inner, IsRedex, RedexTree, NameIt;
    AppCases(ds, s, e);
    InnerApp(ds, t, e);
    if IsRedex(ds, e.es[0]) {
      InnersShape(ds, s, t, e.es[1..]);
      RedexPass(ds, s, t, e.es[0], |e.es| - 1, Inners(ds, t, e.es[1..]));
    } else {
      InnersShape(ds, s, t, e.es);
      InnersHead(ds, t, e.es);
      TreePass(ds, s, t, |e.es|, Inners(ds, t, e.es), e.es[0]);
    }
  }

  lemma InnerApp(ds: set<Symbol>, t: nat, e: Expr)
    requires e.App? && e.es != [] && !e.es[0].App?
    ensures Inner(ds, t, e) ==
      if IsRedex(ds, e.es[0])
      then NameIt(App([e.es[0]] + Inners(ds, t, e.es[1..]).es), Inners(ds, t, e.es[1..]).t, Inners(ds, t, e.es[1..]).rs)
      else Pass(App(Inners(ds, t, e.es).es), Inners(ds, t, e.es).t, Inners(ds, t, e.es).rs)
    ensures Root(ds, e) ==
      if IsRedex(ds, e.es[0])
      then Pass(App([e.es[0]] + Inners(ds, 0, e.es[1..]).es), Inners(ds, 0, e.es[1..]).t, Inners(ds, 0, e.es[1..]).rs)
      else Pass(App(Inners(ds, 0, e.es).es), Inners(ds, 0, e.es).t, Inners(ds, 0, e.es).rs)
  {
    hide Inners, NameIt;
  }

  /** A head that is no redex stays. */
  lemma InnersHead(ds: set<Symbol>, t: nat, es: seq<Expr>)
    requires es != [] && es[0].Const? && !IsRedex(ds, es[0])
    ensures Inners(ds, t, es) == Passes([es[0]] + Inners(ds, t, es[1..]).es, Inners(ds, t, es[1..]).t, Inners(ds, t, es[1..]).rs)
  {
    assert [] + Inners(ds, t, es[1..]).rs == Inners(ds, t, es[1..]).rs;
  }

  lemma RedexPass(ds: set<Symbol>, s: set<Name>, t: nat, f: Expr, n: nat, p: Passes)
    requires IsRedex(ds, f) && !f.App? && VarsOf(f) <= s && n > 0 && PassesOk(ds, s, t, n, p)
    ensures RedexTree(ds, App([f] + p.es)) && VarsOf(App([f] + p.es)) <= s + NameSet(t, p.t)
    ensures PassOk(ds, s, t, NameIt(App([f] + p.es), p.t, p.rs))
  {
    hide NamedOk, TreesOk, NameIt, RedexName;
    assert ([f] + p.es)[1..] == p.es;
    NameItOk(ds, s, t, App([f] + p.es), p.rs);
  }

  lemma TreePass(ds: set<Symbol>, s: set<Name>, t: nat, n: nat, p: Passes, f: Expr)
    requires PassesOk(ds, s, t, n, p) && n >= 2 && f.Const? && p.es[0] == f
    ensures PassOk(ds, s, t, Pass(App(p.es), p.t, p.rs))
  {
    hide NamedOk;
  }

  lemma {:induction false} InnersShape(ds: set<Symbol>, s: set<Name>, t: nat, es: seq<Expr>)
    requires Cores(es) && VarsOfAll(es) <= s
    ensures PassesOk(ds, s, t, |es|, Inners(ds, t, es))
    decreases es, 0
  {
    if es != [] {
      InnerShape(ds, s, t, es[0]);
      var p := Inner(ds, t, es[0]);
      InnersShape(ds, s, p.t, es[1..]);
      hide Inner, PassesOk, PassOk;
      JoinPasses(ds, s, t, p, |es[1..]|, Inners(ds, p.t, es[1..]));
    }
  }

  // Every name is used exactly once.

  function CountNamed(v: Name, rs: seq<Named>): nat {
    if rs == [] then 0 else Count(v, rs[0].rhs) + CountNamed(v, rs[1..])
  }

  lemma {:induction false} CountNamedAppend(v: Name, rs: seq<Named>, rs1: seq<Named>)
    ensures CountNamed(v, rs + rs1) == CountNamed(v, rs) + CountNamed(v, rs1)
    decreases |rs|
  {
    if rs == [] {
      assert rs + rs1 == rs1;
    } else {
      assert (rs + rs1)[1..] == rs[1..] + rs1;
      CountNamedAppend(v, rs[1..], rs1);
    }
  }

  lemma {:induction false} CountNamedNone(ds: set<Symbol>, v: Name, rs: seq<Named>)
    requires forall j :: 0 <= j < |rs| ==> RedexTree(ds, rs[j].rhs) && v !in VarsOf(rs[j].rhs)
    ensures CountNamed(v, rs) == 0
    decreases |rs|
  {
    hide RedexTree, VarsOf, Count;
    if rs != [] {
      RedexCore(ds, rs[0].rhs);
      CountVars(v, rs[0].rhs);
      CountNamedNone(ds, v, rs[1..]);
    }
  }

  lemma RedexCore(ds: set<Symbol>, e: Expr)
    requires RedexTree(ds, e)
    ensures Core(e) && !e.Let?
  {
    RedexIsCore(ds, e);
  }

  /** Names from number i on do not occur in what was named before. */
  lemma NamedBefore(ds: set<Symbol>, s: set<Name>, t: nat, rs: seq<Named>, i: nat)
    requires NamedOk(ds, s, t, rs) && t + |rs| <= i + 1 && Fresh(s, t)
    ensures i >= t ==> CountNamed(RedexName(i), rs) == 0
  {
    hide RedexTree, VarsOf, RedexName, CountNamed;
    if i >= t {
      forall j | 0 <= j < |rs| ensures RedexTree(ds, rs[j].rhs) && RedexName(i) !in VarsOf(rs[j].rhs) {
        NotNamed(t, t + j, i);
      }
      CountNamedNone(ds, RedexName(i), rs);
    }
  }

  lemma NotNamed(t: nat, t1: nat, i: nat)
    requires i < t || t1 <= i
    ensures RedexName(i) !in NameSet(t, t1)
  {
    hide RedexName;
    forall j: nat | t <= j < t1 ensures RedexName(j) != RedexName(i) {
      if RedexName(j) == RedexName(i) {
        NamesDiffer(i, j);
      }
    }
  }

  /** Names before number t do not occur in what is named from t on. */
  lemma NamedAfter(ds: set<Symbol>, s: set<Name>, t: nat, rs: seq<Named>, i: nat)
    requires NamedOk(ds, s, t, rs) && i < t && RedexName(i) !in s
    ensures CountNamed(RedexName(i), rs) == 0
  {
    hide RedexTree, VarsOf, RedexName, CountNamed;
    forall j | 0 <= j < |rs| ensures RedexTree(ds, rs[j].rhs) && RedexName(i) !in VarsOf(rs[j].rhs) {
      NotNamed(t, t + j, i);
    }
    CountNamedNone(ds, RedexName(i), rs);
  }

  lemma {:induction false} InnerOnce(ds: set<Symbol>, s: set<Name>, t: nat, e: Expr, i: nat)
    requires Core(e) && VarsOf(e) <= s && Fresh(s, t)
    ensures t <= i < Inner(ds, t, e).t ==> CountNamed(RedexName(i), Inner(ds, t, e).rs) + Count(RedexName(i), Inner(ds, t, e).e) == 1
    decreases e, 1
  {
    match e
    case Const(_) =>
      assert IsRedex(ds, e) ==> Inner(ds, t, e).rs[1..] == [];
    case Var(_) =>
    case App(_) => AppOnce(ds, s, t, e, i);
  }

  lemma {:induction false} AppOnce(ds: set<Symbol>, s: set<Name>, t: nat, e: Expr, i: nat)
    requires e.App? && Core(e) && VarsOf(e) <= s && Fresh(s, t)
    ensures t <= i < Inner(ds, t, e).t ==> CountNamed(RedexName(i), Inner(ds, t, e).rs) + Count(RedexName(i), Inner(ds, t, e).e) == 1
    decreases e, 0
  {
    hide Core, Cores, VarsOf, VarsOfAll, Inners, Inner, IsRedex, RedexName, Count, CountNamed, NameIt, Fresh, PassesOk;
    AppCases(ds, s, e);
    InnerApp(ds, t, e);
    if IsRedex(ds, e.es[0]) {
      var p := Inners(ds, t, e.es[1..]);
      InnersOnce(ds, s, t, e.es[1..], i);
      InnersShape(ds, s, t, e.es[1..]);
      RedexOnce(ds, s, t, e.es[0], |e.es| - 1, p, i);
    } else {
      InnersOnce(ds, s, t, e.es, i);
      AppCount(RedexName(i), Inners(ds, t, e.es).es);
    }
  }

  lemma AppCount(v: Name, es: seq<Expr>)
    ensures Count(v, App(es)) == Counts(v, es)
  {
  }

  lemma RedexOnce(ds: set<Symbol>, s: set<Name>, t: nat, f: Expr, n: nat, p: Passes, i: nat)
    requires IsRedex(ds, f) && !f.App? && VarsOf(f) <= s && n > 0 && PassesOk(ds, s, t, n, p) && Fresh(s, t)
    requires t <= i < p.t ==> CountNamed(RedexName(i), p.rs) + Counts(RedexName(i), p.es) == 1
    ensures var q := NameIt(App([f] + p.es), p.t, p.rs);
            t <= i < q.t ==> CountNamed(RedexName(i), q.rs) + Count(RedexName(i), q.e) == 1
  {
    hide PassesOk, RedexName, NamedOk, TreesOk, IsRedex, VarsOf, CountNamed, Count, RedexTree;
    var v := RedexName(i);
    var r := App([f] + p.es);
    if t <= i < p.t + 1 {
      OneCount(v, Named(RedexName(p.t), r));
      CountNamedAppend(v, p.rs, [Named(RedexName(p.t), r)]);
      VarCount(v, RedexName(p.t));
      RedexPass(ds, s, t, f, n, p);
      HeadCount(ds, s, f, v);
      RedexCount(f, p.es, v);
      if i < p.t {
        if v == RedexName(p.t) {
          NamesDiffer(i, p.t);
        }
      } else {
        PassesNamed(ds, s, t, n, p);
        NamedBefore(ds, s, t, p.rs, i);
        NotNamed(t, p.t, i);
        RedexCore(ds, r);
        CountVars(v, r);
      }
    }
  }

  lemma PassesNamed(ds: set<Symbol>, s: set<Name>, t: nat, n: nat, p: Passes)
    requires PassesOk(ds, s, t, n, p)
    ensures NamedOk(ds, s, t, p.rs) && p.t == t + |p.rs|
  {
  }

  lemma OneCount(v: Name, r: Named)
    ensures CountNamed(v, [r]) == Count(v, r.rhs)
  {
    assert [r][1..] == [];
  }

  lemma VarCount(v: Name, w: Name)
    ensures Count(v, Var(w)) == if v == w then 1 else 0
  {
  }

  lemma HeadCount(ds: set<Symbol>, s: set<Name>, f: Expr, v: Name)
    requires IsRedex(ds, f) && !f.App? && VarsOf(f) <= s && v !in s
    ensures Count(v, f) == 0
  {
  }

  lemma RedexCount(f: Expr, es: seq<Expr>, v: Name)
    ensures Count(v, App([f] + es)) == Count(v, f) + Counts(v, es)
  {
    assert ([f] + es)[1..] == es;
  }

  lemma {:induction false} InnersOnce(ds: set<Symbol>, s: set<Name>, t: nat, es: seq<Expr>, i: nat)
    requires Cores(es) && VarsOfAll(es) <= s && Fresh(s, t)
    ensures t <= i < Inners(ds, t, es).t ==> CountNamed(RedexName(i), Inners(ds, t, es).rs) + Counts(RedexName(i), Inners(ds, t, es).es) == 1
    decreases es, 0
  {
    hide RedexName, Inner, CountNamed, Count, Counts, PassOk, PassesOk, Core, VarsOf, NamedOk;
    if es != [] {
      var p := Inner(ds, t, es[0]);
      var q := Inners(ds, p.t, es[1..]);
      InnerShape(ds, s, t, es[0]);
      InnersShape(ds, s, p.t, es[1..]);
      PassNamed(ds, s, t, p);
      InnerOnce(ds, s, t, es[0], i);
      InnersOnce(ds, s, p.t, es[1..], i);
      CountNamedAppend(RedexName(i), p.rs, q.rs);
      ConsCount(RedexName(i), p.e, q.es);
      if t <= i < p.t {
        OnceFirst(ds, s, p.t, |es| - 1, q, i);
      } else if p.t <= i < q.t {
        OnceLater(ds, s, t, p, i);
      }
    }
  }

  lemma PassNamed(ds: set<Symbol>, s: set<Name>, t: nat, p: Pass)
    requires PassOk(ds, s, t, p)
    ensures NamedOk(ds, s, t, p.rs) && p.t == t + |p.rs| && TreeOk(ds, p.e) && VarsOf(p.e) <= s + NameSet(t, p.t)
  {
  }

  lemma ConsCount(v: Name, e: Expr, es: seq<Expr>)
    ensures Counts(v, [e] + es) == Count(v, e) + Counts(v, es)
  {
    assert ([e] + es)[1..] == es;
  }

  lemma OnceFirst(ds: set<Symbol>, s: set<Name>, t: nat, n: nat, q: Passes, i: nat)
    requires i < t && RedexName(i) !in s && PassesOk(ds, s, t, n, q)
    ensures CountNamed(RedexName(i), q.rs) == 0 && Counts(RedexName(i), q.es) == 0
  {
    hide RedexName, NamedOk, TreesOk, VarsOfAll, Counts, CountNamed;
    NamedAfter(ds, s, t, q.rs, i);
    NotNamed(t, q.t, i);
    TreesAreCore(ds, q.es);
    CountsVars(RedexName(i), q.es);
  }

  lemma OnceLater(ds: set<Symbol>, s: set<Name>, t: nat, p: Pass, i: nat)
    requires p.t <= i && PassOk(ds, s, t, p) && Fresh(s, t) && t <= i
    ensures CountNamed(RedexName(i), p.rs) == 0 && Count(RedexName(i), p.e) == 0
  {
    hide RedexName, NamedOk, TreeOk, VarsOf, Count, CountNamed;
    NamedBefore(ds, s, t, p.rs, i);
    NotNamed(t, p.t, i);
    TreeIsCore(ds, p.e);
    TreeNoLet(ds, p.e);
    CountVars(RedexName(i), p.e);
  }

  lemma TreeNoLet(ds: set<Symbol>, e: Expr)
    requires TreeOk(ds, e)
    ensures !e.Let?
  {
  }

  // Bodies

  lemma {:induction false} WrapCount(v: Name, rs: seq<Named>, e: Expr)
    ensures Count(v, Wrap(rs, e)) == CountNamed(v, rs) + Count(v, e)
    decreases |rs|
  {
    if rs != [] {
      WrapCount(v, rs[1..], e);
    }
  }

  /** A root that is a redex of trees or a tree. */
  ghost predicate BodyEnd(ds: set<Symbol>, s: set<Name>, e: Expr) {
    !e.Let? && VarsOf(e) <= s && if IsRedex(ds, e) then RedexTree(ds, e) else TreeOk(ds, e)
  }

  ghost predicate RootOk(ds: set<Symbol>, s: set<Name>, p: Pass) {
    && BodyEnd(ds, s + NameSet(0, p.t), p.e) && NamedOk(ds, s, 0, p.rs) && p.t == |p.rs|
    && (p.rs != [] ==> p.e.App?)
    && forall i: nat :: 0 <= i < p.t ==> CountNamed(RedexName(i), p.rs) + Count(RedexName(i), p.e) == 1
  }

  lemma RootShape(ds: set<Symbol>, s: set<Name>, e: Expr)
    requires Core(e) && VarsOf(e) <= s && Fresh(s, 0)
    ensures RootOk(ds, s, Root(ds, e))
  {
    hide Core, VarsOf, RedexName, Count, CountNamed, PassOk, Inner, Root, RedexTree, NamedOk, PassesOk, TreeOk, Fresh;
    if e.App? {
      AppRootShape(ds, s, e);
    } else {
      LeafRoot(ds, s, e);
    }
  }

  lemma LeafRoot(ds: set<Symbol>, s: set<Name>, e: Expr)
    requires Core(e) && !e.App? && VarsOf(e) <= s
    ensures RootOk(ds, s, Root(ds, e))
  {
  }

  lemma AppRootShape(ds: set<Symbol>, s: set<Name>, e: Expr)
    requires e.App? && Core(e) && VarsOf(e) <= s && Fresh(s, 0)
    ensures RootOk(ds, s, Root(ds, e))
  {
    hide Core, Cores, VarsOf, VarsOfAll, RedexName, Count, Counts, CountNamed, PassOk, Inner, Inners, Root, RedexTree, NamedOk, PassesOk, TreeOk, Fresh, IsRedex, BodyEnd;
    AppCases(ds, s, e);
    InnerApp(ds, 0, e);
    if IsRedex(ds, e.es[0]) {
      var p := Inners(ds, 0, e.es[1..]);
      InnersShape(ds, s, 0, e.es[1..]);
      RedexPass(ds, s, 0, e.es[0], |e.es| - 1, p);
      PassesNamed(ds, s, 0, |e.es| - 1, p);
      EndRedex(ds, s + NameSet(0, p.t), e.es[0], p.es);
      forall i: nat | 0 <= i < p.t ensures CountNamed(RedexName(i), p.rs) + Count(RedexName(i), App([e.es[0]] + p.es)) == 1 {
        InnersOnce(ds, s, 0, e.es[1..], i);
        RedexCount(e.es[0], p.es, RedexName(i));
        HeadFresh(ds, s, e.es[0], i);
      }
    } else {
      var p := Inners(ds, 0, e.es);
      InnersShape(ds, s, 0, e.es);
      InnersHead(ds, 0, e.es);
      TreePass(ds, s, 0, |e.es|, p, e.es[0]);
      PassNamed(ds, s, 0, Pass(App(p.es), p.t, p.rs));
      EndTree(ds, s + NameSet(0, p.t), p.es);
      forall i: nat | 0 <= i < p.t ensures CountNamed(RedexName(i), p.rs) + Count(RedexName(i), App(p.es)) == 1 {
        InnersOnce(ds, s, 0, e.es, i);
        AppCount(RedexName(i), p.es);
      }
    }
  }

  lemma HeadFresh(ds: set<Symbol>, s: set<Name>, f: Expr, i: nat)
    requires IsRedex(ds, f) && !f.App? && VarsOf(f) <= s && Fresh(s, 0)
    ensures Count(RedexName(i), f) == 0
  {
    hide RedexName;
    HeadCount(ds, s, f, RedexName(i));
  }

  lemma EndRedex(ds: set<Symbol>, s: set<Name>, f: Expr, es: seq<Expr>)
    requires IsRedex(ds, f) && RedexTree(ds, App([f] + es)) && VarsOf(App([f] + es)) <= s
    ensures BodyEnd(ds, s, App([f] + es))
  {
  }

  lemma EndTree(ds: set<Symbol>, s: set<Name>, es: seq<Expr>)
    requires TreeOk(ds, App(es)) && VarsOf(App(es)) <= s
    ensures BodyEnd(ds, s, App(es))
  {
    TreeIsCore(ds, App(es));
  }

  /** The lets from number j on, around the rest. */
  lemma {:induction false} WrapOk(ds: set<Symbol>, s: set<Name>, p: Pass, j: nat)
    requires RootOk(ds, s, p) && Fresh(s, 0) && j <= |p.rs|
    ensures BodyOk(ds, s + NameSet(0, j), Wrap(p.rs[j..], p.e))
    decreases |p.rs| - j
  {
    hide VarsOf, RedexName, Count, CountNamed, RedexTree, TreeOk, IsRedex, Fresh;
    if j == |p.rs| {
      assert p.rs[j..] == [];
    } else {
      WrapOk(ds, s, p, j + 1);
      assert p.rs[j..][1..] == p.rs[j + 1..] && p.rs[j..][0] == p.rs[j];
      NextName(ds, s, p, j);
      assert s + NameSet(0, j) + {RedexName(j)} == s + NameSet(0, j + 1);
      WrapNoVar(p, j + 1);
    }
  }

  lemma WrapNoVar(p: Pass, j: nat)
    requires j <= |p.rs| && p.e.App?
    ensures !Wrap(p.rs[j..], p.e).Var?
  {
  }

  lemma NextName(ds: set<Symbol>, s: set<Name>, p: Pass, j: nat)
    requires RootOk(ds, s, p) && Fresh(s, 0) && j < |p.rs|
    ensures RedexName(j) !in s + NameSet(0, j) && RedexName(j) in NameSet(0, j + 1) && NameSet(0, j + 1) == NameSet(0, j) + {RedexName(j)}
    ensures Count(RedexName(j), Wrap(p.rs[j + 1..], p.e)) == 1
  {
    hide VarsOf, RedexName, Count, CountNamed, RedexTree, TreeOk, IsRedex, BodyEnd;
    NotNamed(0, j, j);
    NamedPrefix(ds, s, p.rs, j + 1);
    NamedBefore(ds, s, 0, p.rs[..j + 1], j);
    assert p.rs == p.rs[..j + 1] + p.rs[j + 1..];
    CountNamedAppend(RedexName(j), p.rs[..j + 1], p.rs[j + 1..]);
    WrapCount(RedexName(j), p.rs[j + 1..], p.e);
  }

  lemma NamedPrefix(ds: set<Symbol>, s: set<Name>, rs: seq<Named>, j: nat)
    requires NamedOk(ds, s, 0, rs) && j <= |rs|
    ensures NamedOk(ds, s, 0, rs[..j])
  {
    hide VarsOf, RedexName, RedexTree;
  }

  /** The result is in let-normal form: every name is bound once and used once, and there is no inner redex. */
  lemma RedexedOk(ds: set<Symbol>, s: set<Name>, e: Expr)
    requires Core(e) && VarsOf(e) <= s && Fresh(s, 0)
    ensures BodyOk(ds, s, Redexed(ds, e))
  {
    hide Core, VarsOf, Root, RootOk, BodyOk, Fresh;
    RootShape(ds, s, e);
    var p := Root(ds, e);
    WrapOk(ds, s, p, 0);
    assert p.rs[0..] == p.rs;
    NoNames(s);
  }

  lemma NoNames(s: set<Name>)
    ensures s + NameSet(0, 0) == s
  {
  }

  // Meaning

  ghost predicate Grown(env: Env, env1: Env, t: nat, t1: nat) {
    env1.Keys == env.Keys + NameSet(t, t1) && forall v :: v in env ==> v in env1 && env1[v] == env[v]
  }

  lemma GrownTrans(env: Env, env1: Env, env2: Env, t: nat, t1: nat, t2: nat)
    requires Grown(env, env1, t, t1) && Grown(env1, env2, t1, t2) && t <= t1 <= t2
    ensures Grown(env, env2, t, t2)
  {
    hide RedexName;
    assert NameSet(t, t2) == NameSet(t, t1) + NameSet(t1, t2) by {
      forall v | v in NameSet(t, t2) ensures v in NameSet(t, t1) + NameSet(t1, t2) {
        var i: nat :| t <= i < t2 && v == RedexName(i);
        if i < t1 {
          assert v in NameSet(t, t1);
        } else {
          assert v in NameSet(t1, t2);
        }
      }
    }
  }

  lemma GrownFresh(env: Env, env1: Env, t: nat, t1: nat)
    requires Grown(env, env1, t, t1) && Fresh(env.Keys, t) && t <= t1
    ensures Fresh(env1.Keys, t1)
  {
    hide RedexName;
    forall i: nat | t1 <= i ensures RedexName(i) !in env1.Keys {
      NotNamed(t, t1, i);
    }
  }

  lemma GrownOne(env: Env, t: nat, w: Term)
    requires Fresh(env.Keys, t)
    ensures Grown(env, env[RedexName(t) := w], t, t + 1)
  {
    hide RedexName;
    assert NameSet(t, t + 1) == {RedexName(t)};
  }

  lemma NamedOnce(n: nat, P: Program, r: Named, env: Env)
    ensures EvalNamed(n, P, [r], env) == var w := Eval(n, P, r.rhs, env); if w.Val? then Bound(env[r.x := w.t]) else Broken(w)
  {
    hide Eval;
    assert [r][1..] == [];
  }

  /** Evaluating the named redexes and then what is left is evaluating the expression. */
  ghost predicate PassMeans(n: nat, P: Program, t: nat, env: Env, w: Res, p: Pass) {
    var b := EvalNamed(n, P, p.rs, env);
    if w.Val? then b.Bound? && Grown(env, b.env, t, p.t) && Eval(n, P, p.e, b.env) == w else b == Broken(w)
  }

  ghost predicate PassesMean(n: nat, P: Program, t: nat, env: Env, v: Vals, p: Passes) {
    var b := EvalNamed(n, P, p.rs, env);
    if v.Vals? then b.Bound? && Grown(env, b.env, t, p.t) && EvalArgs(n, P, p.es, b.env) == v else b == Broken(v.r)
  }

  lemma NameItMeans(n: nat, P: Program, t: nat, env: Env, e: Expr, t1: nat, rs: seq<Named>, w: Res)
    requires Fresh(env.Keys, t) && t <= t1
    requires var b := EvalNamed(n, P, rs, env);
             if b.Bound? then Grown(env, b.env, t, t1) && Eval(n, P, e, b.env) == w else !w.Val? && b.r == w
    ensures PassMeans(n, P, t, env, w, NameIt(e, t1, rs))
  {
    hide RedexName, Grown, EvalNamed, Fresh;
    var b := EvalNamed(n, P, rs, env);
    NamedAppend(n, P, rs, [Named(RedexName(t1), e)], env);
    if b.Bound? {
      NamedOnce(n, P, Named(RedexName(t1), e), b.env);
      GrownFresh(env, b.env, t, t1);
      if w.Val? {
        GrownOne(b.env, t1, w.t);
        GrownTrans(env, b.env, b.env[RedexName(t1) := w.t], t, t1, t1 + 1);
      }
    }
  }

  lemma {:induction false} InnerMeans(n: nat, P: Program, ds: set<Symbol>, t: nat, e: Expr, env: Env)
    requires Core(e) && VarsOf(e) <= env.Keys && Fresh(env.Keys, t) && DataOk(P, ds)
    ensures PassMeans(n, P, t, env, Eval(n, P, e, env), Inner(ds, t, e))
    decreases e, 1
  {
    hide Core, VarsOf, Eval, EvalNamed, Inner, Fresh, DataOk, IsRedex, PassMeans, RedexName, Grown;
    match e
    case Const(a) => ConstMeans(n, P, ds, t, a, env);
    case Var(_) => VarMeans(n, P, ds, t, e, env);
    case App(_) => AppMeans(n, P, ds, t, e, env);
    case Let(_, _, _) => NoLet(e);
  }

  lemma NoLet(e: Expr)
    requires Core(e)
    ensures !e.Let?
  {
  }

  lemma NothingNamed(n: nat, P: Program, t: nat, env: Env)
    ensures EvalNamed(n, P, [], env) == Bound(env) && Grown(env, env, t, t)
  {
  }

  lemma ConstMeans(n: nat, P: Program, ds: set<Symbol>, t: nat, a: Atom, env: Env)
    requires Fresh(env.Keys, t) && DataOk(P, ds)
    ensures PassMeans(n, P, t, env, Eval(n, P, Const(a), env), Inner(ds, t, Const(a)))
  {
    hide Fresh, DataOk, RedexName, Grown, EvalNamed, Eval, NameIt;
    NothingNamed(n, P, t, env);
    if IsRedex(ds, Const(a)) {
      NameItMeans(n, P, t, env, Const(a), t, [], Eval(n, P, Const(a), env));
    } else {
      ConstValue(n, P, ds, a, env);
    }
  }

  lemma VarMeans(n: nat, P: Program, ds: set<Symbol>, t: nat, e: Expr, env: Env)
    requires e.Var? && VarsOf(e) <= env.Keys
    ensures PassMeans(n, P, t, env, Eval(n, P, e, env), Inner(ds, t, e))
  {
    hide Grown, EvalNamed;
    NothingNamed(n, P, t, env);
  }

  /** Evaluating a flat application whose head is no application. */
  lemma AppEval(n: nat, P: Program, f: Expr, es: seq<Expr>, env: Env, extra: seq<Term>)
    requires (f.Const? || (f.Var? && f.v in env)) && es != []
    ensures var g := if f.Const? then Leaf(f.a) else env[f.v];
            var v := EvalArgs(n, P, es, env);
            && Eval(n, P, App([f] + es), env) == (if v.Vals? then Apply(n, P, g, v.ts) else v.r)
            && EvalRoot(n, P, App([f] + es), env, extra) == (if v.Vals? then Apply(n, P, g, v.ts + extra) else v.r)
  {
    hide Eval, EvalRoot, EvalArgs, EvalSpine, Apply;
    assert ([f] + es)[1..] == es;
    SpineShape(n, P, App([f] + es), env);
    EvalShape(n, P, App([f] + es), env, extra);
  }

  lemma {:induction false} AppMeans(n: nat, P: Program, ds: set<Symbol>, t: nat, e: Expr, env: Env)
    requires e.App? && Core(e) && VarsOf(e) <= env.Keys && Fresh(env.Keys, t) && DataOk(P, ds)
    ensures PassMeans(n, P, t, env, Eval(n, P, e, env), Inner(ds, t, e))
    decreases e, 0
  {
    hide Core, Cores, VarsOf, VarsOfAll, Eval, EvalArgs, EvalNamed, Inner, Inners, Fresh, DataOk, IsRedex, PassMeans, PassesMean, RedexName, Grown, NameIt, PassesOk;
    AppCases(ds, env.Keys, e);
    var f, es := e.es[0], e.es[1..];
    HeadBound(f, env);
    assert [f] + es == e.es;
    InnerApp(ds, t, e);
    AppEval(n, P, f, es, env, []);
    InnersMean(n, P, ds, t, es, env);
    InnersShape(ds, env.Keys, t, es);
    var p := Inners(ds, t, es);
    PassesNamed(ds, env.Keys, t, |es|, p);
    PassesSize(ds, env.Keys, t, |es|, p);
    if IsRedex(ds, f) {
      RedexMeans(n, P, t, env, f, p, EvalArgs(n, P, es, env), Eval(n, P, e, env));
    } else {
      InnersHead(ds, t, e.es);
      TreeMeans(n, P, ds, t, env, f, p, EvalArgs(n, P, es, env), Eval(n, P, e, env));
    }
  }

  lemma HeadBound(f: Expr, env: Env)
    requires !f.App? && !f.Let? && VarsOf(f) <= env.Keys
    ensures f.Const? || (f.Var? && f.v in env)
  {
  }

  lemma PassesSize(ds: set<Symbol>, s: set<Name>, t: nat, n: nat, p: Passes)
    requires PassesOk(ds, s, t, n, p)
    ensures |p.es| == n
  {
  }

  lemma RedexMeans(n: nat, P: Program, t: nat, env: Env, f: Expr, p: Passes, v: Vals, w: Res)
    requires (f.Const? || (f.Var? && f.v in env)) && p.es != [] && t <= p.t && Fresh(env.Keys, t)
    requires PassesMean(n, P, t, env, v, p)
    requires w == if v.Vals? then Apply(n, P, if f.Const? then Leaf(f.a) else env[f.v], v.ts) else v.r
    requires v.Stop? ==> !v.r.Val?
    ensures PassMeans(n, P, t, env, w, NameIt(App([f] + p.es), p.t, p.rs))
  {
    hide RedexName, EvalNamed, Fresh, Eval, EvalArgs, Apply, NameIt;
    var b := EvalNamed(n, P, p.rs, env);
    if v.Vals? {
      AppEval(n, P, f, p.es, b.env, []);
    }
    NameItMeans(n, P, t, env, App([f] + p.es), p.t, p.rs, w);
  }

  lemma TreeMeans(n: nat, P: Program, ds: set<Symbol>, t: nat, env: Env, f: Expr, p: Passes, v: Vals, w: Res)
    requires f.Const? && !IsRedex(ds, f) && p.es != [] && DataOk(P, ds)
    requires PassesMean(n, P, t, env, v, p)
    requires w == if v.Vals? then Apply(n, P, Leaf(f.a), v.ts) else v.r
    requires v.Stop? ==> !v.r.Val?
    ensures PassMeans(n, P, t, env, w, Pass(App([f] + p.es), p.t, p.rs))
  {
    hide RedexName, EvalNamed, Eval, EvalArgs, Apply, Grown, DataOk;
    if v.Vals? {
      var b := EvalNamed(n, P, p.rs, env);
      AppEval(n, P, f, p.es, b.env, []);
      PlainApply(n, P, ds, f.a, v.ts);
    }
  }

  lemma {:induction false} StopsFail(n: nat, P: Program, es: seq<Expr>, env: Env)
    ensures EvalArgs(n, P, es, env).Stop? ==> !EvalArgs(n, P, es, env).r.Val?
    decreases es
  {
    hide Eval;
    if es != [] {
      StopsFail(n, P, es[1..], env);
    }
  }

  lemma {:induction false} InnersMean(n: nat, P: Program, ds: set<Symbol>, t: nat, es: seq<Expr>, env: Env)
    requires Cores(es) && VarsOfAll(es) <= env.Keys && Fresh(env.Keys, t) && DataOk(P, ds)
    ensures PassesMean(n, P, t, env, EvalArgs(n, P, es, env), Inners(ds, t, es))
    ensures EvalArgs(n, P, es, env).Stop? ==> !EvalArgs(n, P, es, env).r.Val?
    decreases es, 0
  {
    hide Cores, VarsOfAll, EvalNamed, Inners, Fresh, DataOk, RedexName, Grown, EvalArgs;
    StopsFail(n, P, es, env);
    if es == [] {
      InnersNone(n, P, ds, t, env);
      NothingNamed(n, P, t, env);
    } else {
      InnersStep(n, P, ds, t, es, env);
    }
  }

  lemma InnersNone(n: nat, P: Program, ds: set<Symbol>, t: nat, env: Env)
    ensures Inners(ds, t, []) == Passes([], t, []) && EvalArgs(n, P, [], env) == Vals([])
  {
  }

  lemma ArgsStep(n: nat, P: Program, ds: set<Symbol>, t: nat, es: seq<Expr>, env: Env)
    requires es != []
    ensures var p := Inner(ds, t, es[0]);
            var q := Inners(ds, p.t, es[1..]);
            Inners(ds, t, es) == Passes([p.e] + q.es, q.t, p.rs + q.rs)
    ensures var r := Eval(n, P, es[0], env);
            var v := EvalArgs(n, P, es[1..], env);
            EvalArgs(n, P, es, env) == if !r.Val? then Stop(r) else if v.Vals? then Vals([r.t] + v.ts) else Stop(v.r)
    ensures Cores(es) ==> Core(es[0]) && Cores(es[1..])
    ensures VarsOfAll(es) == VarsOf(es[0]) + VarsOfAll(es[1..])
  {
    hide Inner, Eval;
  }

  lemma {:induction false} InnersStep(n: nat, P: Program, ds: set<Symbol>, t: nat, es: seq<Expr>, env: Env)
    requires es != [] && Cores(es) && VarsOfAll(es) <= env.Keys && Fresh(env.Keys, t) && DataOk(P, ds)
    ensures PassesMean(n, P, t, env, EvalArgs(n, P, es, env), Inners(ds, t, es))
    decreases es, 0, 0
  {
    hide Core, Cores, VarsOf, VarsOfAll, EvalNamed, Inner, Inners, Fresh, DataOk, RedexName, EvalArgs, Eval, Grown, PassOk, PassesOk;
    ArgsStep(n, P, ds, t, es, env);
    var p := Inner(ds, t, es[0]);
    var q := Inners(ds, p.t, es[1..]);
    InnerMeans(n, P, ds, t, es[0], env);
    InnerShape(ds, env.Keys, t, es[0]);
    InnersShape(ds, env.Keys, p.t, es[1..]);
    PassNamed(ds, env.Keys, t, p);
    PassesNamed(ds, env.Keys, p.t, |es[1..]|, q);
    NamedAppend(n, P, p.rs, q.rs, env);
    var r := Eval(n, P, es[0], env);
    if r.Val? {
      var env0 := EvalNamed(n, P, p.rs, env).env;
      GrownFresh(env, env0, t, p.t);
      GrownAgree(env, env0, t, p.t, VarsOfAll(es[1..]));
      ArgsAgree(n, P, es[1..], env, env0);
      InnersMean(n, P, ds, p.t, es[1..], env0);
      JoinMeans(n, P, ds, t, env, env0, p, q, r.t, EvalArgs(n, P, es[1..], env));
    }
  }

  lemma GrownAgree(env: Env, env1: Env, t: nat, t1: nat, vs: set<Name>)
    requires Grown(env, env1, t, t1) && vs <= env.Keys
    ensures Agree(vs, env, env1) && vs <= env1.Keys
  {
  }

  lemma JoinMeans(n: nat, P: Program, ds: set<Symbol>, t: nat, env: Env, env0: Env, p: Pass, q: Passes, w: Term, v: Vals)
    requires EvalNamed(n, P, p.rs, env) == Bound(env0) && Grown(env, env0, t, p.t) && Eval(n, P, p.e, env0) == Val(w)
    requires PassesMean(n, P, p.t, env0, v, q) && t <= p.t <= q.t && TreeOk(ds, p.e) && VarsOf(p.e) <= env.Keys + NameSet(t, p.t)
    ensures PassesMean(n, P, t, env, if v.Vals? then Vals([w] + v.ts) else v, Passes([p.e] + q.es, q.t, p.rs + q.rs))
  {
    hide EvalNamed, RedexName, Eval, EvalArgs, Grown, VarsOf, TreeOk, Core;
    NamedAppend(n, P, p.rs, q.rs, env);
    if v.Vals? {
      var env1 := EvalNamed(n, P, q.rs, env0).env;
      GrownTrans(env, env0, env1, t, p.t, q.t);
      GrownKeys(env, env0, t, p.t);
      GrownAgree(env0, env1, p.t, q.t, VarsOf(p.e));
      TreeIsCore(ds, p.e);
      EvalAgree(n, P, p.e, env0, env1);
      ConsArgs(n, P, p.e, q.es, env1);
    }
  }

  lemma GrownKeys(env: Env, env1: Env, t: nat, t1: nat)
    requires Grown(env, env1, t, t1)
    ensures env1.Keys == env.Keys + NameSet(t, t1)
  {
  }

  /** The let chain evaluates to what the body does, with the same fuel. */
  lemma RedexedMeans(n: nat, P: Program, ds: set<Symbol>, e: Expr, env: Env, extra: seq<Term>)
    requires Core(e) && VarsOf(e) <= env.Keys && Fresh(env.Keys, 0) && DataOk(P, ds)
    ensures EvalRoot(n, P, Redexed(ds, e), env, extra) == EvalRoot(n, P, e, env, extra)
  {
    hide Core, VarsOf, EvalRoot, Fresh, DataOk, Root, Inners;
    var p := Root(ds, e);
    WrapEval(n, P, p.rs, p.e, env, extra);
    if e.App? {
      RootMeans(n, P, ds, e, env, extra);
    } else {
      assert p.rs == [] && p.e == e by {
        LeafPass(ds, e);
      }
      NothingNamed(n, P, 0, env);
    }
  }

  lemma LeafPass(ds: set<Symbol>, e: Expr)
    requires !e.App?
    ensures Root(ds, e) == Pass(e, 0, [])
  {
  }

  lemma RootMeans(n: nat, P: Program, ds: set<Symbol>, e: Expr, env: Env, extra: seq<Term>)
    requires e.App? && Core(e) && VarsOf(e) <= env.Keys && Fresh(env.Keys, 0) && DataOk(P, ds)
    ensures var p := Root(ds, e);
            var b := EvalNamed(n, P, p.rs, env);
            EvalRoot(n, P, e, env, extra) == if b.Bound? then EvalRoot(n, P, p.e, b.env, extra) else b.r
  {
    hide Core, Cores, VarsOf, VarsOfAll, Eval, EvalRoot, EvalArgs, EvalNamed, Root, Inners, Fresh, DataOk, IsRedex, RedexName, PassesOk, Apply;
    AppCases(ds, env.Keys, e);
    var f, es := e.es[0], e.es[1..];
    HeadBound(f, env);
    assert [f] + es == e.es;
    InnerApp(ds, 0, e);
    AppEval(n, P, f, es, env, extra);
    InnersMean(n, P, ds, 0, es, env);
    InnersShape(ds, env.Keys, 0, es);
    var p := Inners(ds, 0, es);
    PassesSize(ds, env.Keys, 0, |es|, p);
    var v := EvalArgs(n, P, es, env);
    if !IsRedex(ds, f) {
      InnersHead(ds, 0, e.es);
    }
    if v.Vals? {
      AppEval(n, P, f, p.es, EvalNamed(n, P, p.rs, env).env, extra);
    }
  }

  // Programs

  /** An alternative as lambda lifting leaves it. */
  ghost predicate SourceAlt(m: Alt) {
    && PatternsOk(m.pats) && |m.pats| + 5 < INDEX_RANGE
    && Core(m.body) && VarsOf(m.body) <= PatsVars(m.pats) && Fresh(PatsVars(m.pats), 0)
  }

  ghost predicate SourceAlts(ms: seq<Alt>) {
    forall i :: 0 <= i < |ms| ==> SourceAlt(ms[i])
  }

  ghost predicate SourceProgram(P: Program) {
    forall s :: s in P && P[s].CodeDef? ==> SourceAlts(P[s].alts)
  }

  function RedexedDef(ds: set<Symbol>, d: Def): Def {
    match d
    case CodeDef(ms) => CodeDef(RedexedAlts(ds, ms))
    case _ => d
  }

  function RedexedProgram(ds: set<Symbol>, P: Program): Program {
    map s | s in P :: RedexedDef(ds, P[s])
  }

  lemma {:induction false} RedexedSelect(ds: set<Symbol>, ms: seq<Alt>, ts: seq<Term>)
    requires SourceAlts(ms)
    ensures Select(ms, ts).NoAlt? ==> Select(RedexedAlts(ds, ms), ts).NoAlt?
    ensures Select(ms, ts).Chosen? ==>
      var c := Select(ms, ts);
      Select(RedexedAlts(ds, ms), ts) == Chosen(c.env, Redexed(ds, c.body), c.arity)
      && Core(c.body) && VarsOf(c.body) <= c.env.Keys && Fresh(c.env.Keys, 0) && c.arity <= |ts|
    decreases |ms|
  {
    hide Redexed, Matches, Core, VarsOf, Fresh, PatternsOk, PatsVars;
    if ms != [] {
      var n := |ms[0].pats|;
      if n <= |ts| && Matches(ms[0].pats, ts[..n], map[]).0 {
        MatchesKeys(ms[0].pats, ts[..n], map[]);
        assert Matches(ms[0].pats, ts[..n], map[]).1.Keys == PatsVars(ms[0].pats);
        assert SourceAlt(ms[0]);
      } else {
        RedexedSelect(ds, ms[1..], ts);
      }
    }
  }

  /** The rewritten program does what the program does: every application has the same result with the same fuel. */
  lemma {:induction false} ProgramApply(n: nat, P: Program, ds: set<Symbol>, f: Term, args: seq<Term>)
    requires SourceProgram(P) && DataOk(P, ds)
    ensures Apply(n, RedexedProgram(ds, P), f, args) == Apply(n, P, f, args)
    decreases n, 0, f, 1
  {
    hide SourceProgram, DataOk, Apply, RedexedDef;
    match f
    case Node(ts) =>
      if ts == [] {
        EmptyNode(n, P, args);
        EmptyNode(n, RedexedProgram(ds, P), args);
      } else {
        ApplyNode(n, P, f, args);
        ApplyNode(n, RedexedProgram(ds, P), f, args);
        ProgramApply(n, P, ds, ts[0], ts[1..] + args);
      }
    case Leaf(a) =>
      if a.CombAtom? {
        ProgramComb(n, P, ds, a.sym, args);
      } else {
        NoData(P);
        NoData(RedexedProgram(ds, P));
        PlainApply(n, P, {}, a, args);
        PlainApply(n, RedexedProgram(ds, P), {}, a, args);
      }
  }

  lemma RedexedData(P: Program, ds: set<Symbol>)
    requires DataOk(P, ds)
    ensures DataOk(RedexedProgram(ds, P), ds)
  {
  }

  lemma NoData(P: Program)
    ensures DataOk(P, {})
  {
  }

  lemma EmptyNode(n: nat, P: Program, args: seq<Term>)
    ensures Apply(n, P, Node([]), args) == Out
  {
  }

  lemma {:induction false} ProgramComb(n: nat, P: Program, ds: set<Symbol>, s: Symbol, args: seq<Term>)
    requires SourceProgram(P) && DataOk(P, ds)
    ensures Apply(n, RedexedProgram(ds, P), Leaf(CombAtom(s)), args) == Apply(n, P, Leaf(CombAtom(s)), args)
    decreases n, 0, Leaf(CombAtom(s)), 0
  {
    hide DataOk, Apply, EvalRoot, RedexedAlts, Redexed, Select, SourceAlts, Core, VarsOf, Fresh;
    var Q := RedexedProgram(ds, P);
    ApplyShape(n, P, s, args);
    ApplyShape(n, Q, s, args);
    if s in P && P[s].HandleDef? && |args| >= 2 && n > 0 {
      ProgramApply(n - 1, P, ds, args[1], [NONE] + args[2..]);
      var r := Apply(n - 1, P, args[1], [NONE] + args[2..]);
      if r.Exc? {
        ProgramApply(n - 1, P, ds, args[0], [NONE] + r.ts);
      }
    } else if s in P && P[s].CodeDef? {
      ApplyCode(n, P, s, args);
      ApplyCode(n, Q, s, args);
      var ms := P[s].alts;
      RedexedSelect(ds, ms, args);
      if n > 0 && Select(ms, args).Chosen? {
        var c := Select(ms, args);
        RedexedData(P, ds);
        RedexedMeans(n - 1, Q, ds, c.body, c.env, args[c.arity..]);
        ProgramRoot(n - 1, P, ds, c.body, c.env, args[c.arity..]);
      }
    }
  }

  lemma {:induction false} ProgramRoot(n: nat, P: Program, ds: set<Symbol>, e: Expr, env: Env, extra: seq<Term>)
    requires SourceProgram(P) && DataOk(P, ds) && Core(e) && DataOk(RedexedProgram(ds, P), ds)
    ensures EvalRoot(n, RedexedProgram(ds, P), e, env, extra) == EvalRoot(n, P, e, env, extra)
    decreases n, 1, e, 3
  {
    hide SourceProgram, DataOk, RedexedProgram, Apply, EvalRoot, EvalSpine, Core;
    NoLet(e);
    ProgramSpine(n, P, ds, e, env);
    EvalShape(n, P, e, env, extra);
    EvalShape(n, RedexedProgram(ds, P), e, env, extra);
    var s := EvalSpine(n, P, e, env);
    if s.Spine? {
      ProgramApply(n, P, ds, s.f, s.args + extra);
    }
  }

  lemma {:induction false} ProgramEval(n: nat, P: Program, ds: set<Symbol>, e: Expr, env: Env)
    requires SourceProgram(P) && DataOk(P, ds) && Core(e)
    ensures Eval(n, RedexedProgram(ds, P), e, env) == Eval(n, P, e, env)
    decreases n, 1, e, 2
  {
    hide SourceProgram, DataOk, RedexedProgram, Apply, Eval, EvalSpine, Core;
    NoLet(e);
    if e.Var? {
      VarEval(n, P, e, env);
      VarEval(n, RedexedProgram(ds, P), e, env);
    } else {
      ProgramSpine(n, P, ds, e, env);
      EvalShape(n, P, e, env, []);
      EvalShape(n, RedexedProgram(ds, P), e, env, []);
      var s := EvalSpine(n, P, e, env);
      if s.Spine? {
        ProgramApply(n, P, ds, s.f, s.args);
      }
    }
  }

  lemma VarEval(n: nat, P: Program, e: Expr, env: Env)
    requires e.Var?
    ensures Eval(n, P, e, env) == if e.v in env then Val(env[e.v]) else Out
  {
  }

  lemma {:induction false} ProgramSpine(n: nat, P: Program, ds: set<Symbol>, e: Expr, env: Env)
    requires SourceProgram(P) && DataOk(P, ds) && Core(e)
    ensures EvalSpine(n, RedexedProgram(ds, P), e, env) == EvalSpine(n, P, e, env)
    decreases n, 1, e, 1
  {
    hide SourceProgram, DataOk, RedexedProgram, EvalArgs;
    if e.App? {
      assert Core(e.es[0]) && Cores(e.es[1..]);
      ProgramSpine(n, P, ds, e.es[0], env);
      ProgramArgs(n, P, ds, e.es[1..], env);
    }
  }

  lemma {:induction false} ProgramArgs(n: nat, P: Program, ds: set<Symbol>, es: seq<Expr>, env: Env)
    requires SourceProgram(P) && DataOk(P, ds) && Cores(es)
    ensures EvalArgs(n, RedexedProgram(ds, P), es, env) == EvalArgs(n, P, es, env)
    decreases n, 1, es, 0
  {
    hide SourceProgram, DataOk, RedexedProgram, Eval;
    if es != [] {
      ProgramEval(n, P, ds, es[0], env);
      ProgramArgs(n, P, ds, es[1..], env);
    }
  }
}
