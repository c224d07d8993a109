/** An evaluation that ends does not depend on its fuel: a term has at most one result. */
module Fuel {
  import opened Terms
  import opened Syntax
  import opened Semantics

  /** With more fuel the result stays, once there is one. */
  ghost predicate Stays(r: Res, r1: Res) {
    !r.Out? ==> r1 == r
  }

  lemma {:induction false} ApplyMore(n: nat, P: Program, f: Term, args: seq<Term>)
    ensures Stays(Apply(n, P, f, args), Apply(n + 1, P, f, args))
    decreases n, 0, f
  {
    hide EvalRoot, Select;
    match f
    case Node(ts) =>
      if ts != [] {
        ApplyMore(n, P, ts[0], ts[1..] + args);
      }
    case Leaf(a) =>
      if n > 0 && a.CombAtom? && a.sym in P {
        if P[a.sym].HandleDef? && |args| >= 2 {
          HandleMore(n, P, args);
        } else if P[a.sym].CodeDef? {
          var s := Select(P[a.sym].alts, args);
          if s.Chosen? && s.arity <= |args| {
            RootMore(n - 1, P, s.body, s.env, args[s.arity..]);
          }
        }
      }
  }

  lemma {:induction false} HandleMore(n: nat, P: Program, args: seq<Term>)
    requires n > 0 && |args| >= 2
    ensures var r, r1 := Apply(n - 1, P, args[1], [NONE] + args[2..]), Apply(n, P, args[1], [NONE] + args[2..]);
            && Stays(r, r1)
            && (r.Exc? ==> Stays(Apply(n - 1, P, args[0], [NONE] + r.ts), Apply(n, P, args[0], [NONE] + r.ts)))
    decreases n - 1, 4
  {
    hide Apply;
    ApplyMore(n - 1, P, args[1], [NONE] + args[2..]);
    var r := Apply(n - 1, P, args[1], [NONE] + args[2..]);
    if r.Exc? {
      ApplyMore(n - 1, P, args[0], [NONE] + r.ts);
    }
  }

  lemma {:induction false} RootMore(n: nat, P: Program, e: Expr, env: Env, extra: seq<Term>)
    ensures Stays(EvalRoot(n, P, e, env, extra), EvalRoot(n + 1, P, e, env, extra))
    decreases n, 1, e, 1
  {
    hide Apply, Eval, EvalSpine;
    if e.Let? {
      EvalMore(n, P, e.rhs, env);
      var w := Eval(n, P, e.rhs, env);
      if w.Val? {
        RootMore(n, P, e.body, env[e.x := w.t], extra);
      }
    } else {
      SpineMore(n, P, e, env);
      var s := EvalSpine(n, P, e, env);
      if s.Spine? {
        ApplyMore(n, P, s.f, s.args + extra);
      }
    }
  }

  lemma {:induction false} EvalMore(n: nat, P: Program, e: Expr, env: Env)
    ensures Stays(Eval(n, P, e, env), Eval(n + 1, P, e, env))
    decreases n, 1, e, 2
  {
    hide Apply, EvalSpine, EvalRoot;
    if e.Let? {
      RootMore(n, P, e, env, []);
    } else if !e.Var? {
      SpineMore(n, P, e, env);
      var s := EvalSpine(n, P, e, env);
      if s.Spine? {
        ApplyMore(n, P, s.f, s.args);
      }
    }
  }

  lemma {:induction false} SpineMore(n: nat, P: Program, e: Expr, env: Env)
    ensures var s, s1 := EvalSpine(n, P, e, env), EvalSpine(n + 1, P, e, env);
            && (s.Spine? ==> s1 == s)
            && (s.Halt? && !s.r.Out? ==> s1 == s)
    decreases n, 1, e, 0
  {
    hide Eval, EvalArgs;
    if e.App? && e.es != [] {
      SpineMore(n, P, e.es[0], env);
      ArgsMore(n, P, e.es[1..], env);
    }
  }

  lemma {:induction false} ArgsMore(n: nat, P: Program, es: seq<Expr>, env: Env)
    ensures var a, a1 := EvalArgs(n, P, es, env), EvalArgs(n + 1, P, es, env);
            && (a.Vals? ==> a1 == a)
            && (a.Stop? && !a.r.Out? ==> a1 == a)
    decreases n, 1, es, 0
  {
    hide Eval;
    if es != [] {
      EvalMore(n, P, es[0], env);
      ArgsMore(n, P, es[1..], env);
    }
  }

  lemma {:induction false} ApplyGrow(n: nat, d: nat, P: Program, f: Term, args: seq<Term>)
    ensures Stays(Apply(n, P, f, args), Apply(n + d, P, f, args))
    decreases d
  {
    hide Apply;
    if d > 0 {
      ApplyGrow(n, d - 1, P, f, args);
      ApplyMore(n + d - 1, P, f, args);
    }
  }

  /** A term applied to arguments has at most one result. */
  lemma OneResult(n: nat, m: nat, P: Program, f: Term, args: seq<Term>)
    requires !Apply(n, P, f, args).Out? && !Apply(m, P, f, args).Out?
    ensures Apply(n, P, f, args) == Apply(m, P, f, args)
  {
    hide Apply;
    if n <= m {
      ApplyGrow(n, m - n, P, f, args);
    } else {
      ApplyGrow(m, n - m, P, f, args);
    }
  }
}
