/** The eager reference semantics: combinators rewrite whole applications. */
module Semantics {
  import opened Terms
  import opened Syntax

  datatype Def =
    | DataDef                 // a declared data combinator
    | ThrowDef                // System::throw
    | HandleDef               // System::handle
    | CodeDef(alts: seq<Alt>) // a definition

  type Program = map<Symbol, Def>

  type Env = map<Name, Term>

  /** An evaluation runs out of fuel, returns, throws, or meets an undeclared combinator. */
  datatype Res = Out | Val(t: Term) | Exc(ts: seq<Term>) | Undef(s: Symbol)

  datatype Vals = Vals(ts: seq<Term>) | Stop(r: Res)

  /** An application taken apart: its head and its evaluated arguments. */
  datatype Spine = Spine(f: Term, args: seq<Term>) | Halt(r: Res)

  datatype Selected = Chosen(env: Env, body: Expr, arity: nat) | NoAlt

  // Matching

  function Match(p: Pattern, t: Term, env: Env): (r: (bool, Env)) {
    match p
    case PConst(a) => (t == Leaf(a), env)
    case PVar(v) => (true, env[v := t])
    case PTag(q, s) =>
      var (ok, env1) := Match(q, t, env);
      (ok && TermSymbol(t) == s, env1)
    case PApp(ps) =>
      if t.Node? && |t.ts| == |ps| then Matches(ps, t.ts, env) else (false, env)
  }

  function Matches(ps: seq<Pattern>, ts: seq<Term>, env: Env): (bool, Env)
    requires |ps| == |ts|
  {
    if ps == [] then (true, env)
    else
      var (ok, env1) := Match(ps[0], ts[0], env);
      if ok then Matches(ps[1..], ts[1..], env1) else (false, env1)
  }

  /** The first alternative with enough arguments whose patterns all match. */
  function Select(alts: seq<Alt>, args: seq<Term>): Selected {
    if alts == [] then NoAlt
    else
      var n := |alts[0].pats|;
      if n <= |args| && Matches(alts[0].pats, args[..n], map[]).0
      then Chosen(Matches(alts[0].pats, args[..n], map[]).1, alts[0].body, n)
      else Select(alts[1..], args)
  }

  // Evaluation. Only unfolding a definition or installing a handler uses fuel.

  function Apply(n: nat, P: Program, f: Term, args: seq<Term>): Res
    decreases n, 0, f
  {
    match f
    case Node(ts) => if ts == [] then Out else Apply(n, P, ts[0], ts[1..] + args)
    case Leaf(a) =>
      if !a.CombAtom? then Val(Normal(f, args))
      else if a.sym !in P then Undef(a.sym)
      else match P[a.sym]
        case DataDef => Val(Normal(f, args))
        case ThrowDef => if args == [] then Val(f) else Exc(args)
        case HandleDef =>
          if |args| < 2 then Val(Normal(f, args))
          else if n == 0 then Out
          else
            var r := Apply(n - 1, P, args[1], [NONE] + args[2..]);
            if r.Exc? then Apply(n - 1, P, args[0], [NONE] + r.ts) else r
        case CodeDef(alts) =>
          if n == 0 then Out
          else
            match Select(alts, args)
            case NoAlt => Val(Normal(f, args))
            case Chosen(env, body, k) =>
              if k <= |args| then EvalRoot(n - 1, P, body, env, args[k..]) else Out
  }

  /** A body in root position also receives the arguments its patterns left over. */
  function EvalRoot(n: nat, P: Program, e: Expr, env: Env, extra: seq<Term>): Res
    decreases n, 1, e, 1
  {
    match e
    case Let(x, r, b) =>
      var w := Eval(n, P, r, env);
      if w.Val? then EvalRoot(n, P, b, env[x := w.t], extra) else w
    case _ =>
      match EvalSpine(n, P, e, env)
      case Spine(f, args) => Apply(n, P, f, args + extra)
      case Halt(r) => r
  }

  function Eval(n: nat, P: Program, e: Expr, env: Env): Res
    decreases n, 1, e, 2
  {
    match e
    case Var(x) => if x in env then Val(env[x]) else Out
    case Let(_, _, _) => EvalRoot(n, P, e, env, [])
    case _ =>
      match EvalSpine(n, P, e, env)
      case Spine(f, args) => Apply(n, P, f, args)
      case Halt(r) => r
  }

  /** The head of the application, and all arguments along its spine, left to right. */
  function EvalSpine(n: nat, P: Program, e: Expr, env: Env): Spine
    decreases n, 1, e, 0
  {
    match e
    case Const(a) => Spine(Leaf(a), [])
    case Var(x) => if x in env then Spine(env[x], []) else Halt(Out)
    case Let(_, _, _) => Halt(Out)
    case App(es) =>
      if es == [] then Halt(Out)
      else
        match EvalSpine(n, P, es[0], env)
        case Halt(r) => Halt(r)
        case Spine(f, args) =>
          match EvalArgs(n, P, es[1..], env)
          case Vals(ts) => Spine(f, args + ts)
          case Stop(r) => Halt(r)
  }

  function EvalArgs(n: nat, P: Program, es: seq<Expr>, env: Env): Vals
    decreases n, 1, es, 0
  {
    if es == [] then Vals([])
    else
      var r := Eval(n, P, es[0], env);
      if !r.Val? then Stop(r)
      else
        match EvalArgs(n, P, es[1..], env)
        case Vals(ts) => Vals([r.t] + ts)
        case Stop(r1) => Stop(r1)
  }
}
