/** Expressions with anonymous combinators, and their eager evaluation with closures. */
module Closures {
  import opened Terms
  import opened Syntax

  /** A block is known by its position in the source. */
  datatype LExpr =
    | LConst(a: Atom)
    | LVar(v: Name)
    | LApp(es: seq<LExpr>)
    | LBlock(pos: nat, alts: seq<LAlt>)

  datatype LAlt = LAlt(pats: seq<Pattern>, body: LExpr)

  /** Declarations; a definition is a block or any other expression. */
  datatype LDef =
    | LData
    | LThrow
    | LHandle
    | LCode(alts: seq<LAlt>)
    | LValue(e: LExpr)

  type LProgram = map<Symbol, LDef>

  // Values

  datatype LVal =
    | VLeaf(a: Atom)
    | VNode(vs: seq<LVal>)
    | VClo(env: LEnv, pos: nat, alts: seq<LAlt>)

  datatype Bind = Bind(x: Name, v: LVal)

  /** The first binding of a name counts. */
  type LEnv = seq<Bind>

  datatype LRes = LOut | LOk(v: LVal) | LExc(vs: seq<LVal>) | LUndef(s: Symbol)

  datatype LVals = LVals(vs: seq<LVal>) | LStop(r: LRes)

  datatype LSpine = LSpine(f: LVal, args: seq<LVal>) | LHalt(r: LRes)

  datatype LSelected = LChosen(env: LEnv, body: LExpr, arity: nat) | LNoAlt

  function IsBound(env: LEnv, x: Name): bool {
    env != [] && (env[0].x == x || IsBound(env[1..], x))
  }

  function Lookup(env: LEnv, x: Name): (v: LVal)
    requires IsBound(env, x)
  {
    if env[0].x == x then env[0].v else Lookup(env[1..], x)
  }

  function LNormal(f: LVal, args: seq<LVal>): LVal {
    if args == [] then f else VNode([f] + args)
  }

  const LNONE := VLeaf(CombAtom(SYMBOL_NONE))

  // Matching; a closure has no tag.

  function LMatch(p: Pattern, v: LVal, env: LEnv): (bool, LEnv) {
    match p
    case PConst(a) => (v == VLeaf(a), env)
    case PVar(x) => (true, [Bind(x, v)] + env)
    case PTag(q, s) =>
      var (ok, env1) := LMatch(q, v, env);
      (ok && HasTag(v, s), env1)
    case PApp(ps) =>
      if v.VNode? && |v.vs| == |ps| then LMatches(ps, v.vs, env) else (false, env)
  }

  function HasTag(v: LVal, s: Symbol): bool {
    match v
    case VLeaf(a) => AtomSymbol(a) == s
    case VNode(_) => s == SYMBOL_ARRAY
    case VClo(_, _, _) => false
  }

  function LMatches(ps: seq<Pattern>, vs: seq<LVal>, env: LEnv): (bool, LEnv)
    requires |ps| == |vs|
  {
    if ps == [] then (true, env)
    else
      var (ok, env1) := LMatch(ps[0], vs[0], env);
      if ok then LMatches(ps[1..], vs[1..], env1) else (false, env1)
  }

  function LSelect(alts: seq<LAlt>, args: seq<LVal>, env: LEnv): LSelected {
    if alts == [] then LNoAlt
    else
      var n := |alts[0].pats|;
      if n <= |args| && LMatches(alts[0].pats, args[..n], env).0
      then LChosen(LMatches(alts[0].pats, args[..n], env).1, alts[0].body, n)
      else LSelect(alts[1..], args, env)
  }

  // Evaluation

  function LApply(n: nat, P: LProgram, f: LVal, args: seq<LVal>): LRes
    decreases n, 0, f
  {
    match f
    case VNode(vs) => if vs == [] then LOut else LApply(n, P, vs[0], vs[1..] + args)
    case VClo(env, _, alts) =>
      if n == 0 then LOut
      else
        (match LSelect(alts, args, env)
        case LNoAlt => LOk(LNormal(f, args))
        case LChosen(env1, body, k) => if k <= |args| then LEvalRoot(n - 1, P, body, env1, args[k..]) else LOut)
    case VLeaf(a) =>
      if !a.CombAtom? then LOk(LNormal(f, args))
      else if a.sym !in P then LUndef(a.sym)
      else match P[a.sym]
        case LData => LOk(LNormal(f, args))
        case LThrow => if args == [] then LOk(f) else LExc(args)
        case LHandle =>
          if |args| < 2 then LOk(LNormal(f, args))
          else if n == 0 then LOut
          else
            var r := LApply(n - 1, P, args[1], [LNONE] + args[2..]);
            if r.LExc? then LApply(n - 1, P, args[0], [LNONE] + r.vs) else r
        case LCode(alts) =>
          if n == 0 then LOut
          else
            (match LSelect(alts, args, [])
            case LNoAlt => LOk(LNormal(f, args))
            case LChosen(env1, body, k) => if k <= |args| then LEvalRoot(n - 1, P, body, env1, args[k..]) else LOut)
        case LValue(e) => if n == 0 then LOut else LEvalRoot(n - 1, P, e, [], args)
  }

  function LEvalRoot(n: nat, P: LProgram, e: LExpr, env: LEnv, extra: seq<LVal>): LRes
    decreases n, 1, e, 1
  {
    match LEvalSpine(n, P, e, env)
    case LSpine(f, args) => LApply(n, P, f, args + extra)
    case LHalt(r) => r
  }

  function LEval(n: nat, P: LProgram, e: LExpr, env: LEnv): LRes
    decreases n, 1, e, 2
  {
    match e
    case LVar(x) => if IsBound(env, x) then LOk(Lookup(env, x)) else LOut
    case _ =>
      match LEvalSpine(n, P, e, env)
      case LSpine(f, args) => LApply(n, P, f, args)
      case LHalt(r) => r
  }

  function LEvalSpine(n: nat, P: LProgram, e: LExpr, env: LEnv): LSpine
    decreases n, 1, e, 0
  {
    match e
    case LConst(a) => LSpine(VLeaf(a), [])
    case LVar(x) => if IsBound(env, x) then LSpine(Lookup(env, x), []) else LHalt(LOut)
    case LBlock(l, alts) => LSpine(VClo(env, l, alts), [])
    case LApp(es) =>
      if es == [] then LHalt(LOut)
      else
        match LEvalSpine(n, P, es[0], env)
        case LHalt(r) => LHalt(r)
        case LSpine(f, args) =>
          match LEvalArgs(n, P, es[1..], env)
          case LVals(vs) => LSpine(f, args + vs)
          case LStop(r) => LHalt(r)
  }

  function LEvalArgs(n: nat, P: LProgram, es: seq<LExpr>, env: LEnv): LVals
    decreases n, 1, es, 0
  {
    if es == [] then LVals([])
    else
      var r := LEval(n, P, es[0], env);
      if !r.LOk? then LStop(r)
      else
        match LEvalArgs(n, P, es[1..], env)
        case LVals(vs) => LVals([r.v] + vs)
        case LStop(r1) => LStop(r1)
  }
}
