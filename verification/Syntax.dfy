/** The expressions that lambda lifting, redex naming and code generation work on. */
module Syntax {
  import opened Terms

  type Name = string

  datatype Pattern =
    | PConst(a: Atom)
    | PVar(v: Name)
    | PTag(p: Pattern, tag: Symbol)
    | PApp(ps: seq<Pattern>)

  /** Let and App are the only compound expressions after lambda lifting. */
  datatype Expr =
    | Const(a: Atom)
    | Var(v: Name)
    | App(es: seq<Expr>)
    | Let(x: Name, rhs: Expr, body: Expr)

  /** One alternative of a block: [ p0 .. pn -> e ]. */
  datatype Alt = Alt(pats: seq<Pattern>, body: Expr)

  // Variables

  function PatVars(p: Pattern): set<Name> {
    match p
    case PConst(_) => {}
    case PVar(v) => {v}
    case PTag(q, _) => PatVars(q)
    case PApp(ps) => PatsVars(ps)
  }

  function PatsVars(ps: seq<Pattern>): set<Name> {
    if ps == [] then {} else PatVars(ps[0]) + PatsVars(ps[1..])
  }

  function VarsOf(e: Expr): set<Name> {
    match e
    case Const(_) => {}
    case Var(v) => {v}
    case App(es) => VarsOfAll(es)
    case Let(x, r, b) => VarsOf(r) + (VarsOf(b) - {x})
  }

  function VarsOfAll(es: seq<Expr>): set<Name> {
    if es == [] then {} else VarsOf(es[0]) + VarsOfAll(es[1..])
  }

  /** How often the variable occurs in the expression. */
  function Count(v: Name, e: Expr): nat {
    match e
    case Const(_) => 0
    case Var(w) => if v == w then 1 else 0
    case App(es) => Counts(v, es)
    case Let(_, r, b) => Count(v, r) + Count(v, b)
  }

  function Counts(v: Name, es: seq<Expr>): nat {
    if es == [] then 0 else Count(v, es[0]) + Counts(v, es[1..])
  }

  // Shapes

  /** SPLIT has no form for zero registers, and the parser makes no empty application. */
  predicate PatternOk(p: Pattern) {
    match p
    case PConst(_) => true
    case PVar(_) => true
    case PTag(q, _) => PatternOk(q)
    case PApp(ps) => ps != [] && PatternsOk(ps)
  }

  predicate PatternsOk(ps: seq<Pattern>) {
    ps == [] || (PatternOk(ps[0]) && PatternsOk(ps[1..]))
  }

  /** The expressions lambda lifting leaves: no let, and an application is flat and not a singleton. */
  predicate Core(e: Expr) {
    match e
    case Const(_) => true
    case Var(_) => true
    case App(es) => |es| >= 2 && !es[0].App? && Cores(es)
    case Let(_, _, _) => false
  }

  predicate Cores(es: seq<Expr>) {
    es == [] || (Core(es[0]) && Cores(es[1..]))
  }
}
