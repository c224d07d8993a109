/** Let-normal form: every redex has a name, and that name is used exactly once. */
module LetNormal {
  import opened Terms
  import opened Syntax
  import opened Emit

  /** A tree: variables, constants, and applications of them that cannot rewrite. */
  predicate TreeOk(ds: set<Symbol>, e: Expr) {
    match e
    case Const(_) => !IsRedex(ds, e)
    case Var(_) => true
    case App(es) => |es| >= 2 && es[0].Const? && TreesOk(ds, es)
    case Let(_, _, _) => false
  }

  predicate TreesOk(ds: set<Symbol>, es: seq<Expr>) {
    es == [] || (TreeOk(ds, es[0]) && TreesOk(ds, es[1..]))
  }

  /** A possible redex applied to trees. */
  predicate RedexTree(ds: set<Symbol>, e: Expr) {
    match e
    case Const(_) => IsRedex(ds, e)
    case Var(_) => true
    case App(es) => |es| >= 2 && !es[0].App? && IsRedex(ds, es[0]) && TreesOk(ds, es[1..])
    case Let(_, _, _) => false
  }

  /** A body over the variables in scope: lets of redexes around a redex or a tree. */
  predicate BodyOk(ds: set<Symbol>, scope: set<Name>, e: Expr)
    decreases e
  {
    if e.Let? then
      && RedexTree(ds, e.rhs) && !e.rhs.Var? && VarsOf(e.rhs) <= scope
      && e.x !in scope && Count(e.x, e.body) == 1 && !e.body.Var?
      && BodyOk(ds, scope + {e.x}, e.body)
    else (if IsRedex(ds, e) then RedexTree(ds, e) else TreeOk(ds, e)) && VarsOf(e) <= scope
  }

  lemma {:induction false} TreeIsCore(ds: set<Symbol>, e: Expr)
    requires TreeOk(ds, e)
    ensures Core(e) && (e.App? ==> !IsRedex(ds, e))
    decreases e, 1
  {
    if e.App? {
      TreesAreCore(ds, e.es);
      assert TreeOk(ds, e.es[0]);
    }
  }

  lemma {:induction false} TreesAreCore(ds: set<Symbol>, es: seq<Expr>)
    requires TreesOk(ds, es)
    ensures Cores(es)
    decreases es, 0
  {
    if es != [] {
      TreeIsCore(ds, es[0]);
      TreesAreCore(ds, es[1..]);
    }
  }

  lemma RedexIsCore(ds: set<Symbol>, e: Expr)
    requires RedexTree(ds, e)
    ensures RedexOk(ds, e)
  {
    if e.App? {
      TreesAreCore(ds, e.es[1..]);
      assert Core(e.es[0]);
    }
  }

  /** A variable occurs as often as it is counted. */
  lemma {:induction false} CountVars(v: Name, e: Expr)
    requires !e.Let? && Core(e)
    ensures v in VarsOf(e) <==> Count(v, e) > 0
    decreases e, 1
  {
    if e.App? {
      CountsVars(v, e.es);
    }
  }

  lemma {:induction false} CountsVars(v: Name, es: seq<Expr>)
    requires Cores(es)
    ensures v in VarsOfAll(es) <==> Counts(v, es) > 0
    decreases es, 0
  {
    if es != [] {
      assert Core(es[0]);
      CountVars(v, es[0]);
      CountsVars(v, es[1..]);
    }
  }

  /** Lets around expressions without lets. */
  predicate CoreBody(e: Expr) {
    if e.Let? then Core(e.rhs) && CoreBody(e.body) else Core(e)
  }

  lemma {:induction false} BodyIsCore(ds: set<Symbol>, scope: set<Name>, e: Expr)
    requires BodyOk(ds, scope, e)
    ensures CoreBody(e)
    decreases e
  {
    if e.Let? {
      RedexIsCore(ds, e.rhs);
      BodyIsCore(ds, scope + {e.x}, e.body);
    } else if IsRedex(ds, e) {
      RedexIsCore(ds, e);
    } else {
      TreeIsCore(ds, e);
    }
  }
}
