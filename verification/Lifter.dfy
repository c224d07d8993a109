/** The lifting pass as the source runs it: a counter and a list of lifted definitions for every scope. */
module Lifter {
  import opened Terms
  import opened Syntax
  import opened Reredex
  import opened Decimals
  import opened Closures
  import opened Lifting

  // Names of lifted combinators

  /** The name of the scope, followed by the counter. */
  function ExpandedName(n: Name, i: nat): Name {
    n + Decimal(i)
  }

  const LOCAL: Name := "Local::"

  /** Lifted combinators are in a namespace of their own. */
  function LocalName(n: Name, i: nat): Name {
    LOCAL + ExpandedName(n, i)
  }

  /** Two scopes make the same name exactly when one scope's name is the other's with leading digits of its counter. */
  lemma SameName(n: Name, i: nat, m: Name, j: nat)
    requires |n| <= |m|
    ensures ExpandedName(n, i) == ExpandedName(m, j) <==>
      exists d: string :: m == n + d && Decimal(i) == d + Decimal(j)
  {
    var a, b := ExpandedName(n, i), ExpandedName(m, j);
    if a == b {
      var d := m[|n|..];
      assert m == a[..|m|] && n == a[..|n|];
      assert m == n + d;
      assert Decimal(i) == a[|n|..] && Decimal(j) == b[|m|..];
      assert a[|n|..] == d + Decimal(j);
    }
    if d: string :| m == n + d && Decimal(i) == d + Decimal(j) {
      assert n + (d + Decimal(j)) == n + d + Decimal(j);
    }
  }

  /** If no name of a scope ends in a digit, all lifted names are different. */
  lemma NamesApart(n: Name, i: nat, m: Name, j: nat)
    requires n != [] && m != [] && !IsDigit(n[|n| - 1]) && !IsDigit(m[|m| - 1])
    requires n + Decimal(i) == m + Decimal(j)
    ensures n == m && i == j
  {
    if |n| <= |m| {
      NamesOrdered(n, i, m, j);
    } else {
      NamesOrdered(m, j, n, i);
    }
  }

  lemma DigitAt(n: Name, i: nat, k: nat)
    requires |n| <= k < |ExpandedName(n, i)|
    ensures IsDigit(ExpandedName(n, i)[k])
  {
    DecimalDigits(i);
    assert ExpandedName(n, i)[k] == Decimal(i)[k - |n|];
  }

  lemma LetterAt(m: Name, j: nat)
    requires m != []
    ensures ExpandedName(m, j)[|m| - 1] == m[|m| - 1]
  {
  }

  lemma NamesOrdered(n: Name, i: nat, m: Name, j: nat)
    requires m != [] && !IsDigit(m[|m| - 1]) && |n| <= |m| && ExpandedName(n, i) == ExpandedName(m, j)
    ensures n == m && i == j
  {
    var a, b := ExpandedName(n, i), ExpandedName(m, j);
    if |n| < |m| {
      DigitAt(n, i, |m| - 1);
      LetterAt(m, j);
      assert false;
    } else {
      assert n == a[..|n|] && m == b[..|m|];
      assert Decimal(i) == a[|n|..] && Decimal(j) == b[|m|..];
      DecimalInjective(i, j);
    }
  }

  /** A collision: the thirteenth block of f and the third block of f1. */
  lemma NamesCollide()
    ensures ExpandedName("f", 12) == ExpandedName("f1", 2) == "f12"
  {
    assert Decimal(1) == "1" && Decimal(2) == "2";
    assert Decimal(12) == "12";
  }

  // Positions in the order in which blocks are lifted

  function Positions(e: LExpr): seq<nat> {
    match e
    case LConst(_) => []
    case LVar(_) => []
    case LApp(es) => PositionsAll(es)
    case LBlock(pos, alts) => PositionsOf(alts) + [pos]
  }

  function PositionsAll(es: seq<LExpr>): seq<nat> {
    if es == [] then [] else Positions(es[0]) + PositionsAll(es[1..])
  }

  function PositionsOf(alts: seq<LAlt>): seq<nat> {
    if alts == [] then [] else Positions(alts[0].body) + PositionsOf(alts[1..])
  }

  /** The symbol of every name. */
  type Symbols = Name -> Symbol

  /** The blocks of a scope get consecutive numbers, from t on, and the symbols of those names. */
  ghost predicate Numbered(sym: nat -> Symbol, table: Symbols, scope: Name, t: nat, ps: seq<nat>) {
    forall i :: 0 <= i < |ps| ==> sym(ps[i]) == table("Local::" + (scope + Decimal(t + i)))
  }

  lemma NumberedSplit(sym: nat -> Symbol, table: Symbols, scope: Name, t: nat, ps: seq<nat>, qs: seq<nat>)
    requires Numbered(sym, table, scope, t, ps + qs)
    ensures Numbered(sym, table, scope, t, ps) && Numbered(sym, table, scope, t + |ps|, qs)
  {
    forall i | 0 <= i < |ps| ensures sym(ps[i]) == table(LocalName(scope, t + i)) {
      assert (ps + qs)[i] == ps[i];
    }
    forall i | 0 <= i < |qs| ensures sym(qs[i]) == table(LocalName(scope, t + |ps| + i)) {
      assert (ps + qs)[|ps| + i] == qs[i];
    }
  }

  /** A lifted definition with its combinator. */
  datatype Decl = Decl(c: Symbol, alts: seq<Alt>)

  function Decls(sym: nat -> Symbol, ds: seq<Lifted>): (r: seq<Decl>)
    ensures |r| == |ds|
  {
    if ds == [] then [] else [Decl(sym(ds[0].pos), ds[0].alts)] + Decls(sym, ds[1..])
  }

  lemma {:induction false} DeclsAppend(sym: nat -> Symbol, a: seq<Lifted>, b: seq<Lifted>)
    ensures Decls(sym, a + b) == Decls(sym, a) + Decls(sym, b)
    decreases |a|
  {
    if a == [] {
      assert a + b == b;
    } else {
      assert (a + b)[1..] == a[1..] + b;
      DeclsAppend(sym, a[1..], b);
    }
  }

  class RewriteLift {
    const table: Symbols
    var scope: Name
    var counter: nat
    var lifted: seq<Decl>

    constructor (table: Symbols)
      ensures this.table == table && scope == [] && counter == 0 && lifted == []
    {
      this.table := table;
      scope, counter, lifted := [], 0, [];
    }

    method SetScope(n: Name)
      modifies this
      ensures scope == n && counter == 0 && lifted == []
    {
      scope, counter, lifted := n, 0, [];
    }

    method FreshCombinator() returns (c: Symbol)
      modifies this`counter
      ensures c == table(LocalName(scope, old(counter))) && counter == old(counter) + 1
    {
      c := table(LocalName(scope, counter));
      counter := counter + 1;
    }

    method Rewrite(e: LExpr, ghost sym: nat -> Symbol) returns (r: Expr)
      requires Numbered(sym, table, scope, counter, Positions(e))
      modifies this`counter, this`lifted
      ensures r == Lift(sym, e) && counter == old(counter) + |Positions(e)|
      ensures lifted == old(lifted) + Decls(sym, LiftedFrom(sym, e))
      decreases e, 1
    {
      match e
      case LConst(a) => r := Const(a);
      case LVar(v) => r := Var(v);
      case LApp(es) =>
        var aa := Rewrites(es, sym);
        r := App(aa);
      case LBlock(pos, alts) => r := RewriteBlock(e, sym);
    }

    /** Inner blocks first, then the block itself. */
    method RewriteBlock(e: LExpr, ghost sym: nat -> Symbol) returns (r: Expr)
      requires e.LBlock? && Numbered(sym, table, scope, counter, Positions(e))
      modifies this`counter, this`lifted
      ensures r == Lift(sym, e) && counter == old(counter) + |Positions(e)|
      ensures lifted == old(lifted) + Decls(sym, LiftedFrom(sym, e))
      decreases e, 0
    {
      hide PositionsOf, LiftOf, LiftedFromOf, Decls;
      NumberedSplit(sym, table, scope, counter, PositionsOf(e.alts), [e.pos]);
      assert [e.pos][0] == e.pos;
      var mm := RewriteAlts(e.alts, sym);
      var c := FreshCombinator();
      BlockDecls(sym, LiftedFromOf(sym, e.alts), Lifted(e.pos, mm));
      lifted := lifted + [Decl(c, mm)];
      r := Const(CombAtom(c));
    }

    method Rewrites(es: seq<LExpr>, ghost sym: nat -> Symbol) returns (rs: seq<Expr>)
      requires Numbered(sym, table, scope, counter, PositionsAll(es))
      modifies this`counter, this`lifted
      ensures rs == LiftAll(sym, es) && counter == old(counter) + |PositionsAll(es)|
      ensures lifted == old(lifted) + Decls(sym, LiftedFromAll(sym, es))
      decreases es, 0
    {
      hide Positions, Lift, LiftedFrom, Decls;
      rs := [];
      assert es[0..] == es;
      ghost var whole := LiftedFromAll(sym, es);
      for i := 0 to |es|
        invariant rs + LiftAll(sym, es[i..]) == LiftAll(sym, es)
        invariant Numbered(sym, table, scope, counter, PositionsAll(es[i..]))
        invariant counter + |PositionsAll(es[i..])| == old(counter) + |PositionsAll(es)|
        invariant lifted + Decls(sym, LiftedFromAll(sym, es[i..])) == old(lifted) + Decls(sym, whole)
      {
        assert es[i..][1..] == es[i + 1..];
        NumberedSplit(sym, table, scope, counter, Positions(es[i]), PositionsAll(es[i + 1..]));
        DeclsAppend(sym, LiftedFrom(sym, es[i]), LiftedFromAll(sym, es[i + 1..]));
        var r := Rewrite(es[i], sym);
        rs := rs + [r];
      }
      NoDecls(sym);
      assert rs + [] == rs;
    }

    method RewriteAlts(alts: seq<LAlt>, ghost sym: nat -> Symbol) returns (ms: seq<Alt>)
      requires Numbered(sym, table, scope, counter, PositionsOf(alts))
      modifies this`counter, this`lifted
      ensures ms == LiftOf(sym, alts) && counter == old(counter) + |PositionsOf(alts)|
      ensures lifted == old(lifted) + Decls(sym, LiftedFromOf(sym, alts))
      decreases alts, 0
    {
      hide Positions, Lift, LiftedFrom, Decls;
      ms := [];
      assert alts[0..] == alts;
      ghost var whole := LiftedFromOf(sym, alts);
      for i := 0 to |alts|
        invariant ms + LiftOf(sym, alts[i..]) == LiftOf(sym, alts)
        invariant Numbered(sym, table, scope, counter, PositionsOf(alts[i..]))
        invariant counter + |PositionsOf(alts[i..])| == old(counter) + |PositionsOf(alts)|
        invariant lifted + Decls(sym, LiftedFromOf(sym, alts[i..])) == old(lifted) + Decls(sym, whole)
      {
        assert alts[i..][1..] == alts[i + 1..];
        NumberedSplit(sym, table, scope, counter, Positions(alts[i].body), PositionsOf(alts[i + 1..]));
        DeclsAppend(sym, LiftedFrom(sym, alts[i].body), LiftedFromOf(sym, alts[i + 1..]));
        var r := Rewrite(alts[i].body, sym);
        ms := ms + [Alt(alts[i].pats, r)];
      }
      NoDecls(sym);
      assert ms + [] == ms;
    }

    /** A definition: a block stays where it is, any other expression becomes a nullary one;
        the lifted blocks come before it. */
    method RewriteDefinition(n: Name, e: LExpr, ghost sym: nat -> Symbol) returns (ms: seq<Alt>)
      requires Numbered(sym, table, n, 0, if e.LBlock? then PositionsOf(e.alts) else Positions(e))
      modifies this
      ensures ms == if e.LBlock? then LiftOf(sym, e.alts) else [Alt([], Lift(sym, e))]
      ensures lifted == Decls(sym, if e.LBlock? then LiftedFromOf(sym, e.alts) else LiftedFrom(sym, e))
    {
      hide Decls, LiftedFromOf, LiftedFrom;
      SetScope(n);
      match e
      case LBlock(_, alts) => ms := RewriteAlts(alts, sym);
      case _ =>
        var e0 := Rewrite(e, sym);
        ms := [Alt([], e0)];
    }
  }

  lemma NoDecls(sym: nat -> Symbol)
    ensures Decls(sym, []) == []
    ensures forall l: seq<Decl> :: l + [] == l
  {
  }

  lemma BlockDecls(sym: nat -> Symbol, ds: seq<Lifted>, d: Lifted)
    ensures Decls(sym, ds + [d]) == Decls(sym, ds) + [Decl(sym(d.pos), d.alts)]
  {
    DeclsAppend(sym, ds, [d]);
    assert [d][1..] == [];
  }
}
