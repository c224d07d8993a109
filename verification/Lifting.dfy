/** Lambda lifting: the passes eta, deapply and lift, and the shape of what they make together. */
module Lifting {
  import opened Terms
  import opened Syntax
  import opened Closures

  // Variables

  function Free(e: LExpr): set<Name> {
    match e
    case LConst(_) => {}
    case LVar(v) => {v}
    case LApp(es) => FreeAll(es)
    case LBlock(_, alts) => FreeOf(alts)
  }

  function FreeAll(es: seq<LExpr>): set<Name> {
    if es == [] then {} else Free(es[0]) + FreeAll(es[1..])
  }

  function FreeOf(alts: seq<LAlt>): set<Name> {
    if alts == [] then {} else (Free(alts[0].body) - PatsVars(alts[0].pats)) + FreeOf(alts[1..])
  }

  function Binders(e: LExpr): set<Name> {
    match e
    case LConst(_) => {}
    case LVar(_) => {}
    case LApp(es) => BindersAll(es)
    case LBlock(_, alts) => BindersOf(alts)
  }

  function BindersAll(es: seq<LExpr>): set<Name> {
    if es == [] then {} else Binders(es[0]) + BindersAll(es[1..])
  }

  function BindersOf(alts: seq<LAlt>): set<Name> {
    if alts == [] then {} else PatsVars(alts[0].pats) + Binders(alts[0].body) + BindersOf(alts[1..])
  }

  /** No name is both free and bound in an expression, nor in a part of it. */
  predicate Unique(e: LExpr) {
    Free(e) !! Binders(e) &&
    match e
    case LConst(_) => true
    case LVar(_) => true
    case LApp(es) => UniqueAll(es)
    case LBlock(_, alts) => UniqueOf(alts)
  }

  predicate UniqueAll(es: seq<LExpr>) {
    es == [] || (Unique(es[0]) && UniqueAll(es[1..]))
  }

  predicate UniqueOf(alts: seq<LAlt>) {
    alts == [] || (Unique(alts[0].body) && UniqueOf(alts[1..]))
  }

  /** The visitor that collects free variables: one set, to which occurrences are added and from which binders are removed. */
  function Visited(e: LExpr, s: set<Name>): set<Name> {
    match e
    case LConst(_) => s
    case LVar(v) => s + {v}
    case LApp(es) => VisitedAll(es, s)
    case LBlock(_, alts) => VisitedOf(alts, s)
  }

  function VisitedAll(es: seq<LExpr>, s: set<Name>): set<Name> {
    if es == [] then s else VisitedAll(es[1..], Visited(es[0], s))
  }

  function VisitedOf(alts: seq<LAlt>, s: set<Name>): set<Name> {
    if alts == [] then s else VisitedOf(alts[1..], Visited(alts[0].body, s) - PatsVars(alts[0].pats))
  }

  /** The elements of a set in some fixed order. */
  ghost function Listing(s: set<Name>): (l: seq<Name>)
    ensures forall v :: v in l <==> v in s
    ensures |l| == |s|
    decreases |s|
  {
    if s == {} then []
    else
      var v :| v in s;
      [v] + Listing(s - {v})
  }

  // Eta: blocks take their free variables as first arguments.

  function VarList(vs: seq<Name>): (es: seq<LExpr>)
    ensures |es| == |vs| && forall i :: 0 <= i < |vs| ==> es[i] == LVar(vs[i])
  {
    if vs == [] then [] else [LVar(vs[0])] + VarList(vs[1..])
  }

  function PatList(vs: seq<Name>): (ps: seq<Pattern>)
    ensures |ps| == |vs| && forall i :: 0 <= i < |vs| ==> ps[i] == PVar(vs[i])
  {
    if vs == [] then [] else [PVar(vs[0])] + PatList(vs[1..])
  }

  function Push(vs: seq<Name>, alts: seq<LAlt>): seq<LAlt> {
    if alts == [] then [] else [LAlt(PatList(vs) + alts[0].pats, alts[0].body)] + Push(vs, alts[1..])
  }

  ghost function Eta(e: LExpr): LExpr {
    match e
    case LConst(_) => e
    case LVar(_) => e
    case LApp(es) => LApp(EtaAll(es))
    case LBlock(pos, alts) =>
      var alts0 := EtaAlts(alts);
      var fv := Listing(Visited(LBlock(pos, alts0), {}));
      LApp([LBlock(pos, Push(fv, alts0))] + VarList(fv))
  }

  ghost function EtaAll(es: seq<LExpr>): (r: seq<LExpr>)
    ensures |r| == |es|
  {
    if es == [] then [] else [Eta(es[0])] + EtaAll(es[1..])
  }

  ghost function EtaAlts(alts: seq<LAlt>): seq<LAlt> {
    if alts == [] then [] else [LAlt(alts[0].pats, Eta(alts[0].body))] + EtaAlts(alts[1..])
  }

  lemma {:induction false} VisitVars(vs: seq<Name>, s: set<Name>)
    ensures VisitedAll(VarList(vs), s) == s + (set v | v in vs)
    decreases |vs|
  {
    if vs != [] {
      assert VarList(vs)[1..] == VarList(vs[1..]);
      VisitVars(vs[1..], s + {vs[0]});
      assert vs == [vs[0]] + vs[1..];
    }
  }

  lemma PatListVars(vs: seq<Name>, ps: seq<Pattern>)
    ensures PatsVars(PatList(vs) + ps) == (set v | v in vs) + PatsVars(ps)
    decreases |vs|
  {
    if vs == [] {
      assert PatList(vs) + ps == ps;
    } else {
      assert (PatList(vs) + ps)[1..] == PatList(vs[1..]) + ps;
      PatListVars(vs[1..], ps);
      assert vs == [vs[0]] + vs[1..];
    }
  }

  /** On expressions in which no name is reused, the visitor adds exactly the free variables. */
  lemma {:induction false} EtaVisit(e: LExpr, s: set<Name>)
    requires Unique(e) && s !! Binders(e)
    ensures Visited(Eta(e), s) == s + Free(e)
    decreases e, 1
  {
    match e
    case LConst(_) =>
    case LVar(_) =>
    case LApp(es) => EtaVisits(es, s);
    case LBlock(_, _) => EtaBlockVisit(e, s);
  }

  lemma {:induction false} EtaVisits(es: seq<LExpr>, s: set<Name>)
    requires UniqueAll(es) && FreeAll(es) !! BindersAll(es) && s !! BindersAll(es)
    ensures VisitedAll(EtaAll(es), s) == s + FreeAll(es)
    decreases es, 0
  {
    hide Unique, Eta, Visited, Free, Binders;
    if es != [] {
      EtaVisit(es[0], s);
      EtaVisits(es[1..], s + Free(es[0]));
    }
  }

  lemma {:induction false} EtaBlockVisit(e: LExpr, s: set<Name>)
    requires e.LBlock? && Unique(e) && s !! Binders(e)
    ensures Visited(Eta(e), s) == s + Free(e)
    ensures Eta(e) == LApp([LBlock(e.pos, Push(Listing(Free(e)), EtaAlts(e.alts)))] + VarList(Listing(Free(e))))
    decreases e, 0
  {
    hide EtaAlts, VisitedOf, FreeOf, BindersOf, UniqueOf, VisitedAll;
    EtaAltsVisit(e.alts, {}, {});
    var fv := Listing(Free(e));
    assert {} + FreeOf(e.alts) == FreeOf(e.alts);
    var block := LBlock(e.pos, Push(fv, EtaAlts(e.alts)));
    VisitCons(block, VarList(fv), s);
    PushVisit(e.alts, fv, s);
    VisitVars(fv, VisitedOf(Push(fv, EtaAlts(e.alts)), s));
    assert (set v | v in fv) == Free(e);
  }

  lemma VisitCons(e: LExpr, es: seq<LExpr>, s: set<Name>)
    ensures VisitedAll([e] + es, s) == VisitedAll(es, Visited(e, s))
  {
    assert ([e] + es)[1..] == es;
  }

  lemma {:induction false} EtaAltsVisit(alts: seq<LAlt>, s: set<Name>, fv: set<Name>)
    requires UniqueOf(alts) && FreeOf(alts) !! BindersOf(alts) && s !! BindersOf(alts)
    ensures VisitedOf(EtaAlts(alts), s) == s + FreeOf(alts)
    decreases alts, 0
  {
    hide Unique, Eta, Visited, Free, Binders, PatsVars;
    if alts != [] {
      var m := alts[0];
      EtaVisit(m.body, s);
      EtaAltsVisit(alts[1..], s + (Free(m.body) - PatsVars(m.pats)), fv);
      assert (s + Free(m.body)) - PatsVars(m.pats) == s + (Free(m.body) - PatsVars(m.pats));
      assert EtaAlts(alts)[1..] == EtaAlts(alts[1..]);
    }
  }

  /** With the free variables pushed in front, the visitor may lose some of them, but no others. */
  lemma {:induction false} PushVisit(alts: seq<LAlt>, fv: seq<Name>, s: set<Name>)
    requires UniqueOf(alts) && (set v | v in fv) !! BindersOf(alts) && s !! BindersOf(alts) && FreeOf(alts) <= (set v | v in fv)
    ensures VisitedOf(Push(fv, EtaAlts(alts)), s) + (set v | v in fv) == s + (set v | v in fv)
    decreases alts, 0
  {
    hide Unique, Eta, Visited, Free, Binders, PatsVars;
    if alts != [] {
      var m := alts[0];
      var f := set v | v in fv;
      EtaVisit(m.body, s);
      PatListVars(fv, m.pats);
      var s1 := (s + Free(m.body)) - (f + PatsVars(m.pats));
      assert s1 + f == s + f;
      PushVisit(alts[1..], fv, s1);
      assert EtaAlts(alts)[1..] == EtaAlts(alts[1..]);
      var tail := Push(fv, EtaAlts(alts)[1..]);
      assert Push(fv, EtaAlts(alts))[1..] == tail;
    }
  }

  // Deapply: applications become flat.

  function Size(e: LExpr): (n: nat)
    ensures n > 0
  {
    match e
    case LConst(_) => 1
    case LVar(_) => 1
    case LApp(es) => 1 + SizeAll(es)
    case LBlock(_, alts) => 1 + SizeOf(alts)
  }

  function SizeAll(es: seq<LExpr>): nat {
    if es == [] then 0 else Size(es[0]) + SizeAll(es[1..])
  }

  function SizeOf(alts: seq<LAlt>): nat {
    if alts == [] then 0 else Size(alts[0].body) + SizeOf(alts[1..])
  }

  lemma {:induction false} SizeAppend(a: seq<LExpr>, b: seq<LExpr>)
    ensures SizeAll(a + b) == SizeAll(a) + SizeAll(b)
    decreases |a|
  {
    if a == [] {
      assert a + b == b;
    } else {
      assert (a + b)[1..] == a[1..] + b;
      SizeAppend(a[1..], b);
    }
  }

  /** Splicing the head of an application makes it smaller. */
  lemma SpliceSmaller(es: seq<LExpr>)
    requires es != [] && es[0].LApp?
    ensures Size(LApp(es[0].es + es[1..])) < Size(LApp(es))
  {
    SizeAppend(es[0].es, es[1..]);
    assert SizeAll(es) == Size(es[0]) + SizeAll(es[1..]);
  }

  function Deapply(e: LExpr): LExpr
    decreases Size(e), 1
  {
    match e
    case LConst(_) => e
    case LVar(_) => e
    case LBlock(pos, alts) => LBlock(pos, DeapplyOf(alts))
    case LApp(es) =>
      if es == [] then e
      else if es[0].LApp? then
        (SpliceSmaller(es); Deapply(LApp(es[0].es + es[1..])))
      else if |es| == 1 then Deapply(es[0])
      else LApp(DeapplyAll(es))
  }

  function DeapplyAll(es: seq<LExpr>): (r: seq<LExpr>)
    ensures |r| == |es|
    decreases SizeAll(es), 2
  {
    if es == [] then [] else [Deapply(es[0])] + DeapplyAll(es[1..])
  }

  function DeapplyOf(alts: seq<LAlt>): seq<LAlt>
    decreases SizeOf(alts), 2
  {
    if alts == [] then [] else [LAlt(alts[0].pats, Deapply(alts[0].body))] + DeapplyOf(alts[1..])
  }

  /** Every application has a head. */
  predicate Proper(e: LExpr) {
    match e
    case LConst(_) => true
    case LVar(_) => true
    case LBlock(_, alts) => ProperOf(alts)
    case LApp(es) => es != [] && ProperAll(es)
  }

  predicate ProperAll(es: seq<LExpr>) {
    es == [] || (Proper(es[0]) && ProperAll(es[1..]))
  }

  predicate ProperOf(alts: seq<LAlt>) {
    alts == [] || (Proper(alts[0].body) && ProperOf(alts[1..]))
  }

  /** No application is a singleton or has an application as its head. */
  predicate Flat(e: LExpr) {
    match e
    case LConst(_) => true
    case LVar(_) => true
    case LBlock(_, alts) => FlatOf(alts)
    case LApp(es) => |es| >= 2 && !es[0].LApp? && FlatAll(es)
  }

  predicate FlatAll(es: seq<LExpr>) {
    es == [] || (Flat(es[0]) && FlatAll(es[1..]))
  }

  predicate FlatOf(alts: seq<LAlt>) {
    alts == [] || (Flat(alts[0].body) && FlatOf(alts[1..]))
  }

  lemma {:induction false} ProperAppend(a: seq<LExpr>, b: seq<LExpr>)
    ensures ProperAll(a + b) <==> ProperAll(a) && ProperAll(b)
    decreases |a|
  {
    if a == [] {
      assert a + b == b;
    } else {
      assert (a + b)[1..] == a[1..] + b;
      ProperAppend(a[1..], b);
    }
  }

  /** Deapply leaves flat applications. */
  lemma {:induction false} DeapplyFlat(e: LExpr)
    requires Proper(e)
    ensures Flat(Deapply(e))
    decreases Size(e), 1
  {
    match e
    case LConst(_) =>
    case LVar(_) =>
    case LBlock(_, alts) => DeapplyFlatOf(alts);
    case LApp(es) =>
      assert Proper(es[0]);
      if es[0].LApp? {
        SpliceSmaller(es);
        ProperAppend(es[0].es, es[1..]);
        DeapplyFlat(LApp(es[0].es + es[1..]));
      } else if |es| == 1 {
        DeapplyFlat(es[0]);
      } else {
        DeapplyFlatAll(es);
      }
  }

  lemma {:induction false} DeapplyFlatAll(es: seq<LExpr>)
    requires ProperAll(es)
    ensures FlatAll(DeapplyAll(es))
    decreases SizeAll(es), 2
  {
    hide Deapply, Proper, Flat;
    if es != [] {
      DeapplyFlat(es[0]);
      DeapplyFlatAll(es[1..]);
    }
  }

  lemma {:induction false} DeapplyFlatOf(alts: seq<LAlt>)
    requires ProperOf(alts)
    ensures FlatOf(DeapplyOf(alts))
    decreases SizeOf(alts), 2
  {
    hide Deapply, Proper, Flat;
    if alts != [] {
      DeapplyFlat(alts[0].body);
      DeapplyFlatOf(alts[1..]);
      assert DeapplyOf(alts)[1..] == DeapplyOf(alts[1..]);
    }
  }

  // The spine of an application, as deapply leaves it

  function DHead(e: LExpr): LExpr {
    match e
    case LApp(es) => if es == [] then e else DHead(es[0])
    case _ => Deapply(e)
  }

  function DArgs(e: LExpr): seq<LExpr> {
    match e
    case LApp(es) => if es == [] then [] else DArgs(es[0]) + DeapplyAll(es[1..])
    case _ => []
  }

  function Make(h: LExpr, es: seq<LExpr>): LExpr {
    if es == [] then h else LApp([h] + es)
  }

  lemma {:induction false} DeapplyAppend(a: seq<LExpr>, b: seq<LExpr>)
    ensures DeapplyAll(a + b) == DeapplyAll(a) + DeapplyAll(b)
    decreases |a|
  {
    hide Deapply;
    if a == [] {
      assert a + b == b;
    } else {
      assert (a + b)[1..] == a[1..] + b;
      DeapplyAppend(a[1..], b);
    }
  }

  lemma {:induction false} DeapplySpine(e: LExpr)
    requires Proper(e)
    ensures Deapply(e) == Make(DHead(e), DArgs(e))
    decreases Size(e)
  {
    if e.LApp? {
      DeapplySpineApp(e);
    }
  }

  lemma {:induction false} DeapplySpineApp(e: LExpr)
    requires e.LApp? && Proper(e)
    ensures Deapply(e) == Make(DHead(e), DArgs(e))
    decreases Size(e), 0
  {
    var es := e.es;
    assert Proper(es[0]);
    if es[0].LApp? {
      SpliceSmaller(es);
      ProperAppend(es[0].es, es[1..]);
      DeapplySpine(LApp(es[0].es + es[1..]));
      SpliceSpine(es);
    } else if |es| == 1 {
      DeapplySpine(es[0]);
      assert DArgs(es[0]) + DeapplyAll(es[1..]) == DArgs(es[0]);
    } else {
      assert [] + DeapplyAll(es[1..]) == DeapplyAll(es[1..]);
    }
  }

  lemma SpliceSpine(es: seq<LExpr>)
    requires es != [] && es[0].LApp? && es[0].es != []
    ensures DHead(LApp(es[0].es + es[1..])) == DHead(LApp(es)) && DArgs(LApp(es[0].es + es[1..])) == DArgs(LApp(es))
  {
    hide DeapplyAll;
    var aa, rest := es[0].es, es[1..];
    assert (aa + rest)[1..] == aa[1..] + rest;
    DeapplyAppend(aa[1..], rest);
    assert DArgs(aa[0]) + (DeapplyAll(aa[1..]) + DeapplyAll(rest)) == DArgs(aa[0]) + DeapplyAll(aa[1..]) + DeapplyAll(rest);
  }

  // Lift: blocks become combinators.

  function Lift(sym: nat -> Symbol, e: LExpr): Expr {
    match e
    case LConst(a) => Const(a)
    case LVar(v) => Var(v)
    case LApp(es) => App(LiftAll(sym, es))
    case LBlock(pos, _) => Const(CombAtom(sym(pos)))
  }

  function LiftAll(sym: nat -> Symbol, es: seq<LExpr>): (r: seq<Expr>)
    ensures |r| == |es|
  {
    if es == [] then [] else [Lift(sym, es[0])] + LiftAll(sym, es[1..])
  }

  function LiftOf(sym: nat -> Symbol, alts: seq<LAlt>): seq<Alt> {
    if alts == [] then [] else [Alt(alts[0].pats, Lift(sym, alts[0].body))] + LiftOf(sym, alts[1..])
  }

  /** A block that became a combinator: its position, and what it is defined as. */
  datatype Lifted = Lifted(pos: nat, alts: seq<Alt>)

  /** The definitions an expression gives rise to, those of inner blocks first. */
  function LiftedFrom(sym: nat -> Symbol, e: LExpr): seq<Lifted> {
    match e
    case LConst(_) => []
    case LVar(_) => []
    case LApp(es) => LiftedFromAll(sym, es)
    case LBlock(pos, alts) => LiftedFromOf(sym, alts) + [Lifted(pos, LiftOf(sym, alts))]
  }

  function LiftedFromAll(sym: nat -> Symbol, es: seq<LExpr>): seq<Lifted> {
    if es == [] then [] else LiftedFrom(sym, es[0]) + LiftedFromAll(sym, es[1..])
  }

  function LiftedFromOf(sym: nat -> Symbol, alts: seq<LAlt>): seq<Lifted> {
    if alts == [] then [] else LiftedFrom(sym, alts[0].body) + LiftedFromOf(sym, alts[1..])
  }

  // What the three passes make of an expression

  /** The variables of a block, as arguments. */
  function VarArgs(vs: seq<Name>): (es: seq<Expr>)
    ensures |es| == |vs| && forall i :: 0 <= i < |vs| ==> es[i] == Var(vs[i])
  {
    if vs == [] then [] else [Var(vs[0])] + VarArgs(vs[1..])
  }

  /** The head of an expression and its arguments, after lifting. */
  ghost function CHead(sym: nat -> Symbol, e: LExpr): Expr
    decreases e, 0
  {
    match e
    case LConst(a) => Const(a)
    case LVar(v) => Var(v)
    case LBlock(pos, _) => Const(CombAtom(sym(pos)))
    case LApp(es) => if es == [] then App([]) else CHead(sym, es[0])
  }

  ghost function CArgs(sym: nat -> Symbol, e: LExpr): seq<Expr>
    decreases e, 0
  {
    match e
    case LConst(_) => []
    case LVar(_) => []
    case LBlock(_, alts) => VarArgs(Listing(FreeOf(alts)))
    case LApp(es) => if es == [] then [] else CArgs(sym, es[0]) + CAll(sym, es[1..])
  }

  /** The lifted expression: flat, with every block as a combinator applied to its free variables. */
  ghost function C(sym: nat -> Symbol, e: LExpr): Expr
    decreases e, 1
  {
    if CArgs(sym, e) == [] then CHead(sym, e) else App([CHead(sym, e)] + CArgs(sym, e))
  }

  ghost function CAll(sym: nat -> Symbol, es: seq<LExpr>): (r: seq<Expr>)
    ensures |r| == |es|
    decreases es, 0
  {
    if es == [] then [] else [C(sym, es[0])] + CAll(sym, es[1..])
  }

  /** The definition that a block becomes: its free variables are its first arguments. */
  ghost function CAlts(sym: nat -> Symbol, fv: seq<Name>, alts: seq<LAlt>): (ms: seq<Alt>)
    ensures |ms| == |alts|
    ensures forall i :: 0 <= i < |ms| ==> ms[i] == Alt(PatList(fv) + alts[i].pats, C(sym, alts[i].body))
  {
    if alts == [] then [] else [Alt(PatList(fv) + alts[0].pats, C(sym, alts[0].body))] + CAlts(sym, fv, alts[1..])
  }
}
