/** The three lifting passes together compute one direct translation. */
module LiftShape {
  import opened Terms
  import opened Syntax
  import opened Closures
  import opened Lifting

  /** The definitions of the blocks of an expression, those of inner blocks first. */
  ghost function CDefs(sym: nat -> Symbol, e: LExpr): seq<Lifted> {
    match e
    case LConst(_) => []
    case LVar(_) => []
    case LApp(es) => CDefsAll(sym, es)
    case LBlock(pos, alts) => CDefsOf(sym, alts) + [Lifted(pos, CAlts(sym, Listing(FreeOf(alts)), alts))]
  }

  ghost function CDefsAll(sym: nat -> Symbol, es: seq<LExpr>): seq<Lifted> {
    if es == [] then [] else CDefs(sym, es[0]) + CDefsAll(sym, es[1..])
  }

  ghost function CDefsOf(sym: nat -> Symbol, alts: seq<LAlt>): seq<Lifted> {
    if alts == [] then [] else CDefs(sym, alts[0].body) + CDefsOf(sym, alts[1..])
  }

  // Eta keeps applications proper.

  lemma ProperVars(vs: seq<Name>)
    ensures ProperAll(VarList(vs)) && DeapplyAll(VarList(vs)) == VarList(vs)
    decreases |vs|
  {
    if vs != [] {
      assert VarList(vs)[1..] == VarList(vs[1..]);
      ProperVars(vs[1..]);
    }
  }

  lemma {:induction false} EtaProper(e: LExpr)
    requires Proper(e)
    ensures Proper(Eta(e))
    decreases e, 1
  {
    match e
    case LConst(_) =>
    case LVar(_) =>
    case LApp(es) => EtaProperAll(es);
    case LBlock(pos, alts) => EtaProperBlock(e);
  }

  lemma {:induction false} EtaProperBlock(e: LExpr)
    requires e.LBlock? && Proper(e)
    ensures Proper(Eta(e))
    decreases e, 0
  {
    hide EtaAlts, ProperOf, ProperAll, Push, Visited, VarList;
    EtaProperOf(e.alts);
    var fv := Listing(Visited(LBlock(e.pos, EtaAlts(e.alts)), {}));
    PushProper(fv, EtaAlts(e.alts));
    ProperVars(fv);
    ProperCons(LBlock(e.pos, Push(fv, EtaAlts(e.alts))), VarList(fv));
  }

  lemma ProperCons(e: LExpr, es: seq<LExpr>)
    requires Proper(e) && ProperAll(es)
    ensures ProperAll([e] + es)
  {
    assert ([e] + es)[1..] == es;
  }

  lemma {:induction false} PushProper(vs: seq<Name>, alts: seq<LAlt>)
    requires ProperOf(alts)
    ensures ProperOf(Push(vs, alts))
    decreases |alts|
  {
    hide Proper;
    if alts != [] {
      PushProper(vs, alts[1..]);
      assert Push(vs, alts)[1..] == Push(vs, alts[1..]);
    }
  }

  lemma {:induction false} EtaProperAll(es: seq<LExpr>)
    requires ProperAll(es)
    ensures ProperAll(EtaAll(es))
    decreases es, 0
  {
    hide Proper, Eta;
    if es != [] {
      EtaProper(es[0]);
      EtaProperAll(es[1..]);
    }
  }

  lemma {:induction false} EtaProperOf(alts: seq<LAlt>)
    requires ProperOf(alts)
    ensures ProperOf(EtaAlts(alts))
    decreases alts, 0
  {
    hide Proper, Eta;
    if alts != [] {
      EtaProper(alts[0].body);
      EtaProperOf(alts[1..]);
      assert EtaAlts(alts)[1..] == EtaAlts(alts[1..]);
    }
  }

  // Translation

  lemma {:induction false} LiftAppend(sym: nat -> Symbol, a: seq<LExpr>, b: seq<LExpr>)
    ensures LiftAll(sym, a + b) == LiftAll(sym, a) + LiftAll(sym, b)
    ensures LiftedFromAll(sym, a + b) == LiftedFromAll(sym, a) + LiftedFromAll(sym, b)
    decreases |a|
  {
    hide Lift, LiftedFrom;
    if a == [] {
      assert a + b == b;
    } else {
      assert (a + b)[1..] == a[1..] + b;
      LiftAppend(sym, a[1..], b);
    }
  }

  lemma {:induction false} LiftVars(sym: nat -> Symbol, vs: seq<Name>)
    ensures LiftAll(sym, VarList(vs)) == VarArgs(vs) && LiftedFromAll(sym, VarList(vs)) == []
    decreases |vs|
  {
    if vs != [] {
      assert VarList(vs)[1..] == VarList(vs[1..]);
      LiftVars(sym, vs[1..]);
    }
  }

  lemma LiftMake(sym: nat -> Symbol, h: LExpr, es: seq<LExpr>)
    ensures Lift(sym, Make(h, es)) == if es == [] then Lift(sym, h) else App([Lift(sym, h)] + LiftAll(sym, es))
    ensures LiftedFrom(sym, Make(h, es)) == LiftedFrom(sym, h) + LiftedFromAll(sym, es)
  {
    if es != [] {
      assert ([h] + es)[1..] == es;
    }
  }

  /** The spine of an expression after eta and deapply, lifted. */
  ghost predicate SpineLifts(sym: nat -> Symbol, e: LExpr) {
    var d := Eta(e);
    && Lift(sym, DHead(d)) == CHead(sym, e) && LiftAll(sym, DArgs(d)) == CArgs(sym, e)
    && LiftedFrom(sym, DHead(d)) + LiftedFromAll(sym, DArgs(d)) == CDefs(sym, e)
  }

  lemma {:induction false} PassesExpr(sym: nat -> Symbol, e: LExpr)
    requires Unique(e) && Proper(e)
    ensures Lift(sym, Deapply(Eta(e))) == C(sym, e)
    ensures LiftedFrom(sym, Deapply(Eta(e))) == CDefs(sym, e)
    decreases e, 3
  {
    hide Unique, Proper, Eta, Deapply, DHead, DArgs, CHead, CArgs, Lift, LiftedFrom, LiftAll, LiftedFromAll, CDefs;
    PassesSpine(sym, e);
    EtaProper(e);
    DeapplySpine(Eta(e));
    LiftMake(sym, DHead(Eta(e)), DArgs(Eta(e)));
  }

  lemma {:induction false} PassesSpine(sym: nat -> Symbol, e: LExpr)
    requires Unique(e) && Proper(e)
    ensures SpineLifts(sym, e)
    decreases e, 2
  {
    match e
    case LConst(_) =>
    case LVar(_) =>
    case LApp(es) => PassesApp(sym, e);
    case LBlock(_, _) => PassesBlock(sym, e);
  }

  lemma {:induction false} PassesApp(sym: nat -> Symbol, e: LExpr)
    requires e.LApp? && Unique(e) && Proper(e)
    ensures SpineLifts(sym, e)
    decreases e, 1
  {
    hide Unique, Proper, Eta, EtaAll, DeapplyAll, DHead, DArgs, CHead, CArgs, Lift, LiftedFrom, LiftAll, LiftedFromAll, CDefs, CDefsAll, CAll;
    var es := e.es;
    AppParts(sym, e);
    PassesSpine(sym, es[0]);
    PassesAll(sym, es[1..]);
    LiftAppend(sym, DArgs(Eta(es[0])), DeapplyAll(EtaAll(es[1..])));
  }

  lemma AppParts(sym: nat -> Symbol, e: LExpr)
    requires e.LApp? && Unique(e) && Proper(e)
    ensures var es := e.es;
            && es != [] && Unique(es[0]) && UniqueAll(es[1..]) && Proper(es[0]) && ProperAll(es[1..])
            && DHead(Eta(e)) == DHead(Eta(es[0])) && DArgs(Eta(e)) == DArgs(Eta(es[0])) + DeapplyAll(EtaAll(es[1..]))
            && CHead(sym, e) == CHead(sym, es[0]) && CArgs(sym, e) == CArgs(sym, es[0]) + CAll(sym, es[1..])
            && CDefs(sym, e) == CDefs(sym, es[0]) + CDefsAll(sym, es[1..])
  {
    hide DeapplyAll, CAll;
    assert EtaAll(e.es)[1..] == EtaAll(e.es[1..]);
  }

  lemma {:induction false} PassesAll(sym: nat -> Symbol, es: seq<LExpr>)
    requires UniqueAll(es) && ProperAll(es)
    ensures LiftAll(sym, DeapplyAll(EtaAll(es))) == CAll(sym, es)
    ensures LiftedFromAll(sym, DeapplyAll(EtaAll(es))) == CDefsAll(sym, es)
    decreases es, 4
  {
    hide Unique, Proper, Eta, Deapply, C, Lift, LiftedFrom, CDefs;
    if es != [] {
      PassesExpr(sym, es[0]);
      PassesAll(sym, es[1..]);
      assert EtaAll(es)[1..] == EtaAll(es[1..]);
      assert DeapplyAll(EtaAll(es))[1..] == DeapplyAll(EtaAll(es[1..]));
    }
  }

  lemma {:induction false} PassesBlock(sym: nat -> Symbol, e: LExpr)
    requires e.LBlock? && Unique(e) && Proper(e)
    ensures SpineLifts(sym, e)
    decreases e, 1
  {
    hide Push, EtaAlts, DeapplyOf, DeapplyAll, LiftOf, LiftedFromOf, CDefsOf, CAlts, FreeOf, UniqueOf, ProperOf, Visited, VisitedOf, VisitedAll, LiftAll, LiftedFromAll;
    hide Eta, DHead, DArgs;
    var alts := e.alts;
    EtaBlockVisit(e, {});
    var fv := Listing(FreeOf(alts));
    var block := LBlock(e.pos, Push(fv, EtaAlts(alts)));
    BlockSpine(block, VarList(fv));
    PassesOf(sym, fv, alts);
    ProperVars(fv);
    LiftVars(sym, fv);
    var d := LiftedFrom(sym, Deapply(block));
    assert d + [] == d;
  }

  lemma BlockSpine(block: LExpr, es: seq<LExpr>)
    requires block.LBlock?
    ensures DHead(LApp([block] + es)) == Deapply(block) && DArgs(LApp([block] + es)) == DeapplyAll(es)
  {
    assert ([block] + es)[1..] == es;
    assert [] + DeapplyAll(es) == DeapplyAll(es);
  }

  lemma {:induction false} PassesOf(sym: nat -> Symbol, fv: seq<Name>, alts: seq<LAlt>)
    requires UniqueOf(alts) && ProperOf(alts)
    ensures LiftOf(sym, DeapplyOf(Push(fv, EtaAlts(alts)))) == CAlts(sym, fv, alts)
    ensures LiftedFromOf(sym, DeapplyOf(Push(fv, EtaAlts(alts)))) == CDefsOf(sym, alts)
    decreases alts, 4
  {
    hide Unique, Proper, Eta, Deapply, C, Lift, LiftedFrom, CDefs;
    if alts != [] {
      PassesExpr(sym, alts[0].body);
      PassesOf(sym, fv, alts[1..]);
      assert EtaAlts(alts)[1..] == EtaAlts(alts[1..]);
      var pushed := Push(fv, EtaAlts(alts));
      assert pushed[1..] == Push(fv, EtaAlts(alts[1..]));
      assert DeapplyOf(pushed)[1..] == DeapplyOf(pushed[1..]);
    }
  }
}
