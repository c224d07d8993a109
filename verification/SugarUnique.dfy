/** Names that are bound once in the source give the unique names that lambda lifting asks for. */
module SugarUnique {
  import opened Terms
  import opened Syntax
  import opened Closures
  import opened Lifting
  import opened Reredex
  import opened LiftProgram
  import opened Sugar
  import opened SugarMeaning
  import Identify

  // Binders of a term, as often as they bind; those of W, the names of wildcards, are not counted.

  function One(x: Name, W: set<Name>): multiset<Name> {
    if x in W then multiset{} else multiset{x}
  }

  function PatNames(p: Pattern, W: set<Name>): multiset<Name> {
    match p
    case PConst(_) => multiset{}
    case PVar(x) => One(x, W)
    case PTag(q, _) => PatNames(q, W)
    case PApp(ps) => PatsNames(ps, W)
  }

  function PatsNames(ps: seq<Pattern>, W: set<Name>): multiset<Name> {
    if ps == [] then multiset{} else PatNames(ps[0], W) + PatsNames(ps[1..], W)
  }

  function LNames(e: LExpr, W: set<Name>): multiset<Name>
    decreases e
  {
    match e
    case LConst(_) => multiset{}
    case LVar(_) => multiset{}
    case LApp(es) => LNamesAll(es, W)
    case LBlock(_, alts) => LNamesOf(alts, W)
  }

  function LNamesAll(es: seq<LExpr>, W: set<Name>): multiset<Name>
    decreases es
  {
    if es == [] then multiset{} else LNames(es[0], W) + LNamesAll(es[1..], W)
  }

  function LNamesOf(alts: seq<LAlt>, W: set<Name>): multiset<Name>
    decreases alts
  {
    if alts == [] then multiset{} else PatsNames(alts[0].pats, W) + LNames(alts[0].body, W) + LNamesOf(alts[1..], W)
  }

  /** All variables that occur. */
  function LVars(e: LExpr): set<Name>
    decreases e
  {
    match e
    case LConst(_) => {}
    case LVar(x) => {x}
    case LApp(es) => LVarsAll(es)
    case LBlock(_, alts) => LVarsOf(alts)
  }

  function LVarsAll(es: seq<LExpr>): set<Name>
    decreases es
  {
    if es == [] then {} else LVars(es[0]) + LVarsAll(es[1..])
  }

  function LVarsOf(alts: seq<LAlt>): set<Name>
    decreases alts
  {
    if alts == [] then {} else LVars(alts[0].body) + LVarsOf(alts[1..])
  }

  ghost predicate Once(m: multiset<Name>) {
    forall x :: m[x] <= 1
  }

  lemma {:induction false} FreeOccurs(e: LExpr)
    ensures Free(e) <= LVars(e)
    decreases e
  {
    match e
    case LConst(_) =>
    case LVar(_) =>
    case LApp(es) => FreeOccursAll(es);
    case LBlock(_, alts) => FreeOccursOf(alts);
  }

  lemma {:induction false} FreeOccursAll(es: seq<LExpr>)
    ensures FreeAll(es) <= LVarsAll(es)
    decreases es
  {
    if es != [] {
      FreeOccurs(es[0]);
      FreeOccursAll(es[1..]);
    }
  }

  lemma {:induction false} FreeOccursOf(alts: seq<LAlt>)
    ensures FreeOf(alts) <= LVarsOf(alts)
    decreases alts
  {
    if alts != [] {
      FreeOccurs(alts[0].body);
      FreeOccursOf(alts[1..]);
    }
  }

  lemma {:induction false} PatCounted(p: Pattern, W: set<Name>, x: Name)
    requires x in PatVars(p) && x !in W
    ensures x in PatNames(p, W)
    decreases p, 1
  {
    match p
    case PConst(_) =>
    case PVar(_) =>
    case PTag(q, _) => PatCounted(q, W, x);
    case PApp(ps) => PatsCounted(ps, W, x);
  }

  lemma {:induction false} PatsCounted(ps: seq<Pattern>, W: set<Name>, x: Name)
    requires x in PatsVars(ps) && x !in W
    ensures x in PatsNames(ps, W)
    decreases ps, 0
  {
    if x in PatVars(ps[0]) {
      PatCounted(ps[0], W, x);
    } else {
      PatsCounted(ps[1..], W, x);
    }
  }

  lemma {:induction false} Counted(e: LExpr, W: set<Name>, x: Name)
    requires x in Binders(e) && x !in W
    ensures x in LNames(e, W)
    decreases e
  {
    match e
    case LConst(_) =>
    case LVar(_) =>
    case LApp(es) => CountedAll(es, W, x);
    case LBlock(_, alts) => CountedOf(alts, W, x);
  }

  lemma {:induction false} CountedAll(es: seq<LExpr>, W: set<Name>, x: Name)
    requires x in BindersAll(es) && x !in W
    ensures x in LNamesAll(es, W)
    decreases es
  {
    if x in Binders(es[0]) {
      Counted(es[0], W, x);
    } else {
      CountedAll(es[1..], W, x);
    }
  }

  lemma {:induction false} CountedOf(alts: seq<LAlt>, W: set<Name>, x: Name)
    requires x in BindersOf(alts) && x !in W
    ensures x in LNamesOf(alts, W)
    decreases alts
  {
    if x in PatsVars(alts[0].pats) {
      PatsCounted(alts[0].pats, W, x);
    } else if x in Binders(alts[0].body) {
      Counted(alts[0].body, W, x);
    } else {
      CountedOf(alts[1..], W, x);
    }
  }

  /** If every name binds once, wildcards aside, and none is free too, then no name is free and bound in any part. */
  lemma {:induction false} OnceUnique(e: LExpr, W: set<Name>)
    requires Once(LNames(e, W)) && LVars(e) !! W && Free(e) !! Binders(e)
    ensures Unique(e)
    decreases e
  {
    match e
    case LConst(_) =>
    case LVar(_) =>
    case LApp(es) => OnceUniqueAll(es, W);
    case LBlock(_, alts) => OnceUniqueOf(alts, W);
  }

  lemma {:induction false} OnceUniqueAll(es: seq<LExpr>, W: set<Name>)
    requires Once(LNamesAll(es, W)) && LVarsAll(es) !! W && FreeAll(es) !! BindersAll(es)
    ensures UniqueAll(es)
    decreases es
  {
    hide LNames, LVars, Free, Binders, Unique;
    if es != [] {
      OnceParts(LNames(es[0], W), LNamesAll(es[1..], W));
      OnceUnique(es[0], W);
      OnceUniqueAll(es[1..], W);
    }
  }

  lemma OnceParts(m: multiset<Name>, n: multiset<Name>)
    requires Once(m + n)
    ensures Once(m) && Once(n) && forall x :: !(x in m && x in n)
  {
    forall x
      ensures m[x] <= 1 && n[x] <= 1 && !(x in m && x in n)
    {
      assert (m + n)[x] <= 1;
    }
  }

  lemma {:induction false} OnceUniqueOf(alts: seq<LAlt>, W: set<Name>)
    requires Once(LNamesOf(alts, W)) && LVarsOf(alts) !! W && FreeOf(alts) !! BindersOf(alts)
    ensures UniqueOf(alts)
    decreases alts
  {
    hide LNames, LVars, Free, Binders, Unique, PatsNames, PatsVars;
    if alts != [] {
      var b := alts[0].body;
      OnceParts(PatsNames(alts[0].pats, W) + LNames(b, W), LNamesOf(alts[1..], W));
      OnceParts(PatsNames(alts[0].pats, W), LNames(b, W));
      FreeOccurs(b);
      forall x | x in Free(b) && x in Binders(b)
        ensures false
      {
        Counted(b, W, x);
        if x in PatsVars(alts[0].pats) {
          PatsCounted(alts[0].pats, W, x);
        }
      }
      OnceUnique(b, W);
      OnceUniqueOf(alts[1..], W);
    }
  }

  // The same on the terms of the source

  function SNames(a: Ast, W: set<Name>): multiset<Name>
    decreases a
  {
    match a
    case SConst(_) => multiset{}
    case SVar(_) => multiset{}
    case SApp(es) => SNamesAll(es, W)
    case SBlock(_, alts) => SNamesOf(alts, W)
    case STag(_, _) => multiset{}
    case SWild(_) => multiset{}
    case SIf(_, w, i, t, e) => One(w, W) + SNames(i, W) + SNames(t, W) + SNames(e, W)
    case STuple(es) => SNamesAll(es, W)
    case SList(es, tl) => SNamesAll(es, W) + (if tl == [] then multiset{} else SNames(tl[0], W))
    case SDo(_, x, e) => One(x, W) + SNames(e, W)
    case SSeq(_, w, r, l) => One(w, W) + SNames(r, W) + SNames(l, W)
    case SLet(_, lhs, r, l) => PatsNames(DPats(lhs), W) + SNames(r, W) + SNames(l, W)
    case SLambda(_, alts) => SNamesOf(alts, W)
    case SThrow(e) => SNames(e, W)
    case STry(_, w, _, w1, t, c) => One(w, W) + One(w1, W) + SNames(t, W) + SNames(c, W)
  }

  function SNamesAll(es: seq<Ast>, W: set<Name>): multiset<Name>
    decreases es
  {
    if es == [] then multiset{} else SNames(es[0], W) + SNamesAll(es[1..], W)
  }

  function SNamesOf(alts: seq<SAlt>, W: set<Name>): multiset<Name>
    decreases alts
  {
    if alts == [] then multiset{} else PatsNames(DPats(alts[0].pats), W) + SNames(alts[0].body, W) + SNamesOf(alts[1..], W)
  }

  function SVars(a: Ast): set<Name>
    decreases a
  {
    match a
    case SConst(_) => {}
    case SVar(x) => {x}
    case SApp(es) => SVarsAll(es)
    case SBlock(_, alts) => SVarsOf(alts)
    case STag(_, _) => {}
    case SWild(_) => {}
    case SIf(_, _, i, t, e) => SVars(i) + SVars(t) + SVars(e)
    case STuple(es) => SVarsAll(es)
    case SList(es, tl) => SVarsAll(es) + (if tl == [] then {} else SVars(tl[0]))
    case SDo(_, x, e) => {x} + SVars(e)
    case SSeq(_, _, r, l) => SVars(r) + SVars(l)
    case SLet(_, _, r, l) => SVars(r) + SVars(l)
    case SLambda(_, alts) => SVarsOf(alts)
    case SThrow(e) => SVars(e)
    case STry(_, _, _, _, t, c) => SVars(t) + SVars(c)
  }

  function SVarsAll(es: seq<Ast>): set<Name>
    decreases es
  {
    if es == [] then {} else SVars(es[0]) + SVarsAll(es[1..])
  }

  function SVarsOf(alts: seq<SAlt>): set<Name>
    decreases alts
  {
    if alts == [] then {} else SVars(alts[0].body) + SVarsOf(alts[1..])
  }

  function SFree(a: Ast): set<Name>
    decreases a
  {
    match a
    case SConst(_) => {}
    case SVar(x) => {x}
    case SApp(es) => SFreeAll(es)
    case SBlock(_, alts) => SFreeOf(alts)
    case STag(_, _) => {}
    case SWild(_) => {}
    case SIf(_, w, i, t, e) => SFree(i) + (SFree(t) - {w}) + SFree(e)
    case STuple(es) => SFreeAll(es)
    case SList(es, tl) => SFreeAll(es) + (if tl == [] then {} else SFree(tl[0]))
    case SDo(_, x, e) => SFree(e) - {x}
    case SSeq(_, w, r, l) => SFree(r) + (SFree(l) - {w})
    case SLet(_, lhs, r, l) => SFree(r) + (SFree(l) - PatsVars(DPats(lhs)))
    case SLambda(_, alts) => SFreeOf(alts)
    case SThrow(e) => SFree(e)
    case STry(_, w, _, w1, t, c) => (SFree(c) - {w}) + (SFree(t) - {w1})
  }

  function SFreeAll(es: seq<Ast>): set<Name>
    decreases es
  {
    if es == [] then {} else SFree(es[0]) + SFreeAll(es[1..])
  }

  function SFreeOf(alts: seq<SAlt>): set<Name>
    decreases alts
  {
    if alts == [] then {} else (SFree(alts[0].body) - PatsVars(DPats(alts[0].pats))) + SFreeOf(alts[1..])
  }

  /** What there is to say about the names of a term. */
  ghost predicate Says(e: LExpr, W: set<Name>, m: multiset<Name>, vs: set<Name>, fs: set<Name>) {
    LNames(e, W) == m && LVars(e) == vs && Free(e) == fs
  }

  ghost predicate SaysAll(es: seq<LExpr>, W: set<Name>, m: multiset<Name>, vs: set<Name>, fs: set<Name>) {
    LNamesAll(es, W) == m && LVarsAll(es) == vs && FreeAll(es) == fs
  }

  ghost predicate SaysOf(alts: seq<LAlt>, W: set<Name>, m: multiset<Name>, vs: set<Name>, fs: set<Name>) {
    LNamesOf(alts, W) == m && LVarsOf(alts) == vs && FreeOf(alts) == fs
  }

  lemma SaysNone(W: set<Name>)
    ensures SaysAll([], W, multiset{}, {}, {}) && SaysOf([], W, multiset{}, {}, {})
  {
  }

  lemma SaysCons(e: LExpr, es: seq<LExpr>, W: set<Name>, m: multiset<Name>, vs: set<Name>, fs: set<Name>, m1: multiset<Name>, vs1: set<Name>, fs1: set<Name>)
    requires Says(e, W, m, vs, fs) && SaysAll(es, W, m1, vs1, fs1)
    ensures SaysAll([e] + es, W, m + m1, vs + vs1, fs + fs1)
  {
    hide LNames, LVars, Free;
    assert ([e] + es)[1..] == es;
  }

  lemma SaysTwo(e: LExpr, e1: LExpr, W: set<Name>, m: multiset<Name>, vs: set<Name>, fs: set<Name>, m1: multiset<Name>, vs1: set<Name>, fs1: set<Name>)
    requires Says(e, W, m, vs, fs) && Says(e1, W, m1, vs1, fs1)
    ensures Says(LApp([e, e1]), W, m + m1, vs + vs1, fs + fs1)
  {
    hide Says, SaysAll;
    SaysNone(W);
    SaysCons(e1, [], W, m1, vs1, fs1, multiset{}, {}, {});
    assert [e1] + [] == [e1] && [e] + [e1] == [e, e1];
    SaysCons(e, [e1], W, m, vs, fs, m1 + multiset{}, vs1 + {}, fs1 + {});
    assert m1 + multiset{} == m1 && vs1 + {} == vs1 && fs1 + {} == fs1;
    SaysApp([e, e1], W, m + m1, vs + vs1, fs + fs1);
  }

  lemma SaysApp(es: seq<LExpr>, W: set<Name>, m: multiset<Name>, vs: set<Name>, fs: set<Name>)
    ensures Says(LApp(es), W, m, vs, fs) <==> SaysAll(es, W, m, vs, fs)
  {
  }

  lemma SaysThree(e: LExpr, e1: LExpr, e2: LExpr, W: set<Name>, m: multiset<Name>, vs: set<Name>, fs: set<Name>, m1: multiset<Name>, vs1: set<Name>, fs1: set<Name>, m2: multiset<Name>, vs2: set<Name>, fs2: set<Name>)
    requires Says(e, W, m, vs, fs) && Says(e1, W, m1, vs1, fs1) && Says(e2, W, m2, vs2, fs2)
    ensures Says(LApp([e, e1, e2]), W, m + (m1 + m2), vs + (vs1 + vs2), fs + (fs1 + fs2))
  {
    hide Says, SaysAll;
    SaysTwo(e1, e2, W, m1, vs1, fs1, m2, vs2, fs2);
    SaysApp([e1, e2], W, m1 + m2, vs1 + vs2, fs1 + fs2);
    SaysCons(e, [e1, e2], W, m, vs, fs, m1 + m2, vs1 + vs2, fs1 + fs2);
    assert [e] + [e1, e2] == [e, e1, e2];
    SaysApp([e, e1, e2], W, m + (m1 + m2), vs + (vs1 + vs2), fs + (fs1 + fs2));
  }

  lemma SaysBlock(pos: nat, ps: seq<Pattern>, e: LExpr, W: set<Name>, m: multiset<Name>, vs: set<Name>, fs: set<Name>)
    requires Says(e, W, m, vs, fs)
    ensures Says(LBlock(pos, [LAlt(ps, e)]), W, PatsNames(ps, W) + m, vs, fs - PatsVars(ps))
  {
    hide LNames, LVars, Free, PatsNames, PatsVars;
    var alts := [LAlt(ps, e)];
    assert alts[1..] == [];
    assert LNamesOf(alts, W) == PatsNames(ps, W) + LNames(e, W) + multiset{} == PatsNames(ps, W) + LNames(e, W);
    assert LVarsOf(alts) == LVars(e) + {} == LVars(e);
    assert FreeOf(alts) == (Free(e) - PatsVars(ps)) + {} == Free(e) - PatsVars(ps);
    BlockSays(pos, alts, W);
  }

  lemma BlockSays(pos: nat, alts: seq<LAlt>, W: set<Name>)
    ensures Says(LBlock(pos, alts), W, LNamesOf(alts, W), LVarsOf(alts), FreeOf(alts))
  {
  }

  lemma SaysNamed(pos: nat, x: Name, e: LExpr, W: set<Name>, m: multiset<Name>, vs: set<Name>, fs: set<Name>)
    requires Says(e, W, m, vs, fs)
    ensures Says(LBlock(pos, [LAlt([PVar(x)], e)]), W, One(x, W) + m, vs, fs - {x})
  {
    hide Says;
    SaysBlock(pos, [PVar(x)], e, W, m, vs, fs);
    assert [PVar(x)][1..] == [];
    assert PatsNames([PVar(x)], W) == One(x, W) + multiset{} == One(x, W);
    assert PatsVars([PVar(x)]) == {x} + {} == {x};
  }

  lemma CombSays(s: Symbol, W: set<Name>)
    ensures Says(LComb(s), W, multiset{}, {}, {})
  {
  }

  lemma {:induction false} TupleSays(f: LExpr, es: seq<LExpr>, W: set<Name>)
    ensures Says(LTuple(f, es), W, LNames(f, W) + LNamesAll(es, W), LVars(f) + LVarsAll(es), Free(f) + FreeAll(es))
    decreases |es|
  {
    hide LNames, LVars, Free;
    if es != [] {
      var i := |es| - 1;
      TupleSays(f, es[..i], W);
      var g := LTuple(f, es[..i]);
      TwoSays(g, es[i], W);
      AllSnoc(es, W);
    }
  }

  lemma TwoSays(g: LExpr, e: LExpr, W: set<Name>)
    ensures Says(LApp([g, e]), W, LNames(g, W) + LNames(e, W), LVars(g) + LVars(e), Free(g) + Free(e))
  {
    SaysTwo(g, e, W, LNames(g, W), LVars(g), Free(g), LNames(e, W), LVars(e), Free(e));
  }

  lemma {:induction false} AllSnoc(es: seq<LExpr>, W: set<Name>)
    requires es != []
    ensures var i := |es| - 1;
            SaysAll(es, W, LNamesAll(es[..i], W) + LNames(es[i], W), LVarsAll(es[..i]) + LVars(es[i]), FreeAll(es[..i]) + Free(es[i]))
    decreases |es|
  {
    hide LNames, LVars, Free;
    var i := |es| - 1;
    if i > 0 {
      AllSnoc(es[1..], W);
      assert es[1..][..i - 1] == es[..i][1..];
      assert LNamesAll(es, W) == LNames(es[0], W) + (LNamesAll(es[..i][1..], W) + LNames(es[i], W));
      assert LNamesAll(es[..i], W) == LNames(es[0], W) + LNamesAll(es[..i][1..], W);
    } else {
      assert es[..0] == [] && es[1..] == [];
      assert LNamesAll(es, W) == LNames(es[0], W) + multiset{};
    }
  }

  lemma {:induction false} ListSays(es: seq<LExpr>, l: LExpr, W: set<Name>)
    ensures Says(LList(es, l), W, LNamesAll(es, W) + LNames(l, W), LVarsAll(es) + LVars(l), FreeAll(es) + Free(l))
    decreases |es|
  {
    hide LNames, LVars, Free;
    if es != [] {
      ListSays(es[1..], l, W);
      CombSays(SYMBOL_CONS, W);
      var r := LList(es[1..], l);
      SaysThree(LComb(SYMBOL_CONS), es[0], r, W, multiset{}, {}, {}, LNames(es[0], W), LVars(es[0]), Free(es[0]), LNames(r, W), LVars(r), Free(r));
    }
  }

  // What a term stands for has its names.

  ghost predicate Tells(k: Known, a: Ast, W: set<Name>) {
    Says(D(k, a), W, SNames(a, W), SVars(a), SFree(a))
  }

  lemma {:induction false} DSays(k: Known, a: Ast, W: set<Name>)
    ensures Tells(k, a, W)
    decreases a, 1
  {
    hide Says, DAll, DAlts, DTail, DAdd, DPats, SaysAll, SaysOf;
    match a
    case SConst(_) => LeafSays(k, a, W);
    case SVar(_) => LeafSays(k, a, W);
    case SApp(es) =>
      DAllSays(k, es, W);
      SaysApp(DAll(k, es), W, SNamesAll(es, W), SVarsAll(es), SFreeAll(es));
    case SBlock(pos, alts) =>
      DAltsSays(k, alts, W);
      AltsBlock(k, pos, alts, W);
    case STag(_, _) => LeafSays(k, a, W);
    case SWild(_) => LeafSays(k, a, W);
    case SIf(_, _, _, _, _) => IfSays(k, a, W);
    case STuple(es) =>
      DAllSays(k, es, W);
      DTupleSays(k, es, W);
    case SList(_, _) => DListSays(k, a, W);
    case SDo(_, _, _) => DoSays(k, a, W);
    case SSeq(_, _, _, _) => SeqSays(k, a, W);
    case SLet(_, _, _, _) => LetSays(k, a, W);
    case SLambda(pos, alts) =>
      DAltsSays(k, alts, W);
      AltsBlock(k, pos, alts, W);
    case SThrow(e) =>
      DSays(k, e, W);
      CombSays(k.throw, W);
      SaysTwo(LComb(k.throw), D(k, e), W, multiset{}, {}, {}, SNames(e, W), SVars(e), SFree(e));
      Zero(SNames(e, W), SVars(e), SFree(e));
    case STry(_, _, _, _, _, _) => TrySays(k, a, W);
  }

  lemma LeafSays(k: Known, a: Ast, W: set<Name>)
    requires a.SConst? || a.SVar? || a.STag? || a.SWild?
    ensures Tells(k, a, W)
  {
  }

  lemma Zero(m: multiset<Name>, vs: set<Name>, fs: set<Name>)
    ensures multiset{} + m == m && {} + vs == vs && {} + fs == fs
  {
  }

  lemma AltsBlock(k: Known, pos: nat, alts: seq<SAlt>, W: set<Name>)
    requires SaysOf(DAlts(k, alts), W, SNamesOf(alts, W), SVarsOf(alts), SFreeOf(alts))
    ensures Says(LBlock(pos, DAlts(k, alts)), W, SNamesOf(alts, W), SVarsOf(alts), SFreeOf(alts))
  {
    BlockSays(pos, DAlts(k, alts), W);
  }

  lemma DTupleSays(k: Known, es: seq<Ast>, W: set<Name>)
    requires SaysAll(DAll(k, es), W, SNamesAll(es, W), SVarsAll(es), SFreeAll(es))
    ensures Says(LTuple(LComb(SYMBOL_TUPLE), DAll(k, es)), W, SNamesAll(es, W), SVarsAll(es), SFreeAll(es))
  {
    hide SNames, SVars, SFree, DAll;
    TupleSays(LComb(SYMBOL_TUPLE), DAll(k, es), W);
    CombSays(SYMBOL_TUPLE, W);
    Zero(SNamesAll(es, W), SVarsAll(es), SFreeAll(es));
  }

  lemma {:induction false} DAllSays(k: Known, es: seq<Ast>, W: set<Name>)
    ensures SaysAll(DAll(k, es), W, SNamesAll(es, W), SVarsAll(es), SFreeAll(es))
    decreases es, 1
  {
    hide Says, SaysAll, D, SNames, SVars, SFree;
    SaysNone(W);
    if es != [] {
      DSays(k, es[0], W);
      DAllSays(k, es[1..], W);
      SaysCons(D(k, es[0]), DAll(k, es[1..]), W, SNames(es[0], W), SVars(es[0]), SFree(es[0]), SNamesAll(es[1..], W), SVarsAll(es[1..]), SFreeAll(es[1..]));
    }
  }

  lemma {:induction false} DAltsSays(k: Known, alts: seq<SAlt>, W: set<Name>)
    ensures SaysOf(DAlts(k, alts), W, SNamesOf(alts, W), SVarsOf(alts), SFreeOf(alts))
    decreases alts, 1
  {
    hide D, SNames, SVars, SFree, LNames, LVars, Free, PatsNames, PatsVars, DPats;
    if alts != [] {
      DSays(k, alts[0].body, W);
      DAltsSays(k, alts[1..], W);
      assert DAlts(k, alts)[1..] == DAlts(k, alts[1..]);
    }
  }

  lemma {:induction false} IfSays(k: Known, a: Ast, W: set<Name>)
    requires a.SIf?
    ensures Tells(k, a, W)
    decreases a, 0
  {
    hide LNames, LVars, Free, SNames, SVars, SFree;
    DSays(k, a.i, W);
    DSays(k, a.t, W);
    DSays(k, a.e, W);
    IfParts(k, a, W);
    IfBlock(a.pos, a.w, D(k, a.t), D(k, a.e), W);
    TwoSays(LBlock(a.pos, [LAlt([PConst(CombAtom(SYMBOL_FALSE))], D(k, a.e)), LAlt([PVar(a.w)], D(k, a.t))]), D(k, a.i), W);
    assert One(a.w, W) + LNames(D(k, a.t), W) + LNames(D(k, a.e), W) + LNames(D(k, a.i), W) == SNames(a, W);
  }

  lemma IfBlock(pos: nat, w: Name, t: LExpr, e: LExpr, W: set<Name>)
    ensures Says(LBlock(pos, [LAlt([PConst(CombAtom(SYMBOL_FALSE))], e), LAlt([PVar(w)], t)]), W,
                 One(w, W) + LNames(t, W) + LNames(e, W), LVars(t) + LVars(e), (Free(t) - {w}) + Free(e))
  {
    hide LNames, LVars, Free, PatsNames, PatsVars, Says;
    var f, p := PConst(CombAtom(SYMBOL_FALSE)), PVar(w);
    var alts := [LAlt([f], e), LAlt([p], t)];
    OnePat(f, W);
    OnePat(p, W);
    TwoAlts(pos, alts, W);
    var m, n := LNames(e, W), LNames(t, W);
    assert multiset{} + m + (One(w, W) + n) == One(w, W) + n + m;
    assert LVars(e) + LVars(t) == LVars(t) + LVars(e);
    assert (Free(e) - {}) + (Free(t) - {w}) == (Free(t) - {w}) + Free(e);
  }

  lemma OnePat(p: Pattern, W: set<Name>)
    ensures PatsNames([p], W) == PatNames(p, W) && PatsVars([p]) == PatVars(p)
  {
    hide PatNames, PatVars;
    assert [p][1..] == [];
    assert PatsNames([p], W) == PatNames(p, W) + multiset{};
  }

  lemma IfParts(k: Known, a: Ast, W: set<Name>)
    requires a.SIf?
    ensures D(k, a) == LApp([LBlock(a.pos, [LAlt([PConst(CombAtom(SYMBOL_FALSE))], D(k, a.e)), LAlt([PVar(a.w)], D(k, a.t))]), D(k, a.i)])
    ensures SNames(a, W) == One(a.w, W) + SNames(a.i, W) + SNames(a.t, W) + SNames(a.e, W)
    ensures SVars(a) == SVars(a.i) + SVars(a.t) + SVars(a.e) && SFree(a) == SFree(a.i) + (SFree(a.t) - {a.w}) + SFree(a.e)
  {
  }

  lemma TwoAlts(pos: nat, alts: seq<LAlt>, W: set<Name>)
    requires |alts| == 2
    ensures Says(LBlock(pos, alts), W,
                 PatsNames(alts[0].pats, W) + LNames(alts[0].body, W) + (PatsNames(alts[1].pats, W) + LNames(alts[1].body, W)),
                 LVars(alts[0].body) + LVars(alts[1].body),
                 (Free(alts[0].body) - PatsVars(alts[0].pats)) + (Free(alts[1].body) - PatsVars(alts[1].pats)))
  {
    hide LNames, LVars, Free, PatsNames, PatsVars;
    BlockSays(pos, alts, W);
    assert alts[1..][1..] == [];
    assert LNamesOf(alts[1..], W) == PatsNames(alts[1].pats, W) + LNames(alts[1].body, W) + multiset{};
    assert LVarsOf(alts[1..]) == LVars(alts[1].body) + {};
    assert FreeOf(alts[1..]) == (Free(alts[1].body) - PatsVars(alts[1].pats)) + {};
  }

  lemma {:induction false} DListSays(k: Known, a: Ast, W: set<Name>)
    requires a.SList?
    ensures Tells(k, a, W)
    decreases a, 0
  {
    hide LNames, LVars, Free, SNames, SVars, SFree, DAll;
    DAllSays(k, a.es, W);
    if a.tl != [] {
      DSays(k, a.tl[0], W);
    }
    CombSays(SYMBOL_NIL, W);
    ListSays(DAll(k, a.es), DTail(k, a.tl), W);
    ListParts(k, a, W);
  }

  lemma ListParts(k: Known, a: Ast, W: set<Name>)
    requires a.SList?
    ensures D(k, a) == LList(DAll(k, a.es), DTail(k, a.tl))
    ensures SNames(a, W) == SNamesAll(a.es, W) + (if a.tl == [] then multiset{} else SNames(a.tl[0], W))
    ensures SVars(a) == SVarsAll(a.es) + (if a.tl == [] then {} else SVars(a.tl[0]))
    ensures SFree(a) == SFreeAll(a.es) + (if a.tl == [] then {} else SFree(a.tl[0]))
  {
  }

  lemma {:induction false} SeqSays(k: Known, a: Ast, W: set<Name>)
    requires a.SSeq?
    ensures Tells(k, a, W)
    decreases a, 0
  {
    hide LNames, LVars, Free, SNames, SVars, SFree, D;
    DSays(k, a.r, W);
    DSays(k, a.l, W);
    SeqParts(k, a, W);
    SaysNamed(a.pos, a.w, D(k, a.l), W, SNames(a.l, W), SVars(a.l), SFree(a.l));
    TwoSays(LBlock(a.pos, [LAlt([PVar(a.w)], D(k, a.l))]), D(k, a.r), W);
  }

  lemma SeqParts(k: Known, a: Ast, W: set<Name>)
    requires a.SSeq?
    ensures D(k, a) == LApp([LBlock(a.pos, [LAlt([PVar(a.w)], D(k, a.l))]), D(k, a.r)])
    ensures SNames(a, W) == One(a.w, W) + SNames(a.r, W) + SNames(a.l, W)
    ensures SVars(a) == SVars(a.r) + SVars(a.l) && SFree(a) == SFree(a.r) + (SFree(a.l) - {a.w})
  {
  }

  lemma {:induction false} LetSays(k: Known, a: Ast, W: set<Name>)
    requires a.SLet?
    ensures Tells(k, a, W)
    decreases a, 0
  {
    hide LNames, LVars, Free, SNames, SVars, SFree, D, PatsNames, PatsVars, DPats;
    DSays(k, a.r, W);
    DSays(k, a.l, W);
    LetParts(k, a, W);
    SaysBlock(a.pos, DPats(a.lhs), D(k, a.l), W, SNames(a.l, W), SVars(a.l), SFree(a.l));
    TwoSays(LBlock(a.pos, [LAlt(DPats(a.lhs), D(k, a.l))]), D(k, a.r), W);
  }

  lemma LetParts(k: Known, a: Ast, W: set<Name>)
    requires a.SLet?
    ensures D(k, a) == LApp([LBlock(a.pos, [LAlt(DPats(a.lhs), D(k, a.l))]), D(k, a.r)])
    ensures SNames(a, W) == PatsNames(DPats(a.lhs), W) + SNames(a.r, W) + SNames(a.l, W)
    ensures SVars(a) == SVars(a.r) + SVars(a.l) && SFree(a) == SFree(a.r) + (SFree(a.l) - PatsVars(DPats(a.lhs)))
  {
  }

  lemma {:induction false} TrySays(k: Known, a: Ast, W: set<Name>)
    requires a.STry?
    ensures Tells(k, a, W)
    decreases a, 0
  {
    hide LNames, LVars, Free, SNames, SVars, SFree, D;
    DSays(k, a.t, W);
    DSays(k, a.c, W);
    TryParts(k, a, W);
    CombSays(k.handle, W);
    SaysNamed(a.pos, a.w, D(k, a.c), W, SNames(a.c, W), SVars(a.c), SFree(a.c));
    SaysNamed(a.pos1, a.w1, D(k, a.t), W, SNames(a.t, W), SVars(a.t), SFree(a.t));
    SaysThree(LComb(k.handle), LBlock(a.pos, [LAlt([PVar(a.w)], D(k, a.c))]), LBlock(a.pos1, [LAlt([PVar(a.w1)], D(k, a.t))]), W,
              multiset{}, {}, {}, One(a.w, W) + SNames(a.c, W), SVars(a.c), SFree(a.c) - {a.w}, One(a.w1, W) + SNames(a.t, W), SVars(a.t), SFree(a.t) - {a.w1});
  }

  lemma TryParts(k: Known, a: Ast, W: set<Name>)
    requires a.STry?
    ensures D(k, a) == LApp([LComb(k.handle), LBlock(a.pos, [LAlt([PVar(a.w)], D(k, a.c))]), LBlock(a.pos1, [LAlt([PVar(a.w1)], D(k, a.t))])])
    ensures SNames(a, W) == One(a.w, W) + One(a.w1, W) + SNames(a.t, W) + SNames(a.c, W)
    ensures SVars(a) == SVars(a.t) + SVars(a.c) && SFree(a) == (SFree(a.c) - {a.w}) + (SFree(a.t) - {a.w1})
  {
  }

  lemma {:induction false} DoSays(k: Known, a: Ast, W: set<Name>)
    requires a.SDo?
    ensures Tells(k, a, W)
    decreases a, 0
  {
    hide LNames, LVars, Free, SNames, SVars, SFree, D, DAdd;
    AddSays(k, a.body, a.x, W);
    DoParts(k, a, W);
    SaysNamed(a.pos, a.x, DAdd(k, a.body, a.x), W, SNames(a.body, W), SVars(a.body) + {a.x}, SFree(a.body) + {a.x});
    assert SFree(a.body) + {a.x} - {a.x} == SFree(a.body) - {a.x};
  }

  lemma DoParts(k: Known, a: Ast, W: set<Name>)
    requires a.SDo?
    ensures D(k, a) == LBlock(a.pos, [LAlt([PVar(a.x)], DAdd(k, a.body, a.x))])
    ensures SNames(a, W) == One(a.x, W) + SNames(a.body, W) && SVars(a) == {a.x} + SVars(a.body) && SFree(a) == SFree(a.body) - {a.x}
  {
  }

  lemma {:induction false} AddSays(k: Known, e: Ast, x: Name, W: set<Name>)
    ensures Says(DAdd(k, e, x), W, SNames(e, W), SVars(e) + {x}, SFree(e) + {x})
    decreases e, 2
  {
    hide LNames, LVars, Free, SNames, SVars, SFree, D, DAll;
    VarSays(x, W);
    if IsPipe(k, e) {
      var e0, e1, rest := e.es[0], e.es[1], e.es[2..];
      DSays(k, e0, W);
      AddSays(k, e1, x, W);
      DAllSays(k, rest, W);
      var tail := [DAdd(k, e1, x)] + DAll(k, rest);
      SaysCons(DAdd(k, e1, x), DAll(k, rest), W, SNames(e1, W), SVars(e1) + {x}, SFree(e1) + {x}, SNamesAll(rest, W), SVarsAll(rest), SFreeAll(rest));
      SaysCons(D(k, e0), tail, W, SNames(e0, W), SVars(e0), SFree(e0), SNames(e1, W) + SNamesAll(rest, W), SVars(e1) + {x} + SVarsAll(rest), SFree(e1) + {x} + SFreeAll(rest));
      PipeParts(e, W);
      AddPipe(k, e, x);
      var m := SNames(e0, W) + (SNames(e1, W) + SNamesAll(rest, W));
      SaysApp([D(k, e0)] + tail, W, m, SVars(e0) + (SVars(e1) + {x} + SVarsAll(rest)), SFree(e0) + (SFree(e1) + {x} + SFreeAll(rest)));
    } else {
      DSays(k, e, W);
      SaysTwo(D(k, e), LVar(x), W, SNames(e, W), SVars(e), SFree(e), multiset{}, {x}, {x});
      assert SNames(e, W) + multiset{} == SNames(e, W);
    }
  }

  lemma VarSays(x: Name, W: set<Name>)
    ensures Says(LVar(x), W, multiset{}, {x}, {x})
  {
  }

  lemma PipeParts(e: Ast, W: set<Name>)
    requires e.SApp? && |e.es| > 2
    ensures SNames(e, W) == SNames(e.es[0], W) + (SNames(e.es[1], W) + SNamesAll(e.es[2..], W))
    ensures SVars(e) == SVars(e.es[0]) + (SVars(e.es[1]) + SVarsAll(e.es[2..]))
    ensures SFree(e) == SFree(e.es[0]) + (SFree(e.es[1]) + SFreeAll(e.es[2..]))
  {
    hide SNames, SVars, SFree;
    AppParts(e, W);
    assert e.es[1..][1..] == e.es[2..];
    FirstParts(e.es, W);
    FirstParts(e.es[1..], W);
  }

  lemma AppParts(e: Ast, W: set<Name>)
    requires e.SApp?
    ensures SNames(e, W) == SNamesAll(e.es, W) && SVars(e) == SVarsAll(e.es) && SFree(e) == SFreeAll(e.es)
  {
  }

  lemma FirstParts(es: seq<Ast>, W: set<Name>)
    requires es != []
    ensures SNamesAll(es, W) == SNames(es[0], W) + SNamesAll(es[1..], W)
    ensures SVarsAll(es) == SVars(es[0]) + SVarsAll(es[1..]) && SFreeAll(es) == SFree(es[0]) + SFreeAll(es[1..])
  {
  }

  lemma AddPipe(k: Known, e: Ast, x: Name)
    requires IsPipe(k, e)
    ensures DAdd(k, e, x) == LApp([D(k, e.es[0])] + ([DAdd(k, e.es[1], x)] + DAll(k, e.es[2..])))
  {
    hide D, DAll;
    assert [D(k, e.es[0]), DAdd(k, e.es[1], x)] + DAll(k, e.es[2..]) == [D(k, e.es[0])] + ([DAdd(k, e.es[1], x)] + DAll(k, e.es[2..]));
  }

  // Definitions

  /** The body is closed, every name binds once but those of wildcards, which are no variables; and no name is like R_0. */
  ghost predicate WellNamed(b: Ast, W: set<Name>) {
    && SFree(b) == {} && Once(SNames(b, W)) && SVars(b) !! W
    && (forall x :: x in SNames(b, W) || x in W ==> x != [] && x[0] != 'R')
  }

  /** Then what it stands for meets what lambda lifting asks of names. */
  lemma WellPlain(k: Known, b: Ast, W: set<Name>)
    requires WellNamed(b, W)
    ensures Plain(D(k, b)) && Free(D(k, b)) == {}
  {
    hide LNames, LVars, Free, SNames, SVars, SFree, D, Unique;
    DSays(k, b, W);
    OnceUnique(D(k, b), W);
    forall i: nat
      ensures RedexName(i) !in Free(D(k, b)) + Binders(D(k, b))
    {
      assert RedexName(i)[0] == 'R';
      if RedexName(i) in Binders(D(k, b)) && RedexName(i) !in W {
        Counted(D(k, b), W, RedexName(i));
      }
    }
  }

  /** A definition of the source that is well named is one that lifting accepts, as far as names go. */
  lemma WellSource(ls: set<Symbol>, k: Known, d: SDef, W: set<Name>)
    requires d.SCode? ==> WellNamed(SBlock(0, d.alts), W) && SoundOf(ls, 0, DAlts(k, d.alts))
    requires d.SValue? ==> WellNamed(d.e, W) && Sound(ls, D(k, d.e))
    ensures SourceDef(ls, DDef(k, d))
  {
    hide WellNamed, Sound, SoundOf, Plain, DAlts;
    match d
    case SCode(alts) => WellPlain(k, SBlock(0, alts), W);
    case SValue(e) => WellPlain(k, e, W);
    case _ =>
  }

  /** The names that resolution gives, V_0, V_1, .., are not like R_0. */
  lemma ResolvedNames(n: nat)
    ensures Identify.FreshName(n) != [] && Identify.FreshName(n)[0] != 'R'
  {
  }
}
