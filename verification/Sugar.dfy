/** The surface language after name resolution, and the passes that reduce it to blocks and applications. */
module Sugar {
  import opened Terms
  import opened Syntax
  import opened Closures

  /** Expressions and patterns alike. The names that wildcards and do variables will get, and the positions of the
      blocks to come, are kept in the nodes; a list has at most one tail. */
  datatype Ast =
    | SConst(a: Atom)
    | SVar(x: Name)
    | SApp(es: seq<Ast>)
    | SBlock(pos: nat, alts: seq<SAlt>)
    | STag(p: Ast, s: Symbol)
    | SWild(w: Name)
    | SIf(pos: nat, w: Name, i: Ast, t: Ast, e: Ast)
    | STuple(es: seq<Ast>)
    | SList(es: seq<Ast>, tl: seq<Ast>)
    | SDo(pos: nat, x: Name, body: Ast)
    | SSeq(pos: nat, w: Name, r: Ast, l: Ast)
    | SLet(pos: nat, lhs: seq<Ast>, r: Ast, l: Ast)
    | SLambda(pos: nat, alts: seq<SAlt>)
    | SThrow(body: Ast)
    | STry(pos: nat, w: Name, pos1: nat, w1: Name, t: Ast, c: Ast)

  datatype SAlt = SAlt(pats: seq<Ast>, body: Ast)

  /** The symbols of System::throw, System::handle and System::|>. */
  datatype Known = Known(throw: Symbol, handle: Symbol, pipe: Symbol)

  predicate KnownApart(k: Known) {
    k.pipe != k.throw && k.pipe != k.handle && k.pipe != SYMBOL_CONS && k.pipe != SYMBOL_TUPLE && k.pipe != SYMBOL_NIL
  }

  function Comb(s: Symbol): Ast {
    SConst(CombAtom(s))
  }

  // The passes. All but the list pass are one traversal with one construct replaced.

  datatype Pass = Conditions | Wildcards | Tuples | Dos | Statements | Lets | Lambdas | Throws | Tries

  predicate IsPipe(k: Known, e: Ast) {
    e.SApp? && |e.es| > 2 && e.es[0] == Comb(k.pipe)
  }

  /** The variable becomes the argument of the first function in the pipe. */
  function AddVar(k: Known, e: Ast, x: Name): Ast {
    if IsPipe(k, e) then SApp([e.es[0], AddVar(k, e.es[1], x)] + e.es[2..]) else SApp([e, SVar(x)])
  }

  function TupleFrom(f: Ast, es: seq<Ast>): Ast {
    if es == [] then f else SApp([TupleFrom(f, es[..|es| - 1]), es[|es| - 1]])
  }

  function Rewrite(p: Pass, k: Known, a: Ast): Ast
    decreases a
  {
    match a
    case SConst(_) => a
    case SVar(_) => a
    case SApp(es) => SApp(RewriteAll(p, k, es))
    case SBlock(pos, alts) => SBlock(pos, RewriteAlts(p, k, alts))
    case STag(q, s) => STag(Rewrite(p, k, q), s)
    case SWild(w) => if p.Wildcards? then SVar(w) else a
    case SIf(pos, w, i, t, e) =>
      var i0, t0, e0 := Rewrite(p, k, i), Rewrite(p, k, t), Rewrite(p, k, e);
      if p.Conditions?
      then SApp([SBlock(pos, [SAlt([Comb(SYMBOL_FALSE)], e0), SAlt([SWild(w)], t0)]), i0])
      else SIf(pos, w, i0, t0, e0)
    case STuple(es) =>
      if p.Tuples? then TupleFrom(Comb(SYMBOL_TUPLE), RewriteAll(p, k, es)) else STuple(RewriteAll(p, k, es))
    case SList(es, tl) => SList(RewriteAll(p, k, es), RewriteAll(p, k, tl))
    case SDo(pos, x, e) =>
      var e0 := Rewrite(p, k, e);
      if p.Dos? then SBlock(pos, [SAlt([SVar(x)], AddVar(k, e0, x))]) else SDo(pos, x, e0)
    case SSeq(pos, w, r, l) =>
      var r0, l0 := Rewrite(p, k, r), Rewrite(p, k, l);
      if p.Statements? then SLet(pos, [SWild(w)], r0, l0) else SSeq(pos, w, r0, l0)
    case SLet(pos, lhs, r, l) =>
      var r0, l0 := Rewrite(p, k, r), Rewrite(p, k, l);
      if p.Lets? then SApp([SBlock(pos, [SAlt(lhs, l0)]), r0]) else SLet(pos, RewriteAll(p, k, lhs), r0, l0)
    case SLambda(pos, alts) =>
      if p.Lambdas? then SBlock(pos, RewriteAlts(p, k, alts)) else SLambda(pos, RewriteAlts(p, k, alts))
    case SThrow(e) =>
      if p.Throws? then SApp([Comb(k.throw), Rewrite(p, k, e)]) else SThrow(Rewrite(p, k, e))
    case STry(pos, w, pos1, w1, t, c) =>
      var t0, c0 := Rewrite(p, k, t), Rewrite(p, k, c);
      if p.Tries?
      then SApp([Comb(k.handle), SBlock(pos, [SAlt([SWild(w)], c0)]), SBlock(pos1, [SAlt([SWild(w1)], t0)])])
      else STry(pos, w, pos1, w1, t0, c0)
  }

  function RewriteAll(p: Pass, k: Known, es: seq<Ast>): (r: seq<Ast>)
    ensures |r| == |es|
    decreases es
  {
    if es == [] then [] else [Rewrite(p, k, es[0])] + RewriteAll(p, k, es[1..])
  }

  function RewriteAlts(p: Pass, k: Known, alts: seq<SAlt>): (r: seq<SAlt>)
    ensures |r| == |alts|
    decreases alts
  {
    if alts == [] then []
    else [SAlt(RewriteAll(p, k, alts[0].pats), Rewrite(p, k, alts[0].body))] + RewriteAlts(p, k, alts[1..])
  }

  // The list pass rewrites what it has built once more.

  /** The list constructs in a term. */
  function Lists(a: Ast): nat
    decreases a
  {
    match a
    case SConst(_) => 0
    case SVar(_) => 0
    case SApp(es) => ListsAll(es)
    case SBlock(_, alts) => ListsOf(alts)
    case STag(q, _) => Lists(q)
    case SWild(_) => 0
    case SIf(_, _, i, t, e) => Lists(i) + Lists(t) + Lists(e)
    case STuple(es) => ListsAll(es)
    case SList(es, tl) => 1 + ListsAll(es) + ListsAll(tl)
    case SDo(_, _, e) => Lists(e)
    case SSeq(_, _, r, l) => Lists(r) + Lists(l)
    case SLet(_, lhs, r, l) => ListsAll(lhs) + Lists(r) + Lists(l)
    case SLambda(_, alts) => ListsOf(alts)
    case SThrow(e) => Lists(e)
    case STry(_, _, _, _, t, c) => Lists(t) + Lists(c)
  }

  function ListsAll(es: seq<Ast>): nat
    decreases es
  {
    if es == [] then 0 else Lists(es[0]) + ListsAll(es[1..])
  }

  function ListsOf(alts: seq<SAlt>): nat
    decreases alts
  {
    if alts == [] then 0 else ListsAll(alts[0].pats) + Lists(alts[0].body) + ListsOf(alts[1..])
  }

  /** cons e0 (.. (cons en l)) */
  function ConsFrom(es: seq<Ast>, l: Ast): (r: Ast)
    ensures Lists(r) == ListsAll(es) + Lists(l)
  {
    if es == [] then l
    else
      var rest := ConsFrom(es[1..], l);
      ConsLists(es[0], rest);
      SApp([Comb(SYMBOL_CONS), es[0], rest])
  }

  lemma ConsLists(e: Ast, l: Ast)
    ensures Lists(SApp([Comb(SYMBOL_CONS), e, l])) == Lists(e) + Lists(l)
  {
    var es := [Comb(SYMBOL_CONS), e, l];
    assert es[1..] == [e, l] && [e, l][1..] == [l] && [l][1..] == [];
    assert ListsAll([l]) == Lists(l);
    assert ListsAll([e, l]) == Lists(e) + Lists(l);
    assert ListsAll(es) == Lists(es[0]) + ListsAll(es[1..]);
  }

  function RewriteLists(a: Ast): (r: Ast)
    ensures Lists(r) == 0
    decreases Lists(a), a, 0
  {
    match a
    case SConst(_) => a
    case SVar(_) => a
    case SApp(es) => SApp(RewriteListsAll(es))
    case SBlock(pos, alts) => SBlock(pos, RewriteListsAlts(alts))
    case STag(q, s) => STag(RewriteLists(q), s)
    case SWild(_) => a
    case SIf(pos, w, i, t, e) => SIf(pos, w, RewriteLists(i), RewriteLists(t), RewriteLists(e))
    case STuple(es) => STuple(RewriteListsAll(es))
    case SList(es, tl) =>
      assert tl != [] ==> ListsAll(tl) >= Lists(tl[0]);
      var l := if tl == [] then Comb(SYMBOL_NIL) else RewriteLists(tl[0]);
      RewriteLists(ConsFrom(es, l))
    case SDo(pos, x, e) => SDo(pos, x, RewriteLists(e))
    case SSeq(pos, w, r, l) => SSeq(pos, w, RewriteLists(r), RewriteLists(l))
    case SLet(pos, lhs, r, l) => SLet(pos, RewriteListsAll(lhs), RewriteLists(r), RewriteLists(l))
    case SLambda(pos, alts) => SLambda(pos, RewriteListsAlts(alts))
    case SThrow(e) => SThrow(RewriteLists(e))
    case STry(pos, w, pos1, w1, t, c) => STry(pos, w, pos1, w1, RewriteLists(t), RewriteLists(c))
  }

  function RewriteListsAll(es: seq<Ast>): (r: seq<Ast>)
    ensures |r| == |es| && ListsAll(r) == 0
    decreases ListsAll(es), es, 0
  {
    if es == [] then [] else [RewriteLists(es[0])] + RewriteListsAll(es[1..])
  }

  function RewriteListsAlts(alts: seq<SAlt>): (r: seq<SAlt>)
    ensures |r| == |alts| && ListsOf(r) == 0
    decreases ListsOf(alts), alts, 0
  {
    if alts == [] then []
    else [SAlt(RewriteListsAll(alts[0].pats), RewriteLists(alts[0].body))] + RewriteListsAlts(alts[1..])
  }

  /** The passes in their order; wildcards are named twice, because later passes make new ones. */
  function Desugar(k: Known, a: Ast): Ast {
    var a1 := Rewrite(Tuples, k, Rewrite(Wildcards, k, Rewrite(Conditions, k, a)));
    var a2 := Rewrite(Statements, k, Rewrite(Dos, k, RewriteLists(a1)));
    var a3 := Rewrite(Tries, k, Rewrite(Throws, k, Rewrite(Lambdas, k, Rewrite(Lets, k, a2))));
    Rewrite(Wildcards, k, a3)
  }

  // The blocks and applications a term stands for

  /** An application in head position is part of the application, in patterns too; one of a single part is that part. */
  function Joined(p: Pattern, ps: seq<Pattern>): Pattern {
    if ps == [] then p else if p.PApp? then PApp(p.ps + ps) else PApp([p] + ps)
  }

  function DPat(p: Ast): Pattern
    decreases p
  {
    match p
    case SConst(a) => PConst(a)
    case SVar(x) => PVar(x)
    case SWild(w) => PVar(w)
    case STag(q, s) => PTag(DPat(q), s)
    case SApp(es) => if es == [] then PApp([]) else Joined(DPat(es[0]), DPats(es[1..]))
    case STuple(es) => Joined(PConst(CombAtom(SYMBOL_TUPLE)), DPats(es))
    case SList(es, tl) => DListPat(es, PTail(tl))
    case _ => PApp([])
  }

  function PTail(tl: seq<Ast>): Pattern
    decreases tl
  {
    if tl == [] then PConst(CombAtom(SYMBOL_NIL)) else DPat(tl[0])
  }

  function DPats(ps: seq<Ast>): (r: seq<Pattern>)
    ensures |r| == |ps|
    decreases ps
  {
    if ps == [] then [] else [DPat(ps[0])] + DPats(ps[1..])
  }

  function DListPat(es: seq<Ast>, l: Pattern): Pattern
    decreases es
  {
    if es == [] then l else PApp([PConst(CombAtom(SYMBOL_CONS)), DPat(es[0]), DListPat(es[1..], l)])
  }

  function LComb(s: Symbol): LExpr {
    LConst(CombAtom(s))
  }

  function LTuple(f: LExpr, es: seq<LExpr>): LExpr {
    if es == [] then f else LApp([LTuple(f, es[..|es| - 1]), es[|es| - 1]])
  }

  function LList(es: seq<LExpr>, l: LExpr): LExpr {
    if es == [] then l else LApp([LComb(SYMBOL_CONS), es[0], LList(es[1..], l)])
  }

  function D(k: Known, a: Ast): LExpr
    decreases a, 1
  {
    match a
    case SConst(c) => LConst(c)
    case SVar(x) => LVar(x)
    case SApp(es) => LApp(DAll(k, es))
    case SBlock(pos, alts) => LBlock(pos, DAlts(k, alts))
    case STag(_, _) => LApp([])
    case SWild(_) => LApp([])
    case SIf(pos, w, i, t, e) =>
      LApp([LBlock(pos, [LAlt([PConst(CombAtom(SYMBOL_FALSE))], D(k, e)), LAlt([PVar(w)], D(k, t))]), D(k, i)])
    case STuple(es) => LTuple(LComb(SYMBOL_TUPLE), DAll(k, es))
    case SList(es, tl) => LList(DAll(k, es), DTail(k, tl))
    case SDo(pos, x, e) => LBlock(pos, [LAlt([PVar(x)], DAdd(k, e, x))])
    case SSeq(pos, w, r, l) => LApp([LBlock(pos, [LAlt([PVar(w)], D(k, l))]), D(k, r)])
    case SLet(pos, lhs, r, l) => LApp([LBlock(pos, [LAlt(DPats(lhs), D(k, l))]), D(k, r)])
    case SLambda(pos, alts) => LBlock(pos, DAlts(k, alts))
    case SThrow(e) => LApp([LComb(k.throw), D(k, e)])
    case STry(pos, w, pos1, w1, t, c) =>
      LApp([LComb(k.handle), LBlock(pos, [LAlt([PVar(w)], D(k, c))]), LBlock(pos1, [LAlt([PVar(w1)], D(k, t))])])
  }

  function DTail(k: Known, tl: seq<Ast>): LExpr
    decreases tl, 1
  {
    if tl == [] then LComb(SYMBOL_NIL) else D(k, tl[0])
  }

  function DAll(k: Known, es: seq<Ast>): (r: seq<LExpr>)
    ensures |r| == |es|
    decreases es, 1
  {
    if es == [] then [] else [D(k, es[0])] + DAll(k, es[1..])
  }

  function DAlts(k: Known, alts: seq<SAlt>): (r: seq<LAlt>)
    ensures |r| == |alts|
    decreases alts, 1
  {
    if alts == [] then [] else [LAlt(DPats(alts[0].pats), D(k, alts[0].body))] + DAlts(k, alts[1..])
  }

  function DAdd(k: Known, e: Ast, x: Name): LExpr
    decreases e, 2
  {
    if IsPipe(k, e) then LApp([D(k, e.es[0]), DAdd(k, e.es[1], x)] + DAll(k, e.es[2..])) else LApp([D(k, e), LVar(x)])
  }

  // Patterns and expressions

  predicate ProperPat(p: Ast)
    decreases p
  {
    match p
    case SConst(_) => true
    case SVar(_) => true
    case SWild(_) => true
    case STag(q, _) => ProperPat(q)
    case SApp(es) => es != [] && ProperPats(es)
    case STuple(es) => ProperPats(es)
    case SList(es, tl) => |tl| <= 1 && (tl != [] ==> es != []) && ProperPats(es) && ProperPats(tl)
    case _ => false
  }

  predicate ProperPats(ps: seq<Ast>)
    decreases ps
  {
    ps == [] || (ProperPat(ps[0]) && ProperPats(ps[1..]))
  }

  /** Wildcards and tags stand in patterns only, and patterns hold nothing else than patterns. */
  predicate Proper(a: Ast)
    decreases a
  {
    match a
    case SConst(_) => true
    case SVar(_) => true
    case SApp(es) => es != [] && ProperAll(es)
    case SBlock(_, alts) => ProperOf(alts)
    case STag(_, _) => false
    case SWild(_) => false
    case SIf(_, _, i, t, e) => Proper(i) && Proper(t) && Proper(e)
    case STuple(es) => ProperAll(es)
    case SList(es, tl) => |tl| <= 1 && (tl != [] ==> es != []) && ProperAll(es) && ProperAll(tl)
    case SDo(_, _, e) => Proper(e)
    case SSeq(_, _, r, l) => Proper(r) && Proper(l)
    case SLet(_, lhs, r, l) => ProperPats(lhs) && Proper(r) && Proper(l)
    case SLambda(_, alts) => ProperOf(alts)
    case SThrow(e) => Proper(e)
    case STry(_, _, _, _, t, c) => Proper(t) && Proper(c)
  }

  predicate ProperAll(es: seq<Ast>)
    decreases es
  {
    es == [] || (Proper(es[0]) && ProperAll(es[1..]))
  }

  predicate ProperOf(alts: seq<SAlt>)
    decreases alts
  {
    alts == [] || (ProperPats(alts[0].pats) && Proper(alts[0].body) && ProperOf(alts[1..]))
  }

  // Every pass keeps what a term stands for

  lemma {:induction false} TuplePat(f: Ast, es: seq<Ast>)
    requires ProperPat(f) && ProperPats(es)
    ensures ProperPat(TupleFrom(f, es)) && DPat(TupleFrom(f, es)) == Joined(DPat(f), DPats(es))
    decreases |es|
  {
    if es != [] {
      var n := |es| - 1;
      ProperPatsSplit(es, n);
      TuplePat(f, es[..n]);
      DPatsSplit(es, n);
      assert DPats([es[n]]) == [DPat(es[n])];
      var g := TupleFrom(f, es[..n]);
      assert [g, es[n]][1..] == [es[n]];
      JoinedTwice(DPat(f), DPats(es[..n]), DPat(es[n]));
    }
  }

  lemma JoinedTwice(p: Pattern, ps: seq<Pattern>, q: Pattern)
    ensures Joined(Joined(p, ps), [q]) == Joined(p, ps + [q])
  {
    if p.PApp? {
      assert p.ps + ps + [q] == p.ps + (ps + [q]);
    } else {
      assert [p] + ps + [q] == [p] + (ps + [q]);
    }
  }

  lemma {:induction false} DPatsSplit(ps: seq<Ast>, n: nat)
    requires n <= |ps|
    ensures DPats(ps) == DPats(ps[..n]) + DPats(ps[n..])
    decreases n
  {
    if n == 0 {
      assert ps[..0] == [] && ps[0..] == ps;
    } else {
      DPatsSplit(ps[1..], n - 1);
      assert ps[..n][1..] == ps[1..][..n - 1] && ps[1..][n - 1..] == ps[n..];
    }
  }

  lemma {:induction false} ProperPatsSplit(ps: seq<Ast>, n: nat)
    requires n <= |ps|
    ensures ProperPats(ps) <==> ProperPats(ps[..n]) && ProperPats(ps[n..])
    decreases n
  {
    if n == 0 {
      assert ps[..0] == [] && ps[0..] == ps;
    } else {
      ProperPatsSplit(ps[1..], n - 1);
      assert ps[..n][1..] == ps[1..][..n - 1] && ps[1..][n - 1..] == ps[n..];
    }
  }

  lemma {:induction false} PatKept(p: Pass, k: Known, a: Ast)
    requires ProperPat(a)
    ensures ProperPat(Rewrite(p, k, a)) && DPat(Rewrite(p, k, a)) == DPat(a)
    decreases a, 1
  {
    hide RewriteAll, DPats, DListPat, Joined, ProperPats;
    match a
    case SConst(_) =>
    case SVar(_) =>
    case SWild(_) =>
    case STag(q, _) => PatKept(p, k, q);
    case SApp(es) => AppPatKept(p, k, es);
    case STuple(es) =>
      PatsKept(p, k, es);
      TuplePat(Comb(SYMBOL_TUPLE), RewriteAll(p, k, es));
    case SList(es, tl) => ListPatKept(p, k, es, tl);
  }

  lemma {:induction false} AppPatKept(p: Pass, k: Known, es: seq<Ast>)
    requires ProperPat(SApp(es))
    ensures ProperPat(SApp(RewriteAll(p, k, es))) && DPat(SApp(RewriteAll(p, k, es))) == DPat(SApp(es))
    decreases es, 2
  {
    hide Joined;
    PatsKept(p, k, es);
    PatKept(p, k, es[0]);
    PatsKept(p, k, es[1..]);
    assert RewriteAll(p, k, es)[1..] == RewriteAll(p, k, es[1..]);
  }

  lemma {:induction false} ListPatKept(p: Pass, k: Known, es: seq<Ast>, tl: seq<Ast>)
    requires ProperPat(SList(es, tl))
    ensures ProperPat(SList(RewriteAll(p, k, es), RewriteAll(p, k, tl)))
    ensures DPat(SList(RewriteAll(p, k, es), RewriteAll(p, k, tl))) == DPat(SList(es, tl))
    decreases SList(es, tl), 0
  {
    hide DListPat;
    PatsKept(p, k, es);
    PatsKept(p, k, tl);
    PTailKept(tl, RewriteAll(p, k, tl));
    ListPat(es, RewriteAll(p, k, es), PTail(tl));
  }

  lemma PTailKept(tl: seq<Ast>, tl1: seq<Ast>)
    requires DPats(tl) == DPats(tl1)
    ensures PTail(tl) == PTail(tl1)
  {
    if tl != [] {
      assert DPats(tl)[0] == DPat(tl[0]) && DPats(tl1)[0] == DPat(tl1[0]);
    }
  }

  lemma {:induction false} ListPat(es: seq<Ast>, fs: seq<Ast>, l: Pattern)
    requires DPats(es) == DPats(fs)
    ensures DListPat(es, l) == DListPat(fs, l)
    decreases |es|
  {
    if es != [] {
      assert DPats(es)[0] == DPat(es[0]) && DPats(fs)[0] == DPat(fs[0]);
      assert DPats(es)[1..] == DPats(es[1..]) && DPats(fs)[1..] == DPats(fs[1..]);
      ListPat(es[1..], fs[1..], l);
    }
  }

  lemma {:induction false} PatsKept(p: Pass, k: Known, ps: seq<Ast>)
    requires ProperPats(ps)
    ensures ProperPats(RewriteAll(p, k, ps)) && DPats(RewriteAll(p, k, ps)) == DPats(ps)
    decreases ps, 0
  {
    if ps != [] {
      PatKept(p, k, ps[0]);
      PatsKept(p, k, ps[1..]);
    }
  }

  lemma {:induction false} TupleKept(k: Known, f: Ast, es: seq<Ast>)
    requires Proper(f) && ProperAll(es)
    ensures Proper(TupleFrom(f, es)) && D(k, TupleFrom(f, es)) == LTuple(D(k, f), DAll(k, es))
    decreases |es|
  {
    if es != [] {
      var n := |es| - 1;
      DAllSplit(k, es, n);
      TupleKept(k, f, es[..n]);
      var g := TupleFrom(f, es[..n]);
      DTwo(k, g, es[n]);
      DOne(k, es[n]);
      var ds := DAll(k, es);
      assert ds[..n] == DAll(k, es[..n]) && ds[n] == D(k, es[n]);
    }
  }

  lemma DOne(k: Known, e: Ast)
    ensures DAll(k, [e]) == [D(k, e)] && ProperAll([e]) == Proper(e)
  {
  }

  lemma DTwo(k: Known, e: Ast, f: Ast)
    ensures D(k, SApp([e, f])) == LApp([D(k, e), D(k, f)]) && (Proper(SApp([e, f])) <==> Proper(e) && Proper(f))
  {
    DOne(k, f);
    assert [e, f][1..] == [f];
  }

  lemma DThree(k: Known, e: Ast, f: Ast, g: Ast)
    ensures D(k, SApp([e, f, g])) == LApp([D(k, e), D(k, f), D(k, g)])
    ensures Proper(SApp([e, f, g])) <==> Proper(e) && Proper(f) && Proper(g)
  {
    DTwo(k, f, g);
    assert [e, f, g][1..] == [f, g];
  }

  lemma {:induction false} DAllSplit(k: Known, es: seq<Ast>, n: nat)
    requires n <= |es|
    ensures DAll(k, es) == DAll(k, es[..n]) + DAll(k, es[n..])
    ensures ProperAll(es) <==> ProperAll(es[..n]) && ProperAll(es[n..])
    decreases n
  {
    if n == 0 {
      assert es[..0] == [] && es[0..] == es;
    } else {
      DAllSplit(k, es[1..], n - 1);
      assert es[..n][1..] == es[1..][..n - 1] && es[1..][n - 1..] == es[n..];
    }
  }

  lemma DAltOne(k: Known, m: SAlt)
    ensures DAlts(k, [m]) == [LAlt(DPats(m.pats), D(k, m.body))]
    ensures ProperOf([m]) <==> ProperPats(m.pats) && Proper(m.body)
  {
    assert [m][1..] == [];
  }

  lemma DPatOne(p: Ast)
    ensures DPats([p]) == [DPat(p)] && ProperPats([p]) == ProperPat(p)
  {
    assert [p][1..] == [];
  }

  /** A block with one or two alternatives, made by a pass. */
  lemma DBlockOne(k: Known, pos: nat, p: Ast, e: Ast)
    ensures D(k, SBlock(pos, [SAlt([p], e)])) == LBlock(pos, [LAlt([DPat(p)], D(k, e))])
    ensures Proper(SBlock(pos, [SAlt([p], e)])) <==> ProperPat(p) && Proper(e)
  {
    DAltOne(k, SAlt([p], e));
    DPatOne(p);
  }

  lemma DBlockTwo(k: Known, pos: nat, p: Ast, e: Ast, q: Ast, f: Ast)
    ensures D(k, SBlock(pos, [SAlt([p], e), SAlt([q], f)])) == LBlock(pos, [LAlt([DPat(p)], D(k, e)), LAlt([DPat(q)], D(k, f))])
    ensures Proper(SBlock(pos, [SAlt([p], e), SAlt([q], f)])) <==> ProperPat(p) && Proper(e) && ProperPat(q) && Proper(f)
  {
    var alts := [SAlt([p], e), SAlt([q], f)];
    assert alts[1..] == [SAlt([q], f)];
    DAltOne(k, SAlt([q], f));
    DPatOne(p);
    DPatOne(q);
  }

  lemma DBlockLet(k: Known, pos: nat, lhs: seq<Ast>, e: Ast)
    ensures D(k, SBlock(pos, [SAlt(lhs, e)])) == LBlock(pos, [LAlt(DPats(lhs), D(k, e))])
    ensures Proper(SBlock(pos, [SAlt(lhs, e)])) <==> ProperPats(lhs) && Proper(e)
  {
    DAltOne(k, SAlt(lhs, e));
  }

  /** Adding the variable commutes with reading a term as blocks and applications. */
  lemma {:induction false} AddKept(k: Known, e: Ast, x: Name)
    requires Proper(e)
    ensures Proper(AddVar(k, e, x)) && D(k, AddVar(k, e, x)) == DAdd(k, e, x)
    decreases e
  {
    if IsPipe(k, e) {
      DAllSplit(k, e.es, 2);
      assert e.es[..2] == [e.es[0], e.es[1]];
      DTwo(k, e.es[0], e.es[1]);
      assert e.es == [e.es[0]] + e.es[1..] && e.es[1..][1..] == e.es[2..];
      AddKept(k, e.es[1], x);
      var es1 := [e.es[0], AddVar(k, e.es[1], x)] + e.es[2..];
      DAllSplit(k, es1, 2);
      assert es1[..2] == [e.es[0], AddVar(k, e.es[1], x)] && es1[2..] == e.es[2..];
      DTwo(k, e.es[0], AddVar(k, e.es[1], x));
    } else {
      DTwo(k, e, SVar(x));
    }
  }

  /** f |> g |> .. to the functions in gs, each with further arguments after it. */
  function PipeOf(k: Known, f: Ast, gs: seq<seq<Ast>>): Ast {
    if gs == [] then f else SApp([SConst(CombAtom(k.pipe)), PipeOf(k, f, gs[..|gs| - 1])] + gs[|gs| - 1])
  }

  /** The variable is added to what the pipe starts with. */
  lemma {:induction false} AddFirst(k: Known, f: Ast, gs: seq<seq<Ast>>, x: Name)
    requires forall i :: 0 <= i < |gs| ==> gs[i] != []
    requires !(f.SApp? && |f.es| > 2 && f.es[0] == SConst(CombAtom(k.pipe)))
    ensures AddVar(k, PipeOf(k, f, gs), x) == PipeOf(k, SApp([f, SVar(x)]), gs)
    decreases |gs|
  {
    if gs != [] {
      var g, hs := gs[|gs| - 1], gs[..|gs| - 1];
      AddFirst(k, f, hs, x);
      var e := SApp([SConst(CombAtom(k.pipe)), PipeOf(k, f, hs)] + g);
      assert IsPipe(k, e) && e.es[1] == PipeOf(k, f, hs) && e.es[2..] == g;
      assert [e.es[0], AddVar(k, e.es[1], x)] + e.es[2..] == [SConst(CombAtom(k.pipe)), AddVar(k, PipeOf(k, f, hs), x)] + g;
    }
  }

  /** No pass makes a pipe, or unmakes one. */
  lemma PipeKept(p: Pass, k: Known, e: Ast)
    requires KnownApart(k) && Proper(e)
    ensures IsPipe(k, Rewrite(p, k, e)) <==> IsPipe(k, e)
  {
    match e
    case SApp(es) =>
      HeadKept(p, k, es[0]);
    case STuple(es) =>
      TupleNoPipe(k, RewriteAll(p, k, es));
    case _ =>
  }

  lemma HeadKept(p: Pass, k: Known, e: Ast)
    requires KnownApart(k) && Proper(e)
    ensures Rewrite(p, k, e) == Comb(k.pipe) <==> e == Comb(k.pipe)
  {
    hide RewriteAll, RewriteAlts, TupleFrom;
    match e
    case STuple(es) =>
      TupleNoPipe(k, RewriteAll(p, k, es));
    case _ =>
  }

  lemma TupleNoPipe(k: Known, es: seq<Ast>)
    requires KnownApart(k)
    ensures !IsPipe(k, TupleFrom(Comb(SYMBOL_TUPLE), es)) && TupleFrom(Comb(SYMBOL_TUPLE), es) != Comb(k.pipe)
  {
  }

  /** The pass keeps the pipe with the variable added. */
  lemma {:induction false} DAddKept(p: Pass, k: Known, e: Ast, x: Name)
    requires KnownApart(k) && Proper(e)
    ensures DAdd(k, Rewrite(p, k, e), x) == DAdd(k, e, x)
    decreases e, 5
  {
    PipeKept(p, k, e);
    Kept(p, k, e);
    if IsPipe(k, e) {
      var es, fs := e.es, RewriteAll(p, k, e.es);
      ProperAt(es);
      Kept(p, k, es[0]);
      DAddKept(p, k, es[1], x);
      AllKept(p, k, es[2..]);
      RewriteAllAt(p, k, es);
    }
  }

  lemma ProperAt(es: seq<Ast>)
    requires |es| > 2 && ProperAll(es)
    ensures Proper(es[0]) && Proper(es[1]) && ProperAll(es[2..])
  {
    assert es[1..][1..] == es[2..];
  }

  lemma RewriteAllAt(p: Pass, k: Known, es: seq<Ast>)
    requires |es| > 2
    ensures var fs := RewriteAll(p, k, es);
            fs[0] == Rewrite(p, k, es[0]) && fs[1] == Rewrite(p, k, es[1]) && fs[2..] == RewriteAll(p, k, es[2..])
  {
    assert es[1..][1..] == es[2..];
    assert RewriteAll(p, k, es)[1..] == RewriteAll(p, k, es[1..]);
  }

  lemma {:induction false} Kept(p: Pass, k: Known, a: Ast)
    requires KnownApart(k) && Proper(a)
    ensures Proper(Rewrite(p, k, a)) && D(k, Rewrite(p, k, a)) == D(k, a)
    decreases a, 4
  {
    hide RewriteAll, RewriteAlts, DAll, DAlts, DAdd, AddVar, ProperAll, ProperOf, ProperPats, TupleFrom, LTuple, LList, IsPipe, DPats;
    match a
    case SConst(_) =>
    case SVar(_) =>
    case SApp(es) => AllKept(p, k, es);
    case SBlock(pos, alts) => AltsKept(p, k, alts);
    case SIf(pos, w, i, t, e) => IfKept(p, k, a);
    case STuple(es) =>
      AllKept(p, k, es);
      TupleKept(k, Comb(SYMBOL_TUPLE), RewriteAll(p, k, es));
    case SList(es, tl) =>
      AllKept(p, k, es);
      AllKept(p, k, tl);
      DTailKept(k, tl, RewriteAll(p, k, tl));
    case SDo(pos, x, e) => DoKept(p, k, a);
    case SSeq(pos, w, r, l) => SeqKept(p, k, a);
    case SLet(pos, lhs, r, l) => LetKept(p, k, a);
    case SLambda(pos, alts) => AltsKept(p, k, alts);
    case SThrow(e) =>
      Kept(p, k, e);
      DTwo(k, Comb(k.throw), Rewrite(p, k, e));
    case STry(pos, w, pos1, w1, t, c) => TryKept(p, k, a);
  }

  lemma {:induction false} DoKept(p: Pass, k: Known, a: Ast)
    requires KnownApart(k) && Proper(a) && a.SDo?
    ensures Proper(Rewrite(p, k, a)) && D(k, Rewrite(p, k, a)) == D(k, a)
    decreases a, 3
  {
    hide RewriteAll, RewriteAlts, DAll, DAlts, DAdd, AddVar, ProperAll, ProperOf, ProperPats, TupleFrom, LTuple, LList, IsPipe, DPats;
    Kept(p, k, a.body);
    DAddKept(p, k, a.body, a.x);
    AddKept(k, Rewrite(p, k, a.body), a.x);
    DBlockOne(k, a.pos, SVar(a.x), AddVar(k, Rewrite(p, k, a.body), a.x));
  }

  lemma {:induction false} SeqKept(p: Pass, k: Known, a: Ast)
    requires KnownApart(k) && Proper(a) && a.SSeq?
    ensures Proper(Rewrite(p, k, a)) && D(k, Rewrite(p, k, a)) == D(k, a)
    decreases a, 0
  {
    hide RewriteAll, RewriteAlts, DAll, DAlts, DAdd, AddVar, ProperAll, ProperOf, ProperPats, TupleFrom, LTuple, LList, IsPipe, DPats;
    Kept(p, k, a.r);
    Kept(p, k, a.l);
    DPatOne(SWild(a.w));
  }

  lemma {:induction false} LetKept(p: Pass, k: Known, a: Ast)
    requires KnownApart(k) && Proper(a) && a.SLet?
    ensures Proper(Rewrite(p, k, a)) && D(k, Rewrite(p, k, a)) == D(k, a)
    decreases a, 0
  {
    hide RewriteAll, RewriteAlts, DAll, DAlts, DAdd, AddVar, ProperAll, ProperOf, ProperPats, TupleFrom, LTuple, LList, IsPipe, DPats;
    Kept(p, k, a.r);
    Kept(p, k, a.l);
    PatsKept(p, k, a.lhs);
    DBlockLet(k, a.pos, a.lhs, Rewrite(p, k, a.l));
    DTwo(k, SBlock(a.pos, [SAlt(a.lhs, Rewrite(p, k, a.l))]), Rewrite(p, k, a.r));
  }

  lemma {:induction false} IfKept(p: Pass, k: Known, a: Ast)
    requires KnownApart(k) && Proper(a) && a.SIf?
    ensures Proper(Rewrite(p, k, a)) && D(k, Rewrite(p, k, a)) == D(k, a)
    decreases a, 0
  {
    hide RewriteAll, RewriteAlts, DAll, DAlts, DAdd, AddVar, ProperAll, ProperOf, ProperPats, TupleFrom, LTuple, LList, IsPipe, DPats;
    var i0, t0, e0 := Rewrite(p, k, a.i), Rewrite(p, k, a.t), Rewrite(p, k, a.e);
    Kept(p, k, a.i);
    Kept(p, k, a.t);
    Kept(p, k, a.e);
    DBlockTwo(k, a.pos, Comb(SYMBOL_FALSE), e0, SWild(a.w), t0);
    DTwo(k, SBlock(a.pos, [SAlt([Comb(SYMBOL_FALSE)], e0), SAlt([SWild(a.w)], t0)]), i0);
  }

  lemma {:induction false} TryKept(p: Pass, k: Known, a: Ast)
    requires KnownApart(k) && Proper(a) && a.STry?
    ensures Proper(Rewrite(p, k, a)) && D(k, Rewrite(p, k, a)) == D(k, a)
    decreases a, 0
  {
    hide RewriteAll, RewriteAlts, DAll, DAlts, DAdd, AddVar, ProperAll, ProperOf, ProperPats, TupleFrom, LTuple, LList, IsPipe, DPats;
    var t0, c0 := Rewrite(p, k, a.t), Rewrite(p, k, a.c);
    Kept(p, k, a.t);
    Kept(p, k, a.c);
    DBlockOne(k, a.pos, SWild(a.w), c0);
    DBlockOne(k, a.pos1, SWild(a.w1), t0);
    DThree(k, Comb(k.handle), SBlock(a.pos, [SAlt([SWild(a.w)], c0)]), SBlock(a.pos1, [SAlt([SWild(a.w1)], t0)]));
  }

  lemma DTailKept(k: Known, tl: seq<Ast>, tl1: seq<Ast>)
    requires DAll(k, tl) == DAll(k, tl1)
    ensures DTail(k, tl) == DTail(k, tl1)
  {
    if tl != [] {
      assert DAll(k, tl)[0] == D(k, tl[0]) && DAll(k, tl1)[0] == D(k, tl1[0]);
    }
  }

  lemma {:induction false} AllKept(p: Pass, k: Known, es: seq<Ast>)
    requires KnownApart(k) && ProperAll(es)
    ensures ProperAll(RewriteAll(p, k, es)) && DAll(k, RewriteAll(p, k, es)) == DAll(k, es)
    decreases es, 0
  {
    if es != [] {
      Kept(p, k, es[0]);
      AllKept(p, k, es[1..]);
    }
  }

  lemma {:induction false} AltsKept(p: Pass, k: Known, alts: seq<SAlt>)
    requires KnownApart(k) && ProperOf(alts)
    ensures ProperOf(RewriteAlts(p, k, alts)) && DAlts(k, RewriteAlts(p, k, alts)) == DAlts(k, alts)
    decreases alts, 0
  {
    if alts != [] {
      PatsKept(p, k, alts[0].pats);
      Kept(p, k, alts[0].body);
      AltsKept(p, k, alts[1..]);
    }
  }

  // The list pass

  lemma {:induction false} ConsPat(es: seq<Ast>, l: Ast)
    requires ProperPats(es) && ProperPat(l)
    ensures ProperPat(ConsFrom(es, l)) && DPat(ConsFrom(es, l)) == DListPat(es, DPat(l))
    decreases |es|
  {
    if es != [] {
      var rest := ConsFrom(es[1..], l);
      ConsPat(es[1..], l);
      var ps := [Comb(SYMBOL_CONS), es[0], rest];
      assert ps[1..] == [es[0], rest] && ps[1..][1..] == [rest];
      DPatOne(rest);
      assert DPats(ps[1..]) == [DPat(es[0]), DPat(rest)];
      assert [PConst(CombAtom(SYMBOL_CONS))] + [DPat(es[0]), DPat(rest)] == [PConst(CombAtom(SYMBOL_CONS)), DPat(es[0]), DPat(rest)];
    }
  }

  lemma {:induction false} ConsKept(k: Known, es: seq<Ast>, l: Ast)
    requires ProperAll(es) && Proper(l)
    ensures Proper(ConsFrom(es, l)) && D(k, ConsFrom(es, l)) == LList(DAll(k, es), D(k, l))
    decreases |es|
  {
    if es != [] {
      ConsKept(k, es[1..], l);
      DThree(k, Comb(SYMBOL_CONS), es[0], ConsFrom(es[1..], l));
      assert DAll(k, es)[1..] == DAll(k, es[1..]);
    }
  }

  lemma {:induction false} ListsPatKept(a: Ast)
    requires ProperPat(a)
    ensures ProperPat(RewriteLists(a)) && DPat(RewriteLists(a)) == DPat(a)
    decreases Lists(a), a, 1
  {
    hide Lists, ListsAll, DListPat, Joined;
    ListsParts(a);
    match a
    case SConst(_) =>
    case SVar(_) =>
    case SWild(_) =>
    case STag(q, _) => ListsPatKept(q);
    case SApp(es) =>
      ListsPatsKept(es);
      ListsStep(es);
      assert RewriteListsAll(es)[1..] == RewriteListsAll(es[1..]);
      assert DPats(RewriteListsAll(es))[0] == DPats(es)[0];
      assert DPats(RewriteListsAll(es))[1..] == DPats(es)[1..];
    case STuple(es) => ListsPatsKept(es);
    case SList(es, tl) =>
      var l := if tl == [] then Comb(SYMBOL_NIL) else RewriteLists(tl[0]);
      if tl != [] {
        ListsPatKept(tl[0]);
      }
      ConsPat(es, l);
      NilLists();
      ListsCons(es, tl, l);
      ListsPatKept(ConsFrom(es, l));
  }

  /** The calls of the list pass are on terms with fewer lists, or on parts. */
  lemma ListsParts(a: Ast)
    ensures a.SApp? ==> ListsAll(a.es) <= Lists(a)
    ensures a.STuple? ==> ListsAll(a.es) <= Lists(a)
    ensures a.STag? ==> Lists(a.p) <= Lists(a)
    ensures a.SList? && a.tl != [] ==> Lists(a.tl[0]) < Lists(a)
    ensures a.SBlock? || a.SLambda? ==> ListsOf(a.alts) <= Lists(a)
    ensures a.SIf? ==> Lists(a.i) <= Lists(a) && Lists(a.t) <= Lists(a) && Lists(a.e) <= Lists(a)
    ensures a.SSeq? ==> Lists(a.r) <= Lists(a) && Lists(a.l) <= Lists(a)
    ensures a.SLet? ==> ListsAll(a.lhs) <= Lists(a) && Lists(a.r) <= Lists(a) && Lists(a.l) <= Lists(a)
    ensures a.SThrow? || a.SDo? ==> Lists(a.body) <= Lists(a)
    ensures a.STry? ==> Lists(a.t) <= Lists(a) && Lists(a.c) <= Lists(a)
  {
    hide ListsAll, ListsOf;
    if a.SList? && a.tl != [] {
      ListsStep(a.tl);
    }
  }

  lemma ListsCons(es: seq<Ast>, tl: seq<Ast>, l: Ast)
    requires Lists(l) == 0
    ensures Lists(ConsFrom(es, l)) < Lists(SList(es, tl)) && Lists(Comb(SYMBOL_NIL)) == 0
  {
  }

  lemma ListsStep(es: seq<Ast>)
    ensures es != [] ==> Lists(es[0]) <= ListsAll(es) && ListsAll(es[1..]) <= ListsAll(es)
  {
  }

  lemma ListsOfStep(alts: seq<SAlt>)
    ensures alts != [] ==> ListsAll(alts[0].pats) <= ListsOf(alts) && Lists(alts[0].body) <= ListsOf(alts) && ListsOf(alts[1..]) <= ListsOf(alts)
  {
  }

  lemma {:induction false} ListsPatsKept(ps: seq<Ast>)
    requires ProperPats(ps)
    ensures ProperPats(RewriteListsAll(ps)) && DPats(RewriteListsAll(ps)) == DPats(ps)
    decreases ListsAll(ps), ps, 0
  {
    hide Lists, ListsAll;
    ListsStep(ps);
    if ps != [] {
      ListsPatKept(ps[0]);
      ListsPatsKept(ps[1..]);
    }
  }

  lemma NilLists()
    ensures Lists(Comb(SYMBOL_NIL)) == 0
  {
  }

  lemma ListsHead(k: Known, e: Ast)
    requires KnownApart(k) && Proper(e)
    ensures RewriteLists(e) == Comb(k.pipe) <==> e == Comb(k.pipe)
    ensures e.SList? ==> !IsPipe(k, RewriteLists(e))
  {
    hide RewriteListsAll, RewriteListsAlts;
    if e.SList? {
      var l := if e.tl == [] then Comb(SYMBOL_NIL) else RewriteLists(e.tl[0]);
      if e.es != [] {
        ConsRewritten(k, e.es, l);
      }
    }
  }

  lemma ConsRewritten(k: Known, es: seq<Ast>, l: Ast)
    requires KnownApart(k) && es != []
    ensures RewriteLists(ConsFrom(es, l)) != Comb(k.pipe) && !IsPipe(k, RewriteLists(ConsFrom(es, l)))
  {
    var fs := [Comb(SYMBOL_CONS), es[0], ConsFrom(es[1..], l)];
    assert ConsFrom(es, l) == SApp(fs);
    assert RewriteListsAll(fs)[0] == RewriteLists(fs[0]) == Comb(SYMBOL_CONS);
  }

  lemma ListsPipe(k: Known, e: Ast)
    requires KnownApart(k) && Proper(e)
    ensures IsPipe(k, RewriteLists(e)) <==> IsPipe(k, e)
  {
    hide RewriteListsAll, RewriteListsAlts;
    match e
    case SApp(es) =>
      ListsHead(k, es[0]);
      RewriteListsFirst(es);
    case SList(es, tl) => ListsHead(k, e);
    case _ =>
  }

  lemma RewriteListsFirst(es: seq<Ast>)
    requires es != []
    ensures RewriteListsAll(es)[0] == RewriteLists(es[0]) && RewriteListsAll(es)[1..] == RewriteListsAll(es[1..])
  {
  }

  lemma {:induction false} ListsAddKept(k: Known, e: Ast, x: Name)
    requires KnownApart(k) && Proper(e)
    ensures DAdd(k, RewriteLists(e), x) == DAdd(k, e, x)
    decreases Lists(e), e, 5
  {
    hide Lists, ListsAll, ListsOf;
    ListsParts(e);
    ListsPipe(k, e);
    ListsKept(k, e);
    if IsPipe(k, e) {
      var es := e.es;
      ProperAt(es);
      ListsStep(es);
      ListsStep(es[1..]);
      ListsKept(k, es[0]);
      ListsAddKept(k, es[1], x);
      assert es[1..][1..] == es[2..];
      ListsAllKept(k, es[2..]);
      RewriteListsFirst(es);
      RewriteListsFirst(es[1..]);
      var fs := RewriteListsAll(es);
      assert fs[2..] == fs[1..][1..];
    }
  }

  lemma {:induction false} ListsKept(k: Known, a: Ast)
    requires KnownApart(k) && Proper(a)
    ensures Proper(RewriteLists(a)) && D(k, RewriteLists(a)) == D(k, a)
    decreases Lists(a), a, 4
  {
    hide Lists, ListsAll, ListsOf, RewriteListsAll, RewriteListsAlts, DAll, DAlts, DAdd, ProperAll, ProperOf, ProperPats, LTuple, LList, IsPipe, DPats;
    ListsParts(a);
    match a
    case SConst(_) =>
    case SVar(_) =>
    case SApp(es) => ListsAllKept(k, es);
    case SBlock(pos, alts) => ListsAltsKept(k, alts);
    case SIf(pos, w, i, t, e) =>
      ListsKept(k, i);
      ListsKept(k, t);
      ListsKept(k, e);
    case STuple(es) => ListsAllKept(k, es);
    case SList(es, tl) => ListsListKept(k, a);
    case SDo(pos, x, e) =>
      ListsKept(k, e);
      ListsAddKept(k, e, x);
    case SSeq(pos, w, r, l) =>
      ListsKept(k, r);
      ListsKept(k, l);
    case SLet(pos, lhs, r, l) =>
      ListsPatsKept(lhs);
      ListsKept(k, r);
      ListsKept(k, l);
    case SLambda(pos, alts) => ListsAltsKept(k, alts);
    case SThrow(e) => ListsKept(k, e);
    case STry(pos, w, pos1, w1, t, c) =>
      ListsKept(k, t);
      ListsKept(k, c);
  }

  lemma {:induction false} ListsListKept(k: Known, a: Ast)
    requires KnownApart(k) && Proper(a) && a.SList?
    ensures Proper(RewriteLists(a)) && D(k, RewriteLists(a)) == D(k, a)
    decreases Lists(a), a, 0
  {
    hide Lists, ListsAll, ListsOf, RewriteListsAll, RewriteListsAlts, DAll, DAlts, DAdd, ProperOf, ProperPats, LTuple, LList, IsPipe, DPats;
    ListsParts(a);
    NilLists();
    var l := if a.tl == [] then Comb(SYMBOL_NIL) else RewriteLists(a.tl[0]);
    if a.tl != [] {
      ListsKept(k, a.tl[0]);
    }
    ConsKept(k, a.es, l);
    ListsCons(a.es, a.tl, l);
    ListsKept(k, ConsFrom(a.es, l));
  }

  lemma {:induction false} ListsAllKept(k: Known, es: seq<Ast>)
    requires KnownApart(k) && ProperAll(es)
    ensures ProperAll(RewriteListsAll(es)) && DAll(k, RewriteListsAll(es)) == DAll(k, es)
    decreases ListsAll(es), es, 0
  {
    hide Lists, ListsAll;
    ListsStep(es);
    if es != [] {
      ListsKept(k, es[0]);
      ListsAllKept(k, es[1..]);
    }
  }

  lemma {:induction false} ListsAltsKept(k: Known, alts: seq<SAlt>)
    requires KnownApart(k) && ProperOf(alts)
    ensures ProperOf(RewriteListsAlts(alts)) && DAlts(k, RewriteListsAlts(alts)) == DAlts(k, alts)
    decreases ListsOf(alts), alts, 0
  {
    hide Lists, ListsAll, ListsOf;
    ListsOfStep(alts);
    if alts != [] {
      ListsPatsKept(alts[0].pats);
      ListsKept(k, alts[0].body);
      ListsAltsKept(k, alts[1..]);
    }
  }

  /** Desugaring keeps what a term stands for. */
  lemma DesugarKept(k: Known, a: Ast)
    requires KnownApart(k) && Proper(a)
    ensures Proper(Desugar(k, a)) && D(k, Desugar(k, a)) == D(k, a)
  {
    hide Rewrite, RewriteLists, D, Proper;
    var a1 := Rewrite(Conditions, k, a);
    Kept(Conditions, k, a);
    Kept(Wildcards, k, a1);
    var a2 := Rewrite(Wildcards, k, a1);
    Kept(Tuples, k, a2);
    var a3 := Rewrite(Tuples, k, a2);
    ListsKept(k, a3);
    var a4 := RewriteLists(a3);
    Kept(Dos, k, a4);
    var a5 := Rewrite(Dos, k, a4);
    Kept(Statements, k, a5);
    var a6 := Rewrite(Statements, k, a5);
    Kept(Lets, k, a6);
    var a7 := Rewrite(Lets, k, a6);
    Kept(Lambdas, k, a7);
    var a8 := Rewrite(Lambdas, k, a7);
    Kept(Throws, k, a8);
    var a9 := Rewrite(Throws, k, a8);
    Kept(Tries, k, a9);
    Kept(Wildcards, k, Rewrite(Tries, k, a9));
  }

  // Nothing but blocks and applications is left

  datatype Sort = Sugared(p: Pass) | Listed

  /** The constructs that occur in a term. */
  function Sorts(a: Ast): set<Sort>
    decreases a
  {
    match a
    case SConst(_) => {}
    case SVar(_) => {}
    case SApp(es) => SortsAll(es)
    case SBlock(_, alts) => SortsOf(alts)
    case STag(q, _) => Sorts(q)
    case SWild(_) => {Sugared(Wildcards)}
    case SIf(_, _, i, t, e) => {Sugared(Conditions)} + Sorts(i) + Sorts(t) + Sorts(e)
    case STuple(es) => {Sugared(Tuples)} + SortsAll(es)
    case SList(es, tl) => {Listed} + SortsAll(es) + SortsAll(tl)
    case SDo(_, _, e) => {Sugared(Dos)} + Sorts(e)
    case SSeq(_, _, r, l) => {Sugared(Statements)} + Sorts(r) + Sorts(l)
    case SLet(_, lhs, r, l) => {Sugared(Lets)} + SortsAll(lhs) + Sorts(r) + Sorts(l)
    case SLambda(_, alts) => {Sugared(Lambdas)} + SortsOf(alts)
    case SThrow(e) => {Sugared(Throws)} + Sorts(e)
    case STry(_, _, _, _, t, c) => {Sugared(Tries)} + Sorts(t) + Sorts(c)
  }

  function SortsAll(es: seq<Ast>): set<Sort>
    decreases es
  {
    if es == [] then {} else Sorts(es[0]) + SortsAll(es[1..])
  }

  function SortsOf(alts: seq<SAlt>): set<Sort>
    decreases alts
  {
    if alts == [] then {} else SortsAll(alts[0].pats) + Sorts(alts[0].body) + SortsOf(alts[1..])
  }

  const PATTERN_SORTS: set<Sort> := {Sugared(Wildcards), Sugared(Tuples), Listed}

  /** What the replacement of a construct brings in. */
  function Brings(p: Pass): set<Sort> {
    match p
    case Conditions => {Sugared(Wildcards)}
    case Statements => {Sugared(Wildcards), Sugared(Lets)}
    case Tries => {Sugared(Wildcards)}
    case _ => {}
  }

  lemma {:induction false} PatSorts(p: Ast)
    requires ProperPat(p)
    ensures Sorts(p) <= PATTERN_SORTS
    decreases p
  {
    match p
    case STag(q, _) => PatSorts(q);
    case SApp(es) => PatsSorts(es);
    case STuple(es) => PatsSorts(es);
    case SList(es, tl) =>
      PatsSorts(es);
      PatsSorts(tl);
    case _ =>
  }

  lemma {:induction false} PatsSorts(ps: seq<Ast>)
    requires ProperPats(ps)
    ensures SortsAll(ps) <= PATTERN_SORTS
    decreases ps
  {
    if ps != [] {
      PatSorts(ps[0]);
      PatsSorts(ps[1..]);
    }
  }

  lemma {:induction false} SortsSplit(es: seq<Ast>, n: nat)
    requires n <= |es|
    ensures SortsAll(es) == SortsAll(es[..n]) + SortsAll(es[n..])
    decreases n
  {
    if n == 0 {
      assert es[..0] == [] && es[0..] == es;
    } else {
      SortsSplit(es[1..], n - 1);
      assert es[..n][1..] == es[1..][..n - 1] && es[1..][n - 1..] == es[n..];
    }
  }

  lemma SortsFew(e: Ast, f: Ast, g: Ast)
    ensures SortsAll([e]) == Sorts(e)
    ensures SortsAll([e, f]) == Sorts(e) + Sorts(f)
    ensures SortsAll([e, f, g]) == Sorts(e) + Sorts(f) + Sorts(g)
  {
    assert [e, f][1..] == [f] && [e, f, g][1..] == [f, g] && [f, g][1..] == [g];
    assert SortsAll([g]) == Sorts(g);
    assert SortsAll([f, g]) == Sorts(f) + Sorts(g);
  }

  lemma AltSorts(m: SAlt, n: SAlt)
    ensures SortsOf([m]) == SortsAll(m.pats) + Sorts(m.body)
    ensures SortsOf([m, n]) == SortsAll(m.pats) + Sorts(m.body) + (SortsAll(n.pats) + Sorts(n.body))
  {
    hide Sorts, SortsAll;
    assert [m, n][1..] == [n];
    assert SortsOf([n]) == SortsAll(n.pats) + Sorts(n.body) + SortsOf([n][1..]);
  }

  lemma BlockSorts(p: Ast, e: Ast, q: Ast, f: Ast)
    ensures SortsOf([SAlt([p], e)]) == Sorts(p) + Sorts(e)
    ensures SortsOf([SAlt([p], e), SAlt([q], f)]) == Sorts(p) + Sorts(e) + (Sorts(q) + Sorts(f))
  {
    hide Sorts, SortsAll, SortsOf;
    SortsFew(p, p, p);
    SortsFew(q, q, q);
    AltSorts(SAlt([p], e), SAlt([q], f));
  }

  lemma {:induction false} TupleSorts(f: Ast, es: seq<Ast>)
    ensures Sorts(TupleFrom(f, es)) == Sorts(f) + SortsAll(es)
    decreases |es|
  {
    if es != [] {
      var n := |es| - 1;
      TupleSorts(f, es[..n]);
      SortsSplit(es, n);
      SortsFew(TupleFrom(f, es[..n]), es[n], f);
      assert es[n..] == [es[n]];
      SortsFew(es[n], f, f);
    }
  }

  lemma {:induction false} ConsSorts(es: seq<Ast>, l: Ast)
    ensures Sorts(ConsFrom(es, l)) == SortsAll(es) + Sorts(l)
    decreases |es|
  {
    if es != [] {
      ConsSorts(es[1..], l);
      SortsFew(Comb(SYMBOL_CONS), es[0], ConsFrom(es[1..], l));
    }
  }

  lemma {:induction false} AddSorts(k: Known, e: Ast, x: Name)
    ensures Sorts(AddVar(k, e, x)) == Sorts(e)
    decreases e
  {
    if IsPipe(k, e) {
      var f := AddVar(k, e.es[1], x);
      AddSorts(k, e.es[1], x);
      SortsSplit(e.es, 2);
      SortsSplit([e.es[0], f] + e.es[2..], 2);
      assert e.es[..2] == [e.es[0], e.es[1]] && ([e.es[0], f] + e.es[2..])[..2] == [e.es[0], f];
      assert ([e.es[0], f] + e.es[2..])[2..] == e.es[2..];
      SortsFew(e.es[0], e.es[1], e);
      SortsFew(e.es[0], f, e);
    } else {
      SortsFew(e, SVar(x), e);
    }
  }

  /** A pass removes its construct and brings in no more than it says. */
  lemma {:induction false} PassSorts(p: Pass, k: Known, a: Ast)
    requires Proper(a) || ProperPat(a)
    ensures Sorts(Rewrite(p, k, a)) <= Sorts(a) - {Sugared(p)} + Brings(p)
    decreases a, 1
  {
    hide SortsAll, SortsOf, AddVar, TupleFrom, RewriteAll, RewriteAlts, ProperAll, ProperPats, ProperOf;
    match a
    case SConst(_) =>
    case SVar(_) =>
    case SWild(_) =>
    case SApp(es) => AllSorts(p, k, es);
    case SBlock(_, alts) => AltsSorts(p, k, alts);
    case STag(q, _) => PassSorts(p, k, q);
    case SIf(pos, w, i, t, e) => IfSorts(p, k, a);
    case STuple(es) => TupleGone(p, k, a);
    case SList(es, tl) =>
      AllSorts(p, k, es);
      AllSorts(p, k, tl);
    case SDo(pos, x, e) => DoSorts(p, k, a);
    case SSeq(pos, w, r, l) => SeqSorts(p, k, a);
    case SLet(pos, lhs, r, l) => LetSorts(p, k, a);
    case SLambda(pos, alts) => AltsSorts(p, k, alts);
    case SThrow(e) =>
      PassSorts(p, k, e);
      SortsFew(Comb(k.throw), Rewrite(p, k, e), a);
    case STry(pos, w, pos1, w1, t, c) => TrySorts(p, k, a);
  }

  lemma {:induction false} TupleGone(p: Pass, k: Known, a: Ast)
    requires a.STuple? && (Proper(a) || ProperPat(a))
    ensures Sorts(Rewrite(p, k, a)) <= Sorts(a) - {Sugared(p)} + Brings(p)
    decreases a, 0
  {
    hide SortsAll, SortsOf, AddVar, TupleFrom, RewriteAll, RewriteAlts, ProperAll, ProperPats, ProperOf;
    AllSorts(p, k, a.es);
    TupleSorts(Comb(SYMBOL_TUPLE), RewriteAll(p, k, a.es));
  }

  lemma {:induction false} DoSorts(p: Pass, k: Known, a: Ast)
    requires a.SDo? && (Proper(a) || ProperPat(a))
    ensures Sorts(Rewrite(p, k, a)) <= Sorts(a) - {Sugared(p)} + Brings(p)
    decreases a, 0
  {
    hide SortsAll, SortsOf, AddVar, TupleFrom, RewriteAll, RewriteAlts, ProperAll, ProperPats, ProperOf;
    PassSorts(p, k, a.body);
    AddSorts(k, Rewrite(p, k, a.body), a.x);
    BlockSorts(SVar(a.x), AddVar(k, Rewrite(p, k, a.body), a.x), a, a);
  }

  lemma {:induction false} SeqSorts(p: Pass, k: Known, a: Ast)
    requires a.SSeq? && (Proper(a) || ProperPat(a))
    ensures Sorts(Rewrite(p, k, a)) <= Sorts(a) - {Sugared(p)} + Brings(p)
    decreases a, 0
  {
    hide SortsAll, SortsOf, AddVar, TupleFrom, RewriteAll, RewriteAlts, ProperAll, ProperPats, ProperOf;
    PassSorts(p, k, a.r);
    PassSorts(p, k, a.l);
    SortsFew(SWild(a.w), a, a);
  }

  lemma {:induction false} IfSorts(p: Pass, k: Known, a: Ast)
    requires a.SIf? && Proper(a)
    ensures Sorts(Rewrite(p, k, a)) <= Sorts(a) - {Sugared(p)} + Brings(p)
    decreases a, 0
  {
    hide SortsAll, SortsOf;
    var i0, t0, e0 := Rewrite(p, k, a.i), Rewrite(p, k, a.t), Rewrite(p, k, a.e);
    PassSorts(p, k, a.i);
    PassSorts(p, k, a.t);
    PassSorts(p, k, a.e);
    BlockSorts(Comb(SYMBOL_FALSE), e0, SWild(a.w), t0);
    SortsFew(SBlock(a.pos, [SAlt([Comb(SYMBOL_FALSE)], e0), SAlt([SWild(a.w)], t0)]), i0, a);
  }

  lemma {:induction false} TrySorts(p: Pass, k: Known, a: Ast)
    requires a.STry? && Proper(a)
    ensures Sorts(Rewrite(p, k, a)) <= Sorts(a) - {Sugared(p)} + Brings(p)
    decreases a, 0
  {
    hide SortsAll, SortsOf;
    var t0, c0 := Rewrite(p, k, a.t), Rewrite(p, k, a.c);
    PassSorts(p, k, a.t);
    PassSorts(p, k, a.c);
    BlockSorts(SWild(a.w), c0, a, a);
    BlockSorts(SWild(a.w1), t0, a, a);
    SortsFew(Comb(k.handle), SBlock(a.pos, [SAlt([SWild(a.w)], c0)]), SBlock(a.pos1, [SAlt([SWild(a.w1)], t0)]));
  }

  lemma {:induction false} LetSorts(p: Pass, k: Known, a: Ast)
    requires a.SLet? && Proper(a)
    ensures Sorts(Rewrite(p, k, a)) <= Sorts(a) - {Sugared(p)} + Brings(p)
    decreases a, 0
  {
    hide SortsAll, SortsOf, RewriteAll, ProperPats;
    var r0, l0 := Rewrite(p, k, a.r), Rewrite(p, k, a.l);
    PassSorts(p, k, a.r);
    PassSorts(p, k, a.l);
    AllSorts(p, k, a.lhs);
    PatsSorts(a.lhs);
    var b := SBlock(a.pos, [SAlt(a.lhs, l0)]);
    AltSorts(SAlt(a.lhs, l0), SAlt(a.lhs, l0));
    SortsFew(b, r0, a);
  }

  lemma {:induction false} AllSorts(p: Pass, k: Known, es: seq<Ast>)
    requires ProperAll(es) || ProperPats(es)
    ensures SortsAll(RewriteAll(p, k, es)) <= SortsAll(es) - {Sugared(p)} + Brings(p)
    decreases es, 0
  {
    if es != [] {
      PassSorts(p, k, es[0]);
      AllSorts(p, k, es[1..]);
    }
  }

  lemma {:induction false} AltsSorts(p: Pass, k: Known, alts: seq<SAlt>)
    requires ProperOf(alts)
    ensures SortsOf(RewriteAlts(p, k, alts)) <= SortsOf(alts) - {Sugared(p)} + Brings(p)
    decreases alts, 0
  {
    if alts != [] {
      AllSorts(p, k, alts[0].pats);
      PassSorts(p, k, alts[0].body);
      AltsSorts(p, k, alts[1..]);
    }
  }

  lemma {:induction false} ListSorts(a: Ast)
    ensures Sorts(RewriteLists(a)) <= Sorts(a)
    decreases Lists(a), a, 1
  {
    hide Lists, ListsAll, ListsOf, SortsAll, SortsOf, RewriteListsAll, RewriteListsAlts;
    ListsParts(a);
    match a
    case SConst(_) =>
    case SVar(_) =>
    case SWild(_) =>
    case SApp(es) => ListsAllSorts(es);
    case SBlock(_, alts) => ListsOfSorts(alts);
    case STag(q, _) => ListSorts(q);
    case SIf(pos, w, i, t, e) =>
      ListSorts(i);
      ListSorts(t);
      ListSorts(e);
    case STuple(es) => ListsAllSorts(es);
    case SList(es, tl) =>
      NilLists();
      var l := if tl == [] then Comb(SYMBOL_NIL) else RewriteLists(tl[0]);
      if tl != [] {
        ListSorts(tl[0]);
        SortsFirst(tl);
      }
      ListsCons(es, tl, l);
      ConsSorts(es, l);
      ListSorts(ConsFrom(es, l));
    case SDo(pos, x, e) => ListSorts(e);
    case SSeq(pos, w, r, l) =>
      ListSorts(r);
      ListSorts(l);
    case SLet(pos, lhs, r, l) =>
      ListsAllSorts(lhs);
      ListSorts(r);
      ListSorts(l);
    case SLambda(pos, alts) => ListsOfSorts(alts);
    case SThrow(e) => ListSorts(e);
    case STry(pos, w, pos1, w1, t, c) =>
      ListSorts(t);
      ListSorts(c);
  }

  lemma SortsFirst(es: seq<Ast>)
    requires es != []
    ensures Sorts(es[0]) <= SortsAll(es)
  {
  }

  lemma {:induction false} ListsAllSorts(es: seq<Ast>)
    ensures SortsAll(RewriteListsAll(es)) <= SortsAll(es)
    decreases ListsAll(es), es, 0
  {
    hide Lists, ListsAll;
    ListsStep(es);
    if es != [] {
      ListSorts(es[0]);
      ListsAllSorts(es[1..]);
    }
  }

  lemma {:induction false} ListsOfSorts(alts: seq<SAlt>)
    ensures SortsOf(RewriteListsAlts(alts)) <= SortsOf(alts)
    decreases ListsOf(alts), alts, 0
  {
    hide Lists, ListsAll, ListsOf;
    ListsOfStep(alts);
    if alts != [] {
      ListsAllSorts(alts[0].pats);
      ListSorts(alts[0].body);
      ListsOfSorts(alts[1..]);
    }
  }

  lemma {:induction false} NoLists(a: Ast)
    requires Lists(a) == 0
    ensures Listed !in Sorts(a)
    decreases a, 1
  {
    match a
    case SConst(_) =>
    case SVar(_) =>
    case SWild(_) =>
    case SApp(es) => NoListsAll(es);
    case SBlock(_, alts) => NoListsOf(alts);
    case STag(q, _) => NoLists(q);
    case SIf(pos, w, i, t, e) =>
      NoLists(i);
      NoLists(t);
      NoLists(e);
    case STuple(es) => NoListsAll(es);
    case SDo(pos, x, e) => NoLists(e);
    case SSeq(pos, w, r, l) =>
      NoLists(r);
      NoLists(l);
    case SLet(pos, lhs, r, l) =>
      NoListsAll(lhs);
      NoLists(r);
      NoLists(l);
    case SLambda(pos, alts) => NoListsOf(alts);
    case SThrow(e) => NoLists(e);
    case STry(pos, w, pos1, w1, t, c) =>
      NoLists(t);
      NoLists(c);
  }

  lemma {:induction false} NoListsAll(es: seq<Ast>)
    requires ListsAll(es) == 0
    ensures Listed !in SortsAll(es)
    decreases es, 0
  {
    if es != [] {
      NoLists(es[0]);
      NoListsAll(es[1..]);
    }
  }

  lemma {:induction false} NoListsOf(alts: seq<SAlt>)
    requires ListsOf(alts) == 0
    ensures Listed !in SortsOf(alts)
    decreases alts, 0
  {
    if alts != [] {
      NoListsAll(alts[0].pats);
      NoLists(alts[0].body);
      NoListsOf(alts[1..]);
    }
  }

  /** After all passes there are constants, variables, applications, blocks and tags only. */
  lemma DesugarPlain(k: Known, a: Ast)
    requires KnownApart(k) && Proper(a)
    ensures Sorts(Desugar(k, a)) == {}
  {
    hide Rewrite, RewriteLists, D, Proper, Sorts, Lists;
    var a1 := Rewrite(Conditions, k, a);
    Kept(Conditions, k, a);
    PassSorts(Conditions, k, a);
    var a2 := Rewrite(Wildcards, k, a1);
    Kept(Wildcards, k, a1);
    PassSorts(Wildcards, k, a1);
    var a3 := Rewrite(Tuples, k, a2);
    Kept(Tuples, k, a2);
    PassSorts(Tuples, k, a2);
    var a4 := RewriteLists(a3);
    ListsKept(k, a3);
    ListSorts(a3);
    NoLists(a4);
    var a5 := Rewrite(Dos, k, a4);
    Kept(Dos, k, a4);
    PassSorts(Dos, k, a4);
    var a6 := Rewrite(Statements, k, a5);
    Kept(Statements, k, a5);
    PassSorts(Statements, k, a5);
    DesugarRest(k, a6);
    forall s | s in Sorts(a6)
      ensures s.Sugared? && (s.p.Lets? || s.p.Lambdas? || s.p.Throws? || s.p.Tries? || s.p.Wildcards?)
    {
    }
  }

  lemma DesugarRest(k: Known, a: Ast)
    requires KnownApart(k) && Proper(a)
    ensures Sorts(Rewrite(Wildcards, k, Rewrite(Tries, k, Rewrite(Throws, k, Rewrite(Lambdas, k, Rewrite(Lets, k, a))))))
         <= Sorts(a) - {Sugared(Lets), Sugared(Lambdas), Sugared(Throws), Sugared(Tries), Sugared(Wildcards)}
  {
    hide Rewrite, RewriteLists, D, Proper, Sorts, Lists;
    var a7 := Rewrite(Lets, k, a);
    Kept(Lets, k, a);
    PassSorts(Lets, k, a);
    var a8 := Rewrite(Lambdas, k, a7);
    Kept(Lambdas, k, a7);
    PassSorts(Lambdas, k, a7);
    var a9 := Rewrite(Throws, k, a8);
    Kept(Throws, k, a8);
    PassSorts(Throws, k, a8);
    var a10 := Rewrite(Tries, k, a9);
    Kept(Tries, k, a9);
    PassSorts(Tries, k, a9);
    PassSorts(Wildcards, k, a10);
  }
}