/** The names that desugaring makes up for wildcards and do variables do not matter. */
module SugarNames {
  import opened Terms
  import opened Syntax
  import opened Closures
  import opened Alpha
  import opened Sugar
  import opened SugarMeaning

  /** Both are the same source variable, or both are made up. */
  predicate TwinName(hid: set<Name>, x: Name, y: Name) {
    if x in hid then y in hid else x == y
  }

  /** The terms differ in made-up names and in positions of blocks only; no variable of the source is like a made-up name. */
  predicate Twin(hid: set<Name>, a: Ast, b: Ast)
    decreases a
  {
    match a
    case SConst(_) => a == b
    case SVar(x) => a == b && x !in hid
    case SApp(es) => b.SApp? && TwinAll(hid, es, b.es)
    case SBlock(_, alts) => b.SBlock? && TwinAlts(hid, alts, b.alts)
    case STag(p, s) => b.STag? && s == b.s && Twin(hid, p, b.p)
    case SWild(w) => b.SWild? && w in hid && b.w in hid
    case SIf(_, w, i, t, e) => b.SIf? && w in hid && b.w in hid && Twin(hid, i, b.i) && Twin(hid, t, b.t) && Twin(hid, e, b.e)
    case STuple(es) => b.STuple? && TwinAll(hid, es, b.es)
    case SList(es, tl) => b.SList? && TwinAll(hid, es, b.es) && TwinAll(hid, tl, b.tl)
    case SDo(_, x, e) => b.SDo? && x in hid && b.x in hid && Twin(hid, e, b.body)
    case SSeq(_, w, r, l) => b.SSeq? && w in hid && b.w in hid && Twin(hid, r, b.r) && Twin(hid, l, b.l)
    case SLet(_, lhs, r, l) => b.SLet? && TwinAll(hid, lhs, b.lhs) && Twin(hid, r, b.r) && Twin(hid, l, b.l)
    case SLambda(_, alts) => b.SLambda? && TwinAlts(hid, alts, b.alts)
    case SThrow(e) => b.SThrow? && Twin(hid, e, b.body)
    case STry(_, w, _, w1, t, c) =>
      b.STry? && w in hid && b.w in hid && w1 in hid && b.w1 in hid && Twin(hid, t, b.t) && Twin(hid, c, b.c)
  }

  predicate TwinAll(hid: set<Name>, es: seq<Ast>, fs: seq<Ast>)
    decreases es
  {
    |es| == |fs| && (es != [] ==> Twin(hid, es[0], fs[0]) && TwinAll(hid, es[1..], fs[1..]))
  }

  predicate TwinAlts(hid: set<Name>, ms: seq<SAlt>, ns: seq<SAlt>)
    decreases ms
  {
    |ms| == |ns| &&
    (ms != [] ==> TwinAll(hid, ms[0].pats, ns[0].pats) && Twin(hid, ms[0].body, ns[0].body) && TwinAlts(hid, ms[1..], ns[1..]))
  }

  predicate TwinDef(hid: set<Name>, d: SDef, e: SDef) {
    match d
    case SCode(ms) => e.SCode? && TwinAlts(hid, ms, e.alts)
    case SValue(b) => e.SValue? && Twin(hid, b, e.e)
    case _ => d == e
  }

  ghost predicate TwinProgram(hid: set<Name>, P: SProgram, Q: SProgram) {
    P.Keys == Q.Keys && forall s :: s in P ==> TwinDef(hid, P[s], Q[s])
  }

  // Patterns

  predicate TwinPat(hid: set<Name>, p: Pattern, q: Pattern) {
    match p
    case PConst(_) => p == q
    case PVar(x) => q.PVar? && TwinName(hid, x, q.v)
    case PTag(p1, s) => q.PTag? && q.tag == s && TwinPat(hid, p1, q.p)
    case PApp(ps) => q.PApp? && TwinPats(hid, ps, q.ps)
  }

  predicate TwinPats(hid: set<Name>, ps: seq<Pattern>, qs: seq<Pattern>) {
    |ps| == |qs| && (ps != [] ==> TwinPat(hid, ps[0], qs[0]) && TwinPats(hid, ps[1..], qs[1..]))
  }

  predicate Good(hid: set<Name>, c: Ctx) {
    forall i :: 0 <= i < |c| ==> TwinName(hid, c[i].0, c[i].1)
  }

  lemma GoodPush(hid: set<Name>, x: Name, y: Name, c: Ctx)
    requires Good(hid, c) && TwinName(hid, x, y)
    ensures Good(hid, [(x, y)] + c)
  {
  }

  lemma {:induction false} PatGood(hid: set<Name>, p: Pattern, q: Pattern, c: Ctx)
    requires TwinPat(hid, p, q) && Good(hid, c)
    ensures AlikePat(p, q) && Good(hid, PatCtx(p, q, c))
    decreases p, 1
  {
    hide Good;
    match p
    case PConst(_) =>
    case PVar(x) => GoodPush(hid, x, q.v, c);
    case PTag(p1, _) => PatGood(hid, p1, q.p, c);
    case PApp(ps) => PatsGood(hid, ps, q.ps, c);
  }

  lemma {:induction false} PatsGood(hid: set<Name>, ps: seq<Pattern>, qs: seq<Pattern>, c: Ctx)
    requires TwinPats(hid, ps, qs) && Good(hid, c)
    ensures AlikePats(ps, qs) && Good(hid, PatsCtx(ps, qs, c))
    decreases ps, 0
  {
    hide Good, TwinPat, AlikePat, PatCtx;
    if ps != [] {
      PatGood(hid, ps[0], qs[0], c);
      PatsGood(hid, ps[1..], qs[1..], PatCtx(ps[0], qs[0], c));
    }
  }

  lemma PatsCons(hid: set<Name>, p: Pattern, q: Pattern, ps: seq<Pattern>, qs: seq<Pattern>)
    requires TwinPat(hid, p, q) && TwinPats(hid, ps, qs)
    ensures TwinPats(hid, [p] + ps, [q] + qs)
  {
    hide TwinPat;
    assert ([p] + ps)[1..] == ps && ([q] + qs)[1..] == qs;
  }

  lemma {:induction false} PatsJoin(hid: set<Name>, ps: seq<Pattern>, qs: seq<Pattern>, ps1: seq<Pattern>, qs1: seq<Pattern>)
    requires TwinPats(hid, ps, qs) && TwinPats(hid, ps1, qs1)
    ensures TwinPats(hid, ps + ps1, qs + qs1)
    decreases |ps|
  {
    hide TwinPat;
    if ps == [] {
      assert ps + ps1 == ps1 && qs + qs1 == qs1;
    } else {
      PatsJoin(hid, ps[1..], qs[1..], ps1, qs1);
      assert ps + ps1 == [ps[0]] + (ps[1..] + ps1) && qs + qs1 == [qs[0]] + (qs[1..] + qs1);
      PatsCons(hid, ps[0], qs[0], ps[1..] + ps1, qs[1..] + qs1);
    }
  }

  lemma JoinedTwin(hid: set<Name>, p: Pattern, q: Pattern, ps: seq<Pattern>, qs: seq<Pattern>)
    requires TwinPat(hid, p, q) && TwinPats(hid, ps, qs)
    ensures TwinPat(hid, Joined(p, ps), Joined(q, qs))
  {
    if ps != [] {
      if p.PApp? {
        PatsJoin(hid, p.ps, q.ps, ps, qs);
      } else {
        PatsCons(hid, p, q, ps, qs);
      }
    }
  }

  lemma {:induction false} PatTwin(hid: set<Name>, a: Ast, b: Ast)
    requires Twin(hid, a, b)
    ensures TwinPat(hid, DPat(a), DPat(b))
    decreases a, 2
  {
    hide TwinPats, TwinAlts, Joined, DListPat, PTail, DPats;
    match a
    case SApp(es) =>
      NoPats(hid);
      DPatsSame(es, b.es);
      if es != [] {
        PatTwin(hid, es[0], b.es[0]);
        PatsTwin(hid, es[1..], b.es[1..]);
        JoinedTwin(hid, DPat(es[0]), DPat(b.es[0]), DPats(es[1..]), DPats(b.es[1..]));
      }
    case STag(p, _) => PatTwin(hid, p, b.p);
    case STuple(es) =>
      PatsTwin(hid, es, b.es);
      JoinedTwin(hid, PConst(CombAtom(SYMBOL_TUPLE)), PConst(CombAtom(SYMBOL_TUPLE)), DPats(es), DPats(b.es));
    case SList(es, tl) =>
      TailTwin(hid, tl, b.tl);
      ListTwin(hid, es, b.es, PTail(tl), PTail(b.tl));
    case _ => NoPats(hid);
  }

  lemma DPatsSame(es: seq<Ast>, fs: seq<Ast>)
    ensures |DPats(es)| == |es| && |DPats(fs)| == |fs|
  {
  }

  lemma NoPats(hid: set<Name>)
    ensures TwinPats(hid, [], [])
  {
  }

  lemma {:induction false} TailTwin(hid: set<Name>, tl: seq<Ast>, ul: seq<Ast>)
    requires TwinAll(hid, tl, ul)
    ensures TwinPat(hid, PTail(tl), PTail(ul))
    decreases tl, 1
  {
    if tl != [] {
      PatTwin(hid, tl[0], ul[0]);
    }
  }

  lemma {:induction false} ListTwin(hid: set<Name>, es: seq<Ast>, fs: seq<Ast>, l: Pattern, m: Pattern)
    requires TwinAll(hid, es, fs) && TwinPat(hid, l, m)
    ensures TwinPat(hid, DListPat(es, l), DListPat(fs, m))
    decreases es, 1
  {
    if es != [] {
      PatTwin(hid, es[0], fs[0]);
      ListTwin(hid, es[1..], fs[1..], l, m);
      ThreePats(hid, PConst(CombAtom(SYMBOL_CONS)), PConst(CombAtom(SYMBOL_CONS)), DPat(es[0]), DPat(fs[0]), DListPat(es[1..], l), DListPat(fs[1..], m));
    }
  }

  lemma ThreePats(hid: set<Name>, p: Pattern, q: Pattern, p1: Pattern, q1: Pattern, p2: Pattern, q2: Pattern)
    requires TwinPat(hid, p, q) && TwinPat(hid, p1, q1) && TwinPat(hid, p2, q2)
    ensures TwinPats(hid, [p, p1, p2], [q, q1, q2])
  {
    hide TwinPat;
    assert [p, p1, p2][1..] == [p1, p2] && [q, q1, q2][1..] == [q1, q2];
    assert [p1, p2][1..] == [p2] && [q1, q2][1..] == [q2];
    assert TwinPats(hid, [p2], [q2]);
    assert TwinPats(hid, [p1, p2], [q1, q2]);
  }

  lemma {:induction false} PatsTwin(hid: set<Name>, ps: seq<Ast>, qs: seq<Ast>)
    requires TwinAll(hid, ps, qs)
    ensures TwinPats(hid, DPats(ps), DPats(qs))
    decreases ps, 0
  {
    hide Twin, TwinPat, DPat;
    if ps != [] {
      PatTwin(hid, ps[0], qs[0]);
      PatsTwin(hid, ps[1..], qs[1..]);
    }
  }

  // Expressions

  lemma {:induction false} SameGood(hid: set<Name>, c: Ctx, x: Name)
    requires Good(hid, c) && x !in hid
    ensures SameVar(c, x, x)
    decreases |c|
  {
    if c != [] {
      assert TwinName(hid, c[0].0, c[0].1);
      assert Good(hid, c[1..]);
      SameGood(hid, c[1..], x);
    }
  }

  lemma AlikeTwo(c: Ctx, e: LExpr, f: LExpr, e1: LExpr, f1: LExpr)
    requires Alike(c, e, f) && Alike(c, e1, f1)
    ensures AlikeAll(c, [e, e1], [f, f1])
  {
    hide Alike;
    assert [e, e1][1..] == [e1] && [f, f1][1..] == [f1];
    assert AlikeAll(c, [e1], [f1]);
  }

  lemma AlikeThree(c: Ctx, e: LExpr, f: LExpr, e1: LExpr, f1: LExpr, e2: LExpr, f2: LExpr)
    requires Alike(c, e, f) && Alike(c, e1, f1) && Alike(c, e2, f2)
    ensures AlikeAll(c, [e, e1, e2], [f, f1, f2])
  {
    hide Alike;
    AlikeTwo(c, e1, f1, e2, f2);
    assert [e, e1, e2][1..] == [e1, e2] && [f, f1, f2][1..] == [f1, f2];
  }

  /** A block of one alternative. */
  lemma OneAlt(c: Ctx, ps: seq<Pattern>, qs: seq<Pattern>, e: LExpr, f: LExpr)
    requires AlikePats(ps, qs) && Alike(PatsCtx(ps, qs, c), e, f)
    ensures AlikeAlts(c, [LAlt(ps, e)], [LAlt(qs, f)])
  {
    hide Alike, AlikePats;
    assert [LAlt(ps, e)][1..] == [] && [LAlt(qs, f)][1..] == [];
  }

  lemma OneName(c: Ctx, x: Name, y: Name)
    ensures AlikePats([PVar(x)], [PVar(y)]) && PatsCtx([PVar(x)], [PVar(y)], c) == [(x, y)] + c
  {
    assert [PVar(x)][1..] == [] && [PVar(y)][1..] == [];
  }

  /** A block that binds a made-up name. */
  lemma NamedBlock(c: Ctx, p: nat, q: nat, x: Name, y: Name, e: LExpr, f: LExpr)
    requires Alike([(x, y)] + c, e, f)
    ensures Alike(c, LBlock(p, [LAlt([PVar(x)], e)]), LBlock(q, [LAlt([PVar(y)], f)]))
  {
    hide AlikeAlts;
    OneName(c, x, y);
    OneAlt(c, [PVar(x)], [PVar(y)], e, f);
  }

  lemma CombAlikeExpr(c: Ctx, s: Symbol)
    ensures Alike(c, LComb(s), LComb(s))
  {
  }

  lemma AllJoin(c: Ctx, es: seq<LExpr>, fs: seq<LExpr>, e: LExpr, f: LExpr)
    requires Alike(c, e, f) && AlikeAll(c, es, fs)
    ensures AlikeAll(c, [e] + es, [f] + fs)
  {
    hide Alike;
    assert ([e] + es)[1..] == es && ([f] + fs)[1..] == fs;
  }

  lemma {:induction false} AllPrefix(c: Ctx, es: seq<LExpr>, fs: seq<LExpr>)
    requires AlikeAll(c, es, fs) && es != []
    ensures AlikeAll(c, es[..|es| - 1], fs[..|fs| - 1]) && Alike(c, es[|es| - 1], fs[|fs| - 1])
    decreases |es|
  {
    hide Alike;
    if |es| > 1 {
      AllPrefix(c, es[1..], fs[1..]);
      assert es[..|es| - 1][1..] == es[1..][..|es| - 2] && fs[..|fs| - 1][1..] == fs[1..][..|fs| - 2];
    }
  }

  lemma {:induction false} TupleAlike(c: Ctx, g: LExpr, h: LExpr, es: seq<LExpr>, fs: seq<LExpr>)
    requires Alike(c, g, h) && AlikeAll(c, es, fs)
    ensures Alike(c, LTuple(g, es), LTuple(h, fs))
    decreases |es|
  {
    hide AlikeAll;
    AllLength(c, es, fs);
    if es != [] {
      AllPrefix(c, es, fs);
      TupleAlike(c, g, h, es[..|es| - 1], fs[..|fs| - 1]);
      AlikeTwo(c, LTuple(g, es[..|es| - 1]), LTuple(h, fs[..|fs| - 1]), es[|es| - 1], fs[|fs| - 1]);
    }
  }

  lemma AllLength(c: Ctx, es: seq<LExpr>, fs: seq<LExpr>)
    requires AlikeAll(c, es, fs)
    ensures |es| == |fs|
  {
  }

  lemma {:induction false} ListAlike(c: Ctx, es: seq<LExpr>, fs: seq<LExpr>, l: LExpr, m: LExpr)
    requires AlikeAll(c, es, fs) && Alike(c, l, m)
    ensures Alike(c, LList(es, l), LList(fs, m))
    decreases |es|
  {
    AllLength(c, es, fs);
    if es != [] {
      ListAlike(c, es[1..], fs[1..], l, m);
      AlikeThree(c, LComb(SYMBOL_CONS), LComb(SYMBOL_CONS), es[0], fs[0], LList(es[1..], l), LList(fs[1..], m));
    }
  }

  /** What the terms stand for differs in names of variables only. */
  lemma {:induction false} TwinAlike(hid: set<Name>, c: Ctx, k: Known, a: Ast, b: Ast)
    requires Twin(hid, a, b) && Good(hid, c)
    ensures Alike(c, D(k, a), D(k, b))
    decreases a, 1
  {
    hide Good, AlikeAll, AlikeAlts, DAll, DAlts, DTail, DAdd, DPats, TwinAll, TwinAlts, LTuple, LList;
    match a
    case SConst(_) =>
    case SVar(x) => SameGood(hid, c, x);
    case SApp(es) => AllTwin(hid, c, k, es, b.es);
    case SBlock(_, alts) => AltsTwin(hid, c, k, alts, b.alts);
    case STag(_, _) => NothingAlike(c);
    case SWild(_) => NothingAlike(c);
    case SIf(_, _, _, _, _) => IfTwin(hid, c, k, a, b);
    case STuple(es) =>
      AllTwin(hid, c, k, es, b.es);
      TupleAlike(c, LComb(SYMBOL_TUPLE), LComb(SYMBOL_TUPLE), DAll(k, es), DAll(k, b.es));
    case SList(es, tl) =>
      AllTwin(hid, c, k, es, b.es);
      LastTwin(hid, c, k, tl, b.tl);
      ListAlike(c, DAll(k, es), DAll(k, b.es), DTail(k, tl), DTail(k, b.tl));
    case SDo(pos, x, e) =>
      GoodPush(hid, x, b.x, c);
      AddTwin(hid, c, k, e, b.body, x, b.x);
      NamedBlock(c, pos, b.pos, x, b.x, DAdd(k, e, x), DAdd(k, b.body, b.x));
    case SSeq(_, _, _, _) => SeqTwin(hid, c, k, a, b);
    case SLet(_, _, _, _) => LetTwin(hid, c, k, a, b);
    case SLambda(_, alts) => AltsTwin(hid, c, k, alts, b.alts);
    case SThrow(e) =>
      TwinAlike(hid, c, k, e, b.body);
      AlikeTwo(c, LComb(k.throw), LComb(k.throw), D(k, e), D(k, b.body));
    case STry(_, _, _, _, _, _) => TryTwin(hid, c, k, a, b);
  }

  lemma NothingAlike(c: Ctx)
    ensures AlikeAll(c, [], [])
  {
  }

  lemma {:induction false} IfTwin(hid: set<Name>, c: Ctx, k: Known, a: Ast, b: Ast)
    requires a.SIf? && Twin(hid, a, b) && Good(hid, c)
    ensures Alike(c, D(k, a), D(k, b))
    decreases a, 0
  {
    hide Good, AlikeAll, PatsCtx;
    var f := PConst(CombAtom(SYMBOL_FALSE));
    GoodPush(hid, a.w, b.w, c);
    TwinAlike(hid, c, k, a.i, b.i);
    TwinAlike(hid, [(a.w, b.w)] + c, k, a.t, b.t);
    TwinAlike(hid, c, k, a.e, b.e);
    OneConst(c, f);
    OneName(c, a.w, b.w);
    var ms := [LAlt([f], D(k, a.e)), LAlt([PVar(a.w)], D(k, a.t))];
    var ns := [LAlt([f], D(k, b.e)), LAlt([PVar(b.w)], D(k, b.t))];
    OneAlt(c, [PVar(a.w)], [PVar(b.w)], D(k, a.t), D(k, b.t));
    assert ms[1..] == [ms[1]] && ns[1..] == [ns[1]];
    assert AlikeAlts(c, ms, ns);
    AlikeTwo(c, LBlock(a.pos, ms), LBlock(b.pos, ns), D(k, a.i), D(k, b.i));
  }

  lemma {:induction false} SeqTwin(hid: set<Name>, c: Ctx, k: Known, a: Ast, b: Ast)
    requires a.SSeq? && Twin(hid, a, b) && Good(hid, c)
    ensures Alike(c, D(k, a), D(k, b))
    decreases a, 0
  {
    hide Good, AlikeAll, PatsCtx, AlikeAlts;
    GoodPush(hid, a.w, b.w, c);
    TwinAlike(hid, c, k, a.r, b.r);
    TwinAlike(hid, [(a.w, b.w)] + c, k, a.l, b.l);
    NamedBlock(c, a.pos, b.pos, a.w, b.w, D(k, a.l), D(k, b.l));
    AlikeTwo(c, LBlock(a.pos, [LAlt([PVar(a.w)], D(k, a.l))]), LBlock(b.pos, [LAlt([PVar(b.w)], D(k, b.l))]), D(k, a.r), D(k, b.r));
  }

  lemma OneConst(c: Ctx, p: Pattern)
    requires p.PConst?
    ensures AlikePats([p], [p]) && PatsCtx([p], [p], c) == c
  {
    assert [p][1..] == [];
  }

  lemma {:induction false} LetTwin(hid: set<Name>, c: Ctx, k: Known, a: Ast, b: Ast)
    requires a.SLet? && Twin(hid, a, b) && Good(hid, c)
    ensures Alike(c, D(k, a), D(k, b))
    decreases a, 0
  {
    hide Good, AlikeAll, PatsCtx, AlikePats, DPats, TwinPats;
    PatsTwin(hid, a.lhs, b.lhs);
    var ps, qs := DPats(a.lhs), DPats(b.lhs);
    PatsGood(hid, ps, qs, c);
    TwinAlike(hid, c, k, a.r, b.r);
    TwinAlike(hid, PatsCtx(ps, qs, c), k, a.l, b.l);
    OneAlt(c, ps, qs, D(k, a.l), D(k, b.l));
    AlikeTwo(c, LBlock(a.pos, [LAlt(ps, D(k, a.l))]), LBlock(b.pos, [LAlt(qs, D(k, b.l))]), D(k, a.r), D(k, b.r));
  }

  lemma {:induction false} TryTwin(hid: set<Name>, c: Ctx, k: Known, a: Ast, b: Ast)
    requires a.STry? && Twin(hid, a, b) && Good(hid, c)
    ensures Alike(c, D(k, a), D(k, b))
    decreases a, 0
  {
    hide Good, AlikeAll, PatsCtx, AlikeAlts;
    GoodPush(hid, a.w, b.w, c);
    GoodPush(hid, a.w1, b.w1, c);
    TwinAlike(hid, [(a.w, b.w)] + c, k, a.c, b.c);
    TwinAlike(hid, [(a.w1, b.w1)] + c, k, a.t, b.t);
    NamedBlock(c, a.pos, b.pos, a.w, b.w, D(k, a.c), D(k, b.c));
    NamedBlock(c, a.pos1, b.pos1, a.w1, b.w1, D(k, a.t), D(k, b.t));
    AlikeThree(c, LComb(k.handle), LComb(k.handle),
               LBlock(a.pos, [LAlt([PVar(a.w)], D(k, a.c))]), LBlock(b.pos, [LAlt([PVar(b.w)], D(k, b.c))]),
               LBlock(a.pos1, [LAlt([PVar(a.w1)], D(k, a.t))]), LBlock(b.pos1, [LAlt([PVar(b.w1)], D(k, b.t))]));
  }

  lemma {:induction false} LastTwin(hid: set<Name>, c: Ctx, k: Known, tl: seq<Ast>, ul: seq<Ast>)
    requires TwinAll(hid, tl, ul) && Good(hid, c)
    ensures Alike(c, DTail(k, tl), DTail(k, ul))
    decreases tl, 2
  {
    hide Good;
    if tl != [] {
      TwinAlike(hid, c, k, tl[0], ul[0]);
    }
  }

  lemma {:induction false} AllTwin(hid: set<Name>, c: Ctx, k: Known, es: seq<Ast>, fs: seq<Ast>)
    requires TwinAll(hid, es, fs) && Good(hid, c)
    ensures AlikeAll(c, DAll(k, es), DAll(k, fs))
    decreases es, 2
  {
    hide Good, Twin, Alike, D;
    if es != [] {
      TwinAlike(hid, c, k, es[0], fs[0]);
      AllTwin(hid, c, k, es[1..], fs[1..]);
    }
  }

  lemma {:induction false} AltsTwin(hid: set<Name>, c: Ctx, k: Known, ms: seq<SAlt>, ns: seq<SAlt>)
    requires TwinAlts(hid, ms, ns) && Good(hid, c)
    ensures AlikeAlts(c, DAlts(k, ms), DAlts(k, ns))
    decreases ms, 2
  {
    hide Good, Twin, TwinAll, Alike, D, DPats, AlikePats, PatsCtx, TwinPats;
    if ms != [] {
      PatsTwin(hid, ms[0].pats, ns[0].pats);
      var ps, qs := DPats(ms[0].pats), DPats(ns[0].pats);
      PatsGood(hid, ps, qs, c);
      TwinAlike(hid, PatsCtx(ps, qs, c), k, ms[0].body, ns[0].body);
      AltsTwin(hid, c, k, ms[1..], ns[1..]);
    }
  }

  lemma SameKind(hid: set<Name>, a: Ast, b: Ast)
    requires Twin(hid, a, b)
    ensures a.SApp? <==> b.SApp?
    ensures forall s :: a == Comb(s) <==> b == Comb(s)
  {
    hide TwinAll, TwinAlts;
  }

  lemma PipeTwin(hid: set<Name>, k: Known, e: Ast, f: Ast)
    requires Twin(hid, e, f)
    ensures IsPipe(k, e) <==> IsPipe(k, f)
    ensures IsPipe(k, e) ==> |e.es| == |f.es| && TwinAll(hid, e.es, f.es) && Twin(hid, e.es[1], f.es[1]) && TwinAll(hid, e.es[2..], f.es[2..])
  {
    SameKind(hid, e, f);
    if e.SApp? && |e.es| > 2 {
      SameKind(hid, e.es[0], f.es[0]);
      assert e.es[1..][1..] == e.es[2..] && f.es[1..][1..] == f.es[2..];
      assert TwinAll(hid, e.es[1..], f.es[1..]);
    }
  }

  lemma {:induction false} AddTwin(hid: set<Name>, c: Ctx, k: Known, e: Ast, f: Ast, x: Name, y: Name)
    requires Twin(hid, e, f) && Good(hid, c) && x in hid && y in hid
    ensures Alike([(x, y)] + c, DAdd(k, e, x), DAdd(k, f, y))
    decreases e, 2
  {
    hide Good, Twin, TwinAll, AlikeAll, D, DAll;
    var c1 := [(x, y)] + c;
    GoodPush(hid, x, y, c);
    PipeTwin(hid, k, e, f);
    if IsPipe(k, e) {
      AddTwin(hid, c, k, e.es[1], f.es[1], x, y);
      AllTwin(hid, c1, k, e.es[2..], f.es[2..]);
      HeadSame(hid, k, e, f);
      TwinAlike(hid, c1, k, e.es[0], f.es[0]);
      AllJoin(c1, DAll(k, e.es[2..]), DAll(k, f.es[2..]), DAdd(k, e.es[1], x), DAdd(k, f.es[1], y));
      AllJoin(c1, [DAdd(k, e.es[1], x)] + DAll(k, e.es[2..]), [DAdd(k, f.es[1], y)] + DAll(k, f.es[2..]), D(k, e.es[0]), D(k, f.es[0]));
      PipeList(k, e, x);
      PipeList(k, f, y);
    } else {
      TwinAlike(hid, c1, k, e, f);
      AlikeTwo(c1, D(k, e), D(k, f), LVar(x), LVar(y));
    }
  }

  lemma HeadSame(hid: set<Name>, k: Known, e: Ast, f: Ast)
    requires IsPipe(k, e) && IsPipe(k, f)
    ensures Twin(hid, e.es[0], f.es[0])
  {
  }

  lemma PipeList(k: Known, e: Ast, x: Name)
    requires IsPipe(k, e)
    ensures DAdd(k, e, x) == LApp([D(k, e.es[0])] + ([DAdd(k, e.es[1], x)] + DAll(k, e.es[2..])))
  {
    hide D, DAll;
    assert [D(k, e.es[0]), DAdd(k, e.es[1], x)] + DAll(k, e.es[2..]) == [D(k, e.es[0])] + ([DAdd(k, e.es[1], x)] + DAll(k, e.es[2..]));
  }

  // Programs

  lemma TwinsAlike(hid: set<Name>, k: Known, P: SProgram, Q: SProgram)
    requires TwinProgram(hid, P, Q)
    ensures AlikeProgram(DProgram(k, P), DProgram(k, Q))
  {
    hide Twin, TwinAlts, Alike, AlikeAlts, D, DAlts;
    forall s | s in P
      ensures AlikeDef(DDef(k, P[s]), DDef(k, Q[s]))
    {
      assert TwinDef(hid, P[s], Q[s]);
      match P[s]
      case SCode(ms) => AltsTwin(hid, [], k, ms, Q[s].alts);
      case SValue(e) => TwinAlike(hid, [], k, e, Q[s].e);
      case _ =>
    }
  }

  /** A value of which no closure is a part. */
  predicate Closed(v: LVal) {
    match v
    case VLeaf(_) => true
    case VNode(vs) => ClosedAll(vs)
    case VClo(_, _, _) => false
  }

  predicate ClosedAll(vs: seq<LVal>) {
    vs == [] || (Closed(vs[0]) && ClosedAll(vs[1..]))
  }

  lemma {:induction false} ClosedAlike(v: LVal, w: LVal)
    requires AlikeVal(v, w) && Closed(v)
    ensures v == w
    decreases v
  {
    match v
    case VLeaf(_) =>
    case VNode(vs) => ClosedAllAlike(vs, w.vs);
  }

  lemma {:induction false} ClosedAllAlike(vs: seq<LVal>, ws: seq<LVal>)
    requires AlikeVals(vs, ws) && ClosedAll(vs)
    ensures vs == ws
    decreases vs
  {
    if vs != [] {
      ClosedAlike(vs[0], ws[0]);
      ClosedAllAlike(vs[1..], ws[1..]);
      assert vs == [vs[0]] + vs[1..] && ws == [ws[0]] + ws[1..];
    }
  }

  /** Programs that differ in the names made up for wildcards and do variables, and in the positions of their blocks, have
      the same results with the same fuel, up to the names in closures: if no closure is part of a result, it is the same. */
  lemma MadeUpNames(n: nat, k: Known, P: SProgram, Q: SProgram, hid: set<Name>, s: Symbol)
    requires Standard(k, P) && Standard(k, Q) && TwinProgram(hid, P, Q)
    ensures var r, r1 := TrRes(k, SApply(n, k, P, SComb(s), [])), TrRes(k, SApply(n, k, Q, SComb(s), []));
            && AlikeRes(r, r1)
            && (r.LOk? && Closed(r.v) ==> r1 == r)
            && (r.LExc? && ClosedAll(r.vs) ==> r1 == r)
  {
    hide SApply, LApply, DProgram, AlikeProgram, AlikeVal, AlikeVals, Tr, TrAll, Closed, ClosedAll;
    ApplySim(n, k, P, SComb(s), []);
    ApplySim(n, k, Q, SComb(s), []);
    TwinsAlike(hid, k, P, Q);
    TrComb(k, s);
    ApplyAlike(n, DProgram(k, P), DProgram(k, Q), VLeaf(CombAtom(s)), VLeaf(CombAtom(s)), [], []);
    var r, r1 := TrRes(k, SApply(n, k, P, SComb(s), [])), TrRes(k, SApply(n, k, Q, SComb(s), []));
    if r.LOk? && Closed(r.v) {
      ClosedAlike(r.v, r1.v);
    }
    if r.LExc? && ClosedAll(r.vs) {
      ClosedAllAlike(r.vs, r1.vs);
    }
  }

  lemma TrComb(k: Known, s: Symbol)
    ensures Tr(k, SComb(s)) == VLeaf(CombAtom(s)) && TrAll(k, []) == [] && AlikeVals([], []) && AlikeVal(VLeaf(CombAtom(s)), VLeaf(CombAtom(s)))
  {
  }
}
