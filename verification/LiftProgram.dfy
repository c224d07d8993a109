/** Whole programs: what the lifting passes make of every definition, and that the back end accepts it. */
module LiftProgram {
  import opened Terms
  import opened Syntax
  import opened Semantics
  import opened Emit
  import opened LetNormal
  import opened Reredex
  import opened Closures
  import opened Lifting
  import opened LiftShape
  import opened LiftMeaning

  // Source programs

  /** What the source must meet: applications have arguments, patterns see no closures, arities fit. */
  predicate Sound(ls: set<Symbol>, e: LExpr)
    decreases e
  {
    match e
    case LConst(a) => !(a.CombAtom? && a.sym in ls)
    case LVar(_) => true
    case LApp(es) => |es| >= 2 && SoundAll(ls, es)
    case LBlock(_, alts) => SoundOf(ls, |FreeOf(alts)|, alts)
  }

  predicate SoundAll(ls: set<Symbol>, es: seq<LExpr>)
    decreases es
  {
    es == [] || (Sound(ls, es[0]) && SoundAll(ls, es[1..]))
  }

  predicate SoundOf(ls: set<Symbol>, n: nat, alts: seq<LAlt>)
    decreases alts
  {
    alts == [] ||
    (PatsOk(ls, alts[0].pats) && n + |alts[0].pats| + 5 < INDEX_RANGE && Sound(ls, alts[0].body) && SoundOf(ls, n, alts[1..]))
  }

  ghost predicate Plain(e: LExpr) {
    Unique(e) && Fresh(Free(e) + Binders(e), 0)
  }

  ghost predicate SourceDef(ls: set<Symbol>, d: LDef) {
    match d
    case LData => true
    case LThrow => true
    case LHandle => true
    case LCode(alts) => SoundOf(ls, 0, alts) && FreeOf(alts) == {} && Plain(LBlock(0, alts))
    case LValue(e) => Sound(ls, e) && Free(e) == {} && Plain(e)
  }

  ghost predicate Source(ls: set<Symbol>, lp: LProgram) {
    forall s :: s in lp ==> SourceDef(ls, lp[s])
  }

  // Output of the passes

  /** A definition after eta, deapply, lift and relambda. */
  ghost function LiftedDef(sym: nat -> Symbol, d: LDef): Def {
    match d
    case LData => DataDef
    case LThrow => ThrowDef
    case LHandle => HandleDef
    case LCode(alts) =>
      (match Deapply(Eta(LBlock(0, alts)))
      case LBlock(_, alts1) => CodeDef(LiftOf(sym, alts1))
      case _ => DataDef)
    case LValue(e) => CodeDef([Alt([], Lift(sym, Deapply(Eta(e))))])
  }

  /** The definitions that its blocks become. */
  ghost function DefsOf(sym: nat -> Symbol, d: LDef): seq<Lifted> {
    match d
    case LCode(alts) =>
      (match Deapply(Eta(LBlock(0, alts)))
      case LBlock(_, alts1) => LiftedFromOf(sym, alts1)
      case _ => [])
    case LValue(e) => LiftedFrom(sym, Deapply(Eta(e)))
    case _ => []
  }

  /** The program that the passes make: ls are the symbols of lifted blocks, each defined once. */
  ghost predicate Output(w: World) {
    && w.p.Keys == w.lp.Keys + w.ls && w.lp.Keys !! w.ls && SYMBOL_NONE !in w.ls
    && (forall s :: s in w.lp ==> w.p[s] == LiftedDef(w.sym, w.lp[s]))
    && BlocksDefined(w) && OnlyBlocks(w)
  }

  ghost predicate BlocksDefined(w: World) {
    forall s, d :: s in w.lp && d in DefsOf(w.sym, w.lp[s]) ==>
      w.sym(d.pos) in w.ls && w.sym(d.pos) in w.p && w.p[w.sym(d.pos)] == CodeDef(d.alts)
  }

  ghost predicate OnlyBlocks(w: World) {
    forall s :: s in w.ls ==> s in w.p && exists s0, d :: s0 in w.lp && d in DefsOf(w.sym, w.lp[s0]) && w.p[s] == CodeDef(d.alts)
  }

  lemma {:induction false} SoundProper(ls: set<Symbol>, e: LExpr)
    requires Sound(ls, e)
    ensures Proper(e)
    decreases e, 1
  {
    match e
    case LConst(_) =>
    case LVar(_) =>
    case LApp(es) => SoundProperAll(ls, es);
    case LBlock(_, alts) => SoundProperOf(ls, |FreeOf(alts)|, alts);
  }

  lemma {:induction false} SoundProperAll(ls: set<Symbol>, es: seq<LExpr>)
    requires SoundAll(ls, es)
    ensures ProperAll(es)
    decreases es, 0
  {
    hide Sound, Proper;
    if es != [] {
      SoundProper(ls, es[0]);
      SoundProperAll(ls, es[1..]);
    }
  }

  lemma {:induction false} SoundProperOf(ls: set<Symbol>, n: nat, alts: seq<LAlt>)
    requires SoundOf(ls, n, alts)
    ensures ProperOf(alts)
    decreases alts, 0
  {
    hide Sound, Proper;
    if alts != [] {
      SoundProper(ls, alts[0].body);
      SoundProperOf(ls, n, alts[1..]);
    }
  }

  /** A closed block stays a block. */
  lemma CodeOutput(sym: nat -> Symbol, alts: seq<LAlt>)
    requires FreeOf(alts) == {} && Unique(LBlock(0, alts)) && ProperOf(alts)
    ensures LiftedDef(sym, LCode(alts)) == CodeDef(CAlts(sym, [], alts))
    ensures DefsOf(sym, LCode(alts)) == CDefsOf(sym, alts)
  {
    hide Eta, EtaAlts, Push, Deapply, DeapplyOf, LiftOf, LiftedFromOf, CAlts, CDefsOf, UniqueOf, ProperOf, FreeOf, Unique, Listing, VarList;
    var e := LBlock(0, alts);
    EtaBlockVisit(e, {});
    UniqueParts(0, alts);
    NothingListed();
    SingleBlock(0, Push([], EtaAlts(alts)));
    PassesOf(sym, [], alts);
  }

  lemma UniqueParts(pos: nat, alts: seq<LAlt>)
    requires Unique(LBlock(pos, alts))
    ensures UniqueOf(alts) && Free(LBlock(pos, alts)) == FreeOf(alts)
  {
    hide UniqueOf, FreeOf;
  }

  lemma NothingListed()
    ensures Listing({}) == [] && VarList([]) == []
  {
  }

  lemma SingleBlock(pos: nat, alts: seq<LAlt>)
    ensures Deapply(LApp([LBlock(pos, alts)] + [])) == LBlock(pos, DeapplyOf(alts))
  {
    hide DeapplyOf, DeapplyAll;
    assert [LBlock(pos, alts)] + [] == [LBlock(pos, alts)];
  }

  lemma ValueOutput(sym: nat -> Symbol, e: LExpr)
    requires Unique(e) && Proper(e)
    ensures LiftedDef(sym, LValue(e)) == CodeDef([Alt([], C(sym, e))])
    ensures DefsOf(sym, LValue(e)) == CDefs(sym, e)
  {
    hide Eta, Deapply, C, CDefs, Lift, LiftedFrom, Unique, Proper;
    PassesExpr(sym, e);
  }

  // The output is a lifted program.

  ghost predicate Linked(w: World, ds: seq<Lifted>) {
    forall d :: d in ds ==> w.sym(d.pos) in w.ls && w.sym(d.pos) in w.p && w.p[w.sym(d.pos)] == CodeDef(d.alts)
  }

  lemma {:induction false} ExprLinked(w: World, e: LExpr)
    requires Sound(w.ls, e) && Linked(w, CDefs(w.sym, e))
    ensures ExprOk(w, e)
    decreases e, 1
  {
    match e
    case LConst(_) =>
    case LVar(_) =>
    case LApp(es) => ExprsLinked(w, es);
    case LBlock(pos, alts) =>
      hide CDefsOf, CAlts, SoundOf, AltsOk, FreeOf;
      var d := Lifted(pos, CAlts(w.sym, Listing(FreeOf(alts)), alts));
      assert d in CDefs(w.sym, e);
      AltsLinked(w, |FreeOf(alts)|, alts);
  }

  lemma {:induction false} ExprsLinked(w: World, es: seq<LExpr>)
    requires SoundAll(w.ls, es) && Linked(w, CDefsAll(w.sym, es))
    ensures ExprsOk(w, es)
    decreases es, 0
  {
    hide Sound, ExprOk, CDefs;
    if es != [] {
      ExprLinked(w, es[0]);
      ExprsLinked(w, es[1..]);
    }
  }

  lemma {:induction false} AltsLinked(w: World, n: nat, alts: seq<LAlt>)
    requires SoundOf(w.ls, n, alts) && Linked(w, CDefsOf(w.sym, alts))
    ensures AltsOk(w, alts)
    decreases alts, 0
  {
    hide Sound, ExprOk, CDefs;
    if alts != [] {
      ExprLinked(w, alts[0].body);
      AltsLinked(w, n, alts[1..]);
    }
  }

  lemma DefLinked(w: World, s: Symbol)
    requires s in w.lp && s in w.p && SourceDef(w.ls, w.lp[s]) && w.p[s] == LiftedDef(w.sym, w.lp[s]) && Linked(w, DefsOf(w.sym, w.lp[s]))
    ensures DefOk(w, w.lp[s], w.p[s])
  {
    hide LiftedDef, DefsOf, Linked, CAlts, AltsOk, ExprOk, SoundOf, Sound, FreeOf, C, Unique, CDefs, CDefsOf;
    match w.lp[s]
    case LData => PlainDefs(w.sym);
    case LThrow => PlainDefs(w.sym);
    case LHandle => PlainDefs(w.sym);
    case LCode(alts) =>
      SoundProperOf(w.ls, 0, alts);
      CodeOutput(w.sym, alts);
      AltsLinked(w, 0, alts);
    case LValue(e) =>
      SoundProper(w.ls, e);
      ValueOutput(w.sym, e);
      ExprLinked(w, e);
  }

  lemma PlainDefs(sym: nat -> Symbol)
    ensures LiftedDef(sym, LData) == DataDef && LiftedDef(sym, LThrow) == ThrowDef && LiftedDef(sym, LHandle) == HandleDef
  {
  }

  /** What the passes make of a source program is its lifted form. */
  lemma OutputLifts(w: World)
    requires Source(w.ls, w.lp) && Output(w)
    ensures Lifts(w)
  {
    hide LiftedDef, DefsOf, DefOk, SourceDef, OnlyBlocks;
    forall s | s in w.lp ensures DefOk(w, w.lp[s], w.p[s]) {
      DefLinked(w, s);
    }
  }

  // The back end accepts it.

  lemma {:induction false} CCore(ls: set<Symbol>, sym: nat -> Symbol, e: LExpr)
    requires Sound(ls, e)
    ensures Core(C(sym, e)) && VarsOf(C(sym, e)) <= Free(e)
    decreases e, 3
  {
    hide CHead, CArgs, C, Sound, Free, Cores;
    CShape(sym, e);
    PartsCore(ls, sym, e);
    var h, cs := CHead(sym, e), CArgs(sym, e);
    if cs != [] {
      AppCore(h, cs);
    } else {
      HeadCore(h);
    }
  }

  lemma HeadCore(h: Expr)
    requires h.Const? || h.Var?
    ensures Core(h)
  {
  }

  lemma AppCore(h: Expr, cs: seq<Expr>)
    requires (h.Const? || h.Var?) && cs != [] && Cores(cs)
    ensures Core(App([h] + cs)) && VarsOf(App([h] + cs)) == VarsOf(h) + VarsOfAll(cs)
  {
    assert ([h] + cs)[1..] == cs;
  }

  lemma {:induction false} PartsCore(ls: set<Symbol>, sym: nat -> Symbol, e: LExpr)
    requires Sound(ls, e)
    ensures CHead(sym, e).Const? || CHead(sym, e).Var?
    ensures Cores(CArgs(sym, e)) && VarsOf(CHead(sym, e)) + VarsOfAll(CArgs(sym, e)) <= Free(e)
    decreases e, 2
  {
    match e
    case LConst(_) =>
    case LVar(_) =>
    case LBlock(_, alts) =>
      hide FreeOf;
      VarsCore(Listing(FreeOf(alts)));
    case LApp(es) =>
      hide CHead, CArgs, CAll, Cores, Sound, Free, VarsOf, VarsOfAll;
      SoundApp(ls, sym, e);
      PartsCore(ls, sym, es[0]);
      AllCore(ls, sym, es[1..]);
      CoresAppend(CArgs(sym, es[0]), CAll(sym, es[1..]));
  }

  lemma SoundApp(ls: set<Symbol>, sym: nat -> Symbol, e: LExpr)
    requires e.LApp? && Sound(ls, e)
    ensures |e.es| >= 2 && Sound(ls, e.es[0]) && SoundAll(ls, e.es[1..]) && Free(e) == Free(e.es[0]) + FreeAll(e.es[1..])
    ensures CHead(sym, e) == CHead(sym, e.es[0]) && CArgs(sym, e) == CArgs(sym, e.es[0]) + CAll(sym, e.es[1..])
  {
    hide CAll;
  }

  lemma {:induction false} VarsCore(xs: seq<Name>)
    ensures Cores(VarArgs(xs)) && VarsOfAll(VarArgs(xs)) == NamesOf(xs)
    decreases |xs|
  {
    if xs != [] {
      assert VarArgs(xs)[1..] == VarArgs(xs[1..]);
      VarsCore(xs[1..]);
      assert xs == [xs[0]] + xs[1..];
    }
  }

  lemma {:induction false} CoresAppend(a: seq<Expr>, b: seq<Expr>)
    requires Cores(a) && Cores(b)
    ensures Cores(a + b) && VarsOfAll(a + b) == VarsOfAll(a) + VarsOfAll(b)
    decreases |a|
  {
    hide Core, VarsOf;
    if a == [] {
      assert a + b == b;
    } else {
      assert (a + b)[1..] == a[1..] + b;
      CoresAppend(a[1..], b);
    }
  }

  lemma {:induction false} AllCore(ls: set<Symbol>, sym: nat -> Symbol, es: seq<LExpr>)
    requires SoundAll(ls, es)
    ensures Cores(CAll(sym, es)) && VarsOfAll(CAll(sym, es)) <= FreeAll(es)
    decreases es, 4
  {
    hide Core, C, Sound, VarsOf, Free;
    if es != [] {
      CCore(ls, sym, es[0]);
      AllCore(ls, sym, es[1..]);
      assert CAll(sym, es)[1..] == CAll(sym, es[1..]);
    }
  }

  /** The definition of a block, or of a closed definition when vs is empty. */
  lemma {:induction false} AltsSource(ls: set<Symbol>, sym: nat -> Symbol, vs: seq<Name>, alts: seq<LAlt>)
    requires SoundOf(ls, |vs|, alts) && FreeOf(alts) <= NamesOf(vs) && Fresh(NamesOf(vs) + BindersOf(alts), 0)
    ensures SourceAlts(CAlts(sym, vs, alts))
    decreases alts
  {
    hide C, Sound, Core, VarsOf, Free, Binders, SourceAlt, PatsOk, PatsVars, RedexName;
    if alts != [] {
      CCore(ls, sym, alts[0].body);
      AltSource(ls, sym, vs, alts);
      AltsSource(ls, sym, vs, alts[1..]);
      var ms := CAlts(sym, vs, alts);
      forall i | 0 <= i < |ms| ensures SourceAlt(ms[i]) {
        if i > 0 {
          assert ms[i] == CAlts(sym, vs, alts[1..])[i - 1];
        }
      }
    }
  }

  lemma AltSource(ls: set<Symbol>, sym: nat -> Symbol, vs: seq<Name>, alts: seq<LAlt>)
    requires alts != [] && SoundOf(ls, |vs|, alts) && FreeOf(alts) <= NamesOf(vs) && Fresh(NamesOf(vs) + BindersOf(alts), 0)
    requires Core(C(sym, alts[0].body)) && VarsOf(C(sym, alts[0].body)) <= Free(alts[0].body)
    ensures SourceAlt(CAlts(sym, vs, alts)[0])
  {
    hide C, Sound, Core, VarsOf, Free, Binders, RedexName, CAlts;
    PatListVars(vs, alts[0].pats);
    PatListOk(ls, vs, alts[0].pats);
  }

  lemma {:induction false} PatListOk(ls: set<Symbol>, vs: seq<Name>, ps: seq<Pattern>)
    requires PatsOk(ls, ps)
    ensures PatternsOk(PatList(vs) + ps)
    decreases |vs|
  {
    if vs == [] {
      assert PatList(vs) + ps == ps;
      PatsAreOk(ls, ps);
    } else {
      assert (PatList(vs) + ps)[1..] == PatList(vs[1..]) + ps;
      PatListOk(ls, vs[1..], ps);
    }
  }

  lemma {:induction false} PatsAreOk(ls: set<Symbol>, ps: seq<Pattern>)
    requires PatsOk(ls, ps)
    ensures PatternsOk(ps)
    decreases ps, 0
  {
    if ps != [] {
      PatIsOk(ls, ps[0]);
      PatsAreOk(ls, ps[1..]);
    }
  }

  lemma {:induction false} PatIsOk(ls: set<Symbol>, p: Pattern)
    requires PatOk(ls, p)
    ensures PatternOk(p)
    decreases p, 1
  {
    match p
    case PConst(_) =>
    case PVar(_) =>
    case PTag(q, _) => PatIsOk(ls, q);
    case PApp(ps) => PatsAreOk(ls, ps);
  }

  ghost predicate AllSource(ds: seq<Lifted>) {
    forall d :: d in ds ==> SourceAlts(d.alts)
  }

  lemma {:induction false} DefsSource(ls: set<Symbol>, sym: nat -> Symbol, e: LExpr)
    requires Sound(ls, e) && Fresh(Free(e) + Binders(e), 0)
    ensures AllSource(CDefs(sym, e))
    decreases e, 1
  {
    match e
    case LConst(_) =>
    case LVar(_) =>
    case LApp(es) => DefsSourceAll(ls, sym, es);
    case LBlock(_, alts) =>
      hide CDefsOf, CAlts, SoundOf, FreeOf, BindersOf, SourceAlts, RedexName;
      var fv := Listing(FreeOf(alts));
      assert NamesOf(fv) == FreeOf(alts);
      DefsSourceOf(ls, sym, |fv|, alts, FreeOf(alts));
      AltsSource(ls, sym, fv, alts);
  }

  lemma {:induction false} DefsSourceAll(ls: set<Symbol>, sym: nat -> Symbol, es: seq<LExpr>)
    requires SoundAll(ls, es) && Fresh(FreeAll(es) + BindersAll(es), 0)
    ensures AllSource(CDefsAll(sym, es))
    decreases es, 0
  {
    hide Sound, CDefs, SourceAlts, RedexName, Free, Binders;
    if es != [] {
      DefsSource(ls, sym, es[0]);
      DefsSourceAll(ls, sym, es[1..]);
    }
  }

  lemma {:induction false} DefsSourceOf(ls: set<Symbol>, sym: nat -> Symbol, n: nat, alts: seq<LAlt>, fv: set<Name>)
    requires SoundOf(ls, n, alts) && FreeOf(alts) <= fv && Fresh(fv + BindersOf(alts), 0)
    ensures AllSource(CDefsOf(sym, alts))
    decreases alts, 0
  {
    hide Sound, CDefs, SourceAlts, RedexName, Free, Binders;
    if alts != [] {
      DefsSource(ls, sym, alts[0].body);
      DefsSourceOf(ls, sym, n, alts[1..], fv);
    }
  }

  /** All definitions of a lifted program are ones the back end accepts. */
  lemma OutputSource(w: World)
    requires Source(w.ls, w.lp) && Output(w)
    ensures SourceProgram(w.p)
  {
    hide LiftedDef, DefsOf, SourceDef, SourceAlts;
    forall s | s in w.lp
      ensures w.p[s].CodeDef? ==> SourceAlts(w.p[s].alts)
      ensures AllSource(DefsOf(w.sym, w.lp[s]))
    {
      DefSource(w, s);
    }
    forall s | s in w.p && w.p[s].CodeDef? ensures SourceAlts(w.p[s].alts) {
      if s in w.ls {
        var s0, d :| s0 in w.lp && d in DefsOf(w.sym, w.lp[s0]) && w.p[s] == CodeDef(d.alts);
      }
    }
  }

  lemma DefSource(w: World, s: Symbol)
    requires s in w.lp && s in w.p && SourceDef(w.ls, w.lp[s]) && w.p[s] == LiftedDef(w.sym, w.lp[s])
    ensures w.p[s].CodeDef? ==> SourceAlts(w.p[s].alts)
    ensures AllSource(DefsOf(w.sym, w.lp[s]))
  {
    hide LiftedDef, DefsOf, SourceAlts, CAlts, SoundOf, Sound, FreeOf, BindersOf, C, Unique, CDefs, CDefsOf, RedexName;
    match w.lp[s]
    case LData => PlainSource(w.sym);
    case LThrow => PlainSource(w.sym);
    case LHandle => PlainSource(w.sym);
    case LCode(alts) =>
      SoundProperOf(w.ls, 0, alts);
      CodeOutput(w.sym, alts);
      assert NamesOf([]) == {};
      AltsSource(w.ls, w.sym, [], alts);
      DefsSourceOf(w.ls, w.sym, 0, alts, {});
    case LValue(e) =>
      SoundProper(w.ls, e);
      ValueOutput(w.sym, e);
      DefsSource(w.ls, w.sym, e);
      CCore(w.ls, w.sym, e);
      NullarySource(C(w.sym, e));
  }

  lemma PlainSource(sym: nat -> Symbol)
    ensures LiftedDef(sym, LData) == DataDef && LiftedDef(sym, LThrow) == ThrowDef && LiftedDef(sym, LHandle) == HandleDef
    ensures DefsOf(sym, LData) == [] && DefsOf(sym, LThrow) == [] && DefsOf(sym, LHandle) == []
  {
  }

  lemma NullarySource(e: Expr)
    requires Core(e) && VarsOf(e) <= {}
    ensures SourceAlts([Alt([], e)])
  {
    hide Core, VarsOf, RedexName;
  }

  // When the passes make a program at all

  /** The symbols of all lifted blocks. */
  ghost function LiftedSymbols(sym: nat -> Symbol, lp: LProgram): set<Symbol> {
    set s, d | s in lp && d in DefsOf(sym, lp[s]) :: sym(d.pos)
  }

  /** Blocks with the same name have the same definition; and no definition of the source has such a name. */
  ghost predicate NoConflict(sym: nat -> Symbol, lp: LProgram) {
    && (forall s, d, s1, d1 :: s in lp && d in DefsOf(sym, lp[s]) && s1 in lp && d1 in DefsOf(sym, lp[s1]) && sym(d.pos) == sym(d1.pos) ==> d.alts == d1.alts)
    && (forall s, d :: s in lp && d in DefsOf(sym, lp[s]) ==> sym(d.pos) !in lp && sym(d.pos) != SYMBOL_NONE)
  }

  ghost predicate Defines(sym: nat -> Symbol, lp: LProgram, s: Symbol, d: Def) {
    exists s0, b :: s0 in lp && b in DefsOf(sym, lp[s0]) && sym(b.pos) == s && d == CodeDef(b.alts)
  }

  /** The output exists exactly when no two lifted names collide. */
  lemma OutputExists(sym: nat -> Symbol, lp: LProgram)
    ensures NoConflict(sym, lp) <==> exists p: Program :: Output(World(sym, LiftedSymbols(sym, lp), lp, p))
  {
    hide DefsOf, LiftedDef;
    if NoConflict(sym, lp) {
      var p := Assemble(sym, lp);
      assert Output(World(sym, LiftedSymbols(sym, lp), lp, p));
    }
    if p: Program :| Output(World(sym, LiftedSymbols(sym, lp), lp, p)) {
      OutputApart(sym, lp, p);
    }
  }

  lemma OutputApart(sym: nat -> Symbol, lp: LProgram, p: Program)
    requires Output(World(sym, LiftedSymbols(sym, lp), lp, p))
    ensures NoConflict(sym, lp)
  {
    hide DefsOf, LiftedDef;
    forall s, d, s1, d1 | s in lp && d in DefsOf(sym, lp[s]) && s1 in lp && d1 in DefsOf(sym, lp[s1]) && sym(d.pos) == sym(d1.pos)
      ensures d.alts == d1.alts
    {
      assert p[sym(d.pos)] == CodeDef(d.alts);
      assert p[sym(d1.pos)] == CodeDef(d1.alts);
    }
  }

  lemma Assemble(sym: nat -> Symbol, lp: LProgram) returns (p: Program)
    requires NoConflict(sym, lp)
    ensures Output(World(sym, LiftedSymbols(sym, lp), lp, p))
  {
    hide DefsOf, LiftedDef, LiftedSymbols, Defines, NoConflict, BlockDef, BlocksDefined, OnlyBlocks;
    var ls := LiftedSymbols(sym, lp);
    forall s | s in ls ensures (exists d :: Defines(sym, lp, s, d)) && s !in lp && s != SYMBOL_NONE {
      var s0, d := SymbolOf(sym, lp, s);
      DefinedOnce(sym, lp, s0, d);
    }
    p := map s | s in lp.Keys + ls :: if s in lp then LiftedDef(sym, lp[s]) else BlockDef(sym, lp, s);
    AssembleBlocks(sym, lp, p);
  }

  lemma AssembleBlocks(sym: nat -> Symbol, lp: LProgram, p: Program)
    requires NoConflict(sym, lp)
    requires forall s :: s in LiftedSymbols(sym, lp) ==> s in p && (exists d :: Defines(sym, lp, s, d)) && p[s] == BlockDef(sym, lp, s)
    ensures BlocksDefined(World(sym, LiftedSymbols(sym, lp), lp, p)) && OnlyBlocks(World(sym, LiftedSymbols(sym, lp), lp, p))
  {
    hide DefsOf, LiftedSymbols, Defines, NoConflict, BlockDef;
    forall s, d | s in lp && d in DefsOf(sym, lp[s])
      ensures sym(d.pos) in LiftedSymbols(sym, lp) && sym(d.pos) in p && p[sym(d.pos)] == CodeDef(d.alts)
    {
      DefinedOnce(sym, lp, s, d);
    }
    forall s | s in LiftedSymbols(sym, lp)
      ensures s in p && exists s0, d :: s0 in lp && d in DefsOf(sym, lp[s0]) && p[s] == CodeDef(d.alts)
    {
      var s0, d := SymbolOf(sym, lp, s);
      DefinedOnce(sym, lp, s0, d);
    }
  }

  lemma SymbolOf(sym: nat -> Symbol, lp: LProgram, s: Symbol) returns (s0: Symbol, d: Lifted)
    requires s in LiftedSymbols(sym, lp)
    ensures s0 in lp && d in DefsOf(sym, lp[s0]) && sym(d.pos) == s
  {
    hide DefsOf;
    s0, d :| s0 in lp && d in DefsOf(sym, lp[s0]) && sym(d.pos) == s;
  }

  lemma DefinedOnce(sym: nat -> Symbol, lp: LProgram, s0: Symbol, d: Lifted)
    requires NoConflict(sym, lp) && s0 in lp && d in DefsOf(sym, lp[s0])
    ensures sym(d.pos) in LiftedSymbols(sym, lp) && sym(d.pos) !in lp && sym(d.pos) != SYMBOL_NONE
    ensures (exists d1 :: Defines(sym, lp, sym(d.pos), d1)) && BlockDef(sym, lp, sym(d.pos)) == CodeDef(d.alts)
  {
    hide DefsOf;
    assert Defines(sym, lp, sym(d.pos), CodeDef(d.alts));
  }

  ghost function BlockDef(sym: nat -> Symbol, lp: LProgram, s: Symbol): (d: Def)
    requires exists d :: Defines(sym, lp, s, d)
    ensures Defines(sym, lp, s, d)
  {
    var d :| Defines(sym, lp, s, d);
    d
  }
}
