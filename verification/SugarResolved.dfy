/** From name resolution to lambda lifting: a resolved unit has the names that lifting asks for. */
module SugarResolved {
  import opened Common
  import opened Terms
  import opened Syntax
  import opened Closures
  import opened Reredex
  import opened Sugar
  import opened SugarUnique
  import I = Identify

  // The tree of name resolution and the term of the passes

  /** The same construct over the same parts; leaves without names stand for constants and wildcards. */
  predicate Shows(a: I.Ast, b: Ast)
    decreases b
  {
    match b
    case SConst(_) => a.Comb? || a.Literal?
    case SVar(x) => a == I.Var(x)
    case SApp(es) => a.Node? && ShowsAll(a.es, es)
    case SBlock(_, alts) => a.Node? && ShowsAlts(a.es, alts)
    case STag(p, _) => a.Tag? && Shows(a.e, p) && a.t.Comb?
    case SWild(_) => a.Literal?
    case SIf(_, _, i, t, e) => a.Node? && |a.es| == 3 && Shows(a.es[0], i) && Shows(a.es[1], t) && Shows(a.es[2], e)
    case STuple(es) => a.Node? && ShowsAll(a.es, es)
    case SList(es, tl) =>
      a.Node? && |a.es| == |es| + |tl| && ShowsAll(a.es[..|es|], es) && ShowsAll(a.es[|es|..], tl)
    case SDo(_, _, e) => a.Node? && |a.es| == 1 && Shows(a.es[0], e)
    case SSeq(_, _, r, l) => a.Node? && |a.es| == 2 && Shows(a.es[0], r) && Shows(a.es[1], l)
    case SLet(_, lhs, r, l) => a.Let? && ShowsAll(a.lhs, lhs) && Shows(a.rhs, r) && Shows(a.body, l)
    case SLambda(_, alts) => a.Node? && ShowsAlts(a.es, alts)
    case SThrow(e) => a.Node? && |a.es| == 1 && Shows(a.es[0], e)
    case STry(_, _, _, _, t, c) => a.Node? && |a.es| == 2 && Shows(a.es[0], t) && Shows(a.es[1], c)
  }

  predicate ShowsAll(es: seq<I.Ast>, fs: seq<Ast>)
    decreases fs
  {
    |es| == |fs| && (fs != [] ==> Shows(es[0], fs[0]) && ShowsAll(es[1..], fs[1..]))
  }

  /** Guards have no meaning later on. */
  predicate ShowsAlts(ms: seq<I.Ast>, alts: seq<SAlt>)
    decreases alts
  {
    |ms| == |alts| &&
    (alts != [] ==> ms[0].Match? && ShowsAll(ms[0].mm, alts[0].pats) && Shows(ms[0].e, alts[0].body) && ShowsAlts(ms[1..], alts[1..]))
  }

  // Made-up names

  /** The names of do variables. */
  function Dos(b: Ast): multiset<Name>
    decreases b
  {
    match b
    case SConst(_) => multiset{}
    case SVar(_) => multiset{}
    case SApp(es) => DosAll(es)
    case SBlock(_, alts) => DosOf(alts)
    case STag(_, _) => multiset{}
    case SWild(_) => multiset{}
    case SIf(_, _, i, t, e) => Dos(i) + Dos(t) + Dos(e)
    case STuple(es) => DosAll(es)
    case SList(es, tl) => DosAll(es) + (if tl == [] then multiset{} else Dos(tl[0]))
    case SDo(_, x, e) => multiset{x} + Dos(e)
    case SSeq(_, _, r, l) => Dos(r) + Dos(l)
    case SLet(_, _, r, l) => Dos(r) + Dos(l)
    case SLambda(_, alts) => DosOf(alts)
    case SThrow(e) => Dos(e)
    case STry(_, _, _, _, t, c) => Dos(t) + Dos(c)
  }

  function DosAll(es: seq<Ast>): multiset<Name>
    decreases es
  {
    if es == [] then multiset{} else Dos(es[0]) + DosAll(es[1..])
  }

  function DosOf(alts: seq<SAlt>): multiset<Name>
    decreases alts
  {
    if alts == [] then multiset{} else Dos(alts[0].body) + DosOf(alts[1..])
  }

  /** All wildcards have names of W. */
  predicate WildIn(b: Ast, W: set<Name>)
    decreases b
  {
    match b
    case SConst(_) => true
    case SVar(_) => true
    case SApp(es) => WildInAll(es, W)
    case SBlock(_, alts) => WildInOf(alts, W)
    case STag(p, _) => WildIn(p, W)
    case SWild(w) => w in W
    case SIf(_, w, i, t, e) => w in W && WildIn(i, W) && WildIn(t, W) && WildIn(e, W)
    case STuple(es) => WildInAll(es, W)
    case SList(es, tl) => WildInAll(es, W) && WildInAll(tl, W)
    case SDo(_, _, e) => WildIn(e, W)
    case SSeq(_, w, r, l) => w in W && WildIn(r, W) && WildIn(l, W)
    case SLet(_, lhs, r, l) => WildInAll(lhs, W) && WildIn(r, W) && WildIn(l, W)
    case SLambda(_, alts) => WildInOf(alts, W)
    case SThrow(e) => WildIn(e, W)
    case STry(_, w, _, w1, t, c) => w in W && w1 in W && WildIn(t, W) && WildIn(c, W)
  }

  predicate WildInAll(es: seq<Ast>, W: set<Name>)
    decreases es
  {
    es == [] || (WildIn(es[0], W) && WildInAll(es[1..], W))
  }

  predicate WildInOf(alts: seq<SAlt>, W: set<Name>)
    decreases alts
  {
    alts == [] || (WildInAll(alts[0].pats, W) && WildIn(alts[0].body, W) && WildInOf(alts[1..], W))
  }

  // Patterns

  lemma JoinedNames(p: Pattern, ps: seq<Pattern>, W: set<Name>)
    ensures PatNames(Joined(p, ps), W) == PatNames(p, W) + PatsNames(ps, W)
    ensures PatVars(Joined(p, ps)) == PatVars(p) + PatsVars(ps)
  {
    if ps == [] {
      assert PatNames(p, W) + multiset{} == PatNames(p, W);
    } else if p.PApp? {
      PatsNamesJoin(p.ps, ps, W);
    } else {
      PatsNamesJoin([p], ps, W);
      OnePat(p, W);
    }
  }

  lemma {:induction false} PatsNamesJoin(ps: seq<Pattern>, qs: seq<Pattern>, W: set<Name>)
    ensures PatsNames(ps + qs, W) == PatsNames(ps, W) + PatsNames(qs, W)
    ensures PatsVars(ps + qs) == PatsVars(ps) + PatsVars(qs)
    decreases |ps|
  {
    hide PatNames, PatVars;
    if ps == [] {
      assert ps + qs == qs;
      assert multiset{} + PatsNames(qs, W) == PatsNames(qs, W);
    } else {
      PatsNamesJoin(ps[1..], qs, W);
      assert (ps + qs)[1..] == ps[1..] + qs;
    }
  }

  /** What a pattern binds: its variables are among the binders of the tree, and bind in the environment. */
  ghost predicate Binds(m: multiset<Name>, vs: set<Name>, bs: seq<Name>, env: seq<Name>, env1: seq<Name>) {
    m <= multiset(bs) && forall x :: x in env1 ==> x in env || x in vs
  }

  lemma BindsNone(env: seq<Name>)
    ensures forall bs: seq<Name> :: Binds(multiset{}, {}, bs, env, env)
  {
  }

  lemma BindsJoin(m: multiset<Name>, vs: set<Name>, bs: seq<Name>, env: seq<Name>, env1: seq<Name>, m1: multiset<Name>, vs1: set<Name>, bs1: seq<Name>, env2: seq<Name>)
    requires Binds(m, vs, bs, env, env1) && Binds(m1, vs1, bs1, env1, env2)
    ensures Binds(m + m1, vs + vs1, bs + bs1, env, env2)
  {
    assert multiset(bs + bs1) == multiset(bs) + multiset(bs1);
  }

  lemma {:induction false} PatBinds(a: I.Ast, b: Ast, env: seq<Name>, mark: nat, W: set<Name>)
    requires Shows(a, b) && ProperPat(b) && WildIn(b, W) && I.PatForm(a, env, mark, I.Themselves).Pat?
    ensures Binds(PatNames(DPat(b), W), PatVars(DPat(b)), I.Binders(a, true), env, I.PatForm(a, env, mark, I.Themselves).env)
    decreases b, 2
  {
    hide Binds, Joined, PatsNames, PatsVars, DListPat, PTail, DPats;
    BindsNone(env);
    match b
    case SConst(_) =>
    case SVar(x) => VarBinds(x, env, W);
    case SWild(w) => WildBinds(w, env, W);
    case STag(p, _) =>
      PatBinds(a.e, p, env, mark, W);
      TagBinders(a);
    case SApp(es) =>
      PatBindsAll(a.es, es, env, mark, W);
      AppBinds(es, W);
    case STuple(es) =>
      PatBindsAll(a.es, es, env, mark, W);
      JoinedNames(PConst(CombAtom(SYMBOL_TUPLE)), DPats(es), W);
      assert multiset{} + PatsNames(DPats(es), W) == PatsNames(DPats(es), W);
      assert {} + PatsVars(DPats(es)) == PatsVars(DPats(es));
    case SList(es, tl) => ListBinds(a, b, env, mark, W);
  }

  lemma VarBinds(x: Name, env: seq<Name>, W: set<Name>)
    ensures Binds(One(x, W), {x}, [x], env, env + [x])
  {
  }

  lemma WildBinds(w: Name, env: seq<Name>, W: set<Name>)
    requires w in W
    ensures forall bs: seq<Name> :: Binds(One(w, W), {w}, bs, env, env)
  {
  }

  lemma TagBinders(a: I.Ast)
    requires a.Tag? && a.t.Comb?
    ensures I.Binders(a, true) == I.Binders(a.e, true)
  {
  }

  lemma AppBinds(es: seq<Ast>, W: set<Name>)
    requires es != []
    ensures PatNames(DPat(SApp(es)), W) == PatsNames(DPats(es), W) && PatVars(DPat(SApp(es))) == PatsVars(DPats(es))
  {
    JoinedNames(DPat(es[0]), DPats(es[1..]), W);
  }

  lemma {:induction false} PatBindsAll(es: seq<I.Ast>, fs: seq<Ast>, env: seq<Name>, mark: nat, W: set<Name>)
    requires ShowsAll(es, fs) && ProperPats(fs) && WildInAll(fs, W) && I.PatForms(es, env, mark, I.Themselves).Pats?
    ensures Binds(PatsNames(DPats(fs), W), PatsVars(DPats(fs)), I.AllBinders(es, true), env, I.PatForms(es, env, mark, I.Themselves).env)
    decreases fs, 1
  {
    hide Binds, Shows, ProperPat, WildIn, DPat, PatNames, PatVars;
    BindsNone(env);
    if fs != [] {
      var env1 := I.PatForm(es[0], env, mark, I.Themselves).env;
      PatBinds(es[0], fs[0], env, mark, W);
      PatBindsAll(es[1..], fs[1..], env1, mark, W);
      BindsJoin(PatNames(DPat(fs[0]), W), PatVars(DPat(fs[0])), I.Binders(es[0], true), env, env1,
                PatsNames(DPats(fs[1..]), W), PatsVars(DPats(fs[1..])), I.AllBinders(es[1..], true), I.PatForms(es[1..], env1, mark, I.Themselves).env);
    }
  }

  lemma {:induction false} PatFormsSplit(es: seq<I.Ast>, i: nat, env: seq<Name>, mark: nat)
    requires i <= |es| && I.PatForms(es, env, mark, I.Themselves).Pats?
    ensures I.PatForms(es[..i], env, mark, I.Themselves).Pats?
    ensures var env1 := I.PatForms(es[..i], env, mark, I.Themselves).env;
            && I.PatForms(es[i..], env1, mark, I.Themselves).Pats?
            && I.PatForms(es[i..], env1, mark, I.Themselves).env == I.PatForms(es, env, mark, I.Themselves).env
    ensures forall p :: I.AllBinders(es, p) == I.AllBinders(es[..i], p) + I.AllBinders(es[i..], p)
    decreases i
  {
    hide I.PatForm, I.Binders;
    if i == 0 {
      assert es[0..] == es;
    } else {
      PatFormsSplit(es[1..], i - 1, I.PatForm(es[0], env, mark, I.Themselves).env, mark);
      assert es[..i][1..] == es[1..][..i - 1] && es[1..][i - 1..] == es[i..];
    }
  }

  lemma {:induction false} ListBinds(a: I.Ast, b: Ast, env: seq<Name>, mark: nat, W: set<Name>)
    requires b.SList? && Shows(a, b) && ProperPat(b) && WildIn(b, W) && I.PatForm(a, env, mark, I.Themselves).Pat?
    ensures Binds(PatNames(DPat(b), W), PatVars(DPat(b)), I.Binders(a, true), env, I.PatForm(a, env, mark, I.Themselves).env)
    decreases b, 1
  {
    hide Binds, PatNames, PatVars, DListPat, DPats, ShowsAll, ProperPats, I.PatForms, I.AllBinders;
    var n := |b.es|;
    PatFormsSplit(a.es, n, env, mark);
    var env1 := I.PatForms(a.es[..n], env, mark, I.Themselves).env;
    PatBindsAll(a.es[..n], b.es, env, mark, W);
    PatBindsAll(a.es[n..], b.tl, env1, mark, W);
    BindsJoin(PatsNames(DPats(b.es), W), PatsVars(DPats(b.es)), I.AllBinders(a.es[..n], true), env, env1,
              PatsNames(DPats(b.tl), W), PatsVars(DPats(b.tl)), I.AllBinders(a.es[n..], true), I.PatForms(a.es[n..], env1, mark, I.Themselves).env);
    ListNames(b.es, PTail(b.tl), W);
    TailNames(b.tl, W);
    ListPattern(a, b);
  }

  lemma ListPattern(a: I.Ast, b: Ast)
    requires b.SList? && a.Node?
    ensures DPat(b) == DListPat(b.es, PTail(b.tl)) && I.Binders(a, true) == I.AllBinders(a.es, true)
  {
  }

  lemma TailNames(tl: seq<Ast>, W: set<Name>)
    requires |tl| <= 1
    ensures PatNames(PTail(tl), W) == PatsNames(DPats(tl), W) && PatVars(PTail(tl)) == PatsVars(DPats(tl))
  {
    if tl != [] {
      assert tl[1..] == [];
      OnePat(DPat(tl[0]), W);
      assert DPats(tl) == [DPat(tl[0])];
    }
  }

  lemma {:induction false} ListNames(es: seq<Ast>, l: Pattern, W: set<Name>)
    ensures PatNames(DListPat(es, l), W) == PatsNames(DPats(es), W) + PatNames(l, W)
    ensures PatVars(DListPat(es, l)) == PatsVars(DPats(es)) + PatVars(l)
    decreases |es|
  {
    if es == [] {
      assert multiset{} + PatNames(l, W) == PatNames(l, W);
    } else {
      ListNames(es[1..], l, W);
      ThreeNames(PConst(CombAtom(SYMBOL_CONS)), DPat(es[0]), DListPat(es[1..], l), W);
    }
  }

  lemma ThreeNames(p: Pattern, q: Pattern, r: Pattern, W: set<Name>)
    requires p.PConst?
    ensures PatNames(PApp([p, q, r]), W) == PatNames(q, W) + PatNames(r, W)
    ensures PatVars(PApp([p, q, r])) == PatVars(q) + PatVars(r)
  {
    hide PatNames, PatVars, PatsNames, PatsVars;
    var ps := [p, q, r];
    assert ps[1..] == [q, r] && [q, r][1..] == [r];
    OnePat(r, W);
    FirstPat(ps, W);
    FirstPat([q, r], W);
    ConstNames(p, W);
    AppNames(ps, W);
    assert multiset{} + (PatNames(q, W) + PatNames(r, W)) == PatNames(q, W) + PatNames(r, W);
    assert {} + (PatVars(q) + PatVars(r)) == PatVars(q) + PatVars(r);
  }

  lemma FirstPat(ps: seq<Pattern>, W: set<Name>)
    requires ps != []
    ensures PatsNames(ps, W) == PatNames(ps[0], W) + PatsNames(ps[1..], W) && PatsVars(ps) == PatVars(ps[0]) + PatsVars(ps[1..])
  {
  }

  lemma ConstNames(p: Pattern, W: set<Name>)
    requires p.PConst?
    ensures PatNames(p, W) == multiset{} && PatVars(p) == {}
  {
  }

  lemma AppNames(ps: seq<Pattern>, W: set<Name>)
    ensures PatNames(PApp(ps), W) == PatsNames(ps, W) && PatVars(PApp(ps)) == PatsVars(ps)
  {
  }

  // Expressions

  /** Every use is bound inside. */
  predicate ClosedForm(f: I.Form)
    decreases f
  {
    match f
    case FUse(ix) => ix.Bound?
    case FNode(_, fs) => ClosedForms(fs)
    case FMatch(_, _, e) => ClosedForm(e)
    case FLet(_, r, b) => ClosedForm(r) && ClosedForm(b)
    case _ => true
  }

  predicate ClosedForms(fs: seq<I.Form>)
    decreases fs
  {
    fs == [] || (ClosedForm(fs[0]) && ClosedForms(fs[1..]))
  }

  /** The names of a term against the tree it comes from: its counted binders are binders of the tree or do variables, its
      free variables are in the environment, and any other variable is bound. */
  ghost predicate Named(m: multiset<Name>, ds: multiset<Name>, fs: set<Name>, vs: set<Name>, bs: seq<Name>, env: seq<Name>) {
    && m <= multiset(bs) + ds
    && (forall x :: x in fs ==> x in env)
    && (forall x :: x in vs ==> x in env || x in bs || x in ds)
  }

  ghost predicate NamedBy(a: I.Ast, b: Ast, env: seq<Name>, W: set<Name>) {
    Named(SNames(b, W), Dos(b), SFree(b), SVars(b), I.Binders(a, false), env)
  }

  ghost predicate Accepted(a: I.Ast, env: seq<Name>) {
    I.UseForm(a, env, I.Themselves).Use? && ClosedForm(I.UseForm(a, env, I.Themselves).f)
  }

  ghost predicate AcceptedAll(es: seq<I.Ast>, env: seq<Name>) {
    I.UseForms(es, env, I.Themselves).Uses? && ClosedForms(I.UseForms(es, env, I.Themselves).fs)
  }

  lemma NamedNone(env: seq<Name>)
    ensures forall bs: seq<Name> :: Named(multiset{}, multiset{}, {}, {}, bs, env)
  {
  }

  lemma NamedJoin(m: multiset<Name>, ds: multiset<Name>, fs: set<Name>, vs: set<Name>, bs: seq<Name>, m1: multiset<Name>, ds1: multiset<Name>, fs1: set<Name>, vs1: set<Name>, bs1: seq<Name>, env: seq<Name>)
    requires Named(m, ds, fs, vs, bs, env) && Named(m1, ds1, fs1, vs1, bs1, env)
    ensures Named(m + m1, ds + ds1, fs + fs1, vs + vs1, bs + bs1, env)
  {
    assert multiset(bs + bs1) == multiset(bs) + multiset(bs1);
    forall x
      ensures (m + m1)[x] <= (multiset(bs + bs1) + (ds + ds1))[x]
    {
      assert m[x] <= (multiset(bs) + ds)[x] && m1[x] <= (multiset(bs1) + ds1)[x];
    }
  }

  /** A pattern binds in the environment of what follows it. */
  lemma NamedUnder(pm: multiset<Name>, pvs: set<Name>, pbs: seq<Name>, env: seq<Name>, env1: seq<Name>, m: multiset<Name>, ds: multiset<Name>, fs: set<Name>, vs: set<Name>, bs: seq<Name>)
    requires Binds(pm, pvs, pbs, env, env1) && Named(m, ds, fs, vs, bs, env1) && forall x :: x in env1 ==> x in env || x in pbs
    ensures Named(pm + m, ds, fs - pvs, vs, pbs + bs, env)
  {
    assert multiset(pbs + bs) == multiset(pbs) + multiset(bs);
    forall x
      ensures (pm + m)[x] <= (multiset(pbs + bs) + ds)[x]
    {
      assert pm[x] <= multiset(pbs)[x] && m[x] <= (multiset(bs) + ds)[x];
    }
  }

  /** What is bound after patterns was bound before, or is one of their binders. */
  lemma {:induction false} BoundAfter(p: I.Ast, env: seq<Name>, mark: nat, x: Name)
    requires I.PatForm(p, env, mark, I.Themselves).Pat? && x in I.PatForm(p, env, mark, I.Themselves).env
    ensures x in env || x in I.Binders(p, true)
    decreases p, 1
  {
    match p
    case Var(_) =>
    case Comb(_) =>
    case Literal(_) =>
    case Node(_, es) => BoundAfterAll(es, env, mark, x);
    case Tag(e, t) => BoundAfter(e, env, mark, x);
  }

  lemma {:induction false} BoundAfterAll(es: seq<I.Ast>, env: seq<Name>, mark: nat, x: Name)
    requires I.PatForms(es, env, mark, I.Themselves).Pats? && x in I.PatForms(es, env, mark, I.Themselves).env
    ensures x in env || x in I.AllBinders(es, true)
    decreases es, 0
  {
    hide I.PatForm, I.Binders;
    if es != [] {
      var env1 := I.PatForm(es[0], env, mark, I.Themselves).env;
      BoundAfterAll(es[1..], env1, mark, x);
      if x in env1 {
        BoundAfter(es[0], env, mark, x);
      }
    }
  }

  lemma {:induction false} Resolved(a: I.Ast, b: Ast, env: seq<Name>, W: set<Name>)
    requires Shows(a, b) && Proper(b) && WildIn(b, W) && Accepted(a, env)
    ensures NamedBy(a, b, env, W)
    decreases b, 2
  {
    hide Named, I.UseForms, I.AllBinders, ShowsAll, ShowsAlts, ProperAll, ProperOf, WildInAll, WildInOf, SNamesAll, SNamesOf, SVarsAll, SVarsOf, SFreeAll, SFreeOf, DosAll, DosOf, DPats, PatsNames, PatsVars;
    NamedNone(env);
    match b
    case SConst(_) =>
    case SVar(x) => VarNamed(x, env);
    case SApp(es) => ResolvedAll(a.es, es, env, W);
    case SBlock(_, alts) => ResolvedAlts(a.es, alts, env, W);
    case SIf(_, _, _, _, _) => IfResolved(a, b, env, W);
    case STuple(es) => ResolvedAll(a.es, es, env, W);
    case SList(_, _) => ListResolved(a, b, env, W);
    case SDo(_, _, _) => DoResolved(a, b, env, W);
    case SSeq(_, _, _, _) => SeqResolved(a, b, env, W);
    case SLet(_, _, _, _) => LetResolved(a, b, env, W);
    case SLambda(_, alts) => ResolvedAlts(a.es, alts, env, W);
    case SThrow(e) =>
      Only(a.es, env);
      Resolved(a.es[0], e, env, W);
    case STry(_, _, _, _, _, _) => TryResolved(a, b, env, W);
  }

  lemma VarNamed(x: Name, env: seq<Name>)
    requires Accepted(I.Var(x), env)
    ensures Named(multiset{}, multiset{}, {x}, {x}, [], env)
  {
  }

  lemma FirstUse(es: seq<I.Ast>, env: seq<Name>)
    requires AcceptedAll(es, env) && es != []
    ensures Accepted(es[0], env) && AcceptedAll(es[1..], env)
    ensures I.AllBinders(es, false) == I.Binders(es[0], false) + I.AllBinders(es[1..], false)
  {
    hide I.UseForm, I.Binders, ClosedForm;
    var u, v := I.UseForm(es[0], env, I.Themselves), I.UseForms(es[1..], env, I.Themselves);
    assert ([u.f] + v.fs)[1..] == v.fs;
  }

  lemma Only(es: seq<I.Ast>, env: seq<Name>)
    requires AcceptedAll(es, env) && |es| == 1
    ensures Accepted(es[0], env) && I.AllBinders(es, false) == I.Binders(es[0], false)
  {
    hide I.UseForm, I.UseForms, I.Binders, ClosedForm, ClosedForms;
    FirstUse(es, env);
    NoBinders();
    assert es[1..] == [];
  }

  lemma NoBinders()
    ensures I.AllBinders([], false) == []
  {
  }

  lemma Both(es: seq<I.Ast>, env: seq<Name>)
    requires AcceptedAll(es, env) && |es| == 2
    ensures Accepted(es[0], env) && Accepted(es[1], env)
    ensures I.AllBinders(es, false) == I.Binders(es[0], false) + I.Binders(es[1], false)
  {
    hide Accepted, AcceptedAll, I.Binders, I.AllBinders;
    FirstUse(es, env);
    Only(es[1..], env);
  }

  lemma {:induction false} ResolvedAll(es: seq<I.Ast>, fs: seq<Ast>, env: seq<Name>, W: set<Name>)
    requires ShowsAll(es, fs) && ProperAll(fs) && WildInAll(fs, W) && AcceptedAll(es, env)
    ensures Named(SNamesAll(fs, W), DosAll(fs), SFreeAll(fs), SVarsAll(fs), I.AllBinders(es, false), env)
    decreases fs, 2
  {
    hide Named, Shows, Proper, WildIn, SNames, Dos, SFree, SVars, Accepted, AcceptedAll, I.AllBinders;
    NamedNone(env);
    if fs != [] {
      FirstUse(es, env);
      Resolved(es[0], fs[0], env, W);
      ResolvedAll(es[1..], fs[1..], env, W);
      NamedJoin(SNames(fs[0], W), Dos(fs[0]), SFree(fs[0]), SVars(fs[0]), I.Binders(es[0], false),
                SNamesAll(fs[1..], W), DosAll(fs[1..]), SFreeAll(fs[1..]), SVarsAll(fs[1..]), I.AllBinders(es[1..], false), env);
    }
  }

  lemma MatchUse(m: I.Ast, env: seq<Name>)
    requires m.Match? && Accepted(m, env)
    ensures var ps := I.PatForms(m.mm, env, |env|, I.Themselves);
            ps.Pats? && Accepted(m.e, ps.env)
    ensures I.Binders(m, false) == I.AllBinders(m.mm, true) + I.Binders(m.g, false) + I.Binders(m.e, false)
  {
    hide I.PatForms, I.AllBinders;
  }

  lemma {:induction false} ResolvedAlts(ms: seq<I.Ast>, alts: seq<SAlt>, env: seq<Name>, W: set<Name>)
    requires ShowsAlts(ms, alts) && ProperOf(alts) && WildInOf(alts, W) && AcceptedAll(ms, env)
    ensures Named(SNamesOf(alts, W), DosOf(alts), SFreeOf(alts), SVarsOf(alts), I.AllBinders(ms, false), env)
    decreases alts, 2
  {
    hide Named, Shows, Proper, WildIn, SNames, Dos, SFree, SVars, Accepted, AcceptedAll, I.AllBinders, Binds, I.PatForms, DPats, PatsNames, PatsVars, ShowsAll, ProperPats, WildInAll, I.Binders;
    NamedNone(env);
    if alts != [] {
      var m, s := ms[0], alts[0];
      FirstUse(ms, env);
      MatchUse(m, env);
      var env1 := I.PatForms(m.mm, env, |env|, I.Themselves).env;
      PatBindsAll(m.mm, s.pats, env, |env|, W);
      Resolved(m.e, s.body, env1, W);
      ResolvedAlts(ms[1..], alts[1..], env, W);
      AltNamed(m, s, env, env1, W);
      NamedJoin(PatsNames(DPats(s.pats), W) + SNames(s.body, W), Dos(s.body), SFree(s.body) - PatsVars(DPats(s.pats)), SVars(s.body), I.Binders(m, false),
                SNamesOf(alts[1..], W), DosOf(alts[1..]), SFreeOf(alts[1..]), SVarsOf(alts[1..]), I.AllBinders(ms[1..], false), env);
    }
  }

  lemma AltNamed(m: I.Ast, s: SAlt, env: seq<Name>, env1: seq<Name>, W: set<Name>)
    requires m.Match? && I.PatForms(m.mm, env, |env|, I.Themselves).Pats? && env1 == I.PatForms(m.mm, env, |env|, I.Themselves).env
    requires Binds(PatsNames(DPats(s.pats), W), PatsVars(DPats(s.pats)), I.AllBinders(m.mm, true), env, env1) && NamedBy(m.e, s.body, env1, W)
    requires I.Binders(m, false) == I.AllBinders(m.mm, true) + I.Binders(m.g, false) + I.Binders(m.e, false)
    ensures Named(PatsNames(DPats(s.pats), W) + SNames(s.body, W), Dos(s.body), SFree(s.body) - PatsVars(DPats(s.pats)), SVars(s.body), I.Binders(m, false), env)
  {
    hide Named, SNames, Dos, SFree, SVars, Binds, I.PatForms, DPats, PatsNames, PatsVars, I.Binders, I.AllBinders;
    forall x | x in env1
      ensures x in env || x in I.AllBinders(m.mm, true)
    {
      BoundAfterAll(m.mm, env, |env|, x);
    }
    NamedUnder(PatsNames(DPats(s.pats), W), PatsVars(DPats(s.pats)), I.AllBinders(m.mm, true), env, env1, SNames(s.body, W), Dos(s.body), SFree(s.body), SVars(s.body), I.Binders(m.e, false));
    NamedMore(PatsNames(DPats(s.pats), W) + SNames(s.body, W), Dos(s.body), SFree(s.body) - PatsVars(DPats(s.pats)), SVars(s.body), I.AllBinders(m.mm, true), I.Binders(m.g, false), I.Binders(m.e, false), env);
  }

  lemma NamedMore(m: multiset<Name>, ds: multiset<Name>, fs: set<Name>, vs: set<Name>, bs: seq<Name>, gs: seq<Name>, cs: seq<Name>, env: seq<Name>)
    requires Named(m, ds, fs, vs, bs + cs, env)
    ensures Named(m, ds, fs, vs, bs + gs + cs, env)
  {
    assert multiset(bs + cs) == multiset(bs) + multiset(cs);
    assert multiset(bs + gs + cs) == multiset(bs) + multiset(gs) + multiset(cs);
  }

  lemma NamedLess(m: multiset<Name>, ds: multiset<Name>, fs: set<Name>, vs: set<Name>, bs: seq<Name>, env: seq<Name>, m1: multiset<Name>, ds1: multiset<Name>, fs1: set<Name>, vs1: set<Name>, bs1: seq<Name>)
    requires Named(m, ds, fs, vs, bs, env) && m1 == m && ds1 == ds && fs1 <= fs && vs1 <= vs && multiset(bs1) == multiset(bs)
    ensures Named(m1, ds1, fs1, vs1, bs1, env)
  {
    forall x | x in bs
      ensures x in bs1
    {
      assert x in multiset(bs);
      assert x in multiset(bs1);
    }
  }

  lemma Wilds(w: Name, W: set<Name>)
    requires w in W
    ensures One(w, W) == multiset{}
  {
  }

  lemma {:induction false} SeqResolved(a: I.Ast, b: Ast, env: seq<Name>, W: set<Name>)
    requires b.SSeq? && Shows(a, b) && Proper(b) && WildIn(b, W) && Accepted(a, env)
    ensures NamedBy(a, b, env, W)
    decreases b, 1
  {
    hide Named, SNames, Dos, SFree, SVars, I.UseForms, I.AllBinders, I.Binders;
    var r, l := b.r, b.l;
    Kids(a, env);
    Both(a.es, env);
    Resolved(a.es[0], r, env, W);
    Resolved(a.es[1], l, env, W);
    NamedJoin(SNames(r, W), Dos(r), SFree(r), SVars(r), I.Binders(a.es[0], false), SNames(l, W), Dos(l), SFree(l), SVars(l), I.Binders(a.es[1], false), env);
    Wilds(b.w, W);
    SeqOwn(b, W);
    var bs := I.Binders(a.es[0], false) + I.Binders(a.es[1], false);
    NamedLess(SNames(r, W) + SNames(l, W), Dos(r) + Dos(l), SFree(r) + SFree(l), SVars(r) + SVars(l), bs, env, SNames(b, W), Dos(b), SFree(b), SVars(b), bs);
  }

  lemma Kids(a: I.Ast, env: seq<Name>)
    requires a.Node? && Accepted(a, env)
    ensures AcceptedAll(a.es, env) && I.Binders(a, false) == I.AllBinders(a.es, false)
  {
    hide I.UseForms, I.AllBinders, ClosedForms;
  }

  lemma SeqOwn(b: Ast, W: set<Name>)
    requires b.SSeq? && One(b.w, W) == multiset{}
    ensures SNames(b, W) == SNames(b.r, W) + SNames(b.l, W) && Dos(b) == Dos(b.r) + Dos(b.l)
    ensures SVars(b) == SVars(b.r) + SVars(b.l) && SFree(b) <= SFree(b.r) + SFree(b.l)
  {
    assert multiset{} + SNames(b.r, W) == SNames(b.r, W);
  }

  lemma {:induction false} TryResolved(a: I.Ast, b: Ast, env: seq<Name>, W: set<Name>)
    requires b.STry? && Shows(a, b) && Proper(b) && WildIn(b, W) && Accepted(a, env)
    ensures NamedBy(a, b, env, W)
    decreases b, 1
  {
    hide Named, SNames, Dos, SFree, SVars, I.UseForms, I.AllBinders, I.Binders;
    var r, l := b.t, b.c;
    Kids(a, env);
    Both(a.es, env);
    Resolved(a.es[0], r, env, W);
    Resolved(a.es[1], l, env, W);
    NamedJoin(SNames(r, W), Dos(r), SFree(r), SVars(r), I.Binders(a.es[0], false), SNames(l, W), Dos(l), SFree(l), SVars(l), I.Binders(a.es[1], false), env);
    Wilds(b.w, W);
    Wilds(b.w1, W);
    TryOwn(b, W);
    var bs := I.Binders(a.es[0], false) + I.Binders(a.es[1], false);
    NamedLess(SNames(r, W) + SNames(l, W), Dos(r) + Dos(l), SFree(r) + SFree(l), SVars(r) + SVars(l), bs, env, SNames(b, W), Dos(b), SFree(b), SVars(b), bs);
  }

  lemma TryOwn(b: Ast, W: set<Name>)
    requires b.STry? && One(b.w, W) == multiset{} && One(b.w1, W) == multiset{}
    ensures SNames(b, W) == SNames(b.t, W) + SNames(b.c, W) && Dos(b) == Dos(b.t) + Dos(b.c)
    ensures SVars(b) == SVars(b.t) + SVars(b.c) && SFree(b) <= SFree(b.t) + SFree(b.c)
  {
    assert multiset{} + multiset{} + SNames(b.t, W) == SNames(b.t, W);
  }

  lemma {:induction false} IfResolved(a: I.Ast, b: Ast, env: seq<Name>, W: set<Name>)
    requires b.SIf? && Shows(a, b) && Proper(b) && WildIn(b, W) && Accepted(a, env)
    ensures NamedBy(a, b, env, W)
    decreases b, 1
  {
    hide Named, SNames, Dos, SFree, SVars, I.UseForms, I.AllBinders, I.Binders, Accepted, AcceptedAll;
    var i, t, e := b.i, b.t, b.e;
    Kids(a, env);
    FirstUse(a.es, env);
    var rest := a.es[1..];
    Both(rest, env);
    Resolved(a.es[0], i, env, W);
    Resolved(rest[0], t, env, W);
    Resolved(rest[1], e, env, W);
    NamedJoin(SNames(t, W), Dos(t), SFree(t), SVars(t), I.Binders(rest[0], false), SNames(e, W), Dos(e), SFree(e), SVars(e), I.Binders(rest[1], false), env);
    var bs := I.Binders(rest[0], false) + I.Binders(rest[1], false);
    NamedJoin(SNames(i, W), Dos(i), SFree(i), SVars(i), I.Binders(a.es[0], false), SNames(t, W) + SNames(e, W), Dos(t) + Dos(e), SFree(t) + SFree(e), SVars(t) + SVars(e), bs, env);
    Wilds(b.w, W);
    IfOwn(b, W);
    NamedLess(SNames(i, W) + (SNames(t, W) + SNames(e, W)), Dos(i) + (Dos(t) + Dos(e)), SFree(i) + (SFree(t) + SFree(e)), SVars(i) + (SVars(t) + SVars(e)),
              I.Binders(a.es[0], false) + bs, env, SNames(b, W), Dos(b), SFree(b), SVars(b), I.Binders(a, false));
  }

  lemma IfOwn(b: Ast, W: set<Name>)
    requires b.SIf? && One(b.w, W) == multiset{}
    ensures SNames(b, W) == SNames(b.i, W) + (SNames(b.t, W) + SNames(b.e, W)) && Dos(b) == Dos(b.i) + (Dos(b.t) + Dos(b.e))
    ensures SVars(b) == SVars(b.i) + (SVars(b.t) + SVars(b.e)) && SFree(b) <= SFree(b.i) + (SFree(b.t) + SFree(b.e))
  {
    IfParts(Known(0, 0, 0), b, W);
    IfDos(b);
    var m, n, o := SNames(b.i, W), SNames(b.t, W), SNames(b.e, W);
    assert multiset{} + m + n + o == m + (n + o);
  }

  lemma IfDos(b: Ast)
    requires b.SIf?
    ensures Dos(b) == Dos(b.i) + (Dos(b.t) + Dos(b.e))
  {
  }

  lemma {:induction false} DoResolved(a: I.Ast, b: Ast, env: seq<Name>, W: set<Name>)
    requires b.SDo? && Shows(a, b) && Proper(b) && WildIn(b, W) && Accepted(a, env)
    ensures NamedBy(a, b, env, W)
    decreases b, 1
  {
    hide Named, SNames, Dos, SFree, SVars, I.UseForms, I.AllBinders, I.Binders;
    Kids(a, env);
    Only(a.es, env);
    Resolved(a.es[0], b.body, env, W);
    var e := b.body;
    DoParts(Known(0, 0, 0), b, W);
    DoDos(b);
    DoNamed(b.x, SNames(e, W), Dos(e), SFree(e), SVars(e), I.Binders(a.es[0], false), env, W);
  }

  lemma DoDos(b: Ast)
    requires b.SDo?
    ensures Dos(b) == multiset{b.x} + Dos(b.body)
  {
  }

  lemma DoNamed(x: Name, m: multiset<Name>, ds: multiset<Name>, fs: set<Name>, vs: set<Name>, bs: seq<Name>, env: seq<Name>, W: set<Name>)
    requires Named(m, ds, fs, vs, bs, env)
    ensures Named(One(x, W) + m, multiset{x} + ds, fs - {x}, {x} + vs, bs, env)
  {
  }

  lemma {:induction false} LetResolved(a: I.Ast, b: Ast, env: seq<Name>, W: set<Name>)
    requires b.SLet? && Shows(a, b) && Proper(b) && WildIn(b, W) && Accepted(a, env)
    ensures NamedBy(a, b, env, W)
    decreases b, 1
  {
    hide Named, SNames, Dos, SFree, SVars, I.PatForms, I.AllBinders, I.Binders, Accepted, DPats, PatsNames, PatsVars, Binds, ShowsAll, ProperPats, WildInAll;
    LetUse(a, env);
    var ps := DPats(b.lhs);
    var env1 := I.PatForms(a.lhs, env, |env|, I.Themselves).env;
    PatBindsAll(a.lhs, b.lhs, env, |env|, W);
    Resolved(a.rhs, b.r, env, W);
    Resolved(a.body, b.l, env1, W);
    forall x | x in env1
      ensures x in env || x in I.AllBinders(a.lhs, true)
    {
      BoundAfterAll(a.lhs, env, |env|, x);
    }
    var pbs, rbs, lbs := I.AllBinders(a.lhs, true), I.Binders(a.rhs, false), I.Binders(a.body, false);
    NamedUnder(PatsNames(ps, W), PatsVars(ps), pbs, env, env1, SNames(b.l, W), Dos(b.l), SFree(b.l), SVars(b.l), lbs);
    NamedJoin(SNames(b.r, W), Dos(b.r), SFree(b.r), SVars(b.r), rbs, PatsNames(ps, W) + SNames(b.l, W), Dos(b.l), SFree(b.l) - PatsVars(ps), SVars(b.l), pbs + lbs, env);
    LetParts(Known(0, 0, 0), b, W);
    LetDos(b);
    var m, n, o := PatsNames(ps, W), SNames(b.r, W), SNames(b.l, W);
    assert m + n + o == n + (m + o);
    assert rbs + (pbs + lbs) == rbs + pbs + lbs;
  }

  lemma LetDos(b: Ast)
    requires b.SLet?
    ensures Dos(b) == Dos(b.r) + Dos(b.l)
  {
  }

  lemma LetUse(a: I.Ast, env: seq<Name>)
    requires a.Let? && Accepted(a, env)
    ensures var ps := I.PatForms(a.lhs, env, |env|, I.Themselves);
            ps.Pats? && Accepted(a.rhs, env) && Accepted(a.body, ps.env)
    ensures I.Binders(a, false) == I.Binders(a.rhs, false) + I.AllBinders(a.lhs, true) + I.Binders(a.body, false)
  {
    hide I.PatForms, I.AllBinders;
  }

  lemma {:induction false} SplitUse(es: seq<I.Ast>, i: nat, env: seq<Name>)
    requires AcceptedAll(es, env) && i <= |es|
    ensures AcceptedAll(es[..i], env) && AcceptedAll(es[i..], env)
    ensures I.AllBinders(es, false) == I.AllBinders(es[..i], false) + I.AllBinders(es[i..], false)
    decreases i
  {
    hide I.UseForm, I.Binders, ClosedForm, Accepted;
    if i == 0 {
      assert es[0..] == es && es[..0] == [];
    } else {
      FirstUse(es, env);
      SplitUse(es[1..], i - 1, env);
      assert es[..i] == [es[0]] + es[1..][..i - 1] && es[1..][i - 1..] == es[i..];
      ConsUse(es[0], es[1..][..i - 1], env);
    }
  }

  lemma ConsUse(e: I.Ast, es: seq<I.Ast>, env: seq<Name>)
    requires Accepted(e, env) && AcceptedAll(es, env)
    ensures AcceptedAll([e] + es, env) && I.AllBinders([e] + es, false) == I.Binders(e, false) + I.AllBinders(es, false)
  {
    hide I.UseForm, I.Binders, ClosedForm;
    assert ([e] + es)[1..] == es;
    var u, v := I.UseForm(e, env, I.Themselves), I.UseForms(es, env, I.Themselves);
    assert ([u.f] + v.fs)[1..] == v.fs;
  }

  lemma {:induction false} ListResolved(a: I.Ast, b: Ast, env: seq<Name>, W: set<Name>)
    requires b.SList? && Shows(a, b) && Proper(b) && WildIn(b, W) && Accepted(a, env)
    ensures NamedBy(a, b, env, W)
    decreases b, 1
  {
    hide Named, SNames, Dos, SFree, SVars, SNamesAll, DosAll, SFreeAll, SVarsAll, I.AllBinders, Accepted, AcceptedAll, ShowsAll, ProperAll, WildInAll;
    Kids(a, env);
    var n := |b.es|;
    SplitUse(a.es, n, env);
    ResolvedAll(a.es[..n], b.es, env, W);
    ResolvedAll(a.es[n..], b.tl, env, W);
    NamedJoin(SNamesAll(b.es, W), DosAll(b.es), SFreeAll(b.es), SVarsAll(b.es), I.AllBinders(a.es[..n], false),
              SNamesAll(b.tl, W), DosAll(b.tl), SFreeAll(b.tl), SVarsAll(b.tl), I.AllBinders(a.es[n..], false), env);
    ListOwn(b, W);
  }

  lemma ListOwn(b: Ast, W: set<Name>)
    requires b.SList? && |b.tl| <= 1
    ensures SNames(b, W) == SNamesAll(b.es, W) + SNamesAll(b.tl, W) && Dos(b) == DosAll(b.es) + DosAll(b.tl)
    ensures SVars(b) == SVarsAll(b.es) + SVarsAll(b.tl) && SFree(b) == SFreeAll(b.es) + SFreeAll(b.tl)
  {
    if b.tl != [] {
      assert b.tl[1..] == [];
      assert SNamesAll(b.tl, W) == SNames(b.tl[0], W) + multiset{};
      assert DosAll(b.tl) == Dos(b.tl[0]) + multiset{};
    }
  }

  // Units

  /** The names that the passes make up are neither those of resolution nor like R_0, and those of do variables are given once. */
  ghost predicate MadeUp(b: Ast, W: set<Name>) {
    && WildIn(b, W) && Once(Dos(b))
    && (forall n: nat :: I.FreshName(n) !in W && I.FreshName(n) !in Dos(b))
    && (forall x :: x in W || x in Dos(b) ==> x != [] && x[0] != 'R' && !(x in W && x in Dos(b)))
  }

  /** All names are ones that resolution gives. */
  ghost predicate Resolvents(bs: seq<Name>) {
    forall x :: x in bs ==> exists n: nat :: x == I.FreshName(n)
  }

  lemma {:induction false} DistinctOnce(bs: seq<Name>)
    requires Distinct(bs)
    ensures Once(multiset(bs))
    decreases |bs|
  {
    if bs != [] {
      var i := |bs| - 1;
      var cs := bs[..i];
      assert bs == cs + [bs[i]];
      DistinctOnce(cs);
      assert bs[i] !in cs;
      assert multiset(bs) == multiset(cs) + multiset{bs[i]};
    }
  }

  lemma FreshDistinct(c: nat, d: nat)
    requires c <= d
    ensures Distinct(I.FreshNames(c, d)) && Resolvents(I.FreshNames(c, d))
  {
    var names := I.FreshNames(c, d);
    forall i, j | 0 <= i < j < |names|
      ensures names[i] != names[j]
    {
      if names[i] == names[j] {
        I.FreshDiffer(c + i, c + j);
      }
    }
  }

  /** A resolved expression without a variable declared elsewhere is well named, whatever names the passes make up. */
  lemma ResolvedWell(a: I.Ast, b: Ast, W: set<Name>)
    requires Shows(a, b) && Proper(b) && MadeUp(b, W) && Accepted(a, [])
    requires Once(multiset(I.Binders(a, false))) && Resolvents(I.Binders(a, false))
    ensures WellNamed(b, W)
  {
    hide Shows, Proper, WildIn, Accepted, SNames, SFree, SVars, Dos, I.FreshName, I.Binders, Once, Named;
    Resolved(a, b, [], W);
    WellFrom(SNames(b, W), Dos(b), SFree(b), SVars(b), I.Binders(a, false), b, W);
  }

  lemma WellFrom(m: multiset<Name>, ds: multiset<Name>, fs: set<Name>, vs: set<Name>, bs: seq<Name>, b: Ast, W: set<Name>)
    requires Named(m, ds, fs, vs, bs, []) && MadeUp(b, W) && ds == Dos(b) && Once(multiset(bs)) && Resolvents(bs)
    ensures fs == {} && Once(m) && vs !! W && forall x :: x in m || x in W ==> x != [] && x[0] != 'R'
  {
    hide WildIn, Dos, I.FreshName;
    forall x
      ensures m[x] <= 1
    {
      assert m[x] <= (multiset(bs) + ds)[x];
      assert multiset(bs)[x] <= 1 && ds[x] <= 1;
      assert x in multiset(bs) ==> x in bs;
    }
    forall x | x in m || x in W
      ensures x != [] && x[0] != 'R'
    {
      if x in bs {
        var n: nat :| x == I.FreshName(n);
        ResolvedNames(n);
      } else if x in m {
        assert m[x] <= (multiset(bs) + ds)[x];
      }
    }
  }

  lemma UsePart(es: seq<I.Ast>, i: nat)
    requires AcceptedAll(es, []) && i < |es|
    ensures Accepted(es[i], []) && multiset(I.Binders(es[i], false)) <= multiset(I.AllBinders(es, false))
  {
    hide Accepted, AcceptedAll, I.Binders, I.AllBinders;
    SplitUse(es, i, []);
    FirstUse(es[i..], []);
    assert es[i..][0] == es[i];
  }

  lemma OncePart(bs: seq<Name>, cs: seq<Name>)
    requires multiset(cs) <= multiset(bs) && Once(multiset(bs)) && Resolvents(bs)
    ensures Once(multiset(cs)) && Resolvents(cs)
  {
    hide I.FreshName;
    forall x | x in cs
      ensures x in bs
    {
      assert x in multiset(cs);
      assert x in multiset(bs);
    }
  }

  /** A unit, that is the bodies of its definitions, is resolved, and none uses a variable that is not bound in it. Then each
      of them has, as a term of the source, the names that lambda lifting asks for. */
  lemma UnitWell(u: I.Ast, g: I.Scopes, i: nat, b: Ast, W: set<Name>)
    requires u.Node? && I.Proper(u) && I.DeclaredScopes(g)
    requires var r := I.Rewrite(u, I.State(false, g + [map[]], 0));
             r.Ok? && r.a.Node? && i < |r.a.es| && Accepted(r.a, []) && Shows(r.a.es[i], b)
    requires Proper(b) && MadeUp(b, W)
    ensures WellNamed(b, W)
  {
    hide Shows, Proper, MadeUp, Accepted, AcceptedAll, I.Rewrite, I.Binders, I.AllBinders, I.FreshNames, Once, Resolvents, Distinct, WellNamed;
    I.UnitIdentified(u, g);
    var r := I.Rewrite(u, I.State(false, g + [map[]], 0));
    var names := I.FreshNames(0, r.st.counter);
    FreshDistinct(0, r.st.counter);
    DistinctOnce(names);
    Kids(r.a, []);
    UsePart(r.a.es, i);
    OncePart(names, I.Binders(r.a.es[i], false));
    ResolvedWell(r.a.es[i], b, W);
  }
}
