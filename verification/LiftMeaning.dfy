/** Lambda lifting preserves meaning: a closure is related to its combinator applied to its free-variable values. */
module LiftMeaning {
  import opened Terms
  import opened Syntax
  import opened Semantics
  import opened Evaluation
  import opened Closures
  import opened Lifting

  // Values

  /** A closure as a term: the combinator of its block, applied to the values of its free variables. */
  ghost function Tr(sym: nat -> Symbol, v: LVal): Term {
    match v
    case VLeaf(a) => Leaf(a)
    case VClo(env, pos, alts) => Normal(Leaf(CombAtom(sym(pos))), Values(TrEnv(sym, env), Listing(FreeOf(alts))))
    case VNode(vs) =>
      if vs == [] then Node([])
      else if vs[0].VClo? then Node(Parts(Tr(sym, vs[0])) + TrAll(sym, vs[1..]))
      else Node([Tr(sym, vs[0])] + TrAll(sym, vs[1..]))
  }

  ghost function TrAll(sym: nat -> Symbol, vs: seq<LVal>): (ts: seq<Term>)
    ensures |ts| == |vs|
  {
    if vs == [] then [] else [Tr(sym, vs[0])] + TrAll(sym, vs[1..])
  }

  ghost function TrEnv(sym: nat -> Symbol, env: LEnv): Env {
    if env == [] then map[] else TrEnv(sym, env[1..])[env[0].x := Tr(sym, env[0].v)]
  }

  function Parts(t: Term): seq<Term> {
    match t
    case Leaf(_) => [t]
    case Node(ts) => ts
  }

  function Values(env: Env, xs: seq<Name>): (ts: seq<Term>)
    ensures |ts| == |xs|
    ensures forall i :: 0 <= i < |xs| && xs[i] in env ==> ts[i] == env[xs[i]]
  {
    if xs == [] then [] else [if xs[0] in env then env[xs[0]] else NONE] + Values(env, xs[1..])
  }

  ghost function TrRes(sym: nat -> Symbol, r: LRes): Res {
    match r
    case LOut => Out
    case LOk(v) => Val(Tr(sym, v))
    case LExc(vs) => Exc(TrAll(sym, vs))
    case LUndef(s) => Undef(s)
  }

  // Conditions

  /** A pattern sees no difference between closures and the terms they become:
      application patterns have a constant head, and no tag asks for an array. */
  predicate PatOk(ls: set<Symbol>, p: Pattern) {
    match p
    case PConst(a) => !(a.CombAtom? && a.sym in ls)
    case PVar(_) => true
    case PTag(q, s) => PatOk(ls, q) && s != SYMBOL_ARRAY && s !in ls
    case PApp(ps) => ps != [] && ps[0].PConst? && PatsOk(ls, ps)
  }

  predicate PatsOk(ls: set<Symbol>, ps: seq<Pattern>) {
    ps == [] || (PatOk(ls, ps[0]) && PatsOk(ls, ps[1..]))
  }

  /** A lifted program: ls are the symbols of its blocks. */
  datatype World = World(sym: nat -> Symbol, ls: set<Symbol>, lp: LProgram, p: Program)

  /** Every block of the expression is defined in the lifted program, and its constants are symbols of the source. */
  ghost predicate ExprOk(w: World, e: LExpr) {
    match e
    case LConst(a) => !(a.CombAtom? && a.sym in w.ls)
    case LVar(_) => true
    case LApp(es) => |es| >= 2 && ExprsOk(w, es)
    case LBlock(pos, alts) => BlockOk(w, pos, alts) && AltsOk(w, alts)
  }

  ghost predicate ExprsOk(w: World, es: seq<LExpr>) {
    es == [] || (ExprOk(w, es[0]) && ExprsOk(w, es[1..]))
  }

  ghost predicate AltsOk(w: World, alts: seq<LAlt>) {
    alts == [] || (PatsOk(w.ls, alts[0].pats) && ExprOk(w, alts[0].body) && AltsOk(w, alts[1..]))
  }

  ghost predicate BlockOk(w: World, pos: nat, alts: seq<LAlt>) {
    w.sym(pos) in w.ls && w.sym(pos) in w.p && w.p[w.sym(pos)] == CodeDef(CAlts(w.sym, Listing(FreeOf(alts)), alts))
  }

  ghost predicate DefOk(w: World, d: LDef, d1: Def) {
    match d
    case LData => d1 == DataDef
    case LThrow => d1 == ThrowDef
    case LHandle => d1 == HandleDef
    case LCode(alts) => d1 == CodeDef(CAlts(w.sym, [], alts)) && AltsOk(w, alts) && FreeOf(alts) == {}
    case LValue(e) => d1 == CodeDef([Alt([], C(w.sym, e))]) && ExprOk(w, e) && Free(e) == {}
  }

  ghost predicate Lifts(w: World) {
    && w.p.Keys == w.lp.Keys + w.ls && w.lp.Keys !! w.ls && SYMBOL_NONE !in w.ls
    && forall s :: s in w.lp ==> DefOk(w, w.lp[s], w.p[s])
  }

  /** Closures in the value are of blocks of the program, and know their free variables. */
  ghost predicate Good(w: World, v: LVal) {
    match v
    case VLeaf(a) => !(a.CombAtom? && a.sym in w.ls)
    case VNode(vs) => vs != [] && GoodAll(w, vs)
    case VClo(env, pos, alts) => GoodEnv(w, env) && BlockOk(w, pos, alts) && AltsOk(w, alts) && FreeOf(alts) <= TrEnv(w.sym, env).Keys
  }

  ghost predicate GoodAll(w: World, vs: seq<LVal>) {
    vs == [] || (Good(w, vs[0]) && GoodAll(w, vs[1..]))
  }

  ghost predicate GoodEnv(w: World, env: LEnv) {
    env == [] || (Good(w, env[0].v) && GoodEnv(w, env[1..]))
  }

  ghost predicate GoodRes(w: World, r: LRes) {
    match r
    case LOut => true
    case LOk(v) => Good(w, v)
    case LExc(vs) => GoodAll(w, vs)
    case LUndef(_) => true
  }

  /** On the names in s, the environments agree. */
  ghost predicate Agree(w: World, s: set<Name>, env: LEnv, tenv: Env) {
    GoodEnv(w, env) && forall x :: x in s ==> x in TrEnv(w.sym, env) && x in tenv && tenv[x] == TrEnv(w.sym, env)[x]
  }

  // Sequences

  lemma {:induction false} TrAppend(sym: nat -> Symbol, a: seq<LVal>, b: seq<LVal>)
    ensures TrAll(sym, a + b) == TrAll(sym, a) + TrAll(sym, b)
    decreases |a|
  {
    hide Tr;
    if a == [] {
      assert a + b == b;
    } else {
      assert (a + b)[1..] == a[1..] + b;
      TrAppend(sym, a[1..], b);
    }
  }

  lemma {:induction false} GoodAppend(w: World, a: seq<LVal>, b: seq<LVal>)
    ensures GoodAll(w, a + b) <==> GoodAll(w, a) && GoodAll(w, b)
    decreases |a|
  {
    hide Good;
    if a == [] {
      assert a + b == b;
    } else {
      assert (a + b)[1..] == a[1..] + b;
      GoodAppend(w, a[1..], b);
    }
  }

  lemma {:induction false} TrAt(sym: nat -> Symbol, vs: seq<LVal>, i: nat)
    requires i < |vs|
    ensures TrAll(sym, vs)[i] == Tr(sym, vs[i])
    decreases i
  {
    hide Tr;
    if i > 0 {
      TrAt(sym, vs[1..], i - 1);
    }
  }

  lemma {:induction false} GoodAt(w: World, vs: seq<LVal>, i: nat)
    requires i < |vs| && GoodAll(w, vs)
    ensures Good(w, vs[i])
    decreases i
  {
    hide Good;
    if i > 0 {
      GoodAt(w, vs[1..], i - 1);
    }
  }

  /** Dropping arguments. */
  lemma TrSplit(w: World, vs: seq<LVal>, k: nat)
    requires k <= |vs|
    ensures TrAll(w.sym, vs)[..k] == TrAll(w.sym, vs[..k]) && TrAll(w.sym, vs)[k..] == TrAll(w.sym, vs[k..])
    ensures GoodAll(w, vs) ==> GoodAll(w, vs[..k]) && GoodAll(w, vs[k..])
  {
    hide TrAll, GoodAll;
    assert vs[..k] + vs[k..] == vs;
    TrAppend(w.sym, vs[..k], vs[k..]);
    GoodAppend(w, vs[..k], vs[k..]);
  }

  lemma {:induction false} LookupTr(w: World, env: LEnv, x: Name)
    ensures IsBound(env, x) <==> x in TrEnv(w.sym, env)
    ensures IsBound(env, x) ==> TrEnv(w.sym, env)[x] == Tr(w.sym, Lookup(env, x)) && (GoodEnv(w, env) ==> Good(w, Lookup(env, x)))
    decreases |env|
  {
    hide Tr, Good;
    if env != [] && env[0].x != x {
      LookupTr(w, env[1..], x);
    }
  }

  // Normal forms

  /** The closure's combinator, and the values it is applied to. */
  ghost function CloArgs(w: World, v: LVal): seq<Term>
    requires v.VClo?
  {
    Values(TrEnv(w.sym, v.env), Listing(FreeOf(v.alts)))
  }

  lemma TrClo(w: World, v: LVal, args: seq<LVal>)
    requires v.VClo?
    ensures Tr(w.sym, v) == Normal(Leaf(CombAtom(w.sym(v.pos))), CloArgs(w, v))
    ensures Tr(w.sym, LNormal(v, args)) == Normal(Leaf(CombAtom(w.sym(v.pos))), CloArgs(w, v) + TrAll(w.sym, args))
  {
    hide TrEnv, Values, TrAll;
    var ts := CloArgs(w, v);
    if args == [] {
      TrNone(w.sym);
      assert ts + [] == ts;
    } else {
      assert ([v] + args)[1..] == args;
      assert Parts(Tr(w.sym, v)) + TrAll(w.sym, args) == [Leaf(CombAtom(w.sym(v.pos)))] + (ts + TrAll(w.sym, args));
    }
  }

  lemma TrNone(sym: nat -> Symbol)
    ensures TrAll(sym, []) == []
  {
  }

  lemma TrLeaf(w: World, a: Atom, args: seq<LVal>)
    ensures Tr(w.sym, LNormal(VLeaf(a), args)) == Normal(Leaf(a), TrAll(w.sym, args))
  {
    hide TrAll;
    TrNone(w.sym);
    if args != [] {
      assert ([VLeaf(a)] + args)[1..] == args;
    }
  }

  lemma GoodNormal(w: World, f: LVal, args: seq<LVal>)
    requires Good(w, f) && GoodAll(w, args)
    ensures Good(w, LNormal(f, args))
  {
    if args != [] {
      assert ([f] + args)[1..] == args;
    }
  }

  // Matching

  /** Binding a name to related values. */
  lemma AgreeBind(w: World, s: set<Name>, env: LEnv, tenv: Env, x: Name, v: LVal)
    requires Agree(w, s, env, tenv) && Good(w, v)
    ensures Agree(w, s + {x}, [Bind(x, v)] + env, tenv[x := Tr(w.sym, v)])
  {
    hide Good, Tr;
    assert ([Bind(x, v)] + env)[1..] == env;
  }

  lemma TagSim(w: World, v: LVal, s: Symbol)
    requires Good(w, v) && s != SYMBOL_ARRAY && s !in w.ls
    ensures HasTag(v, s) <==> TermSymbol(Tr(w.sym, v)) == s
  {
    hide GoodAll, GoodEnv, AltsOk, TrAll, TrEnv, FreeOf;
  }

  /** An array of n elements that starts with a constant is matched in both forms or in none. */
  lemma NodeSim(w: World, v: LVal, ps: seq<Pattern>, env: LEnv, tenv: Env)
    requires Good(w, v) && ps != [] && PatsOk(w.ls, ps) && ps[0].PConst?
    ensures v.VNode? && |v.vs| == |ps| && !v.vs[0].VClo? ==> Tr(w.sym, v) == Node(TrAll(w.sym, v.vs))
    ensures !(v.VNode? && |v.vs| == |ps| && !v.vs[0].VClo?) ==> !LMatch(PApp(ps), v, env).0 && !Match(PApp(ps), Tr(w.sym, v), tenv).0
  {
    hide GoodAll, GoodEnv, AltsOk, TrEnv, TrAll, FreeOf, CAlts, Values, LMatches, Matches, BlockOk;
    match v
    case VLeaf(_) =>
    case VClo(_, _, _) =>
      CloHead(w, v, ps);
      if Tr(w.sym, v).Node? {
        THeadFails(ps, Tr(w.sym, v).ts, tenv);
      }
    case VNode(vs) =>
      NodeHead(w, vs, ps);
      if |vs| == |ps| {
        HeadFails(ps, vs, env);
      }
      if vs[0].VClo? {
        THeadFails(ps, Tr(w.sym, v).ts, tenv);
      }
  }

  lemma CloHead(w: World, v: LVal, ps: seq<Pattern>)
    requires v.VClo? && Good(w, v) && ps != [] && PatsOk(w.ls, ps) && ps[0].PConst?
    ensures Tr(w.sym, v).Node? ==> Tr(w.sym, v).ts != [] && Tr(w.sym, v).ts[0] != Leaf(ps[0].a)
  {
    hide GoodAll, GoodEnv, AltsOk, TrEnv, FreeOf, CAlts, Values;
    TrClo(w, v, []);
  }

  lemma HeadFails(ps: seq<Pattern>, vs: seq<LVal>, env: LEnv)
    requires ps != [] && ps[0].PConst? && |vs| == |ps|
    ensures vs[0] != VLeaf(ps[0].a) ==> !LMatches(ps, vs, env).0
  {
  }

  lemma THeadFails(ps: seq<Pattern>, ts: seq<Term>, env: Env)
    requires ps != [] && ps[0].PConst? && ts != [] && ts[0] != Leaf(ps[0].a)
    ensures |ts| == |ps| ==> !Matches(ps, ts, env).0
  {
  }

  lemma NodeHead(w: World, vs: seq<LVal>, ps: seq<Pattern>)
    requires vs != [] && GoodAll(w, vs) && ps != [] && PatsOk(w.ls, ps) && ps[0].PConst?
    ensures vs[0].VClo? ==> var t := Tr(w.sym, VNode(vs)); t.Node? && t.ts != [] && t.ts[0] != Leaf(ps[0].a)
    ensures !vs[0].VClo? ==> Tr(w.sym, VNode(vs)) == Node(TrAll(w.sym, vs))
  {
    hide GoodEnv, AltsOk, TrEnv, FreeOf, CAlts, Values;
    if vs[0].VClo? {
      TrClo(w, vs[0], []);
    }
  }

  lemma {:induction false} MatchSim(w: World, p: Pattern, v: LVal, s: set<Name>, env: LEnv, tenv: Env)
    requires PatOk(w.ls, p) && Good(w, v) && Agree(w, s, env, tenv)
    ensures LMatch(p, v, env).0 == Match(p, Tr(w.sym, v), tenv).0
    ensures LMatch(p, v, env).0 ==> Agree(w, s + PatVars(p), LMatch(p, v, env).1, Match(p, Tr(w.sym, v), tenv).1)
    decreases p, 1
  {
    match p
    case PConst(a) => ConstSim(w, a, v, s);
    case PVar(x) => AgreeBind(w, s, env, tenv, x, v);
    case PTag(q, t) =>
      MatchSim(w, q, v, s, env, tenv);
      TagSim(w, v, t);
    case PApp(ps) => AppSim(w, p, v, s, env, tenv);
  }

  lemma ConstSim(w: World, a: Atom, v: LVal, s: set<Name>)
    requires PatOk(w.ls, PConst(a)) && Good(w, v)
    ensures v == VLeaf(a) <==> Tr(w.sym, v) == Leaf(a)
    ensures s + {} == s
  {
    hide GoodAll, GoodEnv, AltsOk, TrAll, TrEnv, FreeOf, CAlts, Values;
    if v.VClo? {
      TrClo(w, v, []);
    }
  }

  lemma {:induction false} AppSim(w: World, p: Pattern, v: LVal, s: set<Name>, env: LEnv, tenv: Env)
    requires p.PApp? && PatOk(w.ls, p) && Good(w, v) && Agree(w, s, env, tenv)
    ensures LMatch(p, v, env).0 == Match(p, Tr(w.sym, v), tenv).0
    ensures LMatch(p, v, env).0 ==> Agree(w, s + PatVars(p), LMatch(p, v, env).1, Match(p, Tr(w.sym, v), tenv).1)
    decreases p, 0
  {
    hide Tr, Agree, LMatches, Matches;
    var ps := p.ps;
    NodeSim(w, v, ps, env, tenv);
    if v.VNode? && |v.vs| == |ps| && !v.vs[0].VClo? {
      MatchesSim(w, ps, v.vs, s, env, tenv);
    }
  }

  lemma {:induction false} MatchesSim(w: World, ps: seq<Pattern>, vs: seq<LVal>, s: set<Name>, env: LEnv, tenv: Env)
    requires |ps| == |vs| && PatsOk(w.ls, ps) && GoodAll(w, vs) && Agree(w, s, env, tenv)
    ensures LMatches(ps, vs, env).0 == Matches(ps, TrAll(w.sym, vs), tenv).0
    ensures LMatches(ps, vs, env).0 ==> Agree(w, s + PatsVars(ps), LMatches(ps, vs, env).1, Matches(ps, TrAll(w.sym, vs), tenv).1)
    decreases ps, 0
  {
    hide PatOk, Good, Tr, Agree, LMatch, Match, PatVars;
    if ps == [] {
      assert s + {} == s;
    } else {
      MatchSim(w, ps[0], vs[0], s, env, tenv);
      if LMatch(ps[0], vs[0], env).0 {
        MatchesSim(w, ps[1..], vs[1..], s + PatVars(ps[0]), LMatch(ps[0], vs[0], env).1, Match(ps[0], Tr(w.sym, vs[0]), tenv).1);
        assert s + PatVars(ps[0]) + PatsVars(ps[1..]) == s + PatsVars(ps);
      }
    }
  }

  /** The values of the free variables are bound first. */
  function FvEnv(xs: seq<Name>, ts: seq<Term>, tenv: Env): Env
    requires |xs| == |ts|
  {
    if xs == [] then tenv else FvEnv(xs[1..], ts[1..], tenv[xs[0] := ts[0]])
  }

  lemma {:induction false} MatchFv(xs: seq<Name>, ps: seq<Pattern>, vs: seq<Term>, ts: seq<Term>, tenv: Env)
    requires |xs| == |vs| && |ps| == |ts|
    ensures |PatList(xs) + ps| == |vs + ts|
    ensures Matches(PatList(xs) + ps, vs + ts, tenv) == Matches(ps, ts, FvEnv(xs, vs, tenv))
    decreases |xs|
  {
    if xs == [] {
      assert PatList(xs) + ps == ps && vs + ts == ts;
    } else {
      assert (PatList(xs) + ps)[1..] == PatList(xs[1..]) + ps && (vs + ts)[1..] == vs[1..] + ts;
      MatchFv(xs[1..], ps, vs[1..], ts, tenv[xs[0] := vs[0]]);
    }
  }

  lemma {:induction false} FvEnvAt(xs: seq<Name>, env: Env, tenv: Env, x: Name)
    requires (x in xs || (x in tenv && x in env && tenv[x] == env[x])) && (forall y :: y in xs ==> y in env)
    ensures x in env && var e := FvEnv(xs, Values(env, xs), tenv); x in e && e[x] == env[x]
    decreases |xs|
  {
    if xs != [] {
      assert Values(env, xs)[1..] == Values(env, xs[1..]);
      FvEnvAt(xs[1..], env, tenv[xs[0] := env[xs[0]]], x);
    }
  }

  function NamesOf(xs: seq<Name>): set<Name> {
    set x | x in xs
  }

  lemma FvAgree(w: World, xs: seq<Name>, env: LEnv)
    requires GoodEnv(w, env) && forall x :: x in xs ==> x in TrEnv(w.sym, env)
    ensures Agree(w, NamesOf(xs), env, FvEnv(xs, Values(TrEnv(w.sym, env), xs), map[]))
  {
    hide TrEnv, Values, FvEnv, GoodEnv;
    forall x | x in xs ensures var e := FvEnv(xs, Values(TrEnv(w.sym, env), xs), map[]); x in e && e[x] == TrEnv(w.sym, env)[x] {
      FvEnvAt(xs, TrEnv(w.sym, env), map[], x);
    }
  }

  // Selection

  /** The lifted block takes the same alternative, after its free variables, and binds what its body needs. */
  ghost predicate SelectedAlike(w: World, fv: seq<Name>, c: LSelected, c1: Selected) {
    match c
    case LNoAlt => c1.NoAlt?
    case LChosen(env, body, k) => c1.Chosen? && c1.body == C(w.sym, body) && c1.arity == |fv| + k && Agree(w, Free(body), env, c1.env) && ExprOk(w, body)
  }

  lemma {:induction false} SelectSim(w: World, fv: seq<Name>, alts: seq<LAlt>, args: seq<LVal>, env: LEnv)
    requires AltsOk(w, alts) && GoodAll(w, args) && GoodEnv(w, env) && FreeOf(alts) <= NamesOf(fv)
    requires forall x :: x in fv ==> x in TrEnv(w.sym, env)
    ensures SelectedAlike(w, fv, LSelect(alts, args, env), Select(CAlts(w.sym, fv, alts), Values(TrEnv(w.sym, env), fv) + TrAll(w.sym, args)))
    ensures LSelect(alts, args, env).LChosen? ==> LSelect(alts, args, env).arity <= |args|
    decreases |alts|
  {
    hide TrEnv, TrAll, C, GoodEnv, GoodAll, ExprOk, PatsOk, LMatches, Matches, Values, Agree, Free, PatsVars;
    if alts != [] {
      var m := alts[0];
      var n := |m.pats|;
      var vals := Values(TrEnv(w.sym, env), fv);
      var ts := vals + TrAll(w.sym, args);
      CAltsParts(w, fv, alts);
      if n <= |args| {
        TrSplit(w, args, n);
        assert ts[..|fv| + n] == vals + TrAll(w.sym, args[..n]);
        MatchFv(fv, m.pats, vals, TrAll(w.sym, args[..n]), map[]);
        FvAgree(w, fv, env);
        MatchesSim(w, m.pats, args[..n], NamesOf(fv), env, FvEnv(fv, vals, map[]));
        if LMatches(m.pats, args[..n], env).0 {
          AgreeLess(w, NamesOf(fv) + PatsVars(m.pats), Free(m.body), LMatches(m.pats, args[..n], env).1, Matches(m.pats, TrAll(w.sym, args[..n]), FvEnv(fv, vals, map[])).1);
        } else {
          SelectSim(w, fv, alts[1..], args, env);
        }
      } else {
        SelectSim(w, fv, alts[1..], args, env);
      }
    }
  }

  lemma CAltsParts(w: World, fv: seq<Name>, alts: seq<LAlt>)
    requires alts != [] && AltsOk(w, alts)
    ensures CAlts(w.sym, fv, alts) == [Alt(PatList(fv) + alts[0].pats, C(w.sym, alts[0].body))] + CAlts(w.sym, fv, alts[1..])
    ensures PatsOk(w.ls, alts[0].pats) && ExprOk(w, alts[0].body) && AltsOk(w, alts[1..])
    ensures FreeOf(alts) == (Free(alts[0].body) - PatsVars(alts[0].pats)) + FreeOf(alts[1..])
  {
    hide C, ExprOk, PatsOk, Free;
  }

  lemma AgreeLess(w: World, s: set<Name>, s1: set<Name>, env: LEnv, tenv: Env)
    requires Agree(w, s, env, tenv) && s1 <= s
    ensures Agree(w, s1, env, tenv)
  {
    hide GoodEnv;
  }

  // Spines

  /** The same application, taken apart at different places. */
  ghost predicate Spliced(f: Term, args: seq<Term>, g: Term, brgs: seq<Term>) {
    exists k :: 0 <= k <= |args| && g == Normal(f, args[..k]) && brgs == args[k..]
  }

  lemma SplicedApply(n: nat, P: Program, f: Term, args: seq<Term>, g: Term, brgs: seq<Term>, extra: seq<Term>)
    requires Spliced(f, args, g, brgs)
    ensures Apply(n, P, f, args + extra) == Apply(n, P, g, brgs + extra)
    ensures Apply(n, P, f, args) == Apply(n, P, g, brgs)
  {
    hide Apply;
    var k :| 0 <= k <= |args| && g == Normal(f, args[..k]) && brgs == args[k..];
    if k == 0 {
      assert args[..0] == [] && args[0..] == args;
    } else {
      ApplyNode(n, P, g, brgs + extra);
      ApplyNode(n, P, g, brgs);
      assert g.ts[1..] == args[..k];
      assert args[..k] + args[k..] == args;
      assert args[..k] + (args[k..] + extra) == args + extra;
    }
  }

  lemma SplicedMore(f: Term, args: seq<Term>, g: Term, brgs: seq<Term>, more: seq<Term>)
    requires Spliced(f, args, g, brgs)
    ensures Spliced(f, args + more, g, brgs + more)
  {
    var k :| 0 <= k <= |args| && g == Normal(f, args[..k]) && brgs == args[k..];
    assert (args + more)[..k] == args[..k] && (args + more)[k..] == args[k..] + more;
  }

  ghost predicate SpineAlike(w: World, s: LSpine, s1: Spine) {
    match s
    case LSpine(f, args) => s1.Spine? && Good(w, f) && GoodAll(w, args) && Spliced(s1.f, s1.args, Tr(w.sym, f), TrAll(w.sym, args))
    case LHalt(r) => s1 == Halt(TrRes(w.sym, r)) && GoodRes(w, r) && !r.LOk?
  }

  ghost predicate ArgsAlike(w: World, s: LVals, s1: Vals) {
    match s
    case LVals(vs) => s1 == Vals(TrAll(w.sym, vs)) && GoodAll(w, vs)
    case LStop(r) => s1 == Stop(TrRes(w.sym, r)) && GoodRes(w, r) && !r.LOk?
  }

  ghost predicate Alike(w: World, r: LRes, r1: Res) {
    r1 == TrRes(w.sym, r) && GoodRes(w, r)
  }

  // Equations of the evaluator with closures

  lemma LApplyShape(n: nat, P: LProgram, s: Symbol, vs: seq<LVal>)
    ensures s !in P ==> LApply(n, P, VLeaf(CombAtom(s)), vs) == LUndef(s)
    ensures s in P && P[s].LData? ==> LApply(n, P, VLeaf(CombAtom(s)), vs) == LOk(LNormal(VLeaf(CombAtom(s)), vs))
    ensures s in P && P[s].LThrow? ==> LApply(n, P, VLeaf(CombAtom(s)), vs) == if vs == [] then LOk(VLeaf(CombAtom(s))) else LExc(vs)
    ensures s in P && P[s].LHandle? && |vs| < 2 ==> LApply(n, P, VLeaf(CombAtom(s)), vs) == LOk(LNormal(VLeaf(CombAtom(s)), vs))
    ensures s in P && P[s].LHandle? && |vs| >= 2 ==>
      LApply(n, P, VLeaf(CombAtom(s)), vs) ==
        if n == 0 then LOut
        else
          var r := LApply(n - 1, P, vs[1], [LNONE] + vs[2..]);
          if r.LExc? then LApply(n - 1, P, vs[0], [LNONE] + r.vs) else r
    ensures s in P && P[s].LValue? ==> LApply(n, P, VLeaf(CombAtom(s)), vs) == if n == 0 then LOut else LEvalRoot(n - 1, P, P[s].e, [], vs)
  {
    hide LEvalRoot;
  }

  lemma LApplyCode(n: nat, P: LProgram, f: LVal, alts: seq<LAlt>, env: LEnv, vs: seq<LVal>)
    requires (f.VClo? && f.alts == alts && f.env == env)
          || (f.VLeaf? && f.a.CombAtom? && f.a.sym in P && P[f.a.sym] == LCode(alts) && env == [])
    ensures n == 0 ==> LApply(n, P, f, vs) == LOut
    ensures n > 0 && LSelect(alts, vs, env).LNoAlt? ==> LApply(n, P, f, vs) == LOk(LNormal(f, vs))
    ensures n > 0 && LSelect(alts, vs, env).LChosen? && LSelect(alts, vs, env).arity <= |vs| ==>
      var c := LSelect(alts, vs, env);
      LApply(n, P, f, vs) == LEvalRoot(n - 1, P, c.body, c.env, vs[c.arity..])
  {
    hide LSelect, LEvalRoot;
  }

  lemma LApplyNode(n: nat, P: LProgram, f: LVal, vs: seq<LVal>)
    requires f.VNode? && f.vs != []
    ensures LApply(n, P, f, vs) == LApply(n, P, f.vs[0], f.vs[1..] + vs)
  {
  }

  lemma LEvalShape(n: nat, P: LProgram, e: LExpr, env: LEnv, extra: seq<LVal>)
    ensures var s := LEvalSpine(n, P, e, env);
            && LEvalRoot(n, P, e, env, extra) == (if s.LSpine? then LApply(n, P, s.f, s.args + extra) else s.r)
            && (!e.LVar? ==> LEval(n, P, e, env) == (if s.LSpine? then LApply(n, P, s.f, s.args) else s.r))
  {
    hide LEvalSpine, LApply;
  }

  // The translation of expressions

  lemma CShape(sym: nat -> Symbol, e: LExpr)
    ensures C(sym, e) == if CArgs(sym, e) == [] then CHead(sym, e) else App([CHead(sym, e)] + CArgs(sym, e))
  {
    hide CHead, CArgs;
  }

  lemma {:induction false} CHeadKind(w: World, e: LExpr)
    requires ExprOk(w, e)
    ensures CHead(w.sym, e).Const? || CHead(w.sym, e).Var?
    ensures CHead(w.sym, e).Var? ==> CHead(w.sym, e).v in Free(e)
    ensures e.LApp? ==> CArgs(w.sym, e) != []
    decreases e
  {
    match e
    case LConst(_) =>
    case LVar(_) =>
    case LBlock(_, _) =>
    case LApp(es) =>
      assert ExprOk(w, es[0]);
      CHeadKind(w, es[0]);
  }

  /** The lifted expression is evaluated like a head and a list of arguments. */
  lemma SpineOfC(n: nat, w: World, e: LExpr, tenv: Env)
    requires ExprOk(w, e) && (CHead(w.sym, e).Var? ==> CHead(w.sym, e).v in tenv)
    ensures var h := CHead(w.sym, e);
            var f := if h.Const? then Leaf(h.a) else if h.Var? then tenv[h.v] else NONE;
            var vs := EvalArgs(n, w.p, CArgs(w.sym, e), tenv);
            EvalSpine(n, w.p, C(w.sym, e), tenv) == if vs.Vals? then Spine(f, vs.ts) else Halt(vs.r)
  {
    hide CHead, CArgs, C, ExprOk, EvalArgs;
    CHeadKind(w, e);
    CShape(w.sym, e);
    var h, cs := CHead(w.sym, e), CArgs(w.sym, e);
    if cs == [] {
      NoArgs(n, w.p, tenv);
    } else {
      hide EvalSpine;
      assert ([h] + cs)[1..] == cs;
      SpineShape(n, w.p, App([h] + cs), tenv);
    }
  }

  lemma NoArgs(n: nat, P: Program, tenv: Env)
    ensures EvalArgs(n, P, [], tenv) == Vals([])
  {
  }

  lemma {:induction false} EvalAppend(n: nat, P: Program, a: seq<Expr>, b: seq<Expr>, tenv: Env)
    ensures EvalArgs(n, P, a + b, tenv) ==
      var v := EvalArgs(n, P, a, tenv);
      var v1 := EvalArgs(n, P, b, tenv);
      if v.Stop? then v else if v1.Stop? then v1 else Vals(v.ts + v1.ts)
    decreases |a|
  {
    hide Eval, EvalArgs;
    NoArgs(n, P, tenv);
    if a == [] {
      assert a + b == b;
    } else {
      assert a == [a[0]] + a[1..] && a + b == [a[0]] + (a[1..] + b);
      ConsArgs(n, P, a[0], a[1..], tenv);
      ConsArgs(n, P, a[0], a[1..] + b, tenv);
      EvalAppend(n, P, a[1..], b, tenv);
    }
  }

  lemma {:induction false} EvalVars(n: nat, P: Program, xs: seq<Name>, env: Env, tenv: Env)
    requires forall x :: x in xs ==> x in tenv && x in env && tenv[x] == env[x]
    ensures EvalArgs(n, P, VarArgs(xs), tenv) == Vals(Values(env, xs))
    decreases |xs|
  {
    if xs != [] {
      assert VarArgs(xs)[1..] == VarArgs(xs[1..]);
      EvalVars(n, P, xs[1..], env, tenv);
    }
  }

  // The simulation

  lemma {:induction false} ApplySim(n: nat, w: World, f: LVal, args: seq<LVal>)
    requires Lifts(w) && Good(w, f) && GoodAll(w, args)
    ensures Alike(w, LApply(n, w.lp, f, args), Apply(n, w.p, Tr(w.sym, f), TrAll(w.sym, args)))
    decreases n, 0, f, 2
  {
    hide Lifts, GoodAll, Tr, TrAll, LApply, Apply, Alike;
    match f
    case VNode(_) => NodeApply(n, w, f, args);
    case VClo(_, _, _) => CloApply(n, w, f, args);
    case VLeaf(a) =>
      if a.CombAtom? {
        CombApply(n, w, a.sym, args);
      } else {
        PlainLeaf(n, w, a, args);
      }
  }

  lemma PlainLeaf(n: nat, w: World, a: Atom, args: seq<LVal>)
    requires !a.CombAtom? && GoodAll(w, args)
    ensures Alike(w, LApply(n, w.lp, VLeaf(a), args), Apply(n, w.p, Tr(w.sym, VLeaf(a)), TrAll(w.sym, args)))
  {
    hide TrAll, GoodAll;
    TrLeaf(w, a, args);
    GoodNormal(w, VLeaf(a), args);
  }

  lemma {:induction false} NodeApply(n: nat, w: World, f: LVal, args: seq<LVal>)
    requires f.VNode? && Lifts(w) && Good(w, f) && GoodAll(w, args)
    ensures Alike(w, LApply(n, w.lp, f, args), Apply(n, w.p, Tr(w.sym, f), TrAll(w.sym, args)))
    decreases n, 0, f, 1
  {
    hide Lifts, Tr, TrAll, LApply, Apply, Alike, GoodAll, Good;
    NodeParts(w, f);
    var g, rest := f.vs[0], f.vs[1..];
    LApplyNode(n, w.lp, f, args);
    GoodAppend(w, rest, args);
    TrAppend(w.sym, rest, args);
    ApplySim(n, w, g, rest + args);
    PartsApply(n, w.p, Tr(w.sym, f), Tr(w.sym, g), TrAll(w.sym, rest), TrAll(w.sym, args));
  }

  lemma NodeParts(w: World, f: LVal)
    requires f.VNode? && Good(w, f)
    ensures f.vs != [] && Good(w, f.vs[0]) && GoodAll(w, f.vs[1..])
    ensures var t := Tr(w.sym, f.vs[0]);
            var ts := TrAll(w.sym, f.vs[1..]);
            (Tr(w.sym, f) == Node(Parts(t) + ts) && (t.Leaf? || t.ts != [])) || Tr(w.sym, f) == Node([t] + ts)
  {
    hide TrAll, TrEnv, Values, FreeOf;
  }

  lemma PartsApply(n: nat, P: Program, f: Term, t: Term, ts: seq<Term>, args: seq<Term>)
    requires (f == Node(Parts(t) + ts) && (t.Leaf? || t.ts != [])) || f == Node([t] + ts)
    ensures Apply(n, P, f, args) == Apply(n, P, t, ts + args)
  {
    hide Apply;
    ApplyNode(n, P, f, args);
    if f == Node([t] + ts) {
      assert ([t] + ts)[1..] == ts;
    } else {
      ApplyNode(n, P, t, ts + args);
      assert (t.ts + ts)[1..] == t.ts[1..] + ts;
      assert t.ts[1..] + ts + args == t.ts[1..] + (ts + args);
    }
  }

  /** A closure does what its combinator does on the values of its free variables. */
  lemma {:induction false} CloApply(n: nat, w: World, f: LVal, args: seq<LVal>)
    requires f.VClo? && Lifts(w) && Good(w, f) && GoodAll(w, args)
    ensures Alike(w, LApply(n, w.lp, f, args), Apply(n, w.p, Tr(w.sym, f), TrAll(w.sym, args)))
    decreases n, 0, f, 1
  {
    hide Lifts, Tr, TrAll, LApply, Apply, GoodAll, GoodEnv, AltsOk, Values, FreeOf, TrEnv, LSelect, Select, CAlts, Alike, Good, SelectedAlike, LEvalRoot, EvalRoot;
    CloParts(w, f);
    var fv, s := Listing(FreeOf(f.alts)), w.sym(f.pos);
    var vals := CloArgs(w, f);
    TrClo(w, f, args);
    var ts := vals + TrAll(w.sym, args);
    SplicedClo(n, w.p, s, vals, TrAll(w.sym, args), Tr(w.sym, f));
    ApplyCode(n, w.p, s, ts);
    LApplyCode(n, w.lp, f, f.alts, f.env, args);
    if n == 0 {
      AlikeOut(w);
    } else {
      SelectSim(w, fv, f.alts, args, f.env);
      var c := LSelect(f.alts, args, f.env);
      SelectedParts(w, fv, c, Select(w.p[s].alts, ts));
      if c.LNoAlt? {
        AlikeNormal(w, f, args, Normal(Leaf(CombAtom(s)), ts));
      } else {
        ChosenApply(n, w, fv, vals, args, c, Select(w.p[s].alts, ts));
      }
    }
  }

  lemma SplicedClo(n: nat, P: Program, s: Symbol, vals: seq<Term>, ts: seq<Term>, t: Term)
    requires t == Normal(Leaf(CombAtom(s)), vals)
    ensures Apply(n, P, t, ts) == Apply(n, P, Leaf(CombAtom(s)), vals + ts)
  {
    hide Apply;
    assert Spliced(Leaf(CombAtom(s)), vals, t, []) by {
      assert vals[..|vals|] == vals && vals[|vals|..] == [];
    }
    SplicedApply(n, P, Leaf(CombAtom(s)), vals, t, [], ts);
    assert [] + ts == ts;
  }

  lemma CloParts(w: World, f: LVal)
    requires f.VClo? && Good(w, f)
    ensures GoodEnv(w, f.env) && AltsOk(w, f.alts)
    ensures w.sym(f.pos) in w.p && w.p[w.sym(f.pos)] == CodeDef(CAlts(w.sym, Listing(FreeOf(f.alts)), f.alts))
    ensures forall x :: x in Listing(FreeOf(f.alts)) ==> x in TrEnv(w.sym, f.env)
    ensures FreeOf(f.alts) == NamesOf(Listing(FreeOf(f.alts)))
  {
    hide TrEnv, FreeOf, CAlts, GoodEnv, AltsOk;
  }

  lemma SelectedParts(w: World, fv: seq<Name>, c: LSelected, c1: Selected)
    requires SelectedAlike(w, fv, c, c1)
    ensures c.LNoAlt? ==> c1.NoAlt?
    ensures c.LChosen? ==> c1.Chosen? && c1.body == C(w.sym, c.body) && c1.arity == |fv| + c.arity && Agree(w, Free(c.body), c.env, c1.env) && ExprOk(w, c.body)
  {
    hide C, Agree, ExprOk, Free;
  }

  lemma AlikeOut(w: World)
    ensures Alike(w, LOut, Out)
  {
  }

  lemma AlikeNormal(w: World, f: LVal, args: seq<LVal>, t: Term)
    requires Good(w, f) && GoodAll(w, args) && t == Tr(w.sym, LNormal(f, args))
    ensures Alike(w, LOk(LNormal(f, args)), Val(t))
  {
    hide Good, GoodAll, Tr;
    GoodNormal(w, f, args);
  }

  lemma {:induction false} ChosenApply(n: nat, w: World, fv: seq<Name>, vals: seq<Term>, args: seq<LVal>, c: LSelected, c1: Selected)
    requires n > 0 && Lifts(w) && GoodAll(w, args) && |vals| == |fv|
    requires c.LChosen? && c1.Chosen? && c.arity <= |args| && c1.body == C(w.sym, c.body) && c1.arity == |fv| + c.arity
    requires Agree(w, Free(c.body), c.env, c1.env) && ExprOk(w, c.body)
    ensures c1.arity <= |vals + TrAll(w.sym, args)|
    ensures Alike(w, LEvalRoot(n - 1, w.lp, c.body, c.env, args[c.arity..]), EvalRoot(n - 1, w.p, c1.body, c1.env, (vals + TrAll(w.sym, args))[c1.arity..]))
    decreases n - 1, 2
  {
    hide Lifts, TrAll, GoodAll, C, Agree, ExprOk, Free, LEvalRoot, EvalRoot, Alike;
    TrSplit(w, args, c.arity);
    assert (vals + TrAll(w.sym, args))[c1.arity..] == TrAll(w.sym, args)[c.arity..];
    RootSim(n - 1, w, c.body, c.env, c1.env, args[c.arity..]);
  }

  lemma {:induction false} CombApply(n: nat, w: World, s: Symbol, args: seq<LVal>)
    requires s !in w.ls && Lifts(w) && GoodAll(w, args)
    ensures Alike(w, LApply(n, w.lp, VLeaf(CombAtom(s)), args), Apply(n, w.p, Tr(w.sym, VLeaf(CombAtom(s))), TrAll(w.sym, args)))
    decreases n, 0, VLeaf(CombAtom(s)), 1
  {
    hide Tr, TrAll, LApply, Apply, GoodAll, Alike, C, CAlts, AltsOk, ExprOk, Free, FreeOf, LEvalRoot;
    var f := VLeaf(CombAtom(s));
    var ts := TrAll(w.sym, args);
    TrLeaf(w, CombAtom(s), args);
    TrComb(w, s);
    LApplyShape(n, w.lp, s, args);
    ApplyShape(n, w.p, s, ts);
    if s !in w.lp {
      AlikeUndef(w, s);
    } else {
      assert DefOk(w, w.lp[s], w.p[s]);
      match w.lp[s]
      case LData => AlikeNormal(w, f, args, Normal(Leaf(CombAtom(s)), ts));
      case LThrow => AlikeThrow(w, s, args);
      case LHandle => HandleSim(n, w, s, args);
      case LCode(alts) => CodeApply(n, w, s, args);
      case LValue(e) => ValueApply(n, w, s, args);
    }
  }

  lemma TrComb(w: World, s: Symbol)
    requires s !in w.ls
    ensures Tr(w.sym, VLeaf(CombAtom(s))) == Leaf(CombAtom(s)) && Good(w, VLeaf(CombAtom(s)))
  {
  }

  lemma AlikeUndef(w: World, s: Symbol)
    ensures Alike(w, LUndef(s), Undef(s))
  {
  }

  lemma AlikeThrow(w: World, s: Symbol, args: seq<LVal>)
    requires s !in w.ls && GoodAll(w, args)
    ensures Alike(w, if args == [] then LOk(VLeaf(CombAtom(s))) else LExc(args), if TrAll(w.sym, args) == [] then Val(Leaf(CombAtom(s))) else Exc(TrAll(w.sym, args)))
  {
  }

  lemma {:induction false} HandleSim(n: nat, w: World, s: Symbol, args: seq<LVal>)
    requires s !in w.ls && Lifts(w) && GoodAll(w, args) && s in w.lp && w.lp[s].LHandle? && s in w.p && w.p[s].HandleDef?
    ensures Alike(w, LApply(n, w.lp, VLeaf(CombAtom(s)), args), Apply(n, w.p, Leaf(CombAtom(s)), TrAll(w.sym, args)))
    decreases n, 0, VLeaf(CombAtom(s)), 0
  {
    hide Tr, TrAll, LApply, Apply, GoodAll, Alike, Lifts, Good;
    var ts := TrAll(w.sym, args);
    TrLeaf(w, CombAtom(s), args);
    TrComb(w, s);
    LApplyShape(n, w.lp, s, args);
    ApplyShape(n, w.p, s, ts);
    if |args| < 2 {
      AlikeNormal(w, VLeaf(CombAtom(s)), args, Normal(Leaf(CombAtom(s)), ts));
    } else if n == 0 {
      AlikeOut(w);
    } else {
      HandledArgs(w, args);
      NoneGood(w);
      ApplySim(n - 1, w, args[1], [LNONE] + args[2..]);
      var r := LApply(n - 1, w.lp, args[1], [LNONE] + args[2..]);
      AlikeCases(w, r, Apply(n - 1, w.p, ts[1], [NONE] + ts[2..]));
      if r.LExc? {
        NoneFirst(w, r.vs);
        ApplySim(n - 1, w, args[0], [LNONE] + r.vs);
      }
    }
  }

  lemma NoneGood(w: World)
    requires Lifts(w)
    ensures SYMBOL_NONE !in w.ls
  {
    hide DefOk;
  }

  lemma HandledArgs(w: World, args: seq<LVal>)
    requires |args| >= 2 && GoodAll(w, args)
    ensures var ts := TrAll(w.sym, args);
            ts[0] == Tr(w.sym, args[0]) && ts[1] == Tr(w.sym, args[1]) && TrAll(w.sym, [LNONE] + args[2..]) == [NONE] + ts[2..]
    ensures Good(w, args[0]) && Good(w, args[1]) && (SYMBOL_NONE !in w.ls ==> GoodAll(w, [LNONE] + args[2..]))
  {
    hide Tr, TrAll, GoodAll;
    TrAt(w.sym, args, 0);
    TrAt(w.sym, args, 1);
    GoodAt(w, args, 0);
    GoodAt(w, args, 1);
    TrSplit(w, args, 2);
    NoneFirst(w, args[2..]);
  }

  lemma NoneFirst(w: World, vs: seq<LVal>)
    ensures TrAll(w.sym, [LNONE] + vs) == [NONE] + TrAll(w.sym, vs)
    ensures GoodAll(w, vs) && SYMBOL_NONE !in w.ls ==> GoodAll(w, [LNONE] + vs)
  {
    assert ([LNONE] + vs)[1..] == vs;
  }

  lemma AlikeCases(w: World, r: LRes, r1: Res)
    requires Alike(w, r, r1)
    ensures r.LExc? <==> r1.Exc?
    ensures r.LExc? ==> r1 == Exc(TrAll(w.sym, r.vs)) && GoodAll(w, r.vs)
  {
    hide Good, Tr;
  }

  lemma {:induction false} CodeApply(n: nat, w: World, s: Symbol, args: seq<LVal>)
    requires s !in w.ls && Lifts(w) && GoodAll(w, args) && s in w.lp && w.lp[s].LCode? && s in w.p && DefOk(w, w.lp[s], w.p[s])
    ensures Alike(w, LApply(n, w.lp, VLeaf(CombAtom(s)), args), Apply(n, w.p, Leaf(CombAtom(s)), TrAll(w.sym, args)))
    decreases n, 0, VLeaf(CombAtom(s)), 0
  {
    hide Lifts, Tr, TrAll, LApply, Apply, GoodAll, AltsOk, Values, FreeOf, LSelect, Select, CAlts, Alike, Good, SelectedAlike, LEvalRoot, EvalRoot, DefOk, TrEnv, GoodEnv;
    var f, alts := VLeaf(CombAtom(s)), w.lp[s].alts;
    CodeParts(w, s);
    var ts := TrAll(w.sym, args);
    TrLeaf(w, CombAtom(s), args);
    TrComb(w, s);
    ApplyCode(n, w.p, s, ts);
    LApplyCode(n, w.lp, f, alts, [], args);
    if n == 0 {
      AlikeOut(w);
    } else {
      NoValues(w, ts);
      SelectSim(w, [], alts, args, []);
      var c := LSelect(alts, args, []);
      SelectedParts(w, [], c, Select(w.p[s].alts, ts));
      if c.LNoAlt? {
        AlikeNormal(w, f, args, Normal(Leaf(CombAtom(s)), ts));
      } else {
        ChosenApply(n, w, [], [], args, c, Select(w.p[s].alts, ts));
      }
    }
  }

  lemma CodeParts(w: World, s: Symbol)
    requires s in w.lp && w.lp[s].LCode? && s in w.p && DefOk(w, w.lp[s], w.p[s])
    ensures w.p[s] == CodeDef(CAlts(w.sym, [], w.lp[s].alts)) && AltsOk(w, w.lp[s].alts) && FreeOf(w.lp[s].alts) == {}
  {
    hide CAlts, AltsOk, FreeOf;
  }

  lemma NoValues(w: World, ts: seq<Term>)
    ensures Values(TrEnv(w.sym, []), []) + ts == ts && [] + ts == ts && GoodEnv(w, [])
  {
  }

  lemma {:induction false} ValueApply(n: nat, w: World, s: Symbol, args: seq<LVal>)
    requires s !in w.ls && Lifts(w) && GoodAll(w, args) && s in w.lp && w.lp[s].LValue? && s in w.p && DefOk(w, w.lp[s], w.p[s])
    ensures Alike(w, LApply(n, w.lp, VLeaf(CombAtom(s)), args), Apply(n, w.p, Leaf(CombAtom(s)), TrAll(w.sym, args)))
    decreases n, 0, VLeaf(CombAtom(s)), 0
  {
    hide Lifts, TrAll, LApply, Apply, GoodAll, Alike, LEvalRoot, EvalRoot, C, ExprOk, Free;
    var e, ts := w.lp[s].e, TrAll(w.sym, args);
    LApplyShape(n, w.lp, s, args);
    ApplyCode(n, w.p, s, ts);
    NullarySelect(C(w.sym, e), ts);
    if n == 0 {
      AlikeOut(w);
    } else {
      assert ts[0..] == ts;
      RootSim(n - 1, w, e, [], map[], args);
    }
  }

  lemma NullarySelect(e: Expr, ts: seq<Term>)
    ensures Select([Alt([], e)], ts) == Chosen(map[], e, 0)
  {
    assert ts[..0] == [];
  }

  lemma {:induction false} RootSim(n: nat, w: World, e: LExpr, env: LEnv, tenv: Env, extra: seq<LVal>)
    requires Lifts(w) && ExprOk(w, e) && Agree(w, Free(e), env, tenv) && GoodAll(w, extra)
    ensures Alike(w, LEvalRoot(n, w.lp, e, env, extra), EvalRoot(n, w.p, C(w.sym, e), tenv, TrAll(w.sym, extra)))
    decreases n, 1, e, 6
  {
    hide Lifts, ExprOk, Agree, Free, GoodAll, TrAll, Tr, Good, LEvalRoot, EvalRoot, C, LEvalSpine, EvalSpine, Apply, LApply, Alike, Spliced;
    CNoLet(w, e);
    SpineSim(n, w, e, env, tenv);
    LEvalShape(n, w.lp, e, env, extra);
    EvalShape(n, w.p, C(w.sym, e), tenv, TrAll(w.sym, extra));
    var s := LEvalSpine(n, w.lp, e, env);
    var s1 := EvalSpine(n, w.p, C(w.sym, e), tenv);
    if s.LSpine? {
      GoodAppend(w, s.args, extra);
      TrAppend(w.sym, s.args, extra);
      ApplySim(n, w, s.f, s.args + extra);
      SplicedApply(n, w.p, s1.f, s1.args, Tr(w.sym, s.f), TrAll(w.sym, s.args), TrAll(w.sym, extra));
    } else {
      AlikeHalt(w, s.r);
    }
  }

  lemma AlikeHalt(w: World, r: LRes)
    requires GoodRes(w, r)
    ensures Alike(w, r, TrRes(w.sym, r))
  {
    hide Good, GoodAll, Tr, TrAll;
  }

  lemma CNoLet(w: World, e: LExpr)
    requires ExprOk(w, e)
    ensures !C(w.sym, e).Let?
    ensures C(w.sym, e).Var? <==> e.LVar?
    ensures e.LVar? ==> C(w.sym, e) == Var(e.v)
  {
    hide ExprOk, CHead, CArgs, C;
    CShape(w.sym, e);
    CHeadKind(w, e);
    CLeaves(w.sym, e);
  }

  lemma CLeaves(sym: nat -> Symbol, e: LExpr)
    ensures e.LVar? ==> CHead(sym, e) == Var(e.v) && CArgs(sym, e) == []
    ensures e.LConst? ==> CHead(sym, e) == Const(e.a) && CArgs(sym, e) == []
    ensures e.LBlock? ==> CHead(sym, e) == Const(CombAtom(sym(e.pos))) && CArgs(sym, e) == VarArgs(Listing(FreeOf(e.alts)))
    ensures e.LApp? && e.es != [] ==> CHead(sym, e) == CHead(sym, e.es[0]) && CArgs(sym, e) == CArgs(sym, e.es[0]) + CAll(sym, e.es[1..])
  {
    hide CAll, FreeOf, VarArgs;
  }

  lemma {:induction false} EvalSim(n: nat, w: World, e: LExpr, env: LEnv, tenv: Env)
    requires Lifts(w) && ExprOk(w, e) && Agree(w, Free(e), env, tenv)
    ensures Alike(w, LEval(n, w.lp, e, env), Eval(n, w.p, C(w.sym, e), tenv))
    decreases n, 1, e, 6
  {
    hide Lifts, ExprOk, Agree, Free, GoodAll, TrAll, Tr, Good, LEval, Eval, C, LEvalSpine, EvalSpine, Apply, LApply, Alike, Spliced;
    CNoLet(w, e);
    if e.LVar? {
      VarSim(n, w, e, env, tenv);
    } else {
      SpineSim(n, w, e, env, tenv);
      LEvalShape(n, w.lp, e, env, []);
      EvalShape(n, w.p, C(w.sym, e), tenv, []);
      var s := LEvalSpine(n, w.lp, e, env);
      var s1 := EvalSpine(n, w.p, C(w.sym, e), tenv);
      if s.LSpine? {
        ApplySim(n, w, s.f, s.args);
        SplicedApply(n, w.p, s1.f, s1.args, Tr(w.sym, s.f), TrAll(w.sym, s.args), []);
      } else {
        AlikeHalt(w, s.r);
      }
    }
  }

  lemma VarSim(n: nat, w: World, e: LExpr, env: LEnv, tenv: Env)
    requires e.LVar? && Agree(w, Free(e), env, tenv)
    ensures Alike(w, LEval(n, w.lp, e, env), Eval(n, w.p, Var(e.v), tenv))
  {
    hide TrEnv, Tr, Good;
    LookupTr(w, env, e.v);
  }

  lemma {:induction false} SpineSim(n: nat, w: World, e: LExpr, env: LEnv, tenv: Env)
    requires Lifts(w) && ExprOk(w, e) && Agree(w, Free(e), env, tenv)
    ensures SpineAlike(w, LEvalSpine(n, w.lp, e, env), EvalSpine(n, w.p, C(w.sym, e), tenv))
    decreases n, 1, e, 5
  {
    hide Lifts, ExprOk, Agree, Free, C, LEvalSpine, EvalSpine, SpineAlike, EvalArgs, CHead, CArgs;
    HeadBound(w, e, env, tenv);
    SpineOfC(n, w, e, tenv);
    PartsSim(n, w, e, env, tenv);
  }

  /** The value of the head of the lifted expression, and its arguments. */
  ghost function PartsOf(n: nat, w: World, e: LExpr, tenv: Env): Spine {
    var h := CHead(w.sym, e);
    var f := if h.Const? then Leaf(h.a) else if h.Var? && h.v in tenv then tenv[h.v] else NONE;
    var vs := EvalArgs(n, w.p, CArgs(w.sym, e), tenv);
    if vs.Vals? then Spine(f, vs.ts) else Halt(vs.r)
  }

  lemma HeadBound(w: World, e: LExpr, env: LEnv, tenv: Env)
    requires ExprOk(w, e) && Agree(w, Free(e), env, tenv)
    ensures CHead(w.sym, e).Const? || (CHead(w.sym, e).Var? && CHead(w.sym, e).v in tenv)
  {
    hide ExprOk, CHead, Free, TrEnv, GoodEnv;
    CHeadKind(w, e);
  }

  lemma {:induction false} PartsSim(n: nat, w: World, e: LExpr, env: LEnv, tenv: Env)
    requires Lifts(w) && ExprOk(w, e) && Agree(w, Free(e), env, tenv)
    ensures SpineAlike(w, LEvalSpine(n, w.lp, e, env), PartsOf(n, w, e, tenv))
    decreases n, 1, e, 4
  {
    hide Lifts, ExprOk, Agree, Free, LEvalSpine, SpineAlike, PartsOf;
    match e
    case LConst(_) => ConstParts(n, w, e, env, tenv);
    case LVar(_) => VarParts(n, w, e, env, tenv);
    case LBlock(_, _) => BlockParts(n, w, e, env, tenv);
    case LApp(_) => AppPartsSim(n, w, e, env, tenv);
  }

  lemma ConstParts(n: nat, w: World, e: LExpr, env: LEnv, tenv: Env)
    requires e.LConst? && ExprOk(w, e)
    ensures SpineAlike(w, LEvalSpine(n, w.lp, e, env), PartsOf(n, w, e, tenv))
  {
    CLeaves(w.sym, e);
    SplicedSame(Leaf(e.a));
  }

  lemma SplicedSame(t: Term)
    ensures Spliced(t, [], t, [])
  {
    var none: seq<Term> := [];
    assert t == Normal(t, none[..0]) && none == none[0..];
  }

  lemma VarParts(n: nat, w: World, e: LExpr, env: LEnv, tenv: Env)
    requires e.LVar? && Agree(w, Free(e), env, tenv)
    ensures SpineAlike(w, LEvalSpine(n, w.lp, e, env), PartsOf(n, w, e, tenv))
  {
    hide TrEnv, Tr, Good, Spliced;
    LookupTr(w, env, e.v);
    CLeaves(w.sym, e);
    TrNone(w.sym);
    SplicedSame(tenv[e.v]);
  }

  lemma BlockParts(n: nat, w: World, e: LExpr, env: LEnv, tenv: Env)
    requires e.LBlock? && ExprOk(w, e) && Agree(w, Free(e), env, tenv)
    ensures SpineAlike(w, LEvalSpine(n, w.lp, e, env), PartsOf(n, w, e, tenv))
  {
    hide TrEnv, Tr, Spliced, FreeOf, Values, VarArgs, EvalArgs, GoodEnv, BlockOk, AltsOk;
    var f := VClo(env, e.pos, e.alts);
    CLeaves(w.sym, e);
    var fv := Listing(FreeOf(e.alts));
    EvalVars(n, w.p, fv, TrEnv(w.sym, env), tenv);
    TrClo(w, f, []);
    TrNone(w.sym);
    SplicedAll(Leaf(CombAtom(w.sym(e.pos))), CloArgs(w, f), Tr(w.sym, f));
  }

  lemma SplicedAll(f: Term, args: seq<Term>, g: Term)
    requires g == Normal(f, args)
    ensures Spliced(f, args, g, [])
  {
    assert args[..|args|] == args && args[|args|..] == [];
  }

  lemma {:induction false} AppPartsSim(n: nat, w: World, e: LExpr, env: LEnv, tenv: Env)
    requires e.LApp? && Lifts(w) && ExprOk(w, e) && Agree(w, Free(e), env, tenv)
    ensures SpineAlike(w, LEvalSpine(n, w.lp, e, env), PartsOf(n, w, e, tenv))
    decreases n, 1, e, 3
  {
    hide Lifts, ExprOk, ExprsOk, Agree, Free, FreeAll, LEvalSpine, LEvalArgs, EvalArgs, CHead, CArgs, CAll, SpineAlike, ArgsAlike;
    var es := e.es;
    AppExpr(w, e, env, tenv);
    CLeaves(w.sym, e);
    PartsSim(n, w, es[0], env, tenv);
    ArgsSim(n, w, es[1..], env, tenv);
    EvalAppend(n, w.p, CArgs(w.sym, es[0]), CAll(w.sym, es[1..]), tenv);
    LSpineApp(n, w.lp, e, env);
    JoinSim(w, LEvalSpine(n, w.lp, es[0], env), PartsOf(n, w, es[0], tenv), LEvalArgs(n, w.lp, es[1..], env), EvalArgs(n, w.p, CAll(w.sym, es[1..]), tenv));
  }

  lemma AppExpr(w: World, e: LExpr, env: LEnv, tenv: Env)
    requires e.LApp? && ExprOk(w, e) && Agree(w, Free(e), env, tenv)
    ensures |e.es| >= 2 && ExprOk(w, e.es[0]) && ExprsOk(w, e.es[1..])
    ensures Agree(w, Free(e.es[0]), env, tenv) && Agree(w, FreeAll(e.es[1..]), env, tenv)
  {
    hide TrEnv, GoodEnv;
  }

  lemma LSpineApp(n: nat, P: LProgram, e: LExpr, env: LEnv)
    requires e.LApp? && e.es != []
    ensures var s := LEvalSpine(n, P, e.es[0], env);
            var v := LEvalArgs(n, P, e.es[1..], env);
            LEvalSpine(n, P, e, env) == if s.LHalt? then s else if v.LStop? then LHalt(v.r) else LSpine(s.f, s.args + v.vs)
  {
    hide LEvalArgs;
  }

  lemma JoinSim(w: World, s: LSpine, s1: Spine, v: LVals, v1: Vals)
    requires SpineAlike(w, s, s1) && ArgsAlike(w, v, v1)
    ensures SpineAlike(w, if s.LHalt? then s else if v.LStop? then LHalt(v.r) else LSpine(s.f, s.args + v.vs),
                       if s1.Halt? then s1 else if v1.Stop? then Halt(v1.r) else Spine(s1.f, s1.args + v1.ts))
  {
    hide Good, GoodAll, Tr, TrAll, Spliced, GoodRes;
    if s.LSpine? && v.LVals? {
      GoodAppend(w, s.args, v.vs);
      TrAppend(w.sym, s.args, v.vs);
      SplicedMore(s1.f, s1.args, Tr(w.sym, s.f), TrAll(w.sym, s.args), TrAll(w.sym, v.vs));
    }
  }

  lemma {:induction false} ArgsSim(n: nat, w: World, es: seq<LExpr>, env: LEnv, tenv: Env)
    requires Lifts(w) && ExprsOk(w, es) && Agree(w, FreeAll(es), env, tenv)
    ensures ArgsAlike(w, LEvalArgs(n, w.lp, es, env), EvalArgs(n, w.p, CAll(w.sym, es), tenv))
    decreases n, 1, es, 7
  {
    hide Lifts, ExprOk, Agree, Free, LEvalArgs, EvalArgs, C, LEval, Eval, Alike, ArgsAlike;
    ArgsStart(n, w, env, tenv);
    if es != [] {
      ArgsParts(n, w, es, env, tenv);
      EvalSim(n, w, es[0], env, tenv);
      ArgsSim(n, w, es[1..], env, tenv);
      ConsArgs(n, w.p, C(w.sym, es[0]), CAll(w.sym, es[1..]), tenv);
      ConsSim(w, LEval(n, w.lp, es[0], env), Eval(n, w.p, C(w.sym, es[0]), tenv), LEvalArgs(n, w.lp, es[1..], env), EvalArgs(n, w.p, CAll(w.sym, es[1..]), tenv));
    }
  }

  lemma ArgsStart(n: nat, w: World, env: LEnv, tenv: Env)
    ensures ArgsAlike(w, LEvalArgs(n, w.lp, [], env), EvalArgs(n, w.p, CAll(w.sym, []), tenv))
  {
  }

  lemma ArgsParts(n: nat, w: World, es: seq<LExpr>, env: LEnv, tenv: Env)
    requires es != [] && ExprsOk(w, es) && Agree(w, FreeAll(es), env, tenv)
    ensures ExprOk(w, es[0]) && ExprsOk(w, es[1..])
    ensures Agree(w, Free(es[0]), env, tenv) && Agree(w, FreeAll(es[1..]), env, tenv)
    ensures var r := LEval(n, w.lp, es[0], env);
            var v := LEvalArgs(n, w.lp, es[1..], env);
            LEvalArgs(n, w.lp, es, env) == if !r.LOk? then LStop(r) else if v.LStop? then v else LVals([r.v] + v.vs)
    ensures CAll(w.sym, es) == [C(w.sym, es[0])] + CAll(w.sym, es[1..])
  {
    hide LEval, C, TrEnv, GoodEnv;
  }

  lemma ConsSim(w: World, r: LRes, r1: Res, v: LVals, v1: Vals)
    requires Alike(w, r, r1) && ArgsAlike(w, v, v1)
    ensures ArgsAlike(w, if !r.LOk? then LStop(r) else if v.LStop? then v else LVals([r.v] + v.vs),
                      if !r1.Val? then Stop(r1) else if v1.Vals? then Vals([r1.t] + v1.ts) else Stop(v1.r))
  {
    hide Good, Tr;
    if r.LOk? && v.LVals? {
      assert ([r.v] + v.vs)[1..] == v.vs;
    }
  }
}
