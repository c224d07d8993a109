/** Evaluation does not depend on the names of variables, nor on the positions of blocks. */
module Alpha {
  import opened Terms
  import opened Syntax
  import opened Closures

  // Terms up to the names they bind

  /** The names in scope on both sides, the innermost first. */
  type Ctx = seq<(Name, Name)>

  /** Both names have the same innermost binder, or are the same and have none. */
  predicate SameVar(c: Ctx, x: Name, y: Name) {
    if c == [] then x == y
    else if c[0].0 == x || c[0].1 == y then c[0] == (x, y)
    else SameVar(c[1..], x, y)
  }

  predicate AlikePat(p: Pattern, q: Pattern) {
    match p
    case PConst(_) => p == q
    case PVar(_) => q.PVar?
    case PTag(p1, s) => q.PTag? && q.tag == s && AlikePat(p1, q.p)
    case PApp(ps) => q.PApp? && AlikePats(ps, q.ps)
  }

  predicate AlikePats(ps: seq<Pattern>, qs: seq<Pattern>) {
    |ps| == |qs| && (ps != [] ==> AlikePat(ps[0], qs[0]) && AlikePats(ps[1..], qs[1..]))
  }

  /** The scope after a pattern. */
  function PatCtx(p: Pattern, q: Pattern, c: Ctx): Ctx
    requires AlikePat(p, q)
  {
    match p
    case PConst(_) => c
    case PVar(x) => [(x, q.v)] + c
    case PTag(p1, _) => PatCtx(p1, q.p, c)
    case PApp(ps) => PatsCtx(ps, q.ps, c)
  }

  function PatsCtx(ps: seq<Pattern>, qs: seq<Pattern>, c: Ctx): Ctx
    requires AlikePats(ps, qs)
  {
    if ps == [] then c else PatsCtx(ps[1..], qs[1..], PatCtx(ps[0], qs[0], c))
  }

  predicate Alike(c: Ctx, e: LExpr, f: LExpr)
    decreases e
  {
    match e
    case LConst(_) => e == f
    case LVar(x) => f.LVar? && SameVar(c, x, f.v)
    case LApp(es) => f.LApp? && AlikeAll(c, es, f.es)
    case LBlock(_, alts) => f.LBlock? && AlikeAlts(c, alts, f.alts)
  }

  predicate AlikeAll(c: Ctx, es: seq<LExpr>, fs: seq<LExpr>)
    decreases es
  {
    |es| == |fs| && (es != [] ==> Alike(c, es[0], fs[0]) && AlikeAll(c, es[1..], fs[1..]))
  }

  predicate AlikeAlts(c: Ctx, ms: seq<LAlt>, ns: seq<LAlt>)
    decreases ms
  {
    |ms| == |ns| &&
    (ms != [] ==>
      AlikePats(ms[0].pats, ns[0].pats) && Alike(PatsCtx(ms[0].pats, ns[0].pats, c), ms[0].body, ns[0].body) && AlikeAlts(c, ms[1..], ns[1..]))
  }

  predicate AlikeDef(d: LDef, e: LDef) {
    match d
    case LCode(ms) => e.LCode? && AlikeAlts([], ms, e.alts)
    case LValue(b) => e.LValue? && Alike([], b, e.e)
    case _ => d == e
  }

  ghost predicate AlikeProgram(P: LProgram, Q: LProgram) {
    P.Keys == Q.Keys && forall s :: s in P ==> AlikeDef(P[s], Q[s])
  }

  // Values

  /** Closures are alike if their environments are, and their alternatives under the names of these. */
  predicate AlikeVal(v: LVal, w: LVal)
    decreases v
  {
    match v
    case VLeaf(_) => v == w
    case VNode(vs) => w.VNode? && AlikeVals(vs, w.vs)
    case VClo(env, _, alts) => w.VClo? && AlikeEnv(env, w.env) && AlikeAlts(Names(env, w.env), alts, w.alts)
  }

  predicate AlikeVals(vs: seq<LVal>, ws: seq<LVal>)
    decreases vs
  {
    |vs| == |ws| && (vs != [] ==> AlikeVal(vs[0], ws[0]) && AlikeVals(vs[1..], ws[1..]))
  }

  predicate AlikeEnv(env: LEnv, fnv: LEnv)
    decreases env
  {
    |env| == |fnv| && (env != [] ==> AlikeVal(env[0].v, fnv[0].v) && AlikeEnv(env[1..], fnv[1..]))
  }

  function Names(env: LEnv, fnv: LEnv): (c: Ctx)
    requires |env| == |fnv|
  {
    if env == [] then [] else [(env[0].x, fnv[0].x)] + Names(env[1..], fnv[1..])
  }

  predicate AlikeRes(r: LRes, s: LRes) {
    match r
    case LOut => s.LOut?
    case LOk(v) => s.LOk? && AlikeVal(v, s.v)
    case LExc(vs) => s.LExc? && AlikeVals(vs, s.vs)
    case LUndef(_) => r == s
  }

  predicate AlikeSpine(r: LSpine, s: LSpine) {
    match r
    case LSpine(f, args) => s.LSpine? && AlikeVal(f, s.f) && AlikeVals(args, s.args)
    case LHalt(x) => s.LHalt? && AlikeRes(x, s.r)
  }

  predicate AlikeArgs(r: LVals, s: LVals) {
    match r
    case LVals(vs) => s.LVals? && AlikeVals(vs, s.vs)
    case LStop(x) => s.LStop? && AlikeRes(x, s.r)
  }

  // Sequences

  lemma {:induction false} ValsJoin(vs: seq<LVal>, ws: seq<LVal>, vs1: seq<LVal>, ws1: seq<LVal>)
    requires AlikeVals(vs, ws) && AlikeVals(vs1, ws1)
    ensures AlikeVals(vs + vs1, ws + ws1)
    decreases vs
  {
    hide AlikeVal;
    if vs == [] {
      assert vs + vs1 == vs1 && ws + ws1 == ws1;
    } else {
      ValsJoin(vs[1..], ws[1..], vs1, ws1);
      assert (vs + vs1)[1..] == vs[1..] + vs1 && (ws + ws1)[1..] == ws[1..] + ws1;
    }
  }

  lemma {:induction false} ValsSplit(vs: seq<LVal>, ws: seq<LVal>, m: nat)
    requires AlikeVals(vs, ws) && m <= |vs|
    ensures AlikeVals(vs[..m], ws[..m]) && AlikeVals(vs[m..], ws[m..])
    decreases m
  {
    hide AlikeVal;
    if m == 0 {
      assert vs[0..] == vs && ws[0..] == ws;
    } else {
      ValsSplit(vs[1..], ws[1..], m - 1);
      assert vs[..m][1..] == vs[1..][..m - 1] && ws[..m][1..] == ws[1..][..m - 1];
      assert vs[m..] == vs[1..][m - 1..] && ws[m..] == ws[1..][m - 1..];
    }
  }

  lemma ValsCons(v: LVal, w: LVal, vs: seq<LVal>, ws: seq<LVal>)
    requires AlikeVal(v, w) && AlikeVals(vs, ws)
    ensures AlikeVals([v] + vs, [w] + ws)
  {
    hide AlikeVal;
    assert ([v] + vs)[1..] == vs && ([w] + ws)[1..] == ws;
  }

  lemma ValsParts(vs: seq<LVal>, ws: seq<LVal>)
    requires AlikeVals(vs, ws)
    ensures |vs| == |ws| && (vs != [] ==> AlikeVal(vs[0], ws[0]) && AlikeVals(vs[1..], ws[1..]))
  {
  }

  lemma NormalAlike(f: LVal, g: LVal, vs: seq<LVal>, ws: seq<LVal>)
    requires AlikeVal(f, g) && AlikeVals(vs, ws)
    ensures AlikeVal(LNormal(f, vs), LNormal(g, ws))
  {
    ValsCons(f, g, vs, ws);
  }

  // Variables and patterns

  lemma {:induction false} LookupAlike(env: LEnv, fnv: LEnv, x: Name, y: Name)
    requires AlikeEnv(env, fnv) && SameVar(Names(env, fnv), x, y)
    ensures IsBound(env, x) == IsBound(fnv, y)
    ensures IsBound(env, x) ==> AlikeVal(Lookup(env, x), Lookup(fnv, y))
    decreases |env|
  {
    hide AlikeVal;
    if env != [] {
      assert Names(env, fnv)[1..] == Names(env[1..], fnv[1..]);
      if env[0].x != x && fnv[0].x != y {
        LookupAlike(env[1..], fnv[1..], x, y);
      }
    }
  }

  lemma EnvPush(x: Name, y: Name, v: LVal, w: LVal, env: LEnv, fnv: LEnv)
    requires AlikeVal(v, w) && AlikeEnv(env, fnv)
    ensures AlikeEnv([Bind(x, v)] + env, [Bind(y, w)] + fnv)
    ensures Names([Bind(x, v)] + env, [Bind(y, w)] + fnv) == [(x, y)] + Names(env, fnv)
  {
    hide AlikeVal;
    assert ([Bind(x, v)] + env)[1..] == env && ([Bind(y, w)] + fnv)[1..] == fnv;
  }

  ghost predicate MatchedAlike(r: (bool, LEnv), s: (bool, LEnv), c: Ctx) {
    r.0 == s.0 && (r.0 ==> AlikeEnv(r.1, s.1) && Names(r.1, s.1) == c)
  }

  lemma EnvLength(env: LEnv, fnv: LEnv)
    requires AlikeEnv(env, fnv)
    ensures |env| == |fnv|
  {
  }

  lemma {:induction false} MatchAlike(p: Pattern, q: Pattern, v: LVal, w: LVal, env: LEnv, fnv: LEnv)
    requires AlikePat(p, q) && AlikeVal(v, w) && AlikeEnv(env, fnv)
    ensures |env| == |fnv| && MatchedAlike(LMatch(p, v, env), LMatch(q, w, fnv), PatCtx(p, q, Names(env, fnv)))
    decreases p, 1
  {
    hide AlikeEnv, Names, AlikeVals;
    EnvLength(env, fnv);
    match p
    case PConst(_) =>
    case PVar(x) => EnvPush(x, q.v, v, w, env, fnv);
    case PTag(p1, _) => MatchAlike(p1, q.p, v, w, env, fnv);
    case PApp(ps) =>
      if v.VNode? {
        ValsParts(v.vs, w.vs);
        if |v.vs| == |ps| {
          MatchesAlike(ps, q.ps, v.vs, w.vs, env, fnv);
        }
      }
  }

  lemma {:induction false} MatchesAlike(ps: seq<Pattern>, qs: seq<Pattern>, vs: seq<LVal>, ws: seq<LVal>, env: LEnv, fnv: LEnv)
    requires AlikePats(ps, qs) && AlikeVals(vs, ws) && AlikeEnv(env, fnv) && |ps| == |vs|
    ensures |env| == |fnv| && |qs| == |ws| && MatchedAlike(LMatches(ps, vs, env), LMatches(qs, ws, fnv), PatsCtx(ps, qs, Names(env, fnv)))
    decreases ps, 0
  {
    hide AlikeEnv, Names, AlikeVal, AlikePat, LMatch;
    EnvLength(env, fnv);
    if ps != [] {
      MatchAlike(ps[0], qs[0], vs[0], ws[0], env, fnv);
      if LMatch(ps[0], vs[0], env).0 {
        MatchesAlike(ps[1..], qs[1..], vs[1..], ws[1..], LMatch(ps[0], vs[0], env).1, LMatch(qs[0], ws[0], fnv).1);
      }
    }
  }

  ghost predicate SelectedAlike(r: LSelected, s: LSelected) {
    match r
    case LChosen(env, body, m) => s.LChosen? && m == s.arity && AlikeEnv(env, s.env) && |env| == |s.env| && Alike(Names(env, s.env), body, s.body)
    case LNoAlt => s.LNoAlt?
  }

  lemma {:induction false} SelectAlike(ms: seq<LAlt>, ns: seq<LAlt>, vs: seq<LVal>, ws: seq<LVal>, env: LEnv, fnv: LEnv)
    requires AlikeVals(vs, ws) && AlikeEnv(env, fnv) && |env| == |fnv| && AlikeAlts(Names(env, fnv), ms, ns)
    ensures SelectedAlike(LSelect(ms, vs, env), LSelect(ns, ws, fnv))
    decreases |ms|
  {
    hide AlikeEnv, Names, AlikeVal, AlikePat, LMatches, AlikeVals, Alike, AlikePats, PatsCtx;
    if ms != [] {
      ValsParts(vs, ws);
      SelectAlike(ms[1..], ns[1..], vs, ws, env, fnv);
      PatsLength(ms[0].pats, ns[0].pats);
      var m := |ms[0].pats|;
      if m <= |vs| {
        ValsSplit(vs, ws, m);
        MatchesAlike(ms[0].pats, ns[0].pats, vs[..m], ws[..m], env, fnv);
        SelectFirst(ms, ns, vs, ws, env, fnv);
      }
    }
  }

  lemma PatsLength(ps: seq<Pattern>, qs: seq<Pattern>)
    requires AlikePats(ps, qs)
    ensures |ps| == |qs|
  {
  }

  lemma SelectFirst(ms: seq<LAlt>, ns: seq<LAlt>, vs: seq<LVal>, ws: seq<LVal>, env: LEnv, fnv: LEnv)
    requires ms != [] && ns != [] && |ms[0].pats| == |ns[0].pats| <= |vs| == |ws| && |env| == |fnv| && AlikePats(ms[0].pats, ns[0].pats)
    requires var m := |ms[0].pats|;
             MatchedAlike(LMatches(ms[0].pats, vs[..m], env), LMatches(ns[0].pats, ws[..m], fnv), PatsCtx(ms[0].pats, ns[0].pats, Names(env, fnv)))
    requires Alike(PatsCtx(ms[0].pats, ns[0].pats, Names(env, fnv)), ms[0].body, ns[0].body)
    requires SelectedAlike(LSelect(ms[1..], vs, env), LSelect(ns[1..], ws, fnv))
    ensures SelectedAlike(LSelect(ms, vs, env), LSelect(ns, ws, fnv))
  {
    hide AlikeEnv, LMatches, Alike, AlikePats, PatsCtx;
    EnvsLength(LMatches(ms[0].pats, vs[..|ms[0].pats|], env), LMatches(ns[0].pats, ws[..|ms[0].pats|], fnv), PatsCtx(ms[0].pats, ns[0].pats, Names(env, fnv)));
  }

  lemma EnvsLength(r: (bool, LEnv), s: (bool, LEnv), c: Ctx)
    requires r.0 && s.0 ==> AlikeEnv(r.1, s.1)
    ensures r.0 && s.0 ==> |r.1| == |s.1|
  {
  }

  // Evaluation

  /** Alike programs give alike values applied to alike arguments alike results, with the same fuel. */
  lemma {:induction false} ApplyAlike(n: nat, P: LProgram, Q: LProgram, f: LVal, g: LVal, vs: seq<LVal>, ws: seq<LVal>)
    requires AlikeProgram(P, Q) && AlikeVal(f, g) && AlikeVals(vs, ws)
    ensures AlikeRes(LApply(n, P, f, vs), LApply(n, Q, g, ws))
    decreases n, 0, f, 1
  {
    hide AlikeVals, AlikeProgram, AlikeEnv, AlikeAlts, LSelect, LEvalRoot, Names, SelectedAlike;
    match f
    case VNode(us) =>
      ValsParts(us, g.vs);
      if us != [] {
        ValsJoin(us[1..], g.vs[1..], vs, ws);
        ApplyAlike(n, P, Q, us[0], g.vs[0], us[1..] + vs, g.vs[1..] + ws);
      }
    case VClo(env, _, alts) =>
      if n > 0 {
        EnvLength(env, g.env);
        SelectAlike(alts, g.alts, vs, ws, env, g.env);
        NormalAlike(f, g, vs, ws);
        ChosenAlike(n - 1, P, Q, LSelect(alts, vs, env), LSelect(g.alts, ws, g.env), f, g, vs, ws);
      }
    case VLeaf(a) =>
      NormalAlike(f, g, vs, ws);
      if a.CombAtom? {
        CombAlike(n, P, Q, a.sym, vs, ws);
      }
  }

  /** The result of a selection. */
  function AfterSelect(n: nat, P: LProgram, c: LSelected, f: LVal, vs: seq<LVal>): LRes {
    match c
    case LNoAlt => LOk(LNormal(f, vs))
    case LChosen(env1, body, m) => if m <= |vs| then LEvalRoot(n, P, body, env1, vs[m..]) else LOut
  }

  lemma {:induction false} ChosenAlike(n: nat, P: LProgram, Q: LProgram, c: LSelected, d: LSelected, f: LVal, g: LVal, vs: seq<LVal>, ws: seq<LVal>)
    requires AlikeProgram(P, Q) && SelectedAlike(c, d) && AlikeVals(vs, ws) && AlikeVal(LNormal(f, vs), LNormal(g, ws))
    ensures AlikeRes(AfterSelect(n, P, c, f, vs), AfterSelect(n, Q, d, g, ws))
    decreases n, 2
  {
    hide AlikeVals, AlikeProgram, AlikeEnv, Alike, LEvalRoot, Names, LNormal, AlikeVal;
    ValsParts(vs, ws);
    if c.LChosen? && c.arity <= |vs| {
      ValsSplit(vs, ws, c.arity);
      RootAlike(n, P, Q, c.body, d.body, c.env, d.env, vs[c.arity..], ws[c.arity..]);
    }
  }

  lemma {:induction false} CombAlike(n: nat, P: LProgram, Q: LProgram, s: Symbol, vs: seq<LVal>, ws: seq<LVal>)
    requires AlikeProgram(P, Q) && AlikeVals(vs, ws) && AlikeVal(LNormal(VLeaf(CombAtom(s)), vs), LNormal(VLeaf(CombAtom(s)), ws))
    ensures AlikeRes(LApply(n, P, VLeaf(CombAtom(s)), vs), LApply(n, Q, VLeaf(CombAtom(s)), ws))
    decreases n, 0, VLeaf(CombAtom(s)), 0
  {
    hide AlikeVals, AlikeEnv, AlikeAlts, LSelect, LEvalRoot, Names, LNormal, Alike, SelectedAlike;
    ValsParts(vs, ws);
    var f := VLeaf(CombAtom(s));
    if s in P {
      assert AlikeDef(P[s], Q[s]);
      match P[s]
      case LData =>
      case LThrow =>
      case LHandle =>
        if |vs| >= 2 && n > 0 {
          HandleAlike(n, P, Q, vs, ws);
        }
      case LCode(ms) =>
        if n > 0 {
          NoneAlike();
          SelectAlike(ms, Q[s].alts, vs, ws, [], []);
          ChosenAlike(n - 1, P, Q, LSelect(ms, vs, []), LSelect(Q[s].alts, ws, []), f, f, vs, ws);
        }
      case LValue(e) =>
        if n > 0 {
          NoneAlike();
          RootAlike(n - 1, P, Q, e, Q[s].e, [], [], vs, ws);
        }
    }
  }

  lemma NoneAlike()
    ensures AlikeEnv([], []) && Names([], []) == [] && AlikeVals([], []) && AlikeVal(LNONE, LNONE)
  {
  }

  lemma {:induction false} HandleAlike(n: nat, P: LProgram, Q: LProgram, vs: seq<LVal>, ws: seq<LVal>)
    requires AlikeProgram(P, Q) && AlikeVals(vs, ws) && n > 0 && |vs| == |ws| >= 2
    ensures var r := LApply(n - 1, P, vs[1], [LNONE] + vs[2..]);
            var s := LApply(n - 1, Q, ws[1], [LNONE] + ws[2..]);
            && AlikeRes(r, s)
            && (r.LExc? ==> AlikeRes(LApply(n - 1, P, vs[0], [LNONE] + r.vs), LApply(n - 1, Q, ws[0], [LNONE] + s.vs)))
    decreases n - 1, 5
  {
    hide AlikeVals, AlikeProgram, AlikeVal, LApply;
    ValsParts(vs, ws);
    ValsParts(vs[1..], ws[1..]);
    ValsSplit(vs, ws, 2);
    NoneAlike();
    ValsCons(LNONE, LNONE, vs[2..], ws[2..]);
    ApplyAlike(n - 1, P, Q, vs[1], ws[1], [LNONE] + vs[2..], [LNONE] + ws[2..]);
    var r := LApply(n - 1, P, vs[1], [LNONE] + vs[2..]);
    if r.LExc? {
      var s := LApply(n - 1, Q, ws[1], [LNONE] + ws[2..]);
      ValsCons(LNONE, LNONE, r.vs, s.vs);
      ApplyAlike(n - 1, P, Q, vs[0], ws[0], [LNONE] + r.vs, [LNONE] + s.vs);
    }
  }

  lemma {:induction false} RootAlike(n: nat, P: LProgram, Q: LProgram, e: LExpr, f: LExpr, env: LEnv, fnv: LEnv, vs: seq<LVal>, ws: seq<LVal>)
    requires AlikeProgram(P, Q) && AlikeEnv(env, fnv) && |env| == |fnv| && Alike(Names(env, fnv), e, f) && AlikeVals(vs, ws)
    ensures AlikeRes(LEvalRoot(n, P, e, env, vs), LEvalRoot(n, Q, f, fnv, ws))
    decreases n, 1, e, 1
  {
    hide AlikeVals, AlikeProgram, AlikeEnv, Alike, LEvalSpine, Names, AlikeVal, LApply;
    SpineAlike(n, P, Q, e, f, env, fnv);
    var r, s := LEvalSpine(n, P, e, env), LEvalSpine(n, Q, f, fnv);
    if r.LSpine? {
      ValsJoin(r.args, s.args, vs, ws);
      ApplyAlike(n, P, Q, r.f, s.f, r.args + vs, s.args + ws);
    }
  }

  lemma {:induction false} EvalAlike(n: nat, P: LProgram, Q: LProgram, e: LExpr, f: LExpr, env: LEnv, fnv: LEnv)
    requires AlikeProgram(P, Q) && AlikeEnv(env, fnv) && |env| == |fnv| && Alike(Names(env, fnv), e, f)
    ensures AlikeRes(LEval(n, P, e, env), LEval(n, Q, f, fnv))
    decreases n, 1, e, 2
  {
    hide AlikeVals, AlikeProgram, AlikeEnv, LEvalSpine, Names, AlikeVal, LApply, AlikeAll, AlikeAlts;
    if e.LVar? {
      LookupAlike(env, fnv, e.v, f.v);
    } else {
      SpineAlike(n, P, Q, e, f, env, fnv);
      var r, s := LEvalSpine(n, P, e, env), LEvalSpine(n, Q, f, fnv);
      if r.LSpine? {
        ApplyAlike(n, P, Q, r.f, s.f, r.args, s.args);
      }
    }
  }

  lemma {:induction false} SpineAlike(n: nat, P: LProgram, Q: LProgram, e: LExpr, f: LExpr, env: LEnv, fnv: LEnv)
    requires AlikeProgram(P, Q) && AlikeEnv(env, fnv) && |env| == |fnv| && Alike(Names(env, fnv), e, f)
    ensures AlikeSpine(LEvalSpine(n, P, e, env), LEvalSpine(n, Q, f, fnv))
    decreases n, 1, e, 0
  {
    hide AlikeVals, AlikeProgram, AlikeEnv, Names, AlikeAlts, LEvalArgs, AlikeAll;
    NoneAlike();
    match e
    case LConst(_) =>
    case LVar(x) => LookupAlike(env, fnv, x, f.v);
    case LBlock(_, _) =>
    case LApp(es) =>
      AllParts(Names(env, fnv), es, f.es);
      if es != [] {
        SpineAlike(n, P, Q, es[0], f.es[0], env, fnv);
        ArgsAlike(n, P, Q, es[1..], f.es[1..], env, fnv);
        var r, s := LEvalSpine(n, P, es[0], env), LEvalSpine(n, Q, f.es[0], fnv);
        var v, w := LEvalArgs(n, P, es[1..], env), LEvalArgs(n, Q, f.es[1..], fnv);
        if r.LSpine? && v.LVals? {
          ValsJoin(r.args, s.args, v.vs, w.vs);
        }
      }
  }

  lemma AllParts(c: Ctx, es: seq<LExpr>, fs: seq<LExpr>)
    requires AlikeAll(c, es, fs)
    ensures |es| == |fs| && (es != [] ==> Alike(c, es[0], fs[0]) && AlikeAll(c, es[1..], fs[1..]))
  {
  }

  lemma {:induction false} ArgsAlike(n: nat, P: LProgram, Q: LProgram, es: seq<LExpr>, fs: seq<LExpr>, env: LEnv, fnv: LEnv)
    requires AlikeProgram(P, Q) && AlikeEnv(env, fnv) && |env| == |fnv| && AlikeAll(Names(env, fnv), es, fs)
    ensures AlikeArgs(LEvalArgs(n, P, es, env), LEvalArgs(n, Q, fs, fnv))
    decreases n, 1, es, 0
  {
    hide AlikeVals, AlikeProgram, AlikeEnv, Names, Alike, AlikeVal, LEval;
    NoneAlike();
    if es != [] {
      EvalAlike(n, P, Q, es[0], fs[0], env, fnv);
      ArgsAlike(n, P, Q, es[1..], fs[1..], env, fnv);
      var r, s := LEval(n, P, es[0], env), LEval(n, Q, fs[0], fnv);
      var v, w := LEvalArgs(n, P, es[1..], env), LEvalArgs(n, Q, fs[1..], fnv);
      if r.LOk? && v.LVals? {
        ValsCons(r.v, s.v, v.vs, w.vs);
      }
    }
  }
}
