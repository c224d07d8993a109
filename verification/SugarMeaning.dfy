/** A direct semantics of the surface language, and that desugared terms mean the same. */
module SugarMeaning {
  import opened Terms
  import Tags
  import opened Syntax
  import opened Closures
  import opened Sugar

  /** SDoClo is a do, waiting for the argument that its pipe is applied to. */
  datatype SVal =
    | SLeaf(a: Atom)
    | SNode(vs: seq<SVal>)
    | SClo(env: SEnv, pos: nat, alts: seq<SAlt>)
    | SDoClo(env: SEnv, pos: nat, x: Name, body: Ast)

  datatype SBind = SBind(x: Name, v: SVal)

  type SEnv = seq<SBind>

  datatype SDef =
    | SData
    | SThrowDef
    | SHandleDef
    | SCode(alts: seq<SAlt>)
    | SValue(e: Ast)

  type SProgram = map<Symbol, SDef>

  datatype SRes = SOut | SOk(v: SVal) | SExc(vs: seq<SVal>) | SUndef(s: Symbol)

  datatype SVals = SVals(vs: seq<SVal>) | SStop(r: SRes)

  /** What stands in head position: a value, a body still to be evaluated with the arguments that follow, a
      guarded body with its handler, a throw, or the next function of a pipe. */
  datatype Head =
    | HVal(v: SVal)
    | HBody(e: Ast, env: SEnv)
    | HTry(t: Ast, c: Ast, envT: SEnv, envC: SEnv)
    | HThrow
    | HNext(v: SVal)

  datatype SSpine = SSpine(h: Head, args: seq<SVal>) | SHalt(r: SRes)

  datatype SSelected = SChosen(env: SEnv, body: Ast, arity: nat) | SNoAlt

  function SBound(env: SEnv, x: Name): bool {
    env != [] && (env[0].x == x || SBound(env[1..], x))
  }

  function SLookup(env: SEnv, x: Name): SVal
    requires SBound(env, x)
  {
    if env[0].x == x then env[0].v else SLookup(env[1..], x)
  }

  function SNormal(f: SVal, args: seq<SVal>): SVal {
    if args == [] then f else SNode([f] + args)
  }

  function SComb(s: Symbol): SVal {
    SLeaf(CombAtom(s))
  }

  const SNONE := SComb(SYMBOL_NONE)

  // Matching

  /** The pattern stands for an application. */
  predicate IsSpine(p: Ast)
    decreases p
  {
    match p
    case SConst(_) => false
    case SVar(_) => false
    case SWild(_) => false
    case STag(_, _) => false
    case SApp(ps) => |ps| != 1 || IsSpine(ps[0])
    case STuple(ps) => ps != []
    case SList(es, tl) => es != [] || (tl != [] && IsSpine(tl[0]))
    case _ => true
  }

  function SHasTag(v: SVal, s: Symbol): bool {
    match v
    case SLeaf(a) => AtomSymbol(a) == s
    case SNode(_) => s == SYMBOL_ARRAY
    case SClo(_, _, _) => false
    case SDoClo(_, _, _, _) => false
  }

  /** A wildcard binds a name that nothing refers to. An application in head position matches the first parts. */
  function SMatch(p: Ast, v: SVal, env: SEnv): (bool, SEnv)
    decreases p, 1, 0
  {
    match p
    case SConst(a) => (v == SLeaf(a), env)
    case SVar(x) => (true, [SBind(x, v)] + env)
    case SWild(w) => (true, [SBind(w, v)] + env)
    case STag(q, s) =>
      var (ok, env1) := SMatch(q, v, env);
      (ok && SHasTag(v, s), env1)
    case STuple(ps) =>
      if ps == [] then (v == SComb(SYMBOL_TUPLE), env)
      else if v.SNode? && |v.vs| == |ps| + 1 && v.vs[0] == SComb(SYMBOL_TUPLE) then SMatches(ps, v.vs[1..], env)
      else (false, env)
    case SList(_, _) => SMatchList(p, 0, v, env)
    case SApp(ps) =>
      if ps == [] then (v == SNode([]), env)
      else if |ps| == 1 then SMatch(ps[0], v, env)
      else if !v.SNode? || |v.vs| < |ps| - 1 then (false, env)
      else
        var m := |v.vs| - (|ps| - 1);
        if !IsSpine(ps[0]) && m != 1 then (false, env)
        else
          var (ok, env1) := SMatch(ps[0], if IsSpine(ps[0]) then SNode(v.vs[..m]) else v.vs[0], env);
          if ok then SMatches(ps[1..], v.vs[m..], env1) else (false, env1)
    case _ => (v == SNode([]), env)
  }

  /** A tag asks for an application, a literal of its kind or the combinator itself; no function has one. */
  lemma TagMeans(q: Ast, s: Symbol, v: SVal, env: SEnv)
    ensures SMatch(STag(q, s), v, env).1 == SMatch(q, v, env).1
    ensures SMatch(STag(q, s), v, env).0 <==>
              && SMatch(q, v, env).0
              && (|| (v.SNode? && HasName(s, "System::array"))
                  || (v.SLeaf? && v.a.IntAtom? && HasName(s, "System::int"))
                  || (v.SLeaf? && v.a.CharAtom? && HasName(s, "System::char"))
                  || (v.SLeaf? && v.a.TextAtom? && HasName(s, "System::text"))
                  || v == SLeaf(CombAtom(s)))
  {
    hide SystemNames, HasName, SMatches, SMatchList;
    SymbolNames();
    Tags.NamedAll(s);
  }

  function SMatches(ps: seq<Ast>, vs: seq<SVal>, env: SEnv): (bool, SEnv)
    requires |ps| == |vs|
    decreases ps, 0, 0
  {
    if ps == [] then (true, env)
    else
      var (ok, env1) := SMatch(ps[0], vs[0], env);
      if ok then SMatches(ps[1..], vs[1..], env1) else (false, env1)
  }

  /** A list pattern from element i on. */
  function SMatchList(p: Ast, i: nat, v: SVal, env: SEnv): (bool, SEnv)
    requires p.SList? && i <= |p.es|
    decreases p, 0, |p.es| - i
  {
    if i == |p.es| then
      if p.tl == [] then (v == SComb(SYMBOL_NIL), env) else SMatch(p.tl[0], v, env)
    else if v.SNode? && |v.vs| == 3 && v.vs[0] == SComb(SYMBOL_CONS) then
      var (ok, env1) := SMatch(p.es[i], v.vs[1], env);
      if ok then SMatchList(p, i + 1, v.vs[2], env1) else (false, env1)
    else (false, env)
  }

  function SSelect(alts: seq<SAlt>, args: seq<SVal>, env: SEnv): SSelected {
    if alts == [] then SNoAlt
    else
      var n := |alts[0].pats|;
      if n <= |args| && SMatches(alts[0].pats, args[..n], env).0
      then SChosen(SMatches(alts[0].pats, args[..n], env).1, alts[0].body, n)
      else SSelect(alts[1..], args, env)
  }

  // Evaluation. Unfolding a definition, entering a body, and installing a handler use fuel.

  function SApply(n: nat, k: Known, P: SProgram, f: SVal, args: seq<SVal>): SRes
    decreases n, 0, f
  {
    match f
    case SNode(vs) => if vs == [] then SOut else SApply(n, k, P, vs[0], vs[1..] + args)
    case SClo(env, _, alts) =>
      if n == 0 then SOut
      else
        (match SSelect(alts, args, env)
        case SNoAlt => SOk(SNormal(f, args))
        case SChosen(env1, body, m) => if m <= |args| then SEvalRoot(n - 1, k, P, body, env1, args[m..]) else SOut)
    case SDoClo(env, _, x, body) =>
      if n == 0 then SOut
      else if args == [] then SOk(f)
      else
        (match SDoSpine(n - 1, k, P, body, [SBind(x, args[0])] + env, args[0])
        case SSpine(h, vs) => SApplyHead(n - 1, k, P, h, vs + args[1..])
        case SHalt(r) => r)
    case SLeaf(a) =>
      if !a.CombAtom? then SOk(SNormal(f, args))
      else if a.sym !in P then SUndef(a.sym)
      else match P[a.sym]
        case SData => SOk(SNormal(f, args))
        case SThrowDef => if args == [] then SOk(f) else SExc(args)
        case SHandleDef =>
          if |args| < 2 then SOk(SNormal(f, args))
          else if n == 0 then SOut
          else
            var r := SApply(n - 1, k, P, args[1], [SNONE] + args[2..]);
            if r.SExc? then SApply(n - 1, k, P, args[0], [SNONE] + r.vs) else r
        case SCode(alts) =>
          if n == 0 then SOut
          else
            (match SSelect(alts, args, [])
            case SNoAlt => SOk(SNormal(f, args))
            case SChosen(env1, body, m) => if m <= |args| then SEvalRoot(n - 1, k, P, body, env1, args[m..]) else SOut)
        case SValue(e) => if n == 0 then SOut else SEvalRoot(n - 1, k, P, e, [], args)
  }

  function SApplyHead(n: nat, k: Known, P: SProgram, h: Head, args: seq<SVal>): SRes
    decreases n, 1
  {
    match h
    case HVal(v) => SApply(n, k, P, v, args)
    case HBody(e, env) => if n == 0 then SOut else SEvalRoot(n - 1, k, P, e, env, args)
    case HTry(t, c, envT, envC) =>
      if n < 2 then SOut
      else
        var r := SEvalRoot(n - 2, k, P, t, envT, args);
        if r.SExc? then SEvalRoot(n - 2, k, P, c, envC, r.vs) else r
    case HThrow => SExc(args)
    case HNext(v) => if n == 0 then SOut else SApply(n - 1, k, P, v, args)
  }

  function SEvalRoot(n: nat, k: Known, P: SProgram, e: Ast, env: SEnv, extra: seq<SVal>): SRes
    decreases n, 2, e, 3
  {
    match SEvalSpine(n, k, P, e, env)
    case SSpine(h, args) => SApplyHead(n, k, P, h, args + extra)
    case SHalt(r) => r
  }

  function SEval(n: nat, k: Known, P: SProgram, e: Ast, env: SEnv): SRes
    decreases n, 2, e, 4
  {
    if e.SVar? then (if SBound(env, e.x) then SOk(SLookup(env, e.x)) else SOut)
    else if e.SList? && e.es == [] && e.tl != [] then SEval(n, k, P, e.tl[0], env)
    else
      match SEvalSpine(n, k, P, e, env)
      case SSpine(h, args) => SApplyHead(n, k, P, h, args)
      case SHalt(r) => r
  }

  /** The head of a term and its arguments, evaluated from left to right. */
  function SEvalSpine(n: nat, k: Known, P: SProgram, e: Ast, env: SEnv): SSpine
    decreases n, 2, e, 2
  {
    match e
    case SConst(a) => SSpine(HVal(SLeaf(a)), [])
    case SVar(x) => if SBound(env, x) then SSpine(HVal(SLookup(env, x)), []) else SHalt(SOut)
    case SBlock(pos, alts) => SSpine(HVal(SClo(env, pos, alts)), [])
    case SLambda(pos, alts) => SSpine(HVal(SClo(env, pos, alts)), [])
    case SDo(pos, x, b) => SSpine(HVal(SDoClo(env, pos, x, b)), [])
    case SApp(es) =>
      if es == [] then SHalt(SOut)
      else
        (match SEvalSpine(n, k, P, es[0], env)
        case SHalt(r) => SHalt(r)
        case SSpine(h, args) =>
          match SEvalArgs(n, k, P, es[1..], env)
          case SVals(vs) => SSpine(h, args + vs)
          case SStop(r) => SHalt(r))
    case STuple(es) =>
      (match SEvalArgs(n, k, P, es, env)
      case SVals(vs) => SSpine(HVal(SComb(SYMBOL_TUPLE)), vs)
      case SStop(r) => SHalt(r))
    case SList(_, _) => SEvalList(n, k, P, e, 0, env)
    case SIf(_, w, i, t, f) =>
      var r := SEval(n, k, P, i, env);
      if !r.SOk? then SHalt(r)
      else SSpine(if r.v == SComb(SYMBOL_FALSE) then HBody(f, env) else HBody(t, [SBind(w, r.v)] + env), [])
    case SSeq(_, w, r0, l) =>
      var r := SEval(n, k, P, r0, env);
      if !r.SOk? then SHalt(r) else SSpine(HBody(l, [SBind(w, r.v)] + env), [])
    case SLet(pos, lhs, r0, l) =>
      var r := SEval(n, k, P, r0, env);
      if !r.SOk? then SHalt(r)
      else if |lhs| == 1 && SMatch(lhs[0], r.v, env).0 then SSpine(HBody(l, SMatch(lhs[0], r.v, env).1), [])
      else SSpine(HVal(SClo(env, pos, [SAlt(lhs, l)])), [r.v])
    case SThrow(b) =>
      var r := SEval(n, k, P, b, env);
      if !r.SOk? then SHalt(r) else SSpine(HThrow, [r.v])
    case STry(_, w, _, w1, t, c) =>
      if n == 0 then SHalt(SOut) else SSpine(HTry(t, c, [SBind(w1, SNONE)] + env, [SBind(w, SNONE)] + env), [])
    case _ => SHalt(SOut)
  }

  /** A list from element i on: its head is cons, its arguments an element and the rest. */
  function SEvalList(n: nat, k: Known, P: SProgram, e: Ast, i: nat, env: SEnv): SSpine
    requires e.SList? && i <= |e.es|
    decreases n, 2, e, 1, |e.es| - i, 0
  {
    if i == |e.es| then
      if e.tl == [] then SSpine(HVal(SComb(SYMBOL_NIL)), []) else SEvalSpine(n, k, P, e.tl[0], env)
    else
      var r := SEval(n, k, P, e.es[i], env);
      if !r.SOk? then SHalt(r)
      else
        var r1 := SEvalRest(n, k, P, e, i + 1, env);
        if !r1.SOk? then SHalt(r1) else SSpine(HVal(SComb(SYMBOL_CONS)), [r.v, r1.v])
  }

  function SEvalRest(n: nat, k: Known, P: SProgram, e: Ast, i: nat, env: SEnv): SRes
    requires e.SList? && 0 < i <= |e.es|
    decreases n, 2, e, 1, |e.es| - i, 1
  {
    if i == |e.es| && e.tl != [] then SEval(n, k, P, e.tl[0], env)
    else
      match SEvalList(n, k, P, e, i, env)
      case SSpine(h, args) => SApplyHead(n, k, P, h, args)
      case SHalt(r) => r
  }

  function SEvalArgs(n: nat, k: Known, P: SProgram, es: seq<Ast>, env: SEnv): SVals
    decreases n, 2, es, 0
  {
    if es == [] then SVals([])
    else
      var r := SEval(n, k, P, es[0], env);
      if !r.SOk? then SStop(r)
      else
        match SEvalArgs(n, k, P, es[1..], env)
        case SVals(vs) => SVals([r.v] + vs)
        case SStop(r1) => SStop(r1)
  }

  /** A pipe applied to v: the first function gets v, and each further one the result before it. */
  function SDoSpine(n: nat, k: Known, P: SProgram, e: Ast, env: SEnv, v: SVal): SSpine
    decreases n, 2, e, 5
  {
    if IsPipe(k, e) then
      var r := SDoValue(n, k, P, e.es[1], env, v);
      if !r.SOk? then SHalt(r)
      else
        match SEvalArgs(n, k, P, e.es[2..], env)
        case SStop(r1) => SHalt(r1)
        case SVals(vs) =>
          if k.pipe !in P || vs == [] then SSpine(HVal(SComb(k.pipe)), [r.v] + vs)
          else SSpine(HNext(vs[0]), [r.v] + vs[1..])
    else
      match SEvalSpine(n, k, P, e, env)
      case SHalt(r) => SHalt(r)
      case SSpine(h, args) => SSpine(h, args + [v])
  }

  function SDoValue(n: nat, k: Known, P: SProgram, e: Ast, env: SEnv, v: SVal): SRes
    decreases n, 2, e, 6
  {
    match SDoSpine(n, k, P, e, env, v)
    case SSpine(h, args) => SApplyHead(n, k, P, h, args)
    case SHalt(r) => r
  }

  // Desugared values

  function Tr(k: Known, v: SVal): LVal
    decreases v
  {
    match v
    case SLeaf(a) => VLeaf(a)
    case SNode(vs) => VNode(TrAll(k, vs))
    case SClo(env, pos, alts) => VClo(TrEnv(k, env), pos, DAlts(k, alts))
    case SDoClo(env, pos, x, body) => VClo(TrEnv(k, env), pos, [LAlt([PVar(x)], DAdd(k, body, x))])
  }

  function TrAll(k: Known, vs: seq<SVal>): (r: seq<LVal>)
    ensures |r| == |vs|
    decreases vs
  {
    if vs == [] then [] else [Tr(k, vs[0])] + TrAll(k, vs[1..])
  }

  function TrEnv(k: Known, env: SEnv): (r: LEnv)
    ensures |r| == |env|
    decreases env
  {
    if env == [] then [] else [Bind(env[0].x, Tr(k, env[0].v))] + TrEnv(k, env[1..])
  }

  function TrRes(k: Known, r: SRes): LRes {
    match r
    case SOut => LOut
    case SOk(v) => LOk(Tr(k, v))
    case SExc(vs) => LExc(TrAll(k, vs))
    case SUndef(s) => LUndef(s)
  }

  function DDef(k: Known, d: SDef): LDef {
    match d
    case SData => LData
    case SThrowDef => LThrow
    case SHandleDef => LHandle
    case SCode(alts) => LCode(DAlts(k, alts))
    case SValue(e) => LValue(D(k, e))
  }

  ghost function DProgram(k: Known, P: SProgram): LProgram {
    map s | s in P :: DDef(k, P[s])
  }

  // Facts about translated values

  lemma {:induction false} TrAt(k: Known, vs: seq<SVal>, i: nat)
    requires i < |vs|
    ensures TrAll(k, vs)[i] == Tr(k, vs[i])
    decreases vs
  {
    if i > 0 {
      TrAt(k, vs[1..], i - 1);
    }
  }

  lemma {:induction false} TrSplit(k: Known, vs: seq<SVal>, m: nat)
    requires m <= |vs|
    ensures TrAll(k, vs)[..m] == TrAll(k, vs[..m]) && TrAll(k, vs)[m..] == TrAll(k, vs[m..])
    decreases m
  {
    if m == 0 {
      assert vs[..0] == [] && vs[0..] == vs;
    } else {
      TrSplit(k, vs[1..], m - 1);
      assert vs[1..][..m - 1] == vs[..m][1..] && vs[1..][m - 1..] == vs[m..];
    }
  }

  lemma TrJoin(k: Known, vs: seq<SVal>, ws: seq<SVal>)
    ensures TrAll(k, vs + ws) == TrAll(k, vs) + TrAll(k, ws)
  {
    TrSplit(k, vs + ws, |vs|);
    assert (vs + ws)[..|vs|] == vs && (vs + ws)[|vs|..] == ws;
  }

  lemma TrOne(k: Known, v: SVal)
    ensures TrAll(k, [v]) == [Tr(k, v)] && TrAll(k, []) == []
  {
  }

  lemma TrPush(k: Known, x: Name, v: SVal, env: SEnv)
    ensures TrEnv(k, [SBind(x, v)] + env) == [Bind(x, Tr(k, v))] + TrEnv(k, env)
  {
    assert ([SBind(x, v)] + env)[1..] == env;
  }

  lemma TrNormal(k: Known, f: SVal, args: seq<SVal>)
    ensures Tr(k, SNormal(f, args)) == LNormal(Tr(k, f), TrAll(k, args))
  {
    if args != [] {
      TrJoin(k, [f], args);
      TrOne(k, f);
    }
  }

  lemma {:induction false} LookupSim(k: Known, env: SEnv, x: Name)
    ensures SBound(env, x) == IsBound(TrEnv(k, env), x)
    ensures SBound(env, x) ==> Tr(k, SLookup(env, x)) == Lookup(TrEnv(k, env), x)
    decreases env
  {
    if env != [] {
      LookupSim(k, env[1..], x);
    }
  }

  // Matching

  ghost predicate MatchAgree(k: Known, r: (bool, SEnv), l: (bool, LEnv)) {
    l.0 == r.0 && (r.0 ==> l.1 == TrEnv(k, r.1))
  }

  lemma {:induction false} MatchesSplit(ps: seq<Pattern>, qs: seq<Pattern>, us: seq<LVal>, ws: seq<LVal>, env: LEnv)
    requires |ps| == |us| && |qs| == |ws|
    ensures var l := LMatches(ps + qs, us + ws, env);
            var m := LMatches(ps, us, env);
            if m.0 then l == LMatches(qs, ws, m.1) else !l.0
    decreases |ps|
  {
    if ps == [] {
      assert ps + qs == qs && us + ws == ws;
    } else {
      assert (ps + qs)[1..] == ps[1..] + qs && (us + ws)[1..] == us[1..] + ws;
      MatchesSplit(ps[1..], qs, us[1..], ws, LMatch(ps[0], us[0], env).1);
    }
  }

  /** Matching an application whose head is one. */
  lemma JoinedMatch(p: Pattern, qs: seq<Pattern>, vs: seq<LVal>, env: LEnv)
    requires qs != []
    ensures var l := LMatch(Joined(p, qs), VNode(vs), env);
            if |vs| < |qs| || (!p.PApp? && |vs| != |qs| + 1) then !l.0
            else
              var m := |vs| - |qs|;
              var h := LMatch(p, if p.PApp? then VNode(vs[..m]) else vs[0], env);
              if h.0 then l == LMatches(qs, vs[m..], h.1) else !l.0
  {
    if |vs| >= |qs| {
      var m := |vs| - |qs|;
      assert vs == vs[..m] + vs[m..];
      if p.PApp? {
        if |p.ps| == m {
          MatchesSplit(p.ps, qs, vs[..m], vs[m..], env);
        }
      } else if m == 1 {
        assert vs[..1] == [vs[0]];
        MatchesSplit([p], qs, [vs[0]], vs[1..], env);
        MatchOne(p, vs[0], env);
      }
    }
  }

  lemma MatchOne(p: Pattern, v: LVal, env: LEnv)
    ensures LMatches([p], [v], env) == if LMatch(p, v, env).0 then (true, LMatch(p, v, env).1) else (false, LMatch(p, v, env).1)
  {
  }

  lemma SpineIsApp(p: Ast)
    ensures IsSpine(p) == DPat(p).PApp?
    decreases p
  {
    match p
    case SApp(ps) =>
      if |ps| == 1 {
        SpineIsApp(ps[0]);
      }
    case SList(es, tl) =>
      if es == [] && tl != [] {
        SpineIsApp(tl[0]);
      }
    case _ =>
  }

  /** What is no pattern matches the empty array only. */
  lemma JunkSim(k: Known, v: SVal, env: SEnv)
    ensures MatchAgree(k, (v == SNode([]), env), LMatch(PApp([]), Tr(k, v), TrEnv(k, env)))
  {
  }

  lemma {:induction false} MatchSim(k: Known, p: Ast, v: SVal, env: SEnv)
    ensures MatchAgree(k, SMatch(p, v, env), LMatch(DPat(p), Tr(k, v), TrEnv(k, env)))
    decreases p, 1, 0
  {
    hide SMatches, SMatchList, LMatches, DListPat, DPats, Joined, TrAll, IsSpine;
    match p
    case SConst(a) =>
    case SVar(x) => TrPush(k, x, v, env);
    case SWild(w) => TrPush(k, w, v, env);
    case STag(q, s) => MatchSim(k, q, v, env);
    case STuple(ps) => TupleSim(k, ps, v, env);
    case SList(_, _) =>
      ListSim(k, p, 0, v, env);
      assert p.es[0..] == p.es;
    case SApp(ps) => AppSim(k, ps, v, env);
    case _ => JunkSim(k, v, env);
  }

  lemma {:induction false} TupleSim(k: Known, ps: seq<Ast>, v: SVal, env: SEnv)
    ensures MatchAgree(k, SMatch(STuple(ps), v, env), LMatch(DPat(STuple(ps)), Tr(k, v), TrEnv(k, env)))
    decreases STuple(ps), 0, 0
  {
    if ps != [] && v.SNode? {
      var t := PConst(CombAtom(SYMBOL_TUPLE));
      JoinedMatch(t, DPats(ps), TrAll(k, v.vs), TrEnv(k, env));
      if |v.vs| == |ps| + 1 {
        TrAt(k, v.vs, 0);
        TrSplit(k, v.vs, 1);
        MatchesSim(k, ps, v.vs[1..], env);
      }
    }
  }

  lemma {:induction false} AppSim(k: Known, ps: seq<Ast>, v: SVal, env: SEnv)
    ensures MatchAgree(k, SMatch(SApp(ps), v, env), LMatch(DPat(SApp(ps)), Tr(k, v), TrEnv(k, env)))
    decreases SApp(ps), 0, 0
  {
    if ps == [] {
    } else if |ps| == 1 {
      MatchSim(k, ps[0], v, env);
      assert DPats(ps[1..]) == [];
    } else {
      assert DPat(SApp(ps)) == Joined(DPat(ps[0]), DPats(ps[1..]));
      SpineIsApp(ps[0]);
      if v.SNode? {
        JoinedMatch(DPat(ps[0]), DPats(ps[1..]), TrAll(k, v.vs), TrEnv(k, env));
        if |v.vs| >= |ps| - 1 {
          var m := |v.vs| - (|ps| - 1);
          TrSplit(k, v.vs, m);
          if IsSpine(ps[0]) || m == 1 {
            var u := if IsSpine(ps[0]) then SNode(v.vs[..m]) else v.vs[0];
            if !IsSpine(ps[0]) {
              TrAt(k, v.vs, 0);
            }
            MatchSim(k, ps[0], u, env);
            if SMatch(ps[0], u, env).0 {
              MatchesSim(k, ps[1..], v.vs[m..], SMatch(ps[0], u, env).1);
            }
          }
        }
      }
    }
  }

  lemma {:induction false} ListSim(k: Known, p: Ast, i: nat, v: SVal, env: SEnv)
    requires p.SList? && i <= |p.es|
    ensures MatchAgree(k, SMatchList(p, i, v, env), LMatch(DListPat(p.es[i..], PTail(p.tl)), Tr(k, v), TrEnv(k, env)))
    decreases p, 0, |p.es| - i
  {
    if i == |p.es| {
      assert p.es[i..] == [];
      if p.tl != [] {
        MatchSim(k, p.tl[0], v, env);
      }
    } else {
      assert p.es[i..][0] == p.es[i] && p.es[i..][1..] == p.es[i + 1..];
      var rest := DListPat(p.es[i + 1..], PTail(p.tl));
      var q, c := DPat(p.es[i]), PConst(CombAtom(SYMBOL_CONS));
      if v.SNode? && |v.vs| == 3 {
        TrAt(k, v.vs, 0);
        TrAt(k, v.vs, 1);
        TrAt(k, v.vs, 2);
        MatchThree(c, q, rest, TrAll(k, v.vs), TrEnv(k, env));
        MatchSim(k, p.es[i], v.vs[1], env);
        var r := SMatch(p.es[i], v.vs[1], env);
        if r.0 {
          ListSim(k, p, i + 1, v.vs[2], r.1);
        }
      }
    }
  }

  lemma MatchThree(c: Pattern, q: Pattern, r: Pattern, vs: seq<LVal>, env: LEnv)
    requires |vs| == 3 && c.PConst?
    ensures var l := LMatch(PApp([c, q, r]), VNode(vs), env);
            if vs[0] != VLeaf(c.a) || !LMatch(q, vs[1], env).0 then !l.0
            else l.0 == LMatch(r, vs[2], LMatch(q, vs[1], env).1).0
                 && (l.0 ==> l.1 == LMatch(r, vs[2], LMatch(q, vs[1], env).1).1)
  {
    assert [c, q, r][1..] == [q, r] && [q, r][1..] == [r];
    var us := vs[1..];
    assert us == [vs[1], vs[2]] && us[1..] == [vs[2]];
    var e1 := LMatch(q, vs[1], env).1;
    assert LMatches([q, r], us, env) == if LMatch(q, us[0], env).0 then LMatches([q, r][1..], us[1..], e1) else (false, e1);
    MatchOne(r, vs[2], e1);
    assert LMatches([c, q, r], vs, env) == if LMatch(c, vs[0], env).0 then LMatches([c, q, r][1..], us, env) else (false, env);
  }

  lemma {:induction false} MatchesSim(k: Known, ps: seq<Ast>, vs: seq<SVal>, env: SEnv)
    requires |ps| == |vs|
    ensures MatchAgree(k, SMatches(ps, vs, env), LMatches(DPats(ps), TrAll(k, vs), TrEnv(k, env)))
    decreases ps, 0, 0
  {
    if ps != [] {
      MatchSim(k, ps[0], vs[0], env);
      var r := SMatch(ps[0], vs[0], env);
      if r.0 {
        MatchesSim(k, ps[1..], vs[1..], r.1);
      }
    }
  }

  lemma {:induction false} SelectSim(k: Known, alts: seq<SAlt>, args: seq<SVal>, env: SEnv)
    ensures var s := SSelect(alts, args, env);
            LSelect(DAlts(k, alts), TrAll(k, args), TrEnv(k, env)) ==
              if s.SNoAlt? then LNoAlt else LChosen(TrEnv(k, s.env), D(k, s.body), s.arity)
    decreases |alts|
  {
    if alts != [] {
      var n := |alts[0].pats|;
      if n <= |args| {
        TrSplit(k, args, n);
        MatchesSim(k, alts[0].pats, args[..n], env);
      }
      SelectSim(k, alts[1..], args, env);
    }
  }

  // Evaluation

  /** [ X F -> F X ] */
  predicate IsPipeDef(d: SDef) {
    && d.SCode? && |d.alts| == 1
    && |d.alts[0].pats| == 2 && d.alts[0].pats[0].SVar? && d.alts[0].pats[1].SVar?
    && var x, f := d.alts[0].pats[0].x, d.alts[0].pats[1].x;
       x != f && d.alts[0].body == SApp([SVar(f), SVar(x)])
  }

  /** The names the passes use are defined as they are in the system and in its prelude. */
  ghost predicate Standard(k: Known, P: SProgram) {
    && KnownApart(k)
    && k.handle in P && P[k.handle].SHandleDef?
    && k.throw in P && P[k.throw].SThrowDef?
    && (k.pipe in P ==> IsPipeDef(P[k.pipe]))
  }

  /** Applied to any further arguments, both heads give the same. */
  ghost predicate HeadSim(n: nat, k: Known, P: SProgram, h: Head, args: seq<SVal>, f: LVal, largs: seq<LVal>, extra: seq<SVal>) {
    LApply(n, DProgram(k, P), f, largs + TrAll(k, extra)) == TrRes(k, SApplyHead(n, k, P, h, args + extra))
  }

  ghost predicate SpineSim(n: nat, k: Known, P: SProgram, s: SSpine, l: LSpine) {
    match s
    case SHalt(r) => l == LHalt(TrRes(k, r))
    case SSpine(h, args) => l.LSpine? && forall extra: seq<SVal> :: HeadSim(n, k, P, h, args, l.f, l.args, extra)
  }

  ghost predicate ArgsAgree(k: Known, s: SVals, l: LVals) {
    l == if s.SVals? then LVals(TrAll(k, s.vs)) else LStop(TrRes(k, s.r))
  }

  /** A block with one alternative without conditions enters its body. */
  lemma BodyApply(n: nat, LP: LProgram, env: LEnv, pos: nat, x: Name, e: LExpr, v: LVal, extra: seq<LVal>)
    ensures LApply(n, LP, VClo(env, pos, [LAlt([PVar(x)], e)]), [v] + extra)
         == if n == 0 then LOut else LEvalRoot(n - 1, LP, e, [Bind(x, v)] + env, extra)
  {
    var alts := [LAlt([PVar(x)], e)];
    var args := [v] + extra;
    assert args[..1] == [v] && args[1..] == extra;
    MatchOne(PVar(x), v, env);
    assert LSelect(alts, args, env) == LChosen([Bind(x, v)] + env, e, 1);
  }

  lemma IfApply(n: nat, LP: LProgram, env: LEnv, pos: nat, a: Atom, e: LExpr, x: Name, t: LExpr, v: LVal, extra: seq<LVal>)
    ensures LApply(n, LP, VClo(env, pos, [LAlt([PConst(a)], e), LAlt([PVar(x)], t)]), [v] + extra)
         == if n == 0 then LOut
            else if v == VLeaf(a) then LEvalRoot(n - 1, LP, e, env, extra)
            else LEvalRoot(n - 1, LP, t, [Bind(x, v)] + env, extra)
  {
    var alts := [LAlt([PConst(a)], e), LAlt([PVar(x)], t)];
    var args := [v] + extra;
    assert args[..1] == [v] && args[1..] == extra;
    MatchOne(PVar(x), v, env);
    MatchOne(PConst(a), v, env);
    assert alts[1..] == [LAlt([PVar(x)], t)];
    assert LSelect(alts[1..], args, env) == LChosen([Bind(x, v)] + env, t, 1);
  }

  lemma {:induction false} ArgsSnoc(n: nat, LP: LProgram, ls: seq<LExpr>, l: LExpr, env: LEnv)
    ensures LEvalArgs(n, LP, ls + [l], env) ==
      var a := LEvalArgs(n, LP, ls, env);
      if a.LStop? then a
      else var r := LEval(n, LP, l, env); if r.LOk? then LVals(a.vs + [r.v]) else LStop(r)
    decreases |ls|
  {
    if ls == [] {
      assert ls + [l] == [l] && [l][1..] == [];
      assert LEvalArgs(n, LP, [], env) == LVals([]);
    } else {
      assert (ls + [l])[1..] == ls[1..] + [l];
      ArgsSnoc(n, LP, ls[1..], l, env);
    }
  }

  lemma OneArg(n: nat, LP: LProgram, l: LExpr, env: LEnv)
    ensures LEvalArgs(n, LP, [l], env) == var r := LEval(n, LP, l, env); if r.LOk? then LVals([r.v]) else LStop(r)
  {
    assert [l][1..] == [];
  }

  lemma TwoParts(n: nat, LP: LProgram, f: LExpr, l: LExpr, env: LEnv)
    ensures LEvalSpine(n, LP, LApp([f, l]), env) ==
      match LEvalSpine(n, LP, f, env)
      case LHalt(r) => LHalt(r)
      case LSpine(h, args) => var r := LEval(n, LP, l, env); if r.LOk? then LSpine(h, args + [r.v]) else LHalt(r)
  {
    assert [f, l][1..] == [l];
    OneArg(n, LP, l, env);
  }

  lemma ThreeParts(n: nat, LP: LProgram, f: LExpr, l: LExpr, m: LExpr, env: LEnv)
    ensures LEvalSpine(n, LP, LApp([f, l, m]), env) ==
      match LEvalSpine(n, LP, f, env)
      case LHalt(r) => LHalt(r)
      case LSpine(h, args) =>
        var r := LEval(n, LP, l, env);
        if !r.LOk? then LHalt(r)
        else var r1 := LEval(n, LP, m, env); if r1.LOk? then LSpine(h, args + [r.v, r1.v]) else LHalt(r1)
  {
    assert [f, l, m][1..] == [l, m] && [l, m][1..] == [m];
    OneArg(n, LP, m, env);
    var r := LEval(n, LP, l, env);
    var r1 := LEval(n, LP, m, env);
    if r.LOk? && r1.LOk? {
      assert [r.v] + [r1.v] == [r.v, r1.v];
    }
    assert LEvalArgs(n, LP, [l, m], env) == if !r.LOk? then LStop(r) else if r1.LOk? then LVals([r.v, r1.v]) else LStop(r1);
  }

  lemma NoArgs(n: nat, LP: LProgram, env: LEnv)
    ensures LEvalArgs(n, LP, [], env) == LVals([])
  {
  }

  lemma {:induction false} TupleSpine(n: nat, LP: LProgram, f: LExpr, ls: seq<LExpr>, env: LEnv)
    requires LEvalSpine(n, LP, f, env).LSpine?
    ensures LEvalSpine(n, LP, LTuple(f, ls), env) ==
      var s := LEvalSpine(n, LP, f, env);
      match LEvalArgs(n, LP, ls, env)
      case LVals(vs) => LSpine(s.f, s.args + vs)
      case LStop(r) => LHalt(r)
    decreases |ls|
  {
    hide LEvalSpine, LEval, LEvalArgs;
    var s := LEvalSpine(n, LP, f, env);
    if ls == [] {
      NoArgs(n, LP, env);
      assert s.args + [] == s.args;
    } else {
      var m := |ls| - 1;
      TupleSpine(n, LP, f, ls[..m], env);
      assert ls == ls[..m] + [ls[m]];
      ArgsSnoc(n, LP, ls[..m], ls[m], env);
      TwoParts(n, LP, LTuple(f, ls[..m]), ls[m], env);
    }
  }

  lemma {:induction false} ApplySim(n: nat, k: Known, P: SProgram, f: SVal, args: seq<SVal>)
    requires Standard(k, P)
    ensures LApply(n, DProgram(k, P), Tr(k, f), TrAll(k, args)) == TrRes(k, SApply(n, k, P, f, args))
    decreases n, 0, f
  {
    hide LSelect, SSelect, SEvalRoot, LEvalRoot;
    match f
    case SNode(vs) =>
      if vs != [] {
        TrJoin(k, vs[1..], args);
        TrSplit(k, vs, 1);
        ApplySim(n, k, P, vs[0], vs[1..] + args);
      }
    case SClo(env, pos, alts) =>
      if n > 0 {
        CodeSim(n, k, P, f, alts, args, env);
      }
    case SDoClo(env, pos, x, body) => DoApply(n, k, P, f, args);
    case SLeaf(a) =>
      TrNormal(k, f, args);
      if a.CombAtom? && a.sym in P {
        LeafSim(n, k, P, f, args);
      }
  }

  lemma {:induction false} LeafSim(n: nat, k: Known, P: SProgram, f: SVal, args: seq<SVal>)
    requires Standard(k, P) && f.SLeaf? && f.a.CombAtom? && f.a.sym in P
    ensures LApply(n, DProgram(k, P), Tr(k, f), TrAll(k, args)) == TrRes(k, SApply(n, k, P, f, args))
    decreases n, 0, f, 0
  {
    hide LSelect, SSelect, SEvalRoot, LEvalRoot;
    TrNormal(k, f, args);
    match P[f.a.sym]
    case SData =>
    case SThrowDef =>
    case SHandleDef =>
      if |args| >= 2 && n > 0 {
        HandleSim(n, k, P, args);
      }
    case SCode(alts) =>
      if n > 0 {
        CodeSim(n, k, P, f, alts, args, []);
      }
    case SValue(e) =>
      if n > 0 {
        RootSim(n - 1, k, P, e, [], args);
      }
  }

  lemma {:induction false} CodeSim(n: nat, k: Known, P: SProgram, f: SVal, alts: seq<SAlt>, args: seq<SVal>, env: SEnv)
    requires Standard(k, P) && n > 0
    ensures var s, l := SSelect(alts, args, env), LSelect(DAlts(k, alts), TrAll(k, args), TrEnv(k, env));
            && (s.SNoAlt? ==> l == LNoAlt && LNormal(Tr(k, f), TrAll(k, args)) == Tr(k, SNormal(f, args)))
            && (s.SChosen? ==> l == LChosen(TrEnv(k, s.env), D(k, s.body), s.arity))
            && (s.SChosen? && s.arity <= |args| ==>
                  LEvalRoot(n - 1, DProgram(k, P), l.body, l.env, TrAll(k, args)[s.arity..])
                    == TrRes(k, SEvalRoot(n - 1, k, P, s.body, s.env, args[s.arity..])))
    decreases n - 1, 3
  {
    hide LSelect, SSelect, SEvalRoot, LEvalRoot, D, DAlts, Tr, TrEnv, SNormal, LNormal;
    TrNormal(k, f, args);
    SelectSim(k, alts, args, env);
    var s := SSelect(alts, args, env);
    if s.SChosen? && s.arity <= |args| {
      TrSplit(k, args, s.arity);
      RootSim(n - 1, k, P, s.body, s.env, args[s.arity..]);
    }
  }

  lemma {:induction false} HandleSim(n: nat, k: Known, P: SProgram, args: seq<SVal>)
    requires Standard(k, P) && n > 0 && |args| >= 2
    ensures var r := SApply(n - 1, k, P, args[1], [SNONE] + args[2..]);
            var l := LApply(n - 1, DProgram(k, P), TrAll(k, args)[1], [LNONE] + TrAll(k, args)[2..]);
            && l == TrRes(k, r)
            && (r.SExc? ==> LApply(n - 1, DProgram(k, P), TrAll(k, args)[0], [LNONE] + l.vs) == TrRes(k, SApply(n - 1, k, P, args[0], [SNONE] + r.vs)))
    decreases n - 1, 3
  {
    hide SApply, LApply;
    TrAt(k, args, 0);
    TrAt(k, args, 1);
    TrSplit(k, args, 2);
    TrJoin(k, [SNONE], args[2..]);
    TrOne(k, SNONE);
    ApplySim(n - 1, k, P, args[1], [SNONE] + args[2..]);
    var r := SApply(n - 1, k, P, args[1], [SNONE] + args[2..]);
    if r.SExc? {
      TrJoin(k, [SNONE], r.vs);
      ApplySim(n - 1, k, P, args[0], [SNONE] + r.vs);
    }
  }

  /** A value in head position. */
  lemma {:induction false} ValueSim(n: nat, k: Known, P: SProgram, v: SVal, args: seq<SVal>)
    requires Standard(k, P)
    ensures SpineSim(n, k, P, SSpine(HVal(v), args), LSpine(Tr(k, v), TrAll(k, args)))
    decreases n, 1
  {
    hide LApply, SApply;
    forall extra: seq<SVal>
      ensures HeadSim(n, k, P, HVal(v), args, Tr(k, v), TrAll(k, args), extra)
    {
      TrJoin(k, args, extra);
      ApplySim(n, k, P, v, args + extra);
    }
  }

  lemma {:induction false} RootSim(n: nat, k: Known, P: SProgram, e: Ast, env: SEnv, extra: seq<SVal>)
    requires Standard(k, P)
    ensures LEvalRoot(n, DProgram(k, P), D(k, e), TrEnv(k, env), TrAll(k, extra)) == TrRes(k, SEvalRoot(n, k, P, e, env, extra))
    decreases n, 2, e, 3
  {
    hide LEvalSpine, SEvalSpine, LApply, SApplyHead, D;
    SpineLemma(n, k, P, e, env);
    var s, l := SEvalSpine(n, k, P, e, env), LEvalSpine(n, DProgram(k, P), D(k, e), TrEnv(k, env));
    if s.SSpine? {
      assert HeadSim(n, k, P, s.h, s.args, l.f, l.args, extra);
    }
  }

  lemma {:induction false} EvalSim(n: nat, k: Known, P: SProgram, e: Ast, env: SEnv)
    requires Standard(k, P)
    ensures LEval(n, DProgram(k, P), D(k, e), TrEnv(k, env)) == TrRes(k, SEval(n, k, P, e, env))
    decreases n, 2, e, 4
  {
    hide LEvalSpine, SEvalSpine, LApply, SApplyHead;
    if e.SVar? {
      LookupSim(k, env, e.x);
    } else if e.SList? && e.es == [] && e.tl != [] {
      EvalSim(n, k, P, e.tl[0], env);
    } else {
      NotVar(k, e);
      SpineLemma(n, k, P, e, env);
      var s, l := SEvalSpine(n, k, P, e, env), LEvalSpine(n, DProgram(k, P), D(k, e), TrEnv(k, env));
      EvalBySpine(n, DProgram(k, P), D(k, e), TrEnv(k, env));
      if s.SSpine? {
        assert HeadSim(n, k, P, s.h, s.args, l.f, l.args, []);
        assert s.args + [] == s.args && l.args + TrAll(k, []) == l.args;
      }
    }
  }

  lemma EvalBySpine(n: nat, LP: LProgram, e: LExpr, env: LEnv)
    requires !e.LVar?
    ensures LEval(n, LP, e, env) == match LEvalSpine(n, LP, e, env)
                                    case LSpine(f, args) => LApply(n, LP, f, args)
                                    case LHalt(r) => r
  {
  }

  lemma NotVar(k: Known, e: Ast)
    requires !e.SVar? && !(e.SList? && e.es == [] && e.tl != [])
    ensures !D(k, e).LVar?
  {
    match e
    case STuple(es) => assert LTuple(LComb(SYMBOL_TUPLE), DAll(k, es)).LVar? ==> false;
    case _ =>
  }

  lemma {:induction false} ArgsSim(n: nat, k: Known, P: SProgram, es: seq<Ast>, env: SEnv)
    requires Standard(k, P)
    ensures ArgsAgree(k, SEvalArgs(n, k, P, es, env), LEvalArgs(n, DProgram(k, P), DAll(k, es), TrEnv(k, env)))
    decreases n, 2, es, 0
  {
    hide D, LEval, SEval;
    if es != [] {
      EvalSim(n, k, P, es[0], env);
      ArgsSim(n, k, P, es[1..], env);
    }
  }

  /** Further arguments on both sides. */
  lemma SpineMore(n: nat, k: Known, P: SProgram, s: SSpine, l: LSpine, vs: seq<SVal>)
    requires SpineSim(n, k, P, s, l) && s.SSpine?
    ensures l.LSpine? && SpineSim(n, k, P, SSpine(s.h, s.args + vs), LSpine(l.f, l.args + TrAll(k, vs)))
  {
    hide LApply, SApplyHead;
    forall extra: seq<SVal>
      ensures HeadSim(n, k, P, s.h, s.args + vs, l.f, l.args + TrAll(k, vs), extra)
    {
      TrJoin(k, vs, extra);
      assert s.args + vs + extra == s.args + (vs + extra);
      assert l.args + TrAll(k, vs) + TrAll(k, extra) == l.args + (TrAll(k, vs) + TrAll(k, extra));
      assert HeadSim(n, k, P, s.h, s.args, l.f, l.args, vs + extra);
    }
  }

  lemma {:induction false} SpineLemma(n: nat, k: Known, P: SProgram, e: Ast, env: SEnv)
    requires Standard(k, P)
    ensures SpineSim(n, k, P, SEvalSpine(n, k, P, e, env), LEvalSpine(n, DProgram(k, P), D(k, e), TrEnv(k, env)))
    decreases n, 2, e, 2
  {
    hide SpineSim, LApply, SApplyHead, LEval, SEval, LEvalArgs, SEvalArgs, SEvalList, DAlts, DAll, DPats, AddVar, DAdd, SMatch;
    match e
    case SConst(a) => ValueSim(n, k, P, SLeaf(a), []);
    case SVar(x) =>
      LookupSim(k, env, x);
      if SBound(env, x) {
        ValueSim(n, k, P, SLookup(env, x), []);
      } else {
        HaltSim(n, k, P, SOut);
      }
    case SBlock(pos, alts) => ValueSim(n, k, P, SClo(env, pos, alts), []);
    case SLambda(pos, alts) => ValueSim(n, k, P, SClo(env, pos, alts), []);
    case SDo(pos, x, b) => DoSim(n, k, P, e, env);
    case SApp(es) => AppSpine(n, k, P, e, env);
    case STuple(es) => TupleLemma(n, k, P, e, env);
    case SList(_, _) =>
      ListSpine(n, k, P, e, 0, env);
      assert DAll(k, e.es)[0..] == DAll(k, e.es);
    case SIf(_, _, _, _, _) => IfLemma(n, k, P, e, env);
    case SSeq(_, _, _, _) => SeqLemma(n, k, P, e, env);
    case SLet(_, _, _, _) => LetLemma(n, k, P, e, env);
    case SThrow(_) => ThrowLemma(n, k, P, e, env);
    case STry(_, _, _, _, _, _) => TryLemma(n, k, P, e, env);
    case STag(_, _) => HaltSim(n, k, P, SOut);
    case SWild(_) => HaltSim(n, k, P, SOut);
  }

  lemma HaltSim(n: nat, k: Known, P: SProgram, r: SRes)
    ensures SpineSim(n, k, P, SHalt(r), LHalt(TrRes(k, r)))
  {
  }

  lemma {:induction false} AddDenotes(k: Known, e: Ast, x: Name)
    ensures D(k, AddVar(k, e, x)) == DAdd(k, e, x)
    decreases e
  {
    if IsPipe(k, e) {
      DAllSplit(k, e.es, 2);
      assert e.es[..2] == [e.es[0], e.es[1]];
      DTwo(k, e.es[0], e.es[1]);
      AddDenotes(k, e.es[1], x);
      var es1 := [e.es[0], AddVar(k, e.es[1], x)] + e.es[2..];
      DAllSplit(k, es1, 2);
      assert es1[..2] == [e.es[0], AddVar(k, e.es[1], x)] && es1[2..] == e.es[2..];
      DTwo(k, e.es[0], AddVar(k, e.es[1], x));
    } else {
      DTwo(k, e, SVar(x));
    }
  }

  // What a do means

  function SFinish(n: nat, k: Known, P: SProgram, s: SSpine, extra: seq<SVal>): SRes {
    match s
    case SSpine(h, args) => SApplyHead(n, k, P, h, args + extra)
    case SHalt(r) => r
  }

  /** Reverse application: the second argument gets the first, and what follows. */
  lemma PipeApply(n: nat, k: Known, P: SProgram, v: SVal, g: SVal, rest: seq<SVal>)
    requires k.pipe in P && IsPipeDef(P[k.pipe])
    ensures SApply(n, k, P, SComb(k.pipe), [v, g] + rest) == if n == 0 then SOut else SApply(n - 1, k, P, g, [v] + rest)
  {
    hide SApply, SEvalRoot, SSelect;
    var alts := P[k.pipe].alts;
    var x, f := alts[0].pats[0].x, alts[0].pats[1].x;
    var args := [v, g] + rest;
    PipeSelect(alts, x, f, v, g, rest);
    CodeApply(n, k, P, args, alts);
    if n > 0 {
      assert args[2..] == rest;
      PipeBody(n - 1, k, P, x, f, v, g, rest);
    }
  }

  lemma CodeApply(n: nat, k: Known, P: SProgram, args: seq<SVal>, alts: seq<SAlt>)
    requires k.pipe in P && P[k.pipe] == SCode(alts)
    ensures SApply(n, k, P, SComb(k.pipe), args) ==
      if n == 0 then SOut
      else
        match SSelect(alts, args, [])
        case SNoAlt => SOk(SNormal(SComb(k.pipe), args))
        case SChosen(env1, body, m) => if m <= |args| then SEvalRoot(n - 1, k, P, body, env1, args[m..]) else SOut
  {
    hide SSelect, SEvalRoot;
  }

  lemma {:induction false} PipeSelect(alts: seq<SAlt>, x: Name, f: Name, v: SVal, g: SVal, rest: seq<SVal>)
    requires |alts| == 1 && alts[0].pats == [SVar(x), SVar(f)]
    ensures SSelect(alts, [v, g] + rest, []) == SChosen([SBind(f, g)] + ([SBind(x, v)] + []), alts[0].body, 2)
  {
    var args := [v, g] + rest;
    assert args[..2] == [v, g] && [v, g][1..] == [g] && [SVar(x), SVar(f)][1..] == [SVar(f)] && [SVar(f)][1..] == [] && [g][1..] == [];
    var e1: SEnv := [SBind(x, v)] + [];
    assert SMatches([SVar(f)], [g], e1) == (true, [SBind(f, g)] + e1);
    assert SMatches([SVar(x), SVar(f)], [v, g], []) == SMatches([SVar(f)], [g], e1);
  }

  lemma PipeBody(n: nat, k: Known, P: SProgram, x: Name, f: Name, v: SVal, g: SVal, rest: seq<SVal>)
    requires x != f
    ensures SEvalRoot(n, k, P, SApp([SVar(f), SVar(x)]), [SBind(f, g)] + ([SBind(x, v)] + []), rest) == SApply(n, k, P, g, [v] + rest)
  {
    hide SApply, SApplyHead;
    var env := [SBind(f, g)] + ([SBind(x, v)] + []);
    assert env[1..] == [SBind(x, v)];
    assert SLookup(env, x) == v && SLookup(env, f) == g;
    OneVar(n, k, P, x, env);
    assert [SVar(f), SVar(x)][1..] == [SVar(x)];
    assert SEvalSpine(n, k, P, SVar(f), env) == SSpine(HVal(g), []);
    assert SEvalSpine(n, k, P, SApp([SVar(f), SVar(x)]), env) == SSpine(HVal(g), [v]) by {
      assert [] + [v] == [v];
    }
    HeadOfValue(n, k, P, g, [v] + rest);
  }

  lemma HeadOfValue(n: nat, k: Known, P: SProgram, g: SVal, args: seq<SVal>)
    ensures SApplyHead(n, k, P, HVal(g), args) == SApply(n, k, P, g, args)
  {
    hide SApply;
  }

  lemma OneVar(n: nat, k: Known, P: SProgram, x: Name, env: SEnv)
    requires SBound(env, x)
    ensures SEvalArgs(n, k, P, [SVar(x)], env) == SVals([SLookup(env, x)])
  {
    assert [SVar(x)][1..] == [];
    assert SEvalArgs(n, k, P, [], env) == SVals([]);
    assert [SLookup(env, x)] + [] == [SLookup(env, x)];
  }

  /** The pass means what it stands for: with the variable added, a pipe is what the pipe gives for the variable's value,
      also before further arguments. */
  lemma {:induction false} AddAgrees(n: nat, k: Known, P: SProgram, e: Ast, x: Name, env: SEnv, v: SVal, extra: seq<SVal>)
    requires Standard(k, P) && SBound(env, x) && SLookup(env, x) == v
    ensures SFinish(n, k, P, SEvalSpine(n, k, P, AddVar(k, e, x), env), extra) == SFinish(n, k, P, SDoSpine(n, k, P, e, env, v), extra)
    decreases e, 0
  {
    hide SApply, SApplyHead, SEvalArgs, SEval, SBound, SLookup, AddVar, IsPipe;
    AddShape(k, e, x);
    if IsPipe(k, e) {
      AddValue(n, k, P, e.es[1], x, env, v);
      AddPipe(n, k, P, e, x, env, v, extra);
    } else {
      OneVar(n, k, P, x, env);
      assert [e, SVar(x)][1..] == [SVar(x)];
    }
  }

  lemma AddShape(k: Known, e: Ast, x: Name)
    ensures IsPipe(k, e) ==> e.SApp? && |e.es| > 2 && e.es[0] == Comb(k.pipe) && AddVar(k, e, x) == SApp([e.es[0], AddVar(k, e.es[1], x)] + e.es[2..])
    ensures !IsPipe(k, e) ==> AddVar(k, e, x) == SApp([e, SVar(x)])
    ensures AddVar(k, e, x).SApp?
  {
  }

  lemma {:induction false} AddValue(n: nat, k: Known, P: SProgram, e: Ast, x: Name, env: SEnv, v: SVal)
    requires Standard(k, P) && SBound(env, x) && SLookup(env, x) == v
    ensures SEval(n, k, P, AddVar(k, e, x), env) == SDoValue(n, k, P, e, env, v)
    decreases e, 1
  {
    hide SApply, SApplyHead, SEvalSpine, SDoSpine, SBound, SLookup, AddVar;
    AddAgrees(n, k, P, e, x, env, v, []);
    AddShape(k, e, x);
    NoExtra(n, k, P, SEvalSpine(n, k, P, AddVar(k, e, x), env));
    NoExtra(n, k, P, SDoSpine(n, k, P, e, env, v));
  }

  lemma NoExtra(n: nat, k: Known, P: SProgram, s: SSpine)
    ensures SFinish(n, k, P, s, []) == if s.SSpine? then SApplyHead(n, k, P, s.h, s.args) else s.r
  {
    hide SApplyHead;
    if s.SSpine? {
      assert s.args + [] == s.args;
    }
  }

  lemma ArgsFirst(n: nat, k: Known, P: SProgram, e: Ast, es: seq<Ast>, env: SEnv)
    ensures SEvalArgs(n, k, P, [e] + es, env) ==
      var r := SEval(n, k, P, e, env);
      if !r.SOk? then SStop(r)
      else
        match SEvalArgs(n, k, P, es, env)
        case SVals(vs) => SVals([r.v] + vs)
        case SStop(r1) => SStop(r1)
  {
    assert ([e] + es)[1..] == es;
  }

  lemma {:induction false} ArgsCount(n: nat, k: Known, P: SProgram, es: seq<Ast>, env: SEnv)
    ensures SEvalArgs(n, k, P, es, env).SVals? ==> |SEvalArgs(n, k, P, es, env).vs| == |es|
    decreases |es|
  {
    hide SEval;
    if es != [] {
      ArgsCount(n, k, P, es[1..], env);
    }
  }

  lemma AddPipe(n: nat, k: Known, P: SProgram, e: Ast, x: Name, env: SEnv, v: SVal, extra: seq<SVal>)
    requires Standard(k, P) && IsPipe(k, e) && e.SApp? && |e.es| > 2 && e.es[0] == Comb(k.pipe)
    requires SEval(n, k, P, AddVar(k, e.es[1], x), env) == SDoValue(n, k, P, e.es[1], env, v)
    ensures SFinish(n, k, P, SEvalSpine(n, k, P, SApp([e.es[0], AddVar(k, e.es[1], x)] + e.es[2..]), env), extra)
         == SFinish(n, k, P, SDoSpine(n, k, P, e, env, v), extra)
  {
    hide SApply, SApplyHead, SEvalArgs, SEval, SDoValue, AddVar, IsPipe;
    var rest := e.es[2..];
    var f := AddVar(k, e.es[1], x);
    var es := [e.es[0], f] + rest;
    assert es[1..] == [f] + rest;
    ArgsFirst(n, k, P, f, rest, env);
    ArgsCount(n, k, P, rest, env);
    var r, a := SDoValue(n, k, P, e.es[1], env, v), SEvalArgs(n, k, P, rest, env);
    if r.SOk? && a.SVals? {
      var vs := [r.v] + a.vs;
      assert [] + vs == vs;
      PipeNext(n, k, P, r.v, a.vs, extra);
    }
  }

  lemma PipeNext(n: nat, k: Known, P: SProgram, v: SVal, vs: seq<SVal>, extra: seq<SVal>)
    requires Standard(k, P) && vs != []
    ensures k.pipe in P ==> SApplyHead(n, k, P, HVal(SComb(k.pipe)), [v] + vs + extra) == SApplyHead(n, k, P, HNext(vs[0]), [v] + vs[1..] + extra)
  {
    hide SApply;
    if k.pipe in P {
      assert [v] + vs + extra == [v, vs[0]] + (vs[1..] + extra);
      assert [v] + vs[1..] + extra == [v] + (vs[1..] + extra);
      PipeApply(n, k, P, v, vs[0], vs[1..] + extra);
    }
  }

  /** A do is applied as the block that the pass makes of it. */
  lemma {:induction false} DoApply(n: nat, k: Known, P: SProgram, f: SVal, args: seq<SVal>)
    requires Standard(k, P) && f.SDoClo?
    ensures LApply(n, DProgram(k, P), Tr(k, f), TrAll(k, args)) == TrRes(k, SApply(n, k, P, f, args))
    decreases n, 0, f, 0
  {
    hide SEvalRoot, LEvalRoot, SDoSpine, SEvalSpine, SApplyHead, AddVar, DAdd, D;
    var LP, lenv := DProgram(k, P), TrEnv(k, f.env);
    AddDenotes(k, f.body, f.x);
    if args == [] {
      WaitApply(n, LP, lenv, f.pos, f.x, DAdd(k, f.body, f.x));
    } else {
      var v, rest := args[0], args[1..];
      var env := [SBind(f.x, v)] + f.env;
      assert args == [v] + rest;
      TrJoin(k, [v], rest);
      TrOne(k, v);
      BodyApply(n, LP, lenv, f.pos, f.x, DAdd(k, f.body, f.x), Tr(k, v), TrAll(k, rest));
      TrPush(k, f.x, v, f.env);
      if n > 0 {
        RootSim(n - 1, k, P, AddVar(k, f.body, f.x), env, rest);
        RootIs(n - 1, k, P, AddVar(k, f.body, f.x), env, rest);
        AddAgrees(n - 1, k, P, f.body, f.x, env, v, rest);
      }
    }
  }

  lemma RootIs(n: nat, k: Known, P: SProgram, e: Ast, env: SEnv, extra: seq<SVal>)
    ensures SEvalRoot(n, k, P, e, env, extra) == SFinish(n, k, P, SEvalSpine(n, k, P, e, env), extra)
  {
    hide SApplyHead, SEvalSpine;
  }

  lemma WaitApply(n: nat, LP: LProgram, env: LEnv, pos: nat, x: Name, e: LExpr)
    ensures var f := VClo(env, pos, [LAlt([PVar(x)], e)]); LApply(n, LP, f, []) == if n == 0 then LOut else LOk(f)
  {
    var alts := [LAlt([PVar(x)], e)];
    assert LSelect(alts[1..], [], env) == LNoAlt;
    assert LSelect(alts, [], env) == LNoAlt;
  }

  lemma {:induction false} DoSim(n: nat, k: Known, P: SProgram, e: Ast, env: SEnv)
    requires Standard(k, P) && e.SDo?
    ensures SpineSim(n, k, P, SEvalSpine(n, k, P, e, env), LEvalSpine(n, DProgram(k, P), D(k, e), TrEnv(k, env)))
    decreases n, 2, e, 0
  {
    hide SpineSim, LApply, SApplyHead, LEval, SEval, LEvalArgs, SEvalArgs, SEvalList, AddVar, DAdd, SMatch;
    ValueSim(n, k, P, SDoClo(env, e.pos, e.x, e.body), []);
  }

  lemma {:induction false} AppSpine(n: nat, k: Known, P: SProgram, e: Ast, env: SEnv)
    requires Standard(k, P) && e.SApp?
    ensures SpineSim(n, k, P, SEvalSpine(n, k, P, e, env), LEvalSpine(n, DProgram(k, P), D(k, e), TrEnv(k, env)))
    decreases n, 2, e, 0
  {
    hide SpineSim, LApply, SApplyHead, LEval, SEval, LEvalArgs, SEvalArgs, SEvalList;
    if e.es == [] {
      HaltSim(n, k, P, SOut);
    } else {
      DAllHead(k, e.es);
      SpineLemma(n, k, P, e.es[0], env);
      ArgsSim(n, k, P, e.es[1..], env);
      var s := SEvalSpine(n, k, P, e.es[0], env);
      var a := SEvalArgs(n, k, P, e.es[1..], env);
      SpineKinds(n, k, P, s, LEvalSpine(n, DProgram(k, P), D(k, e.es[0]), TrEnv(k, env)));
      if s.SHalt? {
        HaltSim(n, k, P, s.r);
      } else if a.SVals? {
        SpineMore(n, k, P, s, LEvalSpine(n, DProgram(k, P), D(k, e.es[0]), TrEnv(k, env)), a.vs);
      } else {
        HaltSim(n, k, P, a.r);
      }
    }
  }

  lemma DAllHead(k: Known, es: seq<Ast>)
    requires es != []
    ensures DAll(k, es)[0] == D(k, es[0]) && DAll(k, es)[1..] == DAll(k, es[1..])
  {
  }

  lemma SpineKinds(n: nat, k: Known, P: SProgram, s: SSpine, l: LSpine)
    requires SpineSim(n, k, P, s, l)
    ensures s.SHalt? ==> l == LHalt(TrRes(k, s.r))
    ensures s.SSpine? ==> l.LSpine?
  {
  }

  lemma {:induction false} TupleLemma(n: nat, k: Known, P: SProgram, e: Ast, env: SEnv)
    requires Standard(k, P) && e.STuple?
    ensures SpineSim(n, k, P, SEvalSpine(n, k, P, e, env), LEvalSpine(n, DProgram(k, P), D(k, e), TrEnv(k, env)))
    decreases n, 2, e, 0
  {
    hide SpineSim, LApply, SApplyHead, LEval, SEval, LEvalArgs, SEvalArgs, SEvalList;
    ArgsSim(n, k, P, e.es, env);
    TupleSpine(n, DProgram(k, P), LComb(SYMBOL_TUPLE), DAll(k, e.es), TrEnv(k, env));
    var a := SEvalArgs(n, k, P, e.es, env);
    if a.SVals? {
      ValueSim(n, k, P, SComb(SYMBOL_TUPLE), a.vs);
      assert [] + TrAll(k, a.vs) == TrAll(k, a.vs);
    } else {
      HaltSim(n, k, P, a.r);
    }
  }

  lemma LListStep(k: Known, e: Ast, i: nat)
    requires e.SList? && i <= |e.es|
    ensures i == |e.es| ==> LList(DAll(k, e.es)[i..], DTail(k, e.tl)) == DTail(k, e.tl)
    ensures i < |e.es| ==>
      LList(DAll(k, e.es)[i..], DTail(k, e.tl)) == LApp([LComb(SYMBOL_CONS), D(k, e.es[i]), LList(DAll(k, e.es)[i + 1..], DTail(k, e.tl))])
  {
    hide D;
    if i < |e.es| {
      DAllSplit(k, e.es, i);
      DAllHead(k, e.es[i..]);
      var ds := DAll(k, e.es);
      assert ds[i..] == DAll(k, e.es[i..]);
      assert ds[i..][1..] == ds[i + 1..];
    }
  }

  lemma {:induction false} ListSpine(n: nat, k: Known, P: SProgram, e: Ast, i: nat, env: SEnv)
    requires Standard(k, P) && e.SList? && i <= |e.es|
    ensures SpineSim(n, k, P, SEvalList(n, k, P, e, i, env), LEvalSpine(n, DProgram(k, P), LList(DAll(k, e.es)[i..], DTail(k, e.tl)), TrEnv(k, env)))
    decreases n, 2, e, 1, |e.es| - i, 0
  {
    hide SpineSim, LApply, SApplyHead, LEval, SEval, LEvalArgs, SEvalArgs, SEvalRest, LList, D;
    LListStep(k, e, i);
    if i == |e.es| {
      if e.tl == [] {
        ValueSim(n, k, P, SComb(SYMBOL_NIL), []);
      } else {
        SpineLemma(n, k, P, e.tl[0], env);
      }
    } else {
      var rest := LList(DAll(k, e.es)[i + 1..], DTail(k, e.tl));
      EvalSim(n, k, P, e.es[i], env);
      ThreeParts(n, DProgram(k, P), LComb(SYMBOL_CONS), D(k, e.es[i]), rest, TrEnv(k, env));
      var r := SEval(n, k, P, e.es[i], env);
      if r.SOk? {
        RestSim(n, k, P, e, i + 1, env);
        var r1 := SEvalRest(n, k, P, e, i + 1, env);
        if r1.SOk? {
          ValueSim(n, k, P, SComb(SYMBOL_CONS), [r.v, r1.v]);
          TrJoin(k, [r.v], [r1.v]);
          TrOne(k, r.v);
          TrOne(k, r1.v);
          assert [r.v] + [r1.v] == [r.v, r1.v];
          assert [] + [Tr(k, r.v), Tr(k, r1.v)] == TrAll(k, [r.v, r1.v]);
        } else {
          HaltSim(n, k, P, r1);
        }
      } else {
        HaltSim(n, k, P, r);
      }
    }
  }

  lemma {:induction false} RestSim(n: nat, k: Known, P: SProgram, e: Ast, i: nat, env: SEnv)
    requires Standard(k, P) && e.SList? && 0 < i <= |e.es|
    ensures LEval(n, DProgram(k, P), LList(DAll(k, e.es)[i..], DTail(k, e.tl)), TrEnv(k, env)) == TrRes(k, SEvalRest(n, k, P, e, i, env))
    decreases n, 2, e, 1, |e.es| - i, 1
  {
    hide LApply, SApplyHead, LEval, SEval, LEvalSpine, SEvalList, LList, D;
    LListStep(k, e, i);
    if i == |e.es| && e.tl != [] {
      EvalSim(n, k, P, e.tl[0], env);
    } else {
      ListSpine(n, k, P, e, i, env);
      var le := LList(DAll(k, e.es)[i..], DTail(k, e.tl));
      EvalBySpine(n, DProgram(k, P), le, TrEnv(k, env));
      var s, l := SEvalList(n, k, P, e, i, env), LEvalSpine(n, DProgram(k, P), le, TrEnv(k, env));
      if s.SSpine? {
        assert HeadSim(n, k, P, s.h, s.args, l.f, l.args, []);
        assert s.args + [] == s.args && l.args + TrAll(k, []) == l.args;
      }
    }
  }

  /** A head that enters a body. */
  lemma {:induction false} BodySim(n: nat, k: Known, P: SProgram, b: Ast, env: SEnv, f: LVal, largs: seq<LVal>, extra: seq<SVal>)
    requires Standard(k, P)
    requires LApply(n, DProgram(k, P), f, largs + TrAll(k, extra))
          == if n == 0 then LOut else LEvalRoot(n - 1, DProgram(k, P), D(k, b), TrEnv(k, env), TrAll(k, extra))
    ensures HeadSim(n, k, P, HBody(b, env), [], f, largs, extra)
    decreases n, 1
  {
    hide LApply, LEvalRoot, SEvalRoot, D;
    assert [] + extra == extra;
    if n > 0 {
      RootSim(n - 1, k, P, b, env, extra);
    }
  }

  lemma {:induction false} IfLemma(n: nat, k: Known, P: SProgram, e: Ast, env: SEnv)
    requires Standard(k, P) && e.SIf?
    ensures SpineSim(n, k, P, SEvalSpine(n, k, P, e, env), LEvalSpine(n, DProgram(k, P), D(k, e), TrEnv(k, env)))
    decreases n, 2, e, 0
  {
    hide LApply, LEvalRoot, SApplyHead, LEval, SEval, HeadSim;
    var LP, lenv := DProgram(k, P), TrEnv(k, env);
    var alts := [LAlt([PConst(CombAtom(SYMBOL_FALSE))], D(k, e.e)), LAlt([PVar(e.w)], D(k, e.t))];
    TwoParts(n, LP, LBlock(e.pos, alts), D(k, e.i), lenv);
    EvalSim(n, k, P, e.i, env);
    var r := SEval(n, k, P, e.i, env);
    if r.SOk? {
      var no := r.v == SComb(SYMBOL_FALSE);
      var b, env1 := if no then e.e else e.t, if no then env else [SBind(e.w, r.v)] + env;
      TrPush(k, e.w, r.v, env);
      assert [] + [Tr(k, r.v)] == [Tr(k, r.v)];
      forall extra: seq<SVal>
        ensures HeadSim(n, k, P, HBody(b, env1), [], VClo(lenv, e.pos, alts), [Tr(k, r.v)], extra)
      {
        IfApply(n, LP, lenv, e.pos, CombAtom(SYMBOL_FALSE), D(k, e.e), e.w, D(k, e.t), Tr(k, r.v), TrAll(k, extra));
        BodySim(n, k, P, b, env1, VClo(lenv, e.pos, alts), [Tr(k, r.v)], extra);
      }
    }
  }

  lemma {:induction false} SeqLemma(n: nat, k: Known, P: SProgram, e: Ast, env: SEnv)
    requires Standard(k, P) && e.SSeq?
    ensures SpineSim(n, k, P, SEvalSpine(n, k, P, e, env), LEvalSpine(n, DProgram(k, P), D(k, e), TrEnv(k, env)))
    decreases n, 2, e, 0
  {
    hide LApply, LEvalRoot, SApplyHead, LEval, SEval, HeadSim;
    var LP, lenv := DProgram(k, P), TrEnv(k, env);
    var alts := [LAlt([PVar(e.w)], D(k, e.l))];
    TwoParts(n, LP, LBlock(e.pos, alts), D(k, e.r), lenv);
    EvalSim(n, k, P, e.r, env);
    var r := SEval(n, k, P, e.r, env);
    if r.SOk? {
      var env1 := [SBind(e.w, r.v)] + env;
      TrPush(k, e.w, r.v, env);
      assert [] + [Tr(k, r.v)] == [Tr(k, r.v)];
      forall extra: seq<SVal>
        ensures HeadSim(n, k, P, HBody(e.l, env1), [], VClo(lenv, e.pos, alts), [Tr(k, r.v)], extra)
      {
        BodyApply(n, LP, lenv, e.pos, e.w, D(k, e.l), Tr(k, r.v), TrAll(k, extra));
        BodySim(n, k, P, e.l, env1, VClo(lenv, e.pos, alts), [Tr(k, r.v)], extra);
      }
    }
  }

  lemma SelectLet(p: Ast, l: Ast, v: SVal, extra: seq<SVal>, env: SEnv)
    requires SMatch(p, v, env).0
    ensures SSelect([SAlt([p], l)], [v] + extra, env) == SChosen(SMatch(p, v, env).1, l, 1)
  {
    var args := [v] + extra;
    assert args[..1] == [v];
    var m := SMatch(p, v, env);
    assert SMatches([p], [v], env) == (true, m.1) by {
      assert SMatches([p], [v], env) == SMatches([p][1..], [v][1..], m.1);
    }
  }

  lemma {:induction false} LetLemma(n: nat, k: Known, P: SProgram, e: Ast, env: SEnv)
    requires Standard(k, P) && e.SLet?
    ensures SpineSim(n, k, P, SEvalSpine(n, k, P, e, env), LEvalSpine(n, DProgram(k, P), D(k, e), TrEnv(k, env)))
    decreases n, 2, e, 1
  {
    hide LEvalRoot, SApplyHead, LEval, SEval, HeadSim, LSelect, SSelect, SMatch, LApply, SpineSim;
    var LP, lenv := DProgram(k, P), TrEnv(k, env);
    var alts := [SAlt(e.lhs, e.l)];
    DAltOne(k, alts[0]);
    var lalts := [LAlt(DPats(e.lhs), D(k, e.l))];
    TwoParts(n, LP, LBlock(e.pos, lalts), D(k, e.r), lenv);
    EvalSim(n, k, P, e.r, env);
    var r := SEval(n, k, P, e.r, env);
    if !r.SOk? {
      HaltSim(n, k, P, r);
    } else {
      assert [] + [Tr(k, r.v)] == [Tr(k, r.v)];
      TrOne(k, r.v);
      if |e.lhs| == 1 && SMatch(e.lhs[0], r.v, env).0 {
        LetEnters(n, k, P, e, env, r.v);
      } else {
        ValueSim(n, k, P, SClo(env, e.pos, alts), [r.v]);
      }
    }
  }

  lemma {:induction false} LetEnters(n: nat, k: Known, P: SProgram, e: Ast, env: SEnv, v: SVal)
    requires Standard(k, P) && e.SLet? && |e.lhs| == 1 && SMatch(e.lhs[0], v, env).0
    ensures var lalts := [LAlt(DPats(e.lhs), D(k, e.l))];
            SpineSim(n, k, P, SSpine(HBody(e.l, SMatch(e.lhs[0], v, env).1), []), LSpine(VClo(TrEnv(k, env), e.pos, lalts), [Tr(k, v)]))
    decreases n, 2, e, 0
  {
    hide LEvalRoot, SApplyHead, LEval, SEval, HeadSim, LSelect, SSelect, SMatch;
    var LP, lenv := DProgram(k, P), TrEnv(k, env);
    var lalts := [LAlt(DPats(e.lhs), D(k, e.l))];
    var f, env1 := VClo(lenv, e.pos, lalts), SMatch(e.lhs[0], v, env).1;
    DAltOne(k, SAlt(e.lhs, e.l));
    assert e.lhs == [e.lhs[0]];
    forall extra: seq<SVal>
      ensures HeadSim(n, k, P, HBody(e.l, env1), [], f, [Tr(k, v)], extra)
    {
      SelectLet(e.lhs[0], e.l, v, extra, env);
      SelectSim(k, [SAlt(e.lhs, e.l)], [v] + extra, env);
      TrJoin(k, [v], extra);
      TrOne(k, v);
      var largs := [Tr(k, v)] + TrAll(k, extra);
      assert largs[1..] == TrAll(k, extra);
      BodySim(n, k, P, e.l, env1, f, [Tr(k, v)], extra);
    }
  }

  lemma {:induction false} ThrowLemma(n: nat, k: Known, P: SProgram, e: Ast, env: SEnv)
    requires Standard(k, P) && e.SThrow?
    ensures SpineSim(n, k, P, SEvalSpine(n, k, P, e, env), LEvalSpine(n, DProgram(k, P), D(k, e), TrEnv(k, env)))
    decreases n, 2, e, 0
  {
    hide LEvalRoot, LEval, SEval, SpineSim, LApply, SApplyHead;
    TwoParts(n, DProgram(k, P), LComb(k.throw), D(k, e.body), TrEnv(k, env));
    EvalSim(n, k, P, e.body, env);
    var r := SEval(n, k, P, e.body, env);
    if r.SOk? {
      assert [] + [Tr(k, r.v)] == [Tr(k, r.v)];
      ThrowSpine(n, k, P, r.v);
    } else {
      HaltSim(n, k, P, r);
    }
  }

  lemma ThrowSpine(n: nat, k: Known, P: SProgram, v: SVal)
    requires Standard(k, P)
    ensures SpineSim(n, k, P, SSpine(HThrow, [v]), LSpine(VLeaf(CombAtom(k.throw)), [Tr(k, v)]))
  {
    forall extra: seq<SVal>
      ensures HeadSim(n, k, P, HThrow, [v], VLeaf(CombAtom(k.throw)), [Tr(k, v)], extra)
    {
      TrJoin(k, [v], extra);
      TrOne(k, v);
    }
  }

  lemma BlockValue(n: nat, LP: LProgram, env: LEnv, pos: nat, w: Name, e: LExpr)
    ensures LEval(n, LP, LBlock(pos, [LAlt([PVar(w)], e)]), env) == if n == 0 then LOut else LOk(VClo(env, pos, [LAlt([PVar(w)], e)]))
  {
    var alts := [LAlt([PVar(w)], e)];
    assert LSelect(alts[1..], [], env) == LNoAlt;
    assert LSelect(alts, [], env) == LNoAlt;
  }

  lemma {:induction false} TryLemma(n: nat, k: Known, P: SProgram, e: Ast, env: SEnv)
    requires Standard(k, P) && e.STry?
    ensures SpineSim(n, k, P, SEvalSpine(n, k, P, e, env), LEvalSpine(n, DProgram(k, P), D(k, e), TrEnv(k, env)))
    decreases n, 2, e, 0
  {
    hide LEvalRoot, SApplyHead, LEval, SEval, HeadSim, LApply;
    var LP, lenv := DProgram(k, P), TrEnv(k, env);
    var cb, tb := LBlock(e.pos, [LAlt([PVar(e.w)], D(k, e.c))]), LBlock(e.pos1, [LAlt([PVar(e.w1)], D(k, e.t))]);
    ThreeParts(n, LP, LComb(k.handle), cb, tb, lenv);
    BlockValue(n, LP, lenv, e.pos, e.w, D(k, e.c));
    BlockValue(n, LP, lenv, e.pos1, e.w1, D(k, e.t));
    if n > 0 {
      var cv, tv := VClo(lenv, e.pos, [LAlt([PVar(e.w)], D(k, e.c))]), VClo(lenv, e.pos1, [LAlt([PVar(e.w1)], D(k, e.t))]);
      var envT, envC := [SBind(e.w1, SNONE)] + env, [SBind(e.w, SNONE)] + env;
      assert [] + [cv, tv] == [cv, tv];
      forall extra: seq<SVal>
        ensures HeadSim(n, k, P, HTry(e.t, e.c, envT, envC), [], VLeaf(CombAtom(k.handle)), [cv, tv], extra)
      {
        TryApply(n, k, P, e, env, extra);
      }
    }
  }

  lemma HandleApply(n: nat, LP: LProgram, s: Symbol, cv: LVal, tv: LVal, extra: seq<LVal>)
    requires n > 0 && s in LP && LP[s].LHandle?
    ensures LApply(n, LP, VLeaf(CombAtom(s)), [cv, tv] + extra) ==
      var r := LApply(n - 1, LP, tv, [LNONE] + extra);
      if r.LExc? then LApply(n - 1, LP, cv, [LNONE] + r.vs) else r
  {
    var args := [cv, tv] + extra;
    assert args[2..] == extra;
  }

  lemma {:induction false} TryApply(n: nat, k: Known, P: SProgram, e: Ast, env: SEnv, extra: seq<SVal>)
    requires Standard(k, P) && e.STry? && n > 0
    ensures var lenv := TrEnv(k, env);
            var cv, tv := VClo(lenv, e.pos, [LAlt([PVar(e.w)], D(k, e.c))]), VClo(lenv, e.pos1, [LAlt([PVar(e.w1)], D(k, e.t))]);
            HeadSim(n, k, P, HTry(e.t, e.c, [SBind(e.w1, SNONE)] + env, [SBind(e.w, SNONE)] + env), [], VLeaf(CombAtom(k.handle)), [cv, tv], extra)
    decreases n, 0, 0
  {
    hide LEvalRoot, SEvalRoot, LApply;
    var LP, lenv := DProgram(k, P), TrEnv(k, env);
    var cv, tv := VClo(lenv, e.pos, [LAlt([PVar(e.w)], D(k, e.c))]), VClo(lenv, e.pos1, [LAlt([PVar(e.w1)], D(k, e.t))]);
    var envT, envC := [SBind(e.w1, SNONE)] + env, [SBind(e.w, SNONE)] + env;
    assert [] + extra == extra;
    HandleApply(n, LP, k.handle, cv, tv, TrAll(k, extra));
    BodyApply(n - 1, LP, lenv, e.pos1, e.w1, D(k, e.t), LNONE, TrAll(k, extra));
    TrPush(k, e.w1, SNONE, env);
    TrPush(k, e.w, SNONE, env);
    if n > 1 {
      RootSim(n - 2, k, P, e.t, envT, extra);
      var r := SEvalRoot(n - 2, k, P, e.t, envT, extra);
      if r.SExc? {
        BodyApply(n - 1, LP, lenv, e.pos, e.w, D(k, e.c), LNONE, TrAll(k, r.vs));
        RootSim(n - 2, k, P, e.c, envC, r.vs);
      }
    }
  }
}