/** Programs and the tables the compiler makes of them. */
module Compile {
  import opened Terms
  import opened Heaps
  import opened Syntax
  import opened Semantics
  import opened Evaluation
  import opened Bytecode
  import opened Emit
  import opened Build
  import opened Codegen
  import opened Matching
  import opened Blocks
  import opened Encoding
  import opened LetNormal
  import opened Filling
  import opened Machine

  function Lets(e: Expr): set<Name> {
    if e.Let? then {e.x} + Lets(e.body) else {}
  }

  /** An alternative the emitter accepts: names of pattern variables (pv) are not names of redexes. */
  predicate AltOk(ds: set<Symbol>, pv: set<Name>, m: Alt) {
    && PatternsOk(m.pats) && |m.pats| + 5 < INDEX_RANGE
    && PatsVars(m.pats) <= pv && Lets(m.body) !! pv
    && BodyOk(ds, PatsVars(m.pats), m.body)
  }

  predicate AltsOk(ds: set<Symbol>, pv: set<Name>, ms: seq<Alt>) {
    forall i :: 0 <= i < |ms| ==> AltOk(ds, pv, ms[i])
  }

  /** The combinator that the coder makes of a definition; stale are the bindings the emitter had before. */
  ghost predicate Assembled(ds: set<Symbol>, pv: set<Name>, stale: Vars, ms: seq<Alt>, c: Combinator) {
    && AltsOk(ds, pv, ms) && stale.Keys <= pv
    && var code := DefCode(ds, stale, ms);
       var labels := DefLabels(ds, stale, ms);
       Encodable(code, labels) && c == CodeComb(EncodeAll(Resolve(code, ByteLabels(code, labels)), 0), Consts(code))
  }

  ghost predicate CompiledAs(ds: set<Symbol>, d: Def, c: Combinator) {
    match d
    case DataDef => c == DataComb
    case ThrowDef => c == ThrowComb
    case HandleDef => c == HandleComb
    case CodeDef(ms) => exists pv, stale :: Assembled(ds, pv, stale, ms, c)
  }

  /** The table holds the compiled program, and combinators that stop the machine. */
  ghost predicate Compiled(ds: set<Symbol>, P: Program, T: Table) {
    && (forall s :: s in ds ==> s in P && P[s] == DataDef)
    && (forall s :: s in P ==> s in T && CompiledAs(ds, P[s], T[s]))
    && (forall s :: s in T && s !in P ==> T[s].ResultComb?)
  }

  // Names

  lemma {:induction false} LetsFresh(ds: set<Symbol>, scope: set<Name>, e: Expr, v: Name)
    requires BodyOk(ds, scope, e) && v in scope
    ensures LetsAvoid(e, v)
    decreases e
  {
    if e.Let? {
      LetsFresh(ds, scope + {e.x}, e.body, v);
    }
  }

  lemma {:induction false} PatternNames(n: nat, r: nat, lbl: nat, p: Pattern)
    ensures PatternCode(n, r, lbl, p).vars.Keys == PatVars(p)
    decreases p, 1
  {
    match p
    case PConst(_) =>
    case PVar(_) =>
    case PTag(q, _) => PatternNames(n, r, lbl, q);
    case PApp(ps) => PatternsNames(n + |ps|, n, lbl, ps);
  }

  lemma {:induction false} PatternsNames(n: nat, r: nat, lbl: nat, ps: seq<Pattern>)
    ensures PatternsCode(n, r, lbl, ps).vars.Keys == PatsVars(ps)
    decreases ps, 0
  {
    if ps != [] {
      PatternNames(n, r, lbl, ps[0]);
      PatternsNames(PatternCode(n, r, lbl, ps[0]).n, r + 1, lbl, ps[1..]);
    }
  }

  lemma HeadNames(n: nat, lbl: nat, ps: seq<Pattern>)
    ensures HeadCode(n, lbl, ps).vars.Keys == PatsVars(ps)
  {
    PatternsNames(n + |ps|, n, lbl, ps);
  }

  /** The environment of a taken alternative binds its pattern variables. */
  lemma TakenEnv(h: Heap, ps: seq<Pattern>, args: seq<Obj>, ts: seq<Term>)
    requires Reps(h, args, ts) && Taken(ps, ts)
    ensures |args| == |ts|
    ensures var env := MatchObjs(h, ps, args[..|ps|], map[]);
            RepEnv(h, env, Matches(ps, ts[..|ps|], map[]).1) && env.Keys == PatsVars(ps)
  {
    var n := |ps|;
    assert Reps(h, args[..n], ts[..n]);
    MatchesRep(h, ps, args[..n], ts[..n], map[], map[]);
    MatchesKeys(ps, ts[..n], map[]);
  }

  // Compiled alternatives meet the conditions of code generation

  lemma {:induction false} FitsBody(ds: set<Symbol>, scope: set<Name>, vars: Vars, e: Expr, env: Objs, n: nat, link: Link, extra: seq<Obj>)
    requires BodyOk(ds, scope, e) && env.Keys <= scope && (e.Var? ==> e.v in env)
    requires (forall v :: v in scope && v in vars ==> v in env) && Lets(e) !! vars.Keys
    ensures Fits(ds, vars, e, env, n, link, extra)
    decreases e
  {
    hide RootBody, IsRedex, Count, VarsOf, TreeOk, RedexTree, RedexOk, FilledBody;
    if e.Let? {
      RedexIsCore(ds, e.rhs);
      LetsFresh(ds, scope + {e.x}, e.body, e.x);
      BodyIsCore(ds, scope + {e.x}, e.body);
      RootFill(ds, n, e.body, env, link, extra, e.x, Null);
      FilledHole(n, RootBody(ds, n, e.body, env, link, extra), RootBody(ds, n, e.body, env[e.x := Null], link, extra), e.x, Null);
      FitsBody(ds, scope + {e.x}, vars, e.body, env, n, link, extra);
    } else {
      BodyIsCore(ds, scope, e);
    }
  }

  lemma FilledHole(n: nat, b: Body, b1: Body, v: Name, w: Obj)
    requires FilledBody(n, b, b1, v, w)
    ensures v in b.holes && Inside(n, b.cells, b.holes[v]) && b.holes[v].0 !in b.dead
  {
  }

  lemma FitsAlt(ds: set<Symbol>, pv: set<Name>, lbl: nat, stale: Vars, m: Alt, h: Heap, link: Link, args: seq<Obj>, ts: seq<Term>)
    requires AltOk(ds, pv, m) && stale.Keys <= pv && Reps(h, args, ts)
    ensures MatchFits(ds, stale, lbl, m, h, link, args, ts) && MatchVars(6, lbl, stale, m).Keys <= pv
  {
    hide PatternsOk, BodyOk, Reps, Fits, MatchObjs, HeadCode, Lets, PatsVars, Matches;
    HeadNames(6, lbl, m.pats);
    if Taken(m.pats, ts) {
      TakenEnv(h, m.pats, args, ts);
      var env := MatchObjs(h, m.pats, args[..|m.pats|], map[]);
      RootVar(ds, env.Keys, m.body);
      FitsBody(ds, env.Keys, MatchVars(6, lbl, stale, m), m.body, env, |h|, link, args[|m.pats|..]);
    }
  }

  lemma RootVar(ds: set<Symbol>, scope: set<Name>, e: Expr)
    requires BodyOk(ds, scope, e)
    ensures e.Var? ==> e.v in scope
  {
  }

  lemma {:induction false} FitsBlock(ds: set<Symbol>, pv: set<Name>, lbl: nat, stale: Vars, ms: seq<Alt>, h: Heap, link: Link, args: seq<Obj>, ts: seq<Term>)
    requires AltsOk(ds, pv, ms) && stale.Keys <= pv && Reps(h, args, ts)
    ensures BlockFits(ds, lbl, stale, ms, h, link, args, ts)
    decreases |ms|
  {
    hide AltOk, Reps, MatchFits, MatchVars;
    if ms != [] {
      FitsAlt(ds, pv, lbl, stale, ms[0], h, link, args, ts);
      FitsBlock(ds, pv, lbl + 1, MatchVars(6, lbl, stale, ms[0]), ms[1..], h, link, args, ts);
    }
  }
}
