/** The back end as a whole: naming redexes, code generation, encoding, and the machine. */
module Backend {
  import opened Terms
  import opened Heaps
  import opened Syntax
  import opened Semantics
  import opened Evaluation
  import opened Bytecode
  import opened Emit
  import opened Blocks
  import opened Encoding
  import opened LetNormal
  import opened Machine
  import opened Reredex
  import opened Compile
  import opened Values
  import opened Chain
  import opened Toplevel

  /** The combinator made of a lifted definition; stale are the pattern variables of earlier definitions. */
  ghost predicate EmittedCode(ds: set<Symbol>, stale: Vars, ms: seq<Alt>, c: Combinator) {
    && Fresh(stale.Keys, 0)
    && var code := DefCode(ds, stale, RedexedAlts(ds, ms));
       var labels := DefLabels(ds, stale, RedexedAlts(ds, ms));
       Encodable(code, labels) && c == CodeComb(EncodeAll(Resolve(code, ByteLabels(code, labels)), 0), Consts(code))
  }

  ghost predicate EmittedAs(ds: set<Symbol>, d: Def, c: Combinator) {
    match d
    case DataDef => c == DataComb
    case ThrowDef => c == ThrowComb
    case HandleDef => c == HandleComb
    case CodeDef(ms) => exists stale :: EmittedCode(ds, stale, ms, c)
  }

  /** The table that the back end fills from a program of lifted definitions. */
  ghost predicate Emitted(ds: set<Symbol>, P: Program, T: Table) {
    && DataOk(P, ds)
    && (forall s :: s in P ==> s in T && EmittedAs(ds, P[s], T[s]))
    && (forall s :: s in T && s !in P ==> T[s].ResultComb?)
  }

  function AllPats(ms: seq<Alt>): set<Name> {
    if ms == [] then {} else PatsVars(ms[0].pats) + AllPats(ms[1..])
  }

  lemma {:induction false} AllPatsFresh(ms: seq<Alt>)
    requires SourceAlts(ms)
    ensures Fresh(AllPats(ms), 0) && forall i :: 0 <= i < |ms| ==> PatsVars(ms[i].pats) <= AllPats(ms)
    decreases |ms|
  {
    hide RedexName, PatsVars, Core, VarsOf, PatternsOk;
    if ms != [] {
      assert SourceAlt(ms[0]);
      AllPatsFresh(ms[1..]);
      forall i | 0 <= i < |ms| ensures PatsVars(ms[i].pats) <= AllPats(ms) {
        if i > 0 {
          assert ms[i] == ms[1..][i - 1];
        }
      }
    }
  }

  lemma {:induction false} WrapLets(ds: set<Symbol>, s: set<Name>, t: nat, rs: seq<Named>, e: Expr, v: Name)
    requires (forall j :: 0 <= j < |rs| ==> rs[j].x == RedexName(t + j)) && !e.Let? && Fresh({v}, 0)
    ensures v !in Lets(Wrap(rs, e))
    decreases |rs|
  {
    hide RedexName;
    if rs != [] {
      assert rs[0].x == RedexName(t + 0) && RedexName(t) !in {v};
      forall j | 0 <= j < |rs| - 1 ensures rs[1..][j].x == RedexName(t + 1 + j) {
        assert rs[1..][j] == rs[j + 1];
      }
      WrapLets(ds, s, t + 1, rs[1..], e, v);
    }
  }

  lemma RedexedLets(ds: set<Symbol>, s: set<Name>, e: Expr, pv: set<Name>)
    requires Core(e) && VarsOf(e) <= s && Fresh(s, 0) && Fresh(pv, 0)
    ensures Lets(Redexed(ds, e)) !! pv
  {
    hide Core, VarsOf, Root, RedexName, Count, CountNamed, RedexTree, TreeOk, IsRedex;
    RootShape(ds, s, e);
    var p := Root(ds, e);
    forall v | v in pv ensures v !in Lets(Redexed(ds, e)) {
      FreshOne(pv, v);
      WrapLets(ds, s, 0, p.rs, p.e, v);
    }
  }

  lemma FreshOne(s: set<Name>, v: Name)
    requires Fresh(s, 0) && v in s
    ensures Fresh({v}, 0)
  {
    hide RedexName;
  }

  lemma RedexedAlt(ds: set<Symbol>, pv: set<Name>, m: Alt)
    requires SourceAlt(m) && PatsVars(m.pats) <= pv && Fresh(pv, 0)
    ensures AltOk(ds, pv, Alt(m.pats, Redexed(ds, m.body)))
  {
    hide Core, VarsOf, Redexed, Fresh, PatsVars, PatternsOk, BodyOk, Lets;
    RedexedOk(ds, PatsVars(m.pats), m.body);
    RedexedLets(ds, PatsVars(m.pats), m.body, pv);
  }

  lemma {:induction false} RedexedAltsOk(ds: set<Symbol>, pv: set<Name>, ms: seq<Alt>)
    requires SourceAlts(ms) && AllPats(ms) <= pv && Fresh(pv, 0)
    ensures AltsOk(ds, pv, RedexedAlts(ds, ms))
    decreases |ms|
  {
    hide SourceAlt, AltOk, Fresh, PatsVars, Redexed;
    if ms != [] {
      RedexedAlt(ds, pv, ms[0]);
      RedexedAltsOk(ds, pv, ms[1..]);
      AltsCons(ds, pv, Alt(ms[0].pats, Redexed(ds, ms[0].body)), RedexedAlts(ds, ms[1..]));
    }
  }

  lemma AltsCons(ds: set<Symbol>, pv: set<Name>, m: Alt, ms: seq<Alt>)
    requires AltOk(ds, pv, m) && AltsOk(ds, pv, ms)
    ensures AltsOk(ds, pv, [m] + ms)
  {
    hide AltOk;
  }

  lemma EmittedAssembled(ds: set<Symbol>, stale: Vars, ms: seq<Alt>, c: Combinator)
    requires EmittedCode(ds, stale, ms, c) && SourceAlts(ms)
    ensures Assembled(ds, AllPats(ms) + stale.Keys, stale, RedexedAlts(ds, ms), c)
  {
    hide SourceAlts, Fresh, RedexedAlts, Encodable, EncodeAll, Resolve, ByteLabels, Consts, DefCode, DefLabels, AltsOk, AllPats;
    AllPatsFresh(ms);
    FreshUnion(AllPats(ms), stale.Keys);
    RedexedAltsOk(ds, AllPats(ms) + stale.Keys, ms);
  }

  lemma FreshUnion(s: set<Name>, t: set<Name>)
    requires Fresh(s, 0) && Fresh(t, 0)
    ensures Fresh(s + t, 0)
  {
    hide RedexName;
  }

  /** The emitted table is the compiled form of the rewritten program. */
  lemma EmittedCompiled(ds: set<Symbol>, P: Program, T: Table)
    requires Emitted(ds, P, T) && SourceProgram(P)
    ensures Compiled(ds, RedexedProgram(ds, P), T) && DataOk(P, ds)
  {
    hide EmittedCode, Assembled, RedexedAlts, SourceAlts;
    forall s | s in P ensures CompiledAs(ds, RedexedDef(ds, P[s]), T[s]) {
      assert EmittedAs(ds, P[s], T[s]);
      if P[s].CodeDef? {
        var ms := P[s].alts;
        var stale :| EmittedCode(ds, stale, ms, T[s]);
        EmittedAssembled(ds, stale, ms, T[s]);
      }
    }
  }

  // Whole runs, stated for the lifted program

  /** If evaluation of the lifted program ends, the machine ends on the emitted code, with the same value or exception. */
  lemma MachineComplete(n: nat, P: Program, ds: set<Symbol>, T: Table, h: Heap, f: Obj, ft: Term, ret: Symbol, exc: Symbol) returns (m: nat)
    requires Emitted(ds, P, T) && SourceProgram(P) && Stops(P, T, ret, exc) && Rep(h, f, ft)
    ensures var r := Apply(n, P, ft, []);
            var x := Steps(T, m, Boot(h, f, ret, exc), Arr(|h| + 2));
            match r
            case Out => Alive(T, n, Boot(h, f, ret, exc), Arr(|h| + 2))
            case Val(v) => x.Finish? && !x.exception && Rep(x.h, x.result, v)
            case Exc(es) => x.Finish? && x.exception && es != [] && Rep(x.h, x.result, es[0])
            case Undef(s) => x.Go? && Stuck(x.h, x.o, s)
  {
    hide Emitted, Apply, Steps, Alive, Rep, Boot, Stuck, Compiled, SourceProgram, DataOk;
    EmittedCompiled(ds, P, T);
    ProgramApply(n, P, ds, ft, []);
    m := RunComplete(n, RedexedProgram(ds, P), ds, T, h, f, ft, ret, exc);
  }

  /** If the machine ends on the emitted code, evaluation of the lifted program ends, with the same value or exception. */
  lemma MachineSound(m: nat, P: Program, ds: set<Symbol>, T: Table, h: Heap, f: Obj, ft: Term, ret: Symbol, exc: Symbol)
    requires Emitted(ds, P, T) && SourceProgram(P) && Stops(P, T, ret, exc) && Rep(h, f, ft)
    ensures var x := Steps(T, m, Boot(h, f, ret, exc), Arr(|h| + 2));
            !x.Go? ==> !Apply(m, P, ft, []).Out? && Agrees(x, Apply(m, P, ft, []))
  {
    hide Emitted, Apply, Steps, Rep, Boot, Compiled, SourceProgram, DataOk, Agrees;
    EmittedCompiled(ds, P, T);
    ProgramApply(m, P, ds, ft, []);
    RunSound(m, RedexedProgram(ds, P), ds, T, h, f, ft, ret, exc);
  }
}
