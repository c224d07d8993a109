/** The back end over a whole unit, and with the lifting pass the compiler: from definitions with blocks to a table of bytes. */
module EmitUnits {
  import opened Terms
  import opened Syntax
  import opened Semantics
  import opened Evaluation
  import opened Bytecode
  import opened Emit
  import opened Blocks
  import opened Encoding
  import opened Machine
  import opened Reredex
  import opened Redexer
  import opened Compile
  import opened Toplevel
  import opened Backend
  import opened Emitter
  import opened Closures
  import opened LiftProgram
  import opened Lifter
  import opened LiftUnits
  import opened Compiler
  import LiftMeaning
  import Names = LiftNames

  // Naming redexes

  function Renamed(ds: set<Symbol>, x: Declared): Declared {
    Declared(x.s, RedexedDef(ds, x.d))
  }

  method RedexUnit(ds: set<Symbol>, unit: seq<Declared>) returns (r: seq<Declared>)
    ensures r == seq(|unit|, i requires 0 <= i < |unit| => Renamed(ds, unit[i]))
  {
    hide RedexedAlts;
    var redexer := new RewriteRedex(ds);
    r := [];
    for i := 0 to |unit|
      invariant fresh(redexer) && |r| == i && forall j :: 0 <= j < i ==> r[j] == Renamed(ds, unit[j])
    {
      var d := unit[i].d;
      if d.CodeDef? {
        var ms := redexer.RewriteBlock(d.alts);
        d := CodeDef(ms);
      }
      r := r + [Declared(unit[i].s, d)];
    }
  }

  // Emitting

  function DefPats(d: Def): set<Name> {
    if d.CodeDef? then AllPats(d.alts) else {}
  }

  /** The names of all pattern variables. */
  function UnitPats(unit: seq<Declared>): set<Name> {
    if unit == [] then {} else UnitPats(unit[..|unit| - 1]) + DefPats(unit[|unit| - 1].d)
  }

  /** The definitions are ones the back end accepts, and their code fits its operands, whatever is bound from earlier ones. */
  ghost predicate Accepted(ds: set<Symbol>, d: Def) {
    d.CodeDef? ==> SourceAlts(d.alts) && |d.alts| < WORD && forall stale: Vars :: FitsOperands(ds, stale, d.alts)
  }

  ghost predicate FitsOperands(ds: set<Symbol>, stale: Vars, ms: seq<Alt>) {
    Fresh(stale.Keys, 0) ==> Encodable(DefCode(ds, stale, RedexedAlts(ds, ms)), DefLabels(ds, stale, RedexedAlts(ds, ms)))
  }

  lemma {:induction false} PatsFresh(ds: set<Symbol>, unit: seq<Declared>)
    requires forall i :: 0 <= i < |unit| ==> Accepted(ds, unit[i].d)
    ensures Fresh(UnitPats(unit), 0) && forall i :: 0 <= i < |unit| ==> DefPats(unit[i].d) <= UnitPats(unit)
    decreases |unit|
  {
    hide AllPats, SourceAlts, FitsOperands, RedexName;
    if unit != [] {
      var u, d := unit[..|unit| - 1], unit[|unit| - 1].d;
      forall i | 0 <= i < |u|
        ensures Accepted(ds, u[i].d) && u[i] == unit[i]
      {
        assert Accepted(ds, unit[i].d);
      }
      PatsFresh(ds, u);
      assert Accepted(ds, d);
      if d.CodeDef? {
        AllPatsFresh(d.alts);
      }
      FreshUnion(UnitPats(u), DefPats(d));
    }
  }

  /** What the machine makes of a definition that is not code. */
  function PlainComb(d: Def): Combinator {
    match d
    case DataDef => DataComb
    case ThrowDef => ThrowComb
    case HandleDef => HandleComb
    case CodeDef(_) => DataComb
  }

  /** The emitter is between two definitions; what it still has bound are names of pv. */
  ghost predicate Idle(emitter: EmitCode, pv: set<Name>)
    reads emitter, emitter.coder
  {
    var cd := emitter.coder;
    cd.Valid() && cd.prog == [] && cd.labelCounter == 0 && cd.registerCounter == 0 && cd.labels == map[] && emitter.variables.Keys <= pv
  }

  method EmitDefinition(emitter: EmitCode, x: Declared, ghost d: Def, ghost pv: set<Name>) returns (c: Combinator)
    requires Accepted(emitter.ds, d) && x.d == RedexedDef(emitter.ds, d) && DefPats(d) <= pv && Fresh(pv, 0)
    requires Idle(emitter, pv)
    modifies emitter, emitter.coder
    ensures EmittedAs(emitter.ds, d, c)
    ensures Idle(emitter, pv)
  {
    hide EncodeAll, Consts, AltsOk, Resolve, ByteLabels, DefCode, DefLabels, AllPats, Fresh, SourceAlts, RedexedAlts, Encodable;
    if x.d.CodeDef? {
      ghost var stale := emitter.variables;
      RedexedAltsOk(emitter.ds, pv, d.alts);
      SameCount(emitter.ds, d.alts);
      var code, data := emitter.VisitDefinition(x.d.alts, pv);
      c := CodeComb(code, data);
      FreshLess(stale.Keys, pv);
      assert FitsOperands(emitter.ds, stale, d.alts);
      assert EmittedCode(emitter.ds, stale, d.alts, c);
    } else {
      c := PlainComb(x.d);
    }
  }

  lemma {:induction false} SameCount(ds: set<Symbol>, ms: seq<Alt>)
    ensures |RedexedAlts(ds, ms)| == |ms|
    decreases |ms|
  {
    if ms != [] {
      SameCount(ds, ms[1..]);
    }
  }

  lemma FreshLess(s: set<Name>, t: set<Name>)
    requires s <= t && Fresh(t, 0)
    ensures Fresh(s, 0)
  {
    hide RedexName;
  }

  /** The table after the definitions so far. */
  ghost predicate Filled(ds: set<Symbol>, P: Program, unit: seq<Declared>, i: nat, T0: Table, T: Table) {
    && (forall s :: s in T0 ==> s in T && T[s] == T0[s])
    && (forall s :: s in T && s !in T0 ==> s in P && EmittedAs(ds, P[s], T[s]))
    && (forall j :: 0 <= j < i && j < |unit| ==> unit[j].s in T)
  }

  /** All definitions go through one emitter; T0 has the combinators that stop the machine. */
  method EmitUnit(ds: set<Symbol>, renamed: seq<Declared>, T0: Table, ghost unit: seq<Declared>) returns (T: Table)
    requires renamed == seq(|unit|, i requires 0 <= i < |unit| => Renamed(ds, unit[i]))
    requires Lists(unit, ProgramOf(unit)) && DataOk(ProgramOf(unit), ds)
    requires forall i :: 0 <= i < |unit| ==> Accepted(ds, unit[i].d)
    requires forall s :: s in T0 ==> T0[s].ResultComb? && s !in ProgramOf(unit)
    ensures Emitted(ds, ProgramOf(unit), T) && forall s :: s in T0 ==> s in T && T[s] == T0[s]
  {
    hide EmittedAs, ProgramOf, UnitPats, DefPats, Accepted, Fresh, RedexedDef, DataOk, Lists, Filled, Emitted, Idle;
    ghost var P := ProgramOf(unit);
    ghost var pv := UnitPats(unit);
    PatsFresh(ds, unit);
    var emitter := new EmitCode(ds);
    StartsIdle(emitter, pv);
    T := T0;
    NoneFilled(ds, P, unit, T0);
    for i := 0 to |renamed|
      invariant fresh(emitter) && fresh(emitter.coder) && emitter.ds == ds
      invariant Idle(emitter, pv)
      invariant Filled(ds, P, unit, i, T0, T)
    {
      assert renamed[i] == Renamed(ds, unit[i]);
      var c := EmitDefinition(emitter, renamed[i], unit[i].d, pv);
      OneFilled(ds, P, unit, i, T0, T, c);
      T := T[renamed[i].s := c];
    }
    FilledAll(ds, P, unit, T0, T);
  }

  lemma StartsIdle(emitter: EmitCode, pv: set<Name>)
    requires var cd := emitter.coder; cd.Valid() && cd.prog == [] && cd.labelCounter == 0 && cd.registerCounter == 0 && cd.labels == map[]
    requires emitter.variables == map[]
    ensures Idle(emitter, pv)
  {
  }

  lemma NoneFilled(ds: set<Symbol>, P: Program, unit: seq<Declared>, T0: Table)
    ensures Filled(ds, P, unit, 0, T0, T0)
  {
  }

  lemma OneFilled(ds: set<Symbol>, P: Program, unit: seq<Declared>, i: nat, T0: Table, T: Table, c: Combinator)
    requires i < |unit| && Filled(ds, P, unit, i, T0, T) && Lists(unit, P) && EmittedAs(ds, unit[i].d, c)
    requires forall s :: s in T0 ==> s !in P
    ensures Filled(ds, P, unit, i + 1, T0, T[unit[i].s := c])
  {
    hide EmittedAs;
  }

  lemma FilledAll(ds: set<Symbol>, P: Program, unit: seq<Declared>, T0: Table, T: Table)
    requires Filled(ds, P, unit, |unit|, T0, T) && Lists(unit, P) && DataOk(P, ds)
    requires forall s :: s in T0 ==> T0[s].ResultComb? && s !in P
    ensures Emitted(ds, P, T) && forall s :: s in T0 ==> s in T && T[s] == T0[s]
  {
    hide EmittedAs;
  }

  // The compiler

  /** Compiled definitions do what the definitions with blocks do: see SourceComplete and SourceSound. */
  method CompileUnit(unit: seq<Entry>, table: Symbols, ds: set<Symbol>, T0: Table, ret: Symbol, exc: Symbol, ghost sym: nat -> Symbol, ghost name: Symbol -> Name)
    returns (T: Table, ghost w: LiftMeaning.World)
    requires var lp := SourceOf(unit);
             && UnitOk(unit, name) && Names.Named(sym, lp, table, name) && !Names.Taken(sym, lp, name) && Names.Harmless(sym, lp, name)
             && Source(LiftedSymbols(sym, lp), lp)
    requires forall s :: s in ds ==> s in SourceOf(unit) && SourceOf(unit)[s] == LData
    requires forall d :: d in UnitDecls(sym, unit) ==> Accepted(ds, d.d)
    requires T0 == map[ret := ResultComb(false), exc := ResultComb(true)] && ret != exc
    requires var lp := SourceOf(unit); {ret, exc} !! lp.Keys + LiftedSymbols(sym, lp)
    ensures w == LiftMeaning.World(sym, LiftedSymbols(sym, SourceOf(unit)), SourceOf(unit), ProgramOf(UnitDecls(sym, unit)))
    ensures CompiledSource(ds, w, T) && Stops(w.p, T, ret, exc)
  {
    hide Names.Named, Names.Taken, Names.Harmless, LiftedSymbols, EntryDecls, UnitDecls, Accepted, SourceOf, ProgramOf, UnitOk, Lists, Source, Emitted, Output;
    UnitOutput(sym, unit, table, name);
    var lifted := LiftUnit(unit, table, sym, name);
    w := LiftMeaning.World(sym, LiftedSymbols(sym, SourceOf(unit)), SourceOf(unit), ProgramOf(lifted));
    OutputKeys(w, ds);
    var renamed := RedexUnit(ds, lifted);
    T := EmitUnit(ds, renamed, T0, lifted);
    assert ret in T0 && exc in T0;
  }

  lemma OutputKeys(w: LiftMeaning.World, ds: set<Symbol>)
    requires Output(w) && forall s :: s in ds ==> s in w.lp && w.lp[s] == LData
    ensures w.p.Keys == w.lp.Keys + w.ls && DataOk(w.p, ds)
  {
    hide DefsOf;
  }
}
