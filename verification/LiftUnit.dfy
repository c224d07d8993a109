/** The lifting pass over a whole unit: one object goes over all definitions, and makes the lifted program. */
module LiftUnits {
  import opened Terms
  import opened Syntax
  import opened Semantics
  import opened Closures
  import opened Lifting
  import opened LiftMeaning
  import opened LiftProgram
  import opened Lifter
  import opened LiftNames

  /** A definition of the source with its name, and its body after the eta pass. */
  datatype Entry = Entry(s: Symbol, n: Name, d: LDef, eta: LExpr)

  /** A definition of the lifted unit. */
  datatype Declared = Declared(s: Symbol, d: Def)

  // The programs that lists of definitions stand for: later ones replace earlier ones.

  function SourceOf(unit: seq<Entry>): LProgram {
    if unit == [] then map[] else SourceOf(unit[..|unit| - 1])[unit[|unit| - 1].s := unit[|unit| - 1].d]
  }

  function ProgramOf(ds: seq<Declared>): Program {
    if ds == [] then map[] else ProgramOf(ds[..|ds| - 1])[ds[|ds| - 1].s := ds[|ds| - 1].d]
  }

  function BodyOf(d: LDef): LExpr
    requires d.LCode? || d.LValue?
  {
    if d.LCode? then LBlock(0, d.alts) else d.e
  }

  /** Every definition has its own symbol and its name. */
  ghost predicate UnitOk(unit: seq<Entry>, name: Symbol -> Name) {
    && (forall i, j :: 0 <= i < j < |unit| ==> unit[i].s != unit[j].s)
    && (forall i :: 0 <= i < |unit| ==> name(unit[i].s) == unit[i].n && EntryOk(unit[i]))
  }

  /** The eta pass did its work; a body that is a block then makes a definition by cases, and no other does. */
  ghost predicate EntryOk(x: Entry) {
    x.d.LCode? || x.d.LValue? ==> x.eta == Eta(BodyOf(x.d)) && (Deapply(x.eta).LBlock? <==> x.d.LCode?)
  }

  /** The blocks that become definitions, then the definition itself. */
  ghost function EntryDecls(sym: nat -> Symbol, x: Entry): seq<Declared> {
    Codes(Decls(sym, DefsOf(sym, x.d))) + [Declared(x.s, LiftedDef(sym, x.d))]
  }

  function Codes(ds: seq<Decl>): (r: seq<Declared>)
    ensures |r| == |ds|
  {
    if ds == [] then [] else [Declared(ds[0].c, CodeDef(ds[0].alts))] + Codes(ds[1..])
  }

  ghost function UnitDecls(sym: nat -> Symbol, unit: seq<Entry>): seq<Declared> {
    if unit == [] then [] else UnitDecls(sym, unit[..|unit| - 1]) + EntryDecls(sym, unit[|unit| - 1])
  }

  lemma {:induction false} SourceAt(unit: seq<Entry>, i: nat)
    requires i < |unit| && forall i, j :: 0 <= i < j < |unit| ==> unit[i].s != unit[j].s
    ensures unit[i].s in SourceOf(unit) && SourceOf(unit)[unit[i].s] == unit[i].d
    decreases |unit|
  {
    var u := unit[..|unit| - 1];
    if i < |u| {
      SourceAt(u, i);
      assert u[i] == unit[i];
    }
  }

  lemma {:induction false} SourceFrom(unit: seq<Entry>, s: Symbol) returns (i: nat)
    requires s in SourceOf(unit)
    ensures i < |unit| && unit[i].s == s
    decreases |unit|
  {
    i := |unit| - 1;
    if unit[i].s != s {
      i := SourceFrom(unit[..i], s);
    }
  }

  // The pass

  method LiftEntry(lifter: RewriteLift, x: Entry, ghost sym: nat -> Symbol) returns (ds: seq<Declared>)
    requires EntryOk(x) && Numbered(sym, lifter.table, x.n, 0, DefPositions(x.d))
    modifies lifter
    ensures ds == EntryDecls(sym, x)
  {
    hide Deapply, Eta, LiftOf, Lift, LiftedFrom, LiftedFromOf, Decls, Numbered, Positions, PositionsOf;
    NoDecls(sym);
    match x.d {
      case LData => ds := [Declared(x.s, DataDef)];
      case LThrow => ds := [Declared(x.s, ThrowDef)];
      case LHandle => ds := [Declared(x.s, HandleDef)];
      case _ =>
        var ms := lifter.RewriteDefinition(x.n, Deapply(x.eta), sym);
        ds := Codes(lifter.lifted) + [Declared(x.s, CodeDef(ms))];
    }
  }

  method LiftUnit(unit: seq<Entry>, table: Symbols, ghost sym: nat -> Symbol, ghost name: Symbol -> Name) returns (ds: seq<Declared>)
    requires UnitOk(unit, name) && Named(sym, SourceOf(unit), table, name)
    ensures ds == UnitDecls(sym, unit)
  {
    hide EntryDecls, Named, Deapply, EntryOk, Numbered, DefPositions;
    var lifter := new RewriteLift(table);
    ds := [];
    for i := 0 to |unit|
      invariant fresh(lifter) && ds == UnitDecls(sym, unit[..i])
    {
      assert unit[..i + 1][..i] == unit[..i];
      SourceAt(unit, i);
      NamedNumbered(sym, SourceOf(unit), table, name, unit[i].s);
      assert EntryOk(unit[i]);
      var xs := LiftEntry(lifter, unit[i], sym);
      ds := ds + xs;
    }
    assert unit[..|unit|] == unit;
  }

  // What it makes

  /** The list agrees with the program p, and has all of its symbols. */
  ghost predicate Lists(ds: seq<Declared>, p: Program) {
    && (forall i :: 0 <= i < |ds| ==> ds[i].s in p && p[ds[i].s] == ds[i].d)
    && (forall s :: s in p ==> exists i :: 0 <= i < |ds| && ds[i].s == s)
  }

  lemma {:induction false} ProgramAt(ds: seq<Declared>, p: Program)
    requires forall i :: 0 <= i < |ds| ==> ds[i].s in p && p[ds[i].s] == ds[i].d
    ensures forall s :: s in ProgramOf(ds) ==> s in p && ProgramOf(ds)[s] == p[s]
    ensures forall i :: 0 <= i < |ds| ==> ds[i].s in ProgramOf(ds)
    decreases |ds|
  {
    if ds != [] {
      var d := ds[..|ds| - 1];
      assert forall i :: 0 <= i < |d| ==> d[i] == ds[i];
      ProgramAt(d, p);
      forall i | 0 <= i < |ds|
        ensures ds[i].s in ProgramOf(ds)
      {
        if i < |d| {
          assert d[i].s in ProgramOf(d);
        }
      }
    }
  }

  lemma ListsProgram(ds: seq<Declared>, p: Program)
    requires Lists(ds, p)
    ensures ProgramOf(ds) == p
  {
    ProgramAt(ds, p);
    forall s | s in p
      ensures s in ProgramOf(ds)
    {
      var i :| 0 <= i < |ds| && ds[i].s == s;
      assert ds[i].s in ProgramOf(ds);
    }
  }

  lemma {:induction false} CodesAt(sym: nat -> Symbol, ls: seq<Lifted>, i: nat)
    requires i < |ls|
    ensures Codes(Decls(sym, ls))[i] == Declared(sym(ls[i].pos), CodeDef(ls[i].alts))
    decreases |ls|
  {
    if i > 0 {
      CodesAt(sym, ls[1..], i - 1);
    }
  }

  /** What a list of definitions has in it. */
  ghost predicate Made(sym: nat -> Symbol, x: Entry, d: Declared) {
    d == Declared(x.s, LiftedDef(sym, x.d)) || exists b :: b in DefsOf(sym, x.d) && d == Declared(sym(b.pos), CodeDef(b.alts))
  }

  lemma EntryMade(sym: nat -> Symbol, x: Entry, d: Declared)
    ensures d in EntryDecls(sym, x) <==> Made(sym, x, d)
  {
    hide DefsOf, LiftedDef, Decls, Codes;
    var ls := DefsOf(sym, x.d);
    if d in EntryDecls(sym, x) {
      var i :| 0 <= i < |EntryDecls(sym, x)| && EntryDecls(sym, x)[i] == d;
      if i < |ls| {
        CodesAt(sym, ls, i);
        assert ls[i] in ls;
      }
    }
    if b :| b in ls && d == Declared(sym(b.pos), CodeDef(b.alts)) {
      var i :| 0 <= i < |ls| && ls[i] == b;
      CodesAt(sym, ls, i);
      assert EntryDecls(sym, x)[i] == d;
    }
    assert EntryDecls(sym, x)[|ls|] == Declared(x.s, LiftedDef(sym, x.d));
  }

  lemma {:induction false} UnitMade(sym: nat -> Symbol, unit: seq<Entry>, d: Declared)
    ensures d in UnitDecls(sym, unit) <==> exists i :: 0 <= i < |unit| && Made(sym, unit[i], d)
    decreases |unit|
  {
    hide Made, EntryDecls;
    if unit != [] {
      var u, x := unit[..|unit| - 1], unit[|unit| - 1];
      UnitMade(sym, u, d);
      EntryMade(sym, x, d);
      if i :| 0 <= i < |unit| && Made(sym, unit[i], d) {
        assert i < |u| ==> u[i] == unit[i];
      }
    }
  }

  /** The definitions of the unit are the program that the passes make, if there is one. */
  lemma UnitOutput(sym: nat -> Symbol, unit: seq<Entry>, table: Symbols, name: Symbol -> Name)
    requires UnitOk(unit, name) && Named(sym, SourceOf(unit), table, name)
    requires !Taken(sym, SourceOf(unit), name) && Harmless(sym, SourceOf(unit), name)
    ensures var lp := SourceOf(unit);
            var p := ProgramOf(UnitDecls(sym, unit));
            Output(World(sym, LiftedSymbols(sym, lp), lp, p)) && Lists(UnitDecls(sym, unit), p)
  {
    hide Named, Taken, Harmless, Output, UnitDecls, Lists, ProgramOf, LiftedSymbols, EntryOk;
    var lp := SourceOf(unit);
    OutputNamed(sym, lp, table, name);
    var p: Program :| Output(World(sym, LiftedSymbols(sym, lp), lp, p));
    OutputLists(sym, unit, p);
    ListsProgram(UnitDecls(sym, unit), p);
  }

  lemma OutputLists(sym: nat -> Symbol, unit: seq<Entry>, p: Program)
    requires forall i, j :: 0 <= i < j < |unit| ==> unit[i].s != unit[j].s
    requires Output(World(sym, LiftedSymbols(sym, SourceOf(unit)), SourceOf(unit), p))
    ensures Lists(UnitDecls(sym, unit), p)
  {
    hide UnitDecls, LiftedDef, DefsOf, SourceOf, Output, LiftedSymbols;
    var ds := UnitDecls(sym, unit);
    forall i | 0 <= i < |ds|
      ensures ds[i].s in p && p[ds[i].s] == ds[i].d
    {
      DeclaredAt(sym, unit, p, ds[i]);
    }
    forall s | s in p
      ensures exists i :: 0 <= i < |ds| && ds[i].s == s
    {
      OutputKey(World(sym, LiftedSymbols(sym, SourceOf(unit)), SourceOf(unit), p), s);
      ListedAt(sym, unit, p, s);
    }
  }

  lemma OutputKey(w: World, s: Symbol)
    requires Output(w) && s in w.p && w.ls == LiftedSymbols(w.sym, w.lp)
    ensures s in w.lp || exists s0, b :: s0 in w.lp && b in DefsOf(w.sym, w.lp[s0]) && w.sym(b.pos) == s
  {
    hide LiftedDef, DefsOf;
    if s !in w.lp {
      assert s in w.ls;
      LiftedKey(w, s);
    }
  }

  lemma LiftedKey(w: World, s: Symbol)
    requires w.ls == LiftedSymbols(w.sym, w.lp) && s in w.ls
    ensures exists s0, b :: s0 in w.lp && b in DefsOf(w.sym, w.lp[s0]) && w.sym(b.pos) == s
  {
    hide DefsOf;
  }

  lemma DeclaredAt(sym: nat -> Symbol, unit: seq<Entry>, p: Program, d: Declared)
    requires forall i, j :: 0 <= i < j < |unit| ==> unit[i].s != unit[j].s
    requires Output(World(sym, LiftedSymbols(sym, SourceOf(unit)), SourceOf(unit), p)) && d in UnitDecls(sym, unit)
    ensures d.s in p && p[d.s] == d.d
  {
    hide UnitDecls, LiftedDef, DefsOf, SourceOf, LiftedSymbols, OnlyBlocks;
    UnitMade(sym, unit, d);
    var j :| 0 <= j < |unit| && Made(sym, unit[j], d);
    SourceAt(unit, j);
  }

  lemma ListedAt(sym: nat -> Symbol, unit: seq<Entry>, p: Program, s: Symbol)
    requires forall i, j :: 0 <= i < j < |unit| ==> unit[i].s != unit[j].s
    requires s in SourceOf(unit) || exists s0, b :: s0 in SourceOf(unit) && b in DefsOf(sym, SourceOf(unit)[s0]) && sym(b.pos) == s
    ensures exists i :: 0 <= i < |UnitDecls(sym, unit)| && UnitDecls(sym, unit)[i].s == s
  {
    hide UnitDecls, LiftedDef, DefsOf, SourceOf;
    var j, d;
    if s in SourceOf(unit) {
      j := SourceFrom(unit, s);
      d := Declared(s, LiftedDef(sym, unit[j].d));
    } else {
      var s0, b :| s0 in SourceOf(unit) && b in DefsOf(sym, SourceOf(unit)[s0]) && sym(b.pos) == s;
      j := SourceFrom(unit, s0);
      SourceAt(unit, j);
      d := Declared(s, CodeDef(b.alts));
    }
    assert Made(sym, unit[j], d);
    UnitMade(sym, unit, d);
  }
}
