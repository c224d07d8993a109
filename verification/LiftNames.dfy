/** Whole programs by their names: when lifted names collide, and when the lifted program exists. */
module LiftNames {
  import opened Terms
  import opened Syntax
  import opened Semantics
  import opened Decimals
  import opened Closures
  import opened Lifting
  import opened LiftMeaning
  import opened LiftProgram
  import opened Lifter

  /** The number of blocks of a definition that are lifted. */
  ghost function Blocks(sym: nat -> Symbol, d: LDef): nat {
    |DefsOf(sym, d)|
  }

  /** The symbol of the i-th block lifted from the definition s. */
  ghost function BlockSymbol(sym: nat -> Symbol, lp: LProgram, s: Symbol, i: nat): Symbol
    requires s in lp && i < Blocks(sym, lp[s])
  {
    sym(DefsOf(sym, lp[s])[i].pos)
  }

  /** Every symbol has one name. */
  ghost predicate Injective(table: Symbols) {
    forall n: Name, m: Name :: table(n) == table(m) ==> n == m
  }

  /** The definitions have names, and their blocks the names made from these, numbered in the order of lifting. */
  ghost predicate Named(sym: nat -> Symbol, lp: LProgram, table: Symbols, name: Symbol -> Name) {
    && Injective(table) && table("System::none") == SYMBOL_NONE
    && (forall s :: s in lp ==> table(name(s)) == s)
    && (forall s, i :: s in lp && 0 <= i < Blocks(sym, lp[s]) ==> BlockSymbol(sym, lp, s, i) == table("Local::" + (name(s) + Decimal(i))))
  }

  /** Two different blocks of the program have the same symbol. */
  ghost predicate Shared(sym: nat -> Symbol, lp: LProgram) {
    exists s, i, s1, j ::
      s in lp && 0 <= i < Blocks(sym, lp[s]) && s1 in lp && 0 <= j < Blocks(sym, lp[s1])
      && (s != s1 || i != j) && BlockSymbol(sym, lp, s, i) == BlockSymbol(sym, lp, s1, j)
  }

  predicate Digits(d: string) {
    d != [] && forall k :: 0 <= k < |d| ==> IsDigit(d[k])
  }

  /** The name of s1 is that of s with digits after it, and these are the first ones of a counter of s,
      followed by a counter of s1. */
  ghost predicate Clash(sym: nat -> Symbol, lp: LProgram, name: Symbol -> Name, s: Symbol, i: nat, s1: Symbol, j: nat) {
    && s in lp && i < Blocks(sym, lp[s]) && s1 in lp && j < Blocks(sym, lp[s1])
    && exists d: string :: Digits(d) && name(s1) == name(s) + d && Decimal(i) == d + Decimal(j)
  }

  ghost predicate Clashes(sym: nat -> Symbol, lp: LProgram, name: Symbol -> Name) {
    exists s, i: nat, s1, j: nat :: Clash(sym, lp, name, s, i, s1, j)
  }

  /** A definition of the source is named like a lifted block. */
  ghost predicate Taken(sym: nat -> Symbol, lp: LProgram, name: Symbol -> Name) {
    exists s, i, s1 :: s in lp && 0 <= i < Blocks(sym, lp[s]) && s1 in lp && name(s1) == "Local::" + (name(s) + Decimal(i))
  }

  lemma LocalSame(n: Name, i: nat, m: Name, j: nat)
    ensures LocalName(n, i) == LocalName(m, j) <==> ExpandedName(n, i) == ExpandedName(m, j)
  {
    assert LocalName(n, i)[|LOCAL|..] == ExpandedName(n, i);
    assert LocalName(m, j)[|LOCAL|..] == ExpandedName(m, j);
  }

  /** Of two different blocks with the same name one's scope has more digits at its end. */
  lemma SameBlocks(sym: nat -> Symbol, lp: LProgram, table: Symbols, name: Symbol -> Name, s: Symbol, i: nat, s1: Symbol, j: nat)
    requires Named(sym, lp, table, name) && s in lp && i < Blocks(sym, lp[s]) && s1 in lp && j < Blocks(sym, lp[s1])
    requires |name(s)| <= |name(s1)| && (s != s1 || i != j)
    ensures BlockSymbol(sym, lp, s, i) == BlockSymbol(sym, lp, s1, j) <==> Clash(sym, lp, name, s, i, s1, j)
  {
    hide DefsOf;
    var n, m := name(s), name(s1);
    SameName(n, i, m, j);
    LocalSame(n, i, m, j);
    assert table(n) == s && table(m) == s1;
    if ExpandedName(n, i) == ExpandedName(m, j) {
      var d: string :| m == n + d && Decimal(i) == d + Decimal(j);
      if d == [] {
        assert m == n && Decimal(i) == Decimal(j);
        DecimalInjective(i, j);
        assert false;
      }
      DecimalDigits(i);
      forall k | 0 <= k < |d|
        ensures IsDigit(d[k])
      {
        assert d[k] == Decimal(i)[k];
      }
      assert Clash(sym, lp, name, s, i, s1, j);
    }
  }

  /** Two blocks of a program share a symbol if and only if there are definitions n and nd, with d some digits, and counters
      of blocks they have, such that the one of n reads d followed by the one of nd. */
  lemma SharedExactly(sym: nat -> Symbol, lp: LProgram, table: Symbols, name: Symbol -> Name)
    requires Named(sym, lp, table, name)
    ensures Shared(sym, lp) <==> Clashes(sym, lp, name)
  {
    hide DefsOf, Named, Clash;
    if Shared(sym, lp) {
      var s, i, s1, j :|
        s in lp && 0 <= i < Blocks(sym, lp[s]) && s1 in lp && 0 <= j < Blocks(sym, lp[s1])
        && (s != s1 || i != j) && BlockSymbol(sym, lp, s, i) == BlockSymbol(sym, lp, s1, j);
      if |name(s)| <= |name(s1)| {
        SameBlocks(sym, lp, table, name, s, i, s1, j);
      } else {
        SameBlocks(sym, lp, table, name, s1, j, s, i);
      }
    }
    if Clashes(sym, lp, name) {
      var s, i: nat, s1, j: nat :| Clash(sym, lp, name, s, i, s1, j);
      ClashParts(sym, lp, name, s, i, s1, j);
      SameBlocks(sym, lp, table, name, s, i, s1, j);
    }
  }

  lemma ClashParts(sym: nat -> Symbol, lp: LProgram, name: Symbol -> Name, s: Symbol, i: nat, s1: Symbol, j: nat)
    requires Clash(sym, lp, name, s, i, s1, j)
    ensures s in lp && i < Blocks(sym, lp[s]) && s1 in lp && j < Blocks(sym, lp[s1])
    ensures s != s1 && |name(s)| < |name(s1)|
  {
  }

  /** Blocks that clash have the same alternatives. */
  ghost predicate Harmless(sym: nat -> Symbol, lp: LProgram, name: Symbol -> Name) {
    forall s, i: nat, s1, j: nat :: Clash(sym, lp, name, s, i, s1, j) ==> DefsOf(sym, lp[s])[i].alts == DefsOf(sym, lp[s1])[j].alts
  }

  /** The lifted program exists if and only if no definition is named like a lifted block, and blocks whose names clash
      are the same. */
  lemma OutputNamed(sym: nat -> Symbol, lp: LProgram, table: Symbols, name: Symbol -> Name)
    requires Named(sym, lp, table, name)
    ensures (exists p: Program :: Output(World(sym, LiftedSymbols(sym, lp), lp, p))) <==> !Taken(sym, lp, name) && Harmless(sym, lp, name)
  {
    hide DefsOf, LiftedSymbols, Named, Output, NoConflict, Taken, Harmless;
    OutputExists(sym, lp);
    if NoConflict(sym, lp) {
      FreeNames(sym, lp, table, name);
    }
    if !Taken(sym, lp, name) && Harmless(sym, lp, name) {
      NamesFree(sym, lp, table, name);
    }
  }

  lemma FreeNames(sym: nat -> Symbol, lp: LProgram, table: Symbols, name: Symbol -> Name)
    requires Named(sym, lp, table, name) && NoConflict(sym, lp)
    ensures !Taken(sym, lp, name) && Harmless(sym, lp, name)
  {
    hide DefsOf, Named, Taken;
    NotTaken(sym, lp, table, name);
    forall s, i: nat, s1, j: nat | Clash(sym, lp, name, s, i, s1, j)
      ensures DefsOf(sym, lp[s])[i].alts == DefsOf(sym, lp[s1])[j].alts
    {
      ClashParts(sym, lp, name, s, i, s1, j);
      SameBlocks(sym, lp, table, name, s, i, s1, j);
      assert DefsOf(sym, lp[s])[i] in DefsOf(sym, lp[s]) && DefsOf(sym, lp[s1])[j] in DefsOf(sym, lp[s1]);
    }
  }

  lemma NotTaken(sym: nat -> Symbol, lp: LProgram, table: Symbols, name: Symbol -> Name)
    requires Named(sym, lp, table, name) && NoConflict(sym, lp)
    ensures !Taken(sym, lp, name)
  {
    hide DefsOf, Named;
    if Taken(sym, lp, name) {
      var s, i, s1 :| s in lp && 0 <= i < Blocks(sym, lp[s]) && s1 in lp && name(s1) == "Local::" + (name(s) + Decimal(i));
      assert DefsOf(sym, lp[s])[i] in DefsOf(sym, lp[s]);
      NamedOwn(sym, lp, table, name, s1);
      NamedAt(sym, lp, table, name, s, i);
    }
  }

  lemma NamedOwn(sym: nat -> Symbol, lp: LProgram, table: Symbols, name: Symbol -> Name, s: Symbol)
    requires Named(sym, lp, table, name) && s in lp
    ensures table(name(s)) == s
  {
    hide DefsOf;
  }

  lemma NamesFree(sym: nat -> Symbol, lp: LProgram, table: Symbols, name: Symbol -> Name)
    requires Named(sym, lp, table, name) && !Taken(sym, lp, name) && Harmless(sym, lp, name)
    ensures NoConflict(sym, lp)
  {
    hide DefsOf;
    forall s, d, s1, d1 | s in lp && d in DefsOf(sym, lp[s]) && s1 in lp && d1 in DefsOf(sym, lp[s1]) && sym(d.pos) == sym(d1.pos)
      ensures d.alts == d1.alts
    {
      var i :| 0 <= i < Blocks(sym, lp[s]) && DefsOf(sym, lp[s])[i] == d;
      var j :| 0 <= j < Blocks(sym, lp[s1]) && DefsOf(sym, lp[s1])[j] == d1;
      if s != s1 || i != j {
        if |name(s)| <= |name(s1)| {
          SameBlocks(sym, lp, table, name, s, i, s1, j);
        } else {
          SameBlocks(sym, lp, table, name, s1, j, s, i);
        }
      }
    }
    forall s, d | s in lp && d in DefsOf(sym, lp[s])
      ensures sym(d.pos) !in lp && sym(d.pos) != SYMBOL_NONE
    {
      var i :| 0 <= i < Blocks(sym, lp[s]) && DefsOf(sym, lp[s])[i] == d;
      BlockFree(sym, lp, table, name, s, i);
    }
  }

  lemma BlockFree(sym: nat -> Symbol, lp: LProgram, table: Symbols, name: Symbol -> Name, s: Symbol, i: nat)
    requires Named(sym, lp, table, name) && !Taken(sym, lp, name) && s in lp && i < Blocks(sym, lp[s])
    ensures BlockSymbol(sym, lp, s, i) !in lp && BlockSymbol(sym, lp, s, i) != SYMBOL_NONE
  {
    hide DefsOf;
    var c := BlockSymbol(sym, lp, s, i);
    assert c == table(LocalName(name(s), i));
    assert LocalName(name(s), i)[0] == 'L';
    assert c in lp ==> table(name(c)) == c;
  }

  /** If no definition's name ends in a digit or is like that of a lifted block, then no two blocks share a symbol,
      and the lifted program exists. */
  lemma OutputForNames(sym: nat -> Symbol, lp: LProgram, table: Symbols, name: Symbol -> Name)
    requires Named(sym, lp, table, name) && !Taken(sym, lp, name)
    requires forall s :: s in lp ==> name(s) != [] && !IsDigit(name(s)[|name(s)| - 1])
    ensures !Shared(sym, lp)
    ensures exists p: Program :: Output(World(sym, LiftedSymbols(sym, lp), lp, p))
  {
    hide DefsOf, LiftedSymbols, Named, Output, Taken;
    forall s, i: nat, s1, j: nat
      ensures !Clash(sym, lp, name, s, i, s1, j)
    {
      if s in lp && s1 in lp {
        NoDigits(name(s), name(s1));
      }
    }
    SharedExactly(sym, lp, table, name);
    OutputNamed(sym, lp, table, name);
  }

  lemma NoDigits(n: Name, m: Name)
    requires m != [] && !IsDigit(m[|m| - 1])
    ensures forall d: string :: Digits(d) ==> m != n + d
  {
    forall d: string | Digits(d)
      ensures m != n + d
    {
      assert (n + d)[|n + d| - 1] == d[|d| - 1];
    }
  }

  // The blocks in the order of the counter

  lemma {:induction false} BlockPositions(sym: nat -> Symbol, e: LExpr)
    ensures |LiftedFrom(sym, e)| == |Positions(e)|
    ensures forall i :: 0 <= i < |Positions(e)| ==> LiftedFrom(sym, e)[i].pos == Positions(e)[i]
    decreases e
  {
    match e
    case LConst(_) =>
    case LVar(_) =>
    case LApp(es) => BlockPositionsAll(sym, es);
    case LBlock(_, alts) => BlockPositionsOf(sym, alts);
  }

  lemma {:induction false} BlockPositionsAll(sym: nat -> Symbol, es: seq<LExpr>)
    ensures |LiftedFromAll(sym, es)| == |PositionsAll(es)|
    ensures forall i :: 0 <= i < |PositionsAll(es)| ==> LiftedFromAll(sym, es)[i].pos == PositionsAll(es)[i]
    decreases es
  {
    if es != [] {
      BlockPositions(sym, es[0]);
      BlockPositionsAll(sym, es[1..]);
    }
  }

  lemma {:induction false} BlockPositionsOf(sym: nat -> Symbol, alts: seq<LAlt>)
    ensures |LiftedFromOf(sym, alts)| == |PositionsOf(alts)|
    ensures forall i :: 0 <= i < |PositionsOf(alts)| ==> LiftedFromOf(sym, alts)[i].pos == PositionsOf(alts)[i]
    decreases alts
  {
    if alts != [] {
      BlockPositions(sym, alts[0].body);
      BlockPositionsOf(sym, alts[1..]);
    }
  }

  /** The positions of the blocks of a definition, in the order of the counter. */
  ghost function DefPositions(d: LDef): seq<nat> {
    match d
    case LCode(alts) =>
      (match Deapply(Eta(LBlock(0, alts)))
      case LBlock(_, alts1) => PositionsOf(alts1)
      case _ => [])
    case LValue(e) => Positions(Deapply(Eta(e)))
    case _ => []
  }

  /** What the pass asks of the numbering when it comes to a definition is what the names say. */
  lemma NamedNumbered(sym: nat -> Symbol, lp: LProgram, table: Symbols, name: Symbol -> Name, s: Symbol)
    requires Named(sym, lp, table, name) && s in lp
    ensures |DefPositions(lp[s])| == Blocks(sym, lp[s]) && Numbered(sym, table, name(s), 0, DefPositions(lp[s]))
  {
    hide Deapply, Eta, Named;
    var d := lp[s];
    DefBlocks(sym, d);
    forall i | 0 <= i < |DefPositions(d)|
      ensures sym(DefPositions(d)[i]) == table(LocalName(name(s), i))
    {
      NamedAt(sym, lp, table, name, s, i);
    }
  }

  lemma NamedAt(sym: nat -> Symbol, lp: LProgram, table: Symbols, name: Symbol -> Name, s: Symbol, i: nat)
    requires Named(sym, lp, table, name) && s in lp && i < Blocks(sym, lp[s])
    ensures BlockSymbol(sym, lp, s, i) == table(LocalName(name(s), i))
  {
    hide DefsOf;
  }

  lemma DefBlocks(sym: nat -> Symbol, d: LDef)
    ensures |DefPositions(d)| == Blocks(sym, d)
    ensures forall i :: 0 <= i < |DefPositions(d)| ==> DefsOf(sym, d)[i].pos == DefPositions(d)[i]
  {
    hide Deapply, Eta, Positions, PositionsOf, LiftedFrom, LiftedFromOf;
    match d
    case LCode(alts) =>
      var b := Deapply(Eta(LBlock(0, alts)));
      if b.LBlock? {
        BlockPositionsOf(sym, b.alts);
      }
    case LValue(e) => BlockPositions(sym, Deapply(Eta(e)));
    case _ =>
  }
}
