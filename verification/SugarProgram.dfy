/** Whole programs of the surface language: desugared, they mean the same; compiled, the machine computes what they mean. */
module SugarProgram {
  import opened Terms
  import opened Syntax
  import opened Heaps
  import opened Machine
  import opened Toplevel
  import opened Closures
  import LiftMeaning
  import opened LiftProgram
  import opened Compiler
  import opened Sugar
  import opened SugarMeaning

  ghost predicate ProperDef(d: SDef) {
    match d
    case SCode(alts) => ProperOf(alts)
    case SValue(e) => Proper(e)
    case _ => true
  }

  ghost predicate ProperProgram(P: SProgram) {
    forall s :: s in P ==> ProperDef(P[s])
  }

  /** The passes run on the body of every definition; that of a combinator is a block. */
  function DesugarDef(k: Known, d: SDef): SDef {
    match d
    case SCode(alts) =>
      var b := Desugar(k, SBlock(0, alts));
      if b.SBlock? then SCode(b.alts) else SValue(b)
    case SValue(e) => SValue(Desugar(k, e))
    case _ => d
  }

  ghost function DesugarProgram(k: Known, P: SProgram): SProgram {
    map s | s in P :: DesugarDef(k, P[s])
  }

  lemma BlockStays(k: Known, alts: seq<SAlt>)
    ensures Desugar(k, SBlock(0, alts)).SBlock? && Desugar(k, SBlock(0, alts)).pos == 0
  {
    hide RewriteAlts, RewriteListsAlts;
  }

  lemma DefKept(k: Known, d: SDef)
    requires KnownApart(k) && ProperDef(d)
    ensures DDef(k, DesugarDef(k, d)) == DDef(k, d)
    ensures match DesugarDef(k, d)
            case SCode(alts) => SortsOf(alts) == {}
            case SValue(e) => Sorts(e) == {}
            case _ => true
  {
    hide Desugar, DAlts;
    match d
    case SCode(alts) =>
      BlockStays(k, alts);
      DesugarKept(k, SBlock(0, alts));
      DesugarPlain(k, SBlock(0, alts));
    case SValue(e) =>
      DesugarKept(k, e);
      DesugarPlain(k, e);
    case _ =>
  }

  lemma ProgramKept(k: Known, P: SProgram)
    requires KnownApart(k) && ProperProgram(P)
    ensures DProgram(k, DesugarProgram(k, P)) == DProgram(k, P)
  {
    hide DesugarDef, DDef, ProperDef;
    forall s | s in P
      ensures DDef(k, DesugarDef(k, P[s])) == DDef(k, P[s])
    {
      DefKept(k, P[s]);
    }
  }

  /** Desugaring preserves meaning: the passes' output, run as blocks and applications, gives what the source gives. */
  lemma DesugarMeans(n: nat, k: Known, P: SProgram, f: SVal, args: seq<SVal>)
    requires Standard(k, P) && ProperProgram(P)
    ensures LApply(n, DProgram(k, DesugarProgram(k, P)), Tr(k, f), TrAll(k, args)) == TrRes(k, SApply(n, k, P, f, args))
  {
    hide DesugarProgram, DProgram;
    ProgramKept(k, P);
    ApplySim(n, k, P, f, args);
  }

  /** The same in the semantics of the surface language itself, up to the desugaring of closures in the result. */
  lemma DesugarSame(n: nat, k: Known, P: SProgram, f: SVal, args: seq<SVal>)
    requires Standard(k, P) && ProperProgram(P)
    ensures TrRes(k, SApply(n, k, DesugarProgram(k, P), f, args)) == TrRes(k, SApply(n, k, P, f, args))
  {
    StandardKept(k, P);
    hide DesugarProgram, DProgram;
    DesugarMeans(n, k, P, f, args);
    ApplySim(n, k, DesugarProgram(k, P), f, args);
  }

  /** Reverse application has no sugar, so no pass changes it. */
  lemma PlainBlock(p: Pass, k: Known, x: Name, f: Name)
    ensures var b := SBlock(0, [SAlt([SVar(x), SVar(f)], SApp([SVar(f), SVar(x)]))]);
            Rewrite(p, k, b) == b && RewriteLists(b) == b
  {
    PlainTwo(p, k, x, f);
    PlainTwo(p, k, f, x);
    var alts := [SAlt([SVar(x), SVar(f)], SApp([SVar(f), SVar(x)]))];
    assert alts[1..] == [];
    assert RewriteAlts(p, k, alts) == alts;
    assert RewriteListsAlts(alts) == alts;
  }

  lemma PlainTwo(p: Pass, k: Known, x: Name, y: Name)
    ensures RewriteAll(p, k, [SVar(x), SVar(y)]) == [SVar(x), SVar(y)] == RewriteListsAll([SVar(x), SVar(y)])
  {
    var es, fs := [SVar(x), SVar(y)], [SVar(y)];
    assert es[1..] == fs && fs[1..] == [];
    assert RewriteAll(p, k, fs) == [Rewrite(p, k, fs[0])] + RewriteAll(p, k, fs[1..]);
    assert RewriteListsAll(fs) == [RewriteLists(fs[0])] + RewriteListsAll(fs[1..]);
  }

  lemma PipeStays(k: Known, d: SDef)
    requires IsPipeDef(d)
    ensures DesugarDef(k, d) == d
  {
    hide Rewrite, RewriteLists;
    var x, f := d.alts[0].pats[0].x, d.alts[0].pats[1].x;
    assert d.alts[0].pats == [SVar(x), SVar(f)];
    assert d.alts[0] == SAlt([SVar(x), SVar(f)], SApp([SVar(f), SVar(x)]));
    assert d.alts == [d.alts[0]];
    forall p: Pass
      ensures Rewrite(p, k, SBlock(0, d.alts)) == SBlock(0, d.alts) && RewriteLists(SBlock(0, d.alts)) == SBlock(0, d.alts)
    {
      PlainBlock(p, k, x, f);
    }
  }

  lemma StandardKept(k: Known, P: SProgram)
    requires Standard(k, P)
    ensures Standard(k, DesugarProgram(k, P))
  {
    hide Desugar, IsPipeDef;
    if k.pipe in P {
      PipeStays(k, P[k.pipe]);
    }
  }

  // From the surface language to the machine

  /** The machine's table holds the compiled program. */
  ghost predicate CompiledSurface(k: Known, P: SProgram, ds: set<Symbol>, w: LiftMeaning.World, T: Table) {
    && Standard(k, P) && ProperProgram(P)
    && w.lp == DProgram(k, DesugarProgram(k, P))
    && CompiledSource(ds, w, T)
  }

  /** If a source program ends, the machine ends on its code, with the same value or exception;
      and while the program needs more fuel the machine runs. */
  lemma SurfaceComplete(n: nat, k: Known, P: SProgram, ds: set<Symbol>, w: LiftMeaning.World, T: Table, h: Heap, s: Symbol, ret: Symbol, exc: Symbol) returns (m: nat)
    requires CompiledSurface(k, P, ds, w, T) && Stops(w.p, T, ret, exc) && s !in w.ls
    ensures var r := SApply(n, k, P, SComb(s), []);
            var h0 := Boot(h, At(CombAtom(s)), ret, exc);
            && (r.SOut? ==> Alive(T, n, h0, Arr(|h| + 2)))
            && (r.SOk? || r.SExc? ==> AgreesWith(w, Steps(T, m, h0, Arr(|h| + 2)), TrRes(k, r)))
  {
    hide CompiledSource, SApply, LApply, Steps, Alive, Boot, Stops, AgreesWith, DProgram, DesugarProgram;
    DesugarMeans(n, k, P, SComb(s), []);
    TrNothing(k, s);
    m := SourceComplete(n, w, ds, T, h, s, ret, exc);
  }

  lemma TrNothing(k: Known, s: Symbol)
    ensures Tr(k, SComb(s)) == VLeaf(CombAtom(s)) && TrAll(k, []) == []
  {
  }

  /** If the machine ends on the code of a source program, the program ends, with the same value or exception. */
  lemma SurfaceSound(m: nat, k: Known, P: SProgram, ds: set<Symbol>, w: LiftMeaning.World, T: Table, h: Heap, s: Symbol, ret: Symbol, exc: Symbol)
    requires CompiledSurface(k, P, ds, w, T) && Stops(w.p, T, ret, exc) && s !in w.ls
    ensures var r := SApply(m, k, P, SComb(s), []);
            var x := Steps(T, m, Boot(h, At(CombAtom(s)), ret, exc), Arr(|h| + 2));
            !x.Go? ==> !r.SOut? && AgreesWith(w, x, TrRes(k, r))
  {
    hide CompiledSource, SApply, LApply, Steps, Boot, Stops, AgreesWith, DProgram, DesugarProgram;
    DesugarMeans(m, k, P, SComb(s), []);
    TrNothing(k, s);
    SourceSound(m, w, ds, T, h, s, ret, exc);
  }
}
