/** From anonymous combinators to the machine: lifting, naming redexes, code generation, and running the code. */
module Compiler {
  import opened Terms
  import opened Heaps
  import opened Semantics
  import opened Emit
  import opened Machine
  import opened Reredex
  import opened Closures
  import opened LiftMeaning
  import opened LiftProgram
  import opened Values
  import opened Chain
  import opened Toplevel
  import opened Backend

  /** A compiled program: lifted by the passes, and emitted into the table. */
  ghost predicate CompiledSource(ds: set<Symbol>, w: World, T: Table) {
    Source(w.ls, w.lp) && Output(w) && Emitted(ds, w.p, T)
  }

  /** A finished run agrees with the result of an evaluation with closures. */
  ghost predicate AgreesWith(w: World, x: Next, r: LRes) {
    match r
    case LOut => x.Go?
    case LOk(v) => x.Finish? && !x.exception && Rep(x.h, x.result, Tr(w.sym, v))
    case LExc(vs) => x.Finish? && x.exception && vs != [] && Rep(x.h, x.result, Tr(w.sym, vs[0]))
    case LUndef(_) => true
  }

  lemma MainSim(n: nat, w: World, s: Symbol)
    requires Lifts(w) && s !in w.ls
    ensures Apply(n, w.p, Leaf(CombAtom(s)), []) == TrRes(w.sym, LApply(n, w.lp, VLeaf(CombAtom(s)), []))
  {
    hide Lifts, LApply, Apply, TrRes;
    TrComb(w, s);
    TrNone(w.sym);
    assert GoodAll(w, []);
    ApplySim(n, w, VLeaf(CombAtom(s)), []);
  }

  /** If the evaluation of a source program with closures ends, the machine ends on the compiled program,
      with the same value or exception; and while the evaluation needs more fuel the machine runs. */
  lemma SourceComplete(n: nat, w: World, ds: set<Symbol>, T: Table, h: Heap, s: Symbol, ret: Symbol, exc: Symbol) returns (m: nat)
    requires CompiledSource(ds, w, T) && Stops(w.p, T, ret, exc) && s !in w.ls
    ensures var r := LApply(n, w.lp, VLeaf(CombAtom(s)), []);
            var h0 := Boot(h, At(CombAtom(s)), ret, exc);
            && (r.LOut? ==> Alive(T, n, h0, Arr(|h| + 2)))
            && (r.LOk? || r.LExc? ==> AgreesWith(w, Steps(T, m, h0, Arr(|h| + 2)), r))
  {
    hide Source, Output, Emitted, Lifts, LApply, Apply, Steps, Alive, Boot, Rep, Tr, TrAll, SourceProgram;
    OutputLifts(w);
    OutputSource(w);
    MainSim(n, w, s);
    ConstRep(h, CombAtom(s));
    m := MachineComplete(n, w.p, ds, T, h, At(CombAtom(s)), Leaf(CombAtom(s)), ret, exc);
    FirstThrown(w, LApply(n, w.lp, VLeaf(CombAtom(s)), []));
  }

  lemma FirstThrown(w: World, r: LRes)
    ensures r.LExc? && r.vs != [] ==> TrAll(w.sym, r.vs) != [] && TrAll(w.sym, r.vs)[0] == Tr(w.sym, r.vs[0])
    ensures r.LExc? && TrAll(w.sym, r.vs) != [] ==> r.vs != []
  {
    hide Tr;
  }

  /** If the machine ends on the compiled program within m rounds, the evaluation ends with fuel m,
      with the same value or exception. */
  lemma SourceSound(m: nat, w: World, ds: set<Symbol>, T: Table, h: Heap, s: Symbol, ret: Symbol, exc: Symbol)
    requires CompiledSource(ds, w, T) && Stops(w.p, T, ret, exc) && s !in w.ls
    ensures var r := LApply(m, w.lp, VLeaf(CombAtom(s)), []);
            var x := Steps(T, m, Boot(h, At(CombAtom(s)), ret, exc), Arr(|h| + 2));
            !x.Go? ==> !r.LOut? && AgreesWith(w, x, r)
  {
    hide Source, Output, Emitted, Lifts, LApply, Apply, Steps, Boot, Rep, Tr, TrAll, SourceProgram;
    OutputLifts(w);
    OutputSource(w);
    MainSim(m, w, s);
    ConstRep(h, CombAtom(s));
    MachineSound(m, w.p, ds, T, h, At(CombAtom(s)), Leaf(CombAtom(s)), ret, exc);
    FirstThrown(w, LApply(m, w.lp, VLeaf(CombAtom(s)), []));
  }

  // Values without closures are the terms themselves.

  function Value(t: Term): LVal {
    match t
    case Leaf(a) => VLeaf(a)
    case Node(ts) => VNode(ValueAll(ts))
  }

  function ValueAll(ts: seq<Term>): (vs: seq<LVal>)
    ensures |vs| == |ts|
  {
    if ts == [] then [] else [Value(ts[0])] + ValueAll(ts[1..])
  }

  lemma {:induction false} ValueTr(sym: nat -> Symbol, t: Term)
    ensures Tr(sym, Value(t)) == t && !Value(t).VClo?
    decreases t, 1
  {
    match t
    case Leaf(_) =>
    case Node(ts) => ValueTrAll(sym, ts);
  }

  lemma {:induction false} ValueTrAll(sym: nat -> Symbol, ts: seq<Term>)
    ensures TrAll(sym, ValueAll(ts)) == ts
    ensures ts != [] ==> Tr(sym, VNode(ValueAll(ts))) == Node(ts)
    decreases ts, 0
  {
    if ts != [] {
      ValueTr(sym, ts[0]);
      ValueTrAll(sym, ts[1..]);
    }
  }
}
