/** Emitted code meets the conditions under which the native routines follow the interpreter. */
module NativeCode {
  import opened Terms
  import opened Heaps
  import opened Syntax
  import opened Bytecode
  import opened Emit
  import opened Build
  import opened Blocks
  import opened Codegen
  import opened LetNormal
  import opened Compile
  import opened Jumps
  import opened Definitions
  import opened Shapes
  import opened Native

  lemma NeatJoin(a: seq<Instr>, b: seq<Instr>)
    requires AllNeat(a) && AllNeat(b)
    ensures AllNeat(a + b)
  {
  }

  lemma {:induction false} TreeNeat(n: nat, vars: Vars, e: Expr)
    requires n > 0 && Core(e)
    ensures AllNeat(TreeCode(n, vars, e).code)
    decreases e, 1
  {
    hide TreeCode, AppsCode, SlotsCode, AppRegs, Neat, Cores;
    if e.App? {
      TreeCodeShape(n, vars, e);
      var f := AppsCode(n + 1, vars, e.es);
      var g := SlotsCode(f.n, n, 0, vars, e.es, AppRegs(n + 1, vars, e.es));
      AppsNeat(n + 1, vars, e.es);
      SlotsNeat(f.n, n, 0, vars, e.es, AppRegs(n + 1, vars, e.es));
      ArrayNeat(f.code, g.code, n, f.n, g.n - 1);
    } else {
      LeafNeat(n, vars, e);
    }
  }

  lemma ArrayNeat(a: seq<Instr>, b: seq<Instr>, x: nat, y: nat, z: nat)
    requires AllNeat(a) && AllNeat(b) && x > 0 && y != z
    ensures AllNeat(a + b + [Array(x, y, z)])
  {
  }

  lemma LeafNeat(n: nat, vars: Vars, e: Expr)
    requires n > 0 && !e.App? && !e.Let?
    ensures AllNeat(TreeCode(n, vars, e).code)
  {
  }

  lemma {:induction false} AppsNeat(n: nat, vars: Vars, es: seq<Expr>)
    requires n > 0 && Cores(es)
    ensures AllNeat(AppsCode(n, vars, es).code)
    decreases es, 0
  {
    hide TreeCode, Neat, Core;
    if es != [] {
      if es[0].App? {
        var f := TreeCode(n, vars, es[0]);
        TreeNeat(n, vars, es[0]);
        AppsNeat(f.n, vars, es[1..]);
        NeatJoin(f.code, AppsCode(f.n, vars, es[1..]).code);
      } else {
        AppsNeat(n, vars, es[1..]);
      }
    }
  }

  lemma {:induction false} SlotsNeat(n: nat, t: nat, i: nat, vars: Vars, es: seq<Expr>, cs: seq<nat>)
    requires n > 0 && Cores(es)
    ensures AllNeat(SlotsCode(n, t, i, vars, es, cs).code) && SlotsCode(n, t, i, vars, es, cs).n == n + |es|
    decreases es
  {
    if es != [] {
      assert Core(es[0]);
      var f := SlotCode(n, t, i, vars, es[0], cs);
      SlotsNeat(f.n, t, i + 1, vars, es[1..], if es[0].App? && cs != [] then cs[1..] else cs);
    }
  }

  lemma RedexNeat(n: nat, vars: Vars, l: LinkRegs, e: Expr)
    requires n > 0 && Core(e)
    ensures AllNeat(RedexCode(n, vars, l, e).code) && RedexReg(n, e) > 0 && RedexCode(n, vars, l, e).n >= n
  {
    match e
    case Const(_) =>
    case Var(_) =>
    case App(es) => RedexAppNeat(n, vars, l, e);
  }

  lemma RedexAppNeat(n: nat, vars: Vars, l: LinkRegs, e: Expr)
    requires n > 0 && e.App? && Core(e)
    ensures AllNeat(RedexCode(n, vars, l, e).code) && RedexCode(n, vars, l, e).n >= n
  {
    hide AppsCode, SlotsCode, AppRegs, Cores, Neat, LinkCode;
    var f := AppsCode(n + 1, vars, e.es);
    var h := LinkCode(f.n, l);
    var g := SlotsCode(h.n, n, 4, vars, e.es, AppRegs(n + 1, vars, e.es));
    LinkNeat(f.n, l);
    AppsNeat(n + 1, vars, e.es);
    SlotsNeat(h.n, n, 4, vars, e.es, AppRegs(n + 1, vars, e.es));
    NeatJoin(h.code, g.code);
    ArrayNeat(f.code, h.code + g.code, n, f.n, g.n - 1);
  }

  lemma LinkNeat(n: nat, l: LinkRegs)
    requires n > 0
    ensures AllNeat(LinkCode(n, l).code) && LinkCode(n, l).n == n + 4
  {
  }

  lemma {:induction false} RootNeat(ds: set<Symbol>, n: nat, vars: Vars, l: LinkRegs, arity: nat, e: Expr)
    requires n > 0 && CoreBody(e)
    ensures AllNeat(RootCode(ds, n, vars, l, arity, e).code) && RootCode(ds, n, vars, l, arity, e).n >= n
    decreases e
  {
    hide TreeCode, RedexCode, RootCode, RedexReg, RootReg, Core, IsRedex, Neat;
    RootCodeShape(ds, n, vars, l, arity, e);
    if e.Let? {
      RootNeat(ds, n, vars, l, arity, e.body);
      var f := RootCode(ds, n, vars, l, arity, e.body);
      var s := if e.x in f.rx then f.rx[e.x] else Slot(0, 0);
      var l1 := LinkRegs(s.r, f.n, RootReg(ds, n, vars, l, arity, e.body), l.exc);
      RedexNeat(f.n + 1, vars, l1, e.rhs);
      DataNeat(f.code, f.n, s.i, RedexCode(f.n + 1, vars, l1, e.rhs).code);
    } else if IsRedex(ds, e) {
      RedexNeat(n, vars, l, e);
      EndNeat(RedexCode(n, vars, l, e).code, RedexReg(n, e), arity, l);
    } else {
      TreeNeat(n, vars, e);
      EndNeat(TreeCode(n, vars, e).code, n, arity, l);
    }
  }

  lemma DataNeat(a: seq<Instr>, n: nat, i: nat, b: seq<Instr>)
    requires AllNeat(a) && AllNeat(b) && n > 0
    ensures AllNeat(a + [Data(n, IntAtom(i))] + b)
  {
  }

  lemma EndNeat(a: seq<Instr>, k: nat, arity: nat, l: LinkRegs)
    requires AllNeat(a) && k > 0
    ensures AllNeat(a + [Concatx(k, k, 0, Spurious(arity))]) && AllNeat(a + [Concatx(k, k, 0, Spurious(arity)), Set(l.rt, l.rti, k)])
  {
  }

  lemma {:induction false} PatternNeat(n: nat, r: nat, lbl: nat, p: Pattern)
    requires n > 0 && PatternOk(p)
    ensures AllNeat(PatternCode(n, r, lbl, p).code) && FailGuard(PatternCode(n, r, lbl, p).code) && PatternCode(n, r, lbl, p).n >= n
    decreases p, 1
  {
    match p
    case PConst(_) =>
    case PVar(_) =>
    case PTag(q, t) =>
      hide PatternCode, Neat;
      PatternNeat(n, r, lbl, q);
      PatternIs(n, r, lbl, p);
      TagNeat(PatternCode(n, r, lbl, q), r, lbl, t);
    case PApp(ps) =>
      hide PatternCode, PatternsCode, Neat;
      PatternsNeat(n + |ps|, n, lbl, ps);
      PatternIs(n, r, lbl, p);
      SplitNeat(n, |ps|, r, lbl, PatternsCode(n + |ps|, n, lbl, ps));
  }

  /** Every FAIL of the fragment follows an instruction of it that sets the flag. */
  ghost predicate FailGuard(code: seq<Instr>) {
    forall k :: 0 <= k < |code| && code[k].Fail? ==> k > 0 && SetsFlag(code[k - 1])
  }

  lemma GuardJoin(a: seq<Instr>, b: seq<Instr>)
    requires FailGuard(a) && FailGuard(b)
    ensures FailGuard(a + b)
  {
    hide SetsFlag;
    forall k | 0 <= k < |a + b| && (a + b)[k].Fail? ensures k > 0 && SetsFlag((a + b)[k - 1]) {
      if k >= |a| {
        assert b[k - |a|].Fail?;
        assert (a + b)[k - 1] == b[k - |a| - 1];
      }
    }
  }

  lemma NoFailGuard(a: seq<Instr>)
    requires Straight(a)
    ensures FailGuard(a)
  {
  }

  lemma TagNeat(f: PatFrag, r: nat, lbl: nat, t: Symbol)
    requires f.n > 0 && AllNeat(f.code) && FailGuard(f.code)
    ensures var g := JoinPat(f, PatFrag([Data(f.n, CombAtom(t)), Tag(r, f.n), Fail(lbl)], f.n + 1, map[])); AllNeat(g.code) && FailGuard(g.code)
  {
    var b := [Data(f.n, CombAtom(t)), Tag(r, f.n), Fail(lbl)];
    assert AllNeat(b) && FailGuard(b);
    NeatJoin(f.code, b);
    GuardJoin(f.code, b);
  }

  lemma SplitNeat(n: nat, m: nat, r: nat, lbl: nat, g: PatFrag)
    requires n > 0 && m > 0 && AllNeat(g.code) && FailGuard(g.code)
    ensures var f := JoinPat(PatFrag([Split(n, n + m - 1, r), Fail(lbl)], n + m, map[]), g); AllNeat(f.code) && FailGuard(f.code)
  {
    var a := [Split(n, n + m - 1, r), Fail(lbl)];
    assert AllNeat(a) && FailGuard(a);
    NeatJoin(a, g.code);
    GuardJoin(a, g.code);
  }

  lemma {:induction false} PatternsNeat(n: nat, r: nat, lbl: nat, ps: seq<Pattern>)
    requires n > 0 && PatternsOk(ps)
    ensures AllNeat(PatternsCode(n, r, lbl, ps).code) && FailGuard(PatternsCode(n, r, lbl, ps).code) && PatternsCode(n, r, lbl, ps).n >= n
    decreases ps, 0
  {
    hide PatternCode, Neat, SetsFlag;
    if ps != [] {
      var f := PatternCode(n, r, lbl, ps[0]);
      PatternNeat(n, r, lbl, ps[0]);
      PatternsNeat(f.n, r + 1, lbl, ps[1..]);
      NeatJoin(f.code, PatternsCode(f.n, r + 1, lbl, ps[1..]).code);
      GuardJoin(f.code, PatternsCode(f.n, r + 1, lbl, ps[1..]).code);
    }
  }

  lemma MatchNeat(ds: set<Symbol>, pv: set<Name>, lbl: nat, stale: Vars, m: Alt)
    requires AltOk(ds, pv, m)
    ensures var mc := MatchCode(ds, 6, lbl, stale, m);
            AllNeat(mc) && FailGuard(mc) && mc != [] && mc[|mc| - 1].Return?
  {
    hide PatternsCode, RootCode, RootReg, BodyOk, PatternsOk, PatsVars, Lets, Neat, SetsFlag, HeadCode;
    var h := HeadCode(6, lbl, m.pats);
    var g := RootCode(ds, h.n, stale + h.vars, LINK, |m.pats|, m.body);
    var k := RootReg(ds, h.n, stale + h.vars, LINK, |m.pats|, m.body);
    HeadNeat(lbl, m.pats);
    BodyIsCore(ds, PatsVars(m.pats), m.body);
    RootNeat(ds, h.n, stale + h.vars, LINK, |m.pats|, m.body);
    RootFails(ds, h.n, stale + h.vars, LINK, |m.pats|, m.body);
    NoFailGuard(g.code);
    ReturnNeat(k);
    NeatJoin(h.code, g.code);
    GuardJoin(h.code, g.code);
    NeatJoin(h.code + g.code, [Return(k)]);
    GuardJoin(h.code + g.code, [Return(k)]);
  }

  lemma ReturnNeat(k: nat)
    ensures AllNeat([Return(k)]) && FailGuard([Return(k)])
  {
  }

  lemma HeadNeat(lbl: nat, ps: seq<Pattern>)
    requires PatternsOk(ps)
    ensures var h := HeadCode(6, lbl, ps); AllNeat(h.code) && FailGuard(h.code) && h.n > 0
  {
    hide PatternsCode, PatternsOk;
    var m := |ps|;
    var g := PatternsCode(6 + m, 6, lbl, ps);
    PatternsNeat(6 + m, 6, lbl, ps);
    var a := if m == 0 then [] else [Takex(6, 6 + m - 1, 0, 5), Fail(lbl)];
    assert AllNeat(a) && FailGuard(a);
    NeatJoin(a, g.code);
    GuardJoin(a, g.code);
  }

  /** The labels of a block are behind returns. */
  ghost predicate AfterReturns(code: seq<Instr>, at: nat, labels: Labels) {
    forall l :: l in labels ==> at < labels[l] <= at + |code| && code[labels[l] - at - 1].Return?
  }

  lemma {:induction false} BlockNeat(ds: set<Symbol>, pv: set<Name>, lbl: nat, stale: Vars, ms: seq<Alt>, at: nat)
    requires AltsOk(ds, pv, ms)
    ensures var codes := BlockCode(ds, lbl, stale, ms);
            AllNeat(Flat(codes)) && FailGuard(Flat(codes)) && AfterReturns(Flat(codes), at, EndLabels(lbl, at, codes))
    decreases |ms|
  {
    hide MatchCode, MatchVars, BlockCode, Flat, EndLabels, AltOk, Neat, SetsFlag;
    if ms == [] {
      NoBlock(ds, lbl, stale, at);
    } else {
      var mc := MatchCode(ds, 6, lbl, stale, ms[0]);
      var codes := BlockCode(ds, lbl + 1, MatchVars(6, lbl, stale, ms[0]), ms[1..]);
      BlockParts(ds, lbl, stale, ms, at);
      MatchNeat(ds, pv, lbl, stale, ms[0]);
      BlockNeat(ds, pv, lbl + 1, MatchVars(6, lbl, stale, ms[0]), ms[1..], at + |mc|);
      NeatJoin(mc, Flat(codes));
      GuardJoin(mc, Flat(codes));
      ReturnsJoin(mc, Flat(codes), lbl, at, EndLabels(lbl + 1, at + |mc|, codes));
    }
  }

  lemma ReturnsJoin(mc: seq<Instr>, rest: seq<Instr>, lbl: nat, at: nat, labels: Labels)
    requires mc != [] && mc[|mc| - 1].Return? && AfterReturns(rest, at + |mc|, labels)
    ensures AfterReturns(mc + rest, at, labels[lbl := at + |mc|])
  {
    var all := labels[lbl := at + |mc|];
    forall l | l in all ensures at < all[l] <= at + |mc + rest| && (mc + rest)[all[l] - at - 1].Return? {
      if l != lbl {
        assert (mc + rest)[all[l] - at - 1] == rest[labels[l] - (at + |mc|) - 1];
      }
    }
  }

  lemma DefNeat(ds: set<Symbol>, pv: set<Name>, stale: Vars, ms: seq<Alt>)
    requires AltsOk(ds, pv, ms)
    ensures AllNeat(DefCode(ds, stale, ms)) && Guarded(DefCode(ds, stale, ms), DefLabels(ds, stale, ms))
  {
    hide BlockCode, Flat, EndLabels, AltsOk;
    var codes := BlockCode(ds, 1, stale, ms);
    BlockNeat(ds, pv, 1, stale, ms, 2);
    var block := Flat(codes);
    assert AllNeat(PROLOGUE) && FailGuard(PROLOGUE);
    assert AllNeat(Epilogue(6)) && FailGuard(Epilogue(6));
    NeatJoin(PROLOGUE, block);
    GuardJoin(PROLOGUE, block);
    NeatJoin(PROLOGUE + block, Epilogue(6));
    GuardJoin(PROLOGUE + block, Epilogue(6));
    LabelsGuarded(block, EndLabels(1, 2, codes));
  }

  lemma LabelsGuarded(block: seq<Instr>, labels: Labels)
    requires AfterReturns(block, 2, labels) && FailGuard(PROLOGUE + block + Epilogue(6))
    ensures Guarded(PROLOGUE + block + Epilogue(6), labels[0 := 2 + |block|])
  {
    var code := PROLOGUE + block + Epilogue(6);
    var all := labels[0 := 2 + |block|];
    forall l | l in all && 0 <= all[l] < |code| ensures !code[all[l]].Fail? {
      if l == 0 {
        assert code[2 + |block|] == Epilogue(6)[0];
      } else {
        assert code[all[l] - 1] == block[labels[l] - 2 - 1];
      }
    }
  }

  /** Native code of a definition, entered with a thunk in a store without arrays of size one, does what the
      interpreter does if that splits arrays only; and otherwise it is undefined. */
  lemma NativeDefinition(ds: set<Symbol>, pv: set<Name>, stale: Vars, ms: seq<Alt>, h: Heap, t: nat)
    requires AltsOk(ds, pv, ms) && t < |h| && NoOnes(h)
    ensures var code := DefCode(ds, stale, ms);
            var labels := DefLabels(ds, stale, ms);
            NativeFrom(code, labels, 0, Start(h, t)) ==
              if Tame(code, labels, 0, Start(h, t)) then RunFrom(code, labels, 0, Start(h, t)) else Crashed
  {
    hide DefCode, DefLabels, AltsOk, Tame, RunFrom, NativeFrom;
    DefNeat(ds, pv, stale, ms);
    NativeRun(DefCode(ds, stale, ms), DefLabels(ds, stale, ms), 0, Start(h, t), Start(h, t));
  }
}
