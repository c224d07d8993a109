/** What the code of each construct looks like piece by piece, in the order in which it is emitted. */
module Shapes {
  import opened Terms
  import opened Syntax
  import opened Bytecode
  import opened Emit
  import opened Blocks
  import opened LetNormal
  import opened Jumps

  // The rest of a loop: what is emitted for the elements from the i-th on.

  lemma PatternsRest(n: nat, r: nat, lbl: nat, ps: seq<Pattern>, i: nat)
    requires i <= |ps|
    ensures i == |ps| ==> PatternsCode(n, r, lbl, ps[i..]) == PatFrag([], n, map[])
    ensures i < |ps| ==>
      var f := PatternCode(n, r, lbl, ps[i]);
      PatternsCode(n, r, lbl, ps[i..]) == JoinPat(f, PatternsCode(f.n, r + 1, lbl, ps[i + 1..]))
  {
    hide PatternCode, JoinPat;
    if i < |ps| {
      assert ps[i..][1..] == ps[i + 1..];
    }
  }

  lemma PatternShape(n: nat, r: nat, lbl: nat, p: Pattern, code: seq<Instr>, vars: Vars)
    ensures var f := PatternCode(n, r, lbl, p);
      match p
      case PConst(a) => code + f.code == code + [Data(n, a), Test(r, n), Fail(lbl)] && f.n == n + 1 && vars + f.vars == vars
      case PVar(v) => code + f.code == code && f.n == n && vars + f.vars == vars[v := r]
      case PTag(q, t) =>
        (var g := PatternCode(n, r, lbl, q);
        code + f.code == code + g.code + [Data(g.n, CombAtom(t))] + [Tag(r, g.n)] + [Fail(lbl)] && f.n == g.n + 1 && vars + f.vars == vars + g.vars)
      case PApp(ps) =>
        (var x := if ps == [] then 0 else n;
        var y := if ps == [] then 0 else n + |ps| - 1;
        var g := PatternsCode(n + |ps|, n, lbl, ps);
        code + f.code == code + [Split(x, y, r)] + [Fail(lbl)] + g.code && f.n == g.n && vars + f.vars == vars + g.vars)
  {
    hide PatternCode, PatternsCode, JoinPat;
    match p
    case PConst(a) => ConstShape(n, r, lbl, p, code, vars);
    case PVar(v) => VarShape(n, r, lbl, p, code, vars);
    case PTag(q, t) => TagShape(n, r, lbl, p, code, vars);
    case PApp(ps) => SplitShape(n, r, lbl, p, code, vars);
  }

  lemma ConstShape(n: nat, r: nat, lbl: nat, p: Pattern, code: seq<Instr>, vars: Vars)
    requires p.PConst?
    ensures var f := PatternCode(n, r, lbl, p);
            code + f.code == code + [Data(n, p.a), Test(r, n), Fail(lbl)] && f.n == n + 1 && vars + f.vars == vars
  {
  }

  lemma VarShape(n: nat, r: nat, lbl: nat, p: Pattern, code: seq<Instr>, vars: Vars)
    requires p.PVar?
    ensures var f := PatternCode(n, r, lbl, p); code + f.code == code && f.n == n && vars + f.vars == vars[p.v := r]
  {
  }

  lemma TagShape(n: nat, r: nat, lbl: nat, p: Pattern, code: seq<Instr>, vars: Vars)
    requires p.PTag?
    ensures var f := PatternCode(n, r, lbl, p);
            var g := PatternCode(n, r, lbl, p.p);
            code + f.code == code + g.code + [Data(g.n, CombAtom(p.tag))] + [Tag(r, g.n)] + [Fail(lbl)] && f.n == g.n + 1 && vars + f.vars == vars + g.vars
  {
    hide PatternCode;
    var g := PatternCode(n, r, lbl, p.p);
    PatternIs(n, r, lbl, p);
    assert [Data(g.n, CombAtom(p.tag)), Tag(r, g.n), Fail(lbl)] == [Data(g.n, CombAtom(p.tag))] + [Tag(r, g.n)] + [Fail(lbl)];
    assert g.vars + map[] == g.vars;
  }

  lemma PatternIs(n: nat, r: nat, lbl: nat, p: Pattern)
    ensures p.PTag? ==>
      var f := PatternCode(n, r, lbl, p.p);
      PatternCode(n, r, lbl, p) == JoinPat(f, PatFrag([Data(f.n, CombAtom(p.tag)), Tag(r, f.n), Fail(lbl)], f.n + 1, map[]))
    ensures p.PApp? ==>
      var x := if p.ps == [] then 0 else n;
      var y := if p.ps == [] then 0 else n + |p.ps| - 1;
      PatternCode(n, r, lbl, p) == JoinPat(PatFrag([Split(x, y, r), Fail(lbl)], n + |p.ps|, map[]), PatternsCode(n + |p.ps|, n, lbl, p.ps))
  {
    hide JoinPat, PatternsCode;
  }

  lemma SplitShape(n: nat, r: nat, lbl: nat, p: Pattern, code: seq<Instr>, vars: Vars)
    requires p.PApp?
    ensures var x := if p.ps == [] then 0 else n;
            var y := if p.ps == [] then 0 else n + |p.ps| - 1;
            var f := PatternCode(n, r, lbl, p);
            var g := PatternsCode(n + |p.ps|, n, lbl, p.ps);
            code + f.code == code + [Split(x, y, r)] + [Fail(lbl)] + g.code && f.n == g.n && vars + f.vars == vars + g.vars
  {
    hide PatternCode, PatternsCode;
    var x := if p.ps == [] then 0 else n;
    var y := if p.ps == [] then 0 else n + |p.ps| - 1;
    var g := PatternsCode(n + |p.ps|, n, lbl, p.ps);
    PatternIs(n, r, lbl, p);
    assert [Split(x, y, r), Fail(lbl)] == [Split(x, y, r)] + [Fail(lbl)];
    assert map[] + g.vars == g.vars;
  }

  lemma PatternsNone(n: nat, r: nat, lbl: nat, ps: seq<Pattern>)
    requires ps == []
    ensures PatternsCode(n, r, lbl, ps) == PatFrag([], n, map[])
  {
  }

  /** Code emitted so far, and code that is to come, make up the whole. */
  ghost predicate Rest(code: seq<Instr>, vars: Vars, f: PatFrag, code1: seq<Instr>, vars1: Vars, g: PatFrag) {
    code + f.code == code1 + g.code && vars + f.vars == vars1 + g.vars && f.n == g.n
  }

  lemma RestStep(code: seq<Instr>, vars: Vars, whole: PatFrag, code1: seq<Instr>, vars1: Vars, f: PatFrag, g: PatFrag)
    requires Rest(code, vars, whole, code1, vars1, JoinPat(f, g))
    ensures Rest(code, vars, whole, code1 + f.code, vars1 + f.vars, g)
  {
    assert code1 + (f.code + g.code) == code1 + f.code + g.code;
    assert vars1 + (f.vars + g.vars) == vars1 + f.vars + g.vars;
  }

  lemma RestDone(code: seq<Instr>, vars: Vars, whole: PatFrag, code1: seq<Instr>, vars1: Vars, n: nat)
    requires Rest(code, vars, whole, code1, vars1, PatFrag([], n, map[]))
    ensures code1 == code + whole.code && vars1 == vars + whole.vars && n == whole.n
  {
    assert code1 + [] == code1;
    assert vars1 + map[] == vars1;
  }

  // Trees

  ghost predicate RestFrag(code: seq<Instr>, rx: Slots, f: Frag, code1: seq<Instr>, rx1: Slots, g: Frag) {
    code + f.code == code1 + g.code && rx + f.rx == rx1 + g.rx && f.n == g.n
  }

  lemma RestFragStart(code: seq<Instr>, rx: Slots, f: Frag)
    ensures RestFrag(code, rx, f, code, rx, f)
  {
  }

  lemma RestFragStep(code: seq<Instr>, rx: Slots, whole: Frag, code1: seq<Instr>, rx1: Slots, f: Frag, g: Frag)
    requires RestFrag(code, rx, whole, code1, rx1, Join(f, g))
    ensures RestFrag(code, rx, whole, code1 + f.code, rx1 + f.rx, g)
  {
    assert code1 + (f.code + g.code) == code1 + f.code + g.code;
    assert rx1 + (f.rx + g.rx) == rx1 + f.rx + g.rx;
  }

  lemma RestFragDone(code: seq<Instr>, rx: Slots, whole: Frag, code1: seq<Instr>, rx1: Slots, n: nat)
    requires RestFrag(code, rx, whole, code1, rx1, Frag([], n, map[]))
    ensures code1 == code + whole.code && rx1 == rx + whole.rx && n == whole.n
  {
    assert code1 + [] == code1;
    assert rx1 + map[] == rx1;
  }

  /** How many elements are applications. */
  function Apps(es: seq<Expr>): nat {
    if es == [] then 0 else (if es[0].App? then 1 else 0) + Apps(es[1..])
  }

  lemma AppsRest(n: nat, vars: Vars, es: seq<Expr>, i: nat)
    requires i <= |es|
    ensures i == |es| ==> AppsCode(n, vars, es[i..]) == Frag([], n, map[]) && AppRegs(n, vars, es[i..]) == []
    ensures i < |es| && es[i].App? ==>
      var f := TreeCode(n, vars, es[i]);
      AppsCode(n, vars, es[i..]) == Join(f, AppsCode(f.n, vars, es[i + 1..])) && AppRegs(n, vars, es[i..]) == [n] + AppRegs(f.n, vars, es[i + 1..])
    ensures i < |es| && !es[i].App? ==>
      AppsCode(n, vars, es[i..]) == AppsCode(n, vars, es[i + 1..]) && AppRegs(n, vars, es[i..]) == AppRegs(n, vars, es[i + 1..])
  {
    hide TreeCode, Join;
    if i < |es| {
      assert es[i..][1..] == es[i + 1..];
    }
  }

  lemma {:induction false} AppRegsSize(n: nat, vars: Vars, es: seq<Expr>)
    ensures |AppRegs(n, vars, es)| == Apps(es)
    decreases es
  {
    hide TreeCode;
    if es != [] {
      AppRegsSize(if es[0].App? then TreeCode(n, vars, es[0]).n else n, vars, es[1..]);
    }
  }

  lemma SlotsRest(n: nat, t: nat, i0: nat, vars: Vars, es: seq<Expr>, i: nat, cs: seq<nat>)
    requires i <= |es| && |cs| == Apps(es[i..])
    ensures i == |es| ==> SlotsCode(n, t, i0 + i, vars, es[i..], cs) == Frag([], n, map[])
    ensures i < |es| && es[i].App? ==>
      cs != [] && |cs[1..]| == Apps(es[i + 1..])
      && SlotsCode(n, t, i0 + i, vars, es[i..], cs) == Join(Frag([Mov(n, cs[0])], n + 1, map[]), SlotsCode(n + 1, t, i0 + i + 1, vars, es[i + 1..], cs[1..]))
    ensures i < |es| && !es[i].App? ==>
      |cs| == Apps(es[i + 1..])
      && SlotsCode(n, t, i0 + i, vars, es[i..], cs) == Join(LeafCode(n, Slot(t, i0 + i), vars, es[i]), SlotsCode(LeafCode(n, Slot(t, i0 + i), vars, es[i]).n, t, i0 + i + 1, vars, es[i + 1..], cs))
  {
    hide LeafCode, Join;
    if i < |es| {
      assert es[i..][1..] == es[i + 1..];
    }
  }

  lemma {:induction false} CoresAt(es: seq<Expr>, i: nat)
    requires Cores(es) && i < |es|
    ensures Core(es[i])
    decreases i
  {
    hide Core;
    if i > 0 {
      CoresAt(es[1..], i - 1);
    }
  }

  lemma LeafSize(n: nat, at: Slot, vars: Vars, e: Expr)
    requires !e.App? && !e.Let?
    ensures LeafCode(n, at, vars, e).n == n + 1
  {
  }

  lemma TreeGlue(code: seq<Instr>, rx: Slots, n: nat, vars: Vars, e: Expr)
    requires e.App? && Core(e)
    ensures var f := AppsCode(n + 1, vars, e.es);
            var g := SlotsCode(f.n, n, 0, vars, e.es, AppRegs(n + 1, vars, e.es));
            var whole := TreeCode(n, vars, e);
            && code + whole.code == code + f.code + g.code + [Array(n, f.n, g.n - 1)]
            && rx + whole.rx == rx + f.rx + g.rx && whole.n == g.n
    ensures Cores(e.es) && e.es != []
  {
    hide TreeCode, AppsCode, SlotsCode, AppRegs, Cores;
    TreeIs(n, vars, e);
    var f := AppsCode(n + 1, vars, e.es);
    var g := SlotsCode(f.n, n, 0, vars, e.es, AppRegs(n + 1, vars, e.es));
    assert rx + (f.rx + g.rx + map[]) == rx + f.rx + g.rx;
  }

  lemma TreeIs(n: nat, vars: Vars, e: Expr)
    requires e.App?
    ensures var f := AppsCode(n + 1, vars, e.es);
            var g := SlotsCode(f.n, n, 0, vars, e.es, AppRegs(n + 1, vars, e.es));
            TreeCode(n, vars, e) == Join(Join(f, g), Frag([Array(n, f.n, g.n - 1)], g.n, map[]))
  {
    hide AppsCode, SlotsCode, AppRegs, Join;
  }

  // Redexes

  lemma SmallGlue(code: seq<Instr>, n: nat, l: LinkRegs, r: nat)
    ensures var f := SmallCode(n, l, r);
            && f.n == n + 6 && f.rx == map[]
            && code + f.code == code + [Mov(n, l.rt)] + [Mov(n + 1, l.rti)] + [Mov(n + 2, l.k)] + [Mov(n + 3, l.exc)] + [Mov(n + 4, r)] + [Array(n + 5, n, n + 4)]
  {
    var none: Slots := map[];
    assert none + none == none;
  }

  lemma RedexGlue(code: seq<Instr>, rx: Slots, n: nat, vars: Vars, l: LinkRegs, e: Expr)
    requires e.App? && Core(e)
    ensures var f := AppsCode(n + 1, vars, e.es);
            var m := f.n;
            var g := SlotsCode(m + 4, n, 4, vars, e.es, AppRegs(n + 1, vars, e.es));
            var whole := RedexCode(n, vars, l, e);
            && code + whole.code == code + f.code + [Mov(m, l.rt)] + [Mov(m + 1, l.rti)] + [Mov(m + 2, l.k)] + [Mov(m + 3, l.exc)] + g.code + [Array(n, m, g.n - 1)]
            && rx + whole.rx == rx + f.rx + g.rx && whole.n == g.n
    ensures Cores(e.es) && e.es != []
  {
    hide AppsCode, SlotsCode, AppRegs, Cores;
    var f := AppsCode(n + 1, vars, e.es);
    var h := LinkCode(f.n, l);
    var g := SlotsCode(h.n, n, 4, vars, e.es, AppRegs(n + 1, vars, e.es));
    LinkGlue(f.n, l);
    assert rx + (f.rx + (h.rx + g.rx) + map[]) == rx + f.rx + g.rx;
    assert code + (f.code + (h.code + g.code) + [Array(n, f.n, g.n - 1)]) == code + f.code + h.code + g.code + [Array(n, f.n, g.n - 1)];
    assert code + f.code + h.code == code + f.code + [Mov(f.n, l.rt)] + [Mov(f.n + 1, l.rti)] + [Mov(f.n + 2, l.k)] + [Mov(f.n + 3, l.exc)];
  }

  lemma LinkGlue(n: nat, l: LinkRegs)
    ensures var h := LinkCode(n, l);
            h.n == n + 4 && h.rx == map[] && h.code == [Mov(n, l.rt)] + [Mov(n + 1, l.rti)] + [Mov(n + 2, l.k)] + [Mov(n + 3, l.exc)]
  {
    var none: Slots := map[];
    assert none + none == none;
  }

  lemma ConstRedexGlue(code: seq<Instr>, n: nat, vars: Vars, l: LinkRegs, a: Atom)
    ensures var f := RedexCode(n, vars, l, Const(a));
            var g := SmallCode(n + 1, l, n);
            code + f.code == code + [Data(n, a)] + g.code && f.n == g.n && f.rx == map[]
  {
    hide SmallCode;
    SmallGlue(code, n + 1, l, n);
    var none: Slots := map[];
    assert none + none == none;
  }

  // Roots

  lemma LetGlue(code: seq<Instr>, rx: Slots, f: Frag, i: Instr, g: Frag)
    ensures var whole := Join(Join(f, Frag([i], f.n + 1, map[])), g);
            code + whole.code == code + f.code + [i] + g.code && rx + whole.rx == rx + f.rx + g.rx && whole.n == g.n
  {
    assert code + (f.code + [i] + g.code) == code + f.code + [i] + g.code;
    assert rx + (f.rx + map[] + g.rx) == rx + f.rx + g.rx;
  }

  lemma EndGlue(code: seq<Instr>, rx: Slots, f: Frag, i: Instr, j: Instr)
    ensures var whole := Join(f, Frag([i], f.n, map[]));
            code + whole.code == code + f.code + [i] && rx + whole.rx == rx + f.rx && whole.n == f.n
    ensures var whole := Join(f, Frag([i, j], f.n, map[]));
            code + whole.code == code + f.code + [i] + [j] && rx + whole.rx == rx + f.rx && whole.n == f.n
  {
    assert [i, j] == [i] + [j];
    assert rx + (f.rx + map[]) == rx + f.rx;
  }

  /** The name of every let has a slot by the time its redex is emitted. */
  ghost predicate SlotsUsed(ds: set<Symbol>, n: nat, vars: Vars, l: LinkRegs, arity: nat, e: Expr) {
    e.Let? ==>
      && e.x in RootCode(ds, n, vars, l, arity, e.body).rx && SlotsUsed(ds, n, vars, l, arity, e.body)
      && Core(e.rhs) && IsRedex(ds, e.rhs) && (e.rhs.Var? ==> e.rhs.v in vars)
  }

  /** The code of a let, in the order in which it is emitted. */
  lemma LetEmits(ds: set<Symbol>, n: nat, vars: Vars, l: LinkRegs, arity: nat, e: Expr, code: seq<Instr>, rx: Slots)
    requires e.Let? && SlotsUsed(ds, n, vars, l, arity, e) && CoreBody(e)
    ensures SlotsUsed(ds, n, vars, l, arity, e.body) && CoreBody(e.body) && !e.body.Var?
    ensures Core(e.rhs) && IsRedex(ds, e.rhs) && (e.rhs.Var? ==> e.rhs.v in vars)
    ensures var f := RootCode(ds, n, vars, l, arity, e.body);
            e.x in f.rx && (rx + f.rx)[e.x] == f.rx[e.x] &&
            var s := f.rx[e.x];
            var g := RedexCode(f.n + 1, vars, LinkRegs(s.r, f.n, RootReg(ds, n, vars, l, arity, e.body), l.exc), e.rhs);
            var whole := RootCode(ds, n, vars, l, arity, e);
            && code + whole.code == code + f.code + [Data(f.n, IntAtom(s.i))] + g.code && rx + whole.rx == rx + f.rx + g.rx && whole.n == g.n
            && RootReg(ds, n, vars, l, arity, e) == RedexReg(f.n + 1, e.rhs)
  {
    hide RootCode, RootReg, RedexCode, RedexReg, Core, IsRedex, Join;
    var f := RootCode(ds, n, vars, l, arity, e.body);
    RootCodeShape(ds, n, vars, l, arity, e);
    NotVarBody(ds, n, vars, l, arity, e);
    var l1 := LinkRegs(f.rx[e.x].r, f.n, RootReg(ds, n, vars, l, arity, e.body), l.exc);
    LetGlue(code, rx, f, Data(f.n, IntAtom(f.rx[e.x].i)), RedexCode(f.n + 1, vars, l1, e.rhs));
  }

  lemma VarRedexShape(n: nat, vars: Vars, l: LinkRegs, v: Name)
    requires v in vars
    ensures RedexCode(n, vars, l, Var(v)) == SmallCode(n, l, vars[v]) && SmallCode(n, l, vars[v]).rx == map[]
  {
    hide SmallCode;
    SmallGlue([], n, l, vars[v]);
  }

  lemma LeafTree(ds: set<Symbol>, n: nat, at: Slot, vars: Vars, e: Expr)
    requires !e.Let? && !IsRedex(ds, e)
    ensures !e.App? ==> TreeCode(n, vars, e) == LeafCode(n, at, vars, e)
  {
  }

  lemma NotVarBody(ds: set<Symbol>, n: nat, vars: Vars, l: LinkRegs, arity: nat, e: Expr)
    requires e.Let? && SlotsUsed(ds, n, vars, l, arity, e)
    ensures e.x in RootCode(ds, n, vars, l, arity, e.body).rx && !e.body.Var?
  {
  }

  lemma CoreNoLet(e: Expr)
    requires Core(e)
    ensures !e.Let?
  {
  }

  lemma RestStart(code: seq<Instr>, vars: Vars, f: PatFrag)
    ensures Rest(code, vars, f, code, vars, f)
  {
  }
}
