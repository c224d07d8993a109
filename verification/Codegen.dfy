/** Running emitted code builds exactly the arrays that Build describes. */
module Codegen {
  import opened Terms
  import opened Heaps
  import opened Syntax
  import opened Bytecode
  import opened Emit
  import opened Build

  /** The registers of the pattern variables hold the objects of env. */
  ghost predicate VarsOk(n: nat, vars: Vars, r: Regs, env: Objs) {
    forall v :: v in env ==> v in vars && vars[v] < n && Get(r, vars[v]) == env[v]
  }

  /** A name that the emitter has a register for is bound by env. */
  ghost predicate Closed(vars: Vars, names: set<Name>, env: Objs) {
    forall v :: v in names && v in vars ==> v in env
  }

  ghost predicate Keeps(r: Regs, r1: Regs, n: nat) {
    forall q :: 0 <= q < n ==> Get(r1, q) == Get(r, q)
  }

  /** Every cell that waits for a redex is the slot bound to it. */
  ghost predicate SlotsOk(n: nat, n1: nat, rx: Slots, r: Regs, holes: map<Name, (nat, nat)>) {
    && rx.Keys == holes.Keys
    && forall v :: v in holes ==> n <= rx[v].r < n1 && Get(r, rx[v].r) == Arr(holes[v].0) && rx[v].i == holes[v].1
  }

  /** The same, for cells of the array addr that is going to be in register t. */
  ghost predicate DirectOk(t: nat, addr: nat, rx: Slots, direct: map<Name, (nat, nat)>) {
    && rx.Keys == direct.Keys
    && forall v :: v in direct ==> rx[v] == Slot(t, direct[v].1) && direct[v].0 == addr
  }

  /** Straight-line code: c runs to c1, which adds arrays to the store. */
  ghost predicate Adds(f: Frag, n: nat, c: Cpu, c1: Cpu, cells: Heap, holes: map<Name, (nat, nat)>) {
    && Run(f.code, c) == Fall(c1)
    && c1.heap == c.heap + cells && n <= f.n
    && Keeps(c.reg, c1.reg, n)
    && SlotsOk(n, f.n, f.rx, c1.reg, holes)
  }

  ghost predicate Moves(f: Frag, n: nat, t: nat, addr: nat, c: Cpu, c1: Cpu, direct: map<Name, (nat, nat)>) {
    && Run(f.code, c) == Fall(c1)
    && c1.heap == c.heap && n <= f.n
    && Keeps(c.reg, c1.reg, n)
    && DirectOk(t, addr, f.rx, direct)
  }

  lemma AddsThen(f: Frag, g: Frag, n: nat, c: Cpu, c1: Cpu, c2: Cpu, cells: Heap, holes: map<Name, (nat, nat)>, cells1: Heap, holes1: map<Name, (nat, nat)>)
    requires Adds(f, n, c, c1, cells, holes) && Adds(g, f.n, c1, c2, cells1, holes1)
    ensures Adds(Join(f, g), n, c, c2, cells + cells1, holes + holes1)
  {
    hide Run, SlotsOk;
    RunAppend(f.code, g.code, c);
    SlotsThen(n, f.n, g.n, f.rx, g.rx, c1.reg, c2.reg, holes, holes1);
    assert c.heap + cells + cells1 == c.heap + (cells + cells1);
  }

  lemma SlotsThen(n: nat, n1: nat, n2: nat, rx: Slots, rx1: Slots, r1: Regs, r2: Regs, holes: map<Name, (nat, nat)>, holes1: map<Name, (nat, nat)>)
    requires SlotsOk(n, n1, rx, r1, holes) && SlotsOk(n1, n2, rx1, r2, holes1) && Keeps(r1, r2, n1) && n <= n1 <= n2
    ensures SlotsOk(n, n2, rx + rx1, r2, holes + holes1)
  {
    forall v | v in holes + holes1
      ensures n <= (rx + rx1)[v].r < n2
      ensures Get(r2, (rx + rx1)[v].r) == Arr((holes + holes1)[v].0) && (rx + rx1)[v].i == (holes + holes1)[v].1
    {
      if v !in holes1 {
        assert Get(r2, rx[v].r) == Get(r1, rx[v].r);
      }
    }
  }

  lemma MovesThen(f: Frag, g: Frag, n: nat, t: nat, addr: nat, c: Cpu, c1: Cpu, c2: Cpu, direct: map<Name, (nat, nat)>, direct1: map<Name, (nat, nat)>)
    requires Moves(f, n, t, addr, c, c1, direct) && Moves(g, f.n, t, addr, c1, c2, direct1)
    ensures Moves(Join(f, g), n, t, addr, c, c2, direct + direct1)
  {
    hide Run;
    RunAppend(f.code, g.code, c);
  }

  /** After the elements are in place the array goes to register t. */
  lemma ArrayDone(f: Frag, g: Frag, t: nat, from: nat, c: Cpu, c1: Cpu, c2: Cpu, arr: seq<Obj>, cells: Heap, holes: map<Name, (nat, nat)>, direct: map<Name, (nat, nat)>) returns (c3: Cpu)
    requires Adds(f, t + 1, c, c1, cells, holes)
    requires Moves(g, f.n, t, |c.heap| + |cells|, c1, c2, direct)
    requires 0 < g.n && from <= g.n && GetRange(c2.reg, from, g.n - from) == arr
    ensures Adds(Join(Join(f, g), Frag([Array(t, from, g.n - 1)], g.n, map[])), t, c, c3, cells + [arr], holes + direct)
    ensures Get(c3.reg, t) == Arr(|c.heap| + |cells|)
  {
    hide Run, GetRange, SlotsOk, DirectOk;
    var i := Array(t, from, g.n - 1);
    c3 := c2.(reg := c2.reg[t := Arr(|c2.heap|)], heap := c2.heap + [arr]);
    assert Exec(i, c2) == Fall(c3);
    ArrayRun(f.code, g.code, i, c, c1, c2, c3);
    ArraySlots(f, g, t, |c.heap| + |cells|, c1.reg, c2.reg, c3.reg, holes, direct);
    hide Exec;
    assert c3.heap == c.heap + (cells + [arr]);
    assert f.rx + g.rx + map[] == f.rx + g.rx;
  }

  /** The slots in register t are those of the array at addr. */
  ghost predicate TopSlots(t: nat, addr: nat, rx: Slots, holes: map<Name, (nat, nat)>) {
    rx.Keys == holes.Keys && forall v :: v in holes ==> (rx[v].r == t <==> holes[v].0 == addr)
  }

  lemma TopOfArray(t: nat, addr: nat, n: nat, rx: Slots, rx1: Slots, r: Regs, holes: map<Name, (nat, nat)>, direct: map<Name, (nat, nat)>)
    requires SlotsOk(t + 1, n, rx, r, holes) && DirectOk(t, addr, rx1, direct)
    requires forall v :: v in holes ==> holes[v].0 < addr
    ensures TopSlots(t, addr, rx + rx1, holes + direct)
  {
  }

  lemma ArrayRun(f: seq<Instr>, g: seq<Instr>, i: Instr, c: Cpu, c1: Cpu, c2: Cpu, c3: Cpu)
    requires Run(f, c) == Fall(c1) && Run(g, c1) == Fall(c2) && Exec(i, c2) == Fall(c3)
    ensures Run(f + g + [i], c) == Fall(c3)
  {
    RunAppend(f, g, c);
    RunAppend(f + g, [i], c);
    assert [i][1..] == [];
  }

  lemma ArraySlots(f: Frag, g: Frag, t: nat, addr: nat, r1: Regs, r2: Regs, r3: Regs, holes: map<Name, (nat, nat)>, direct: map<Name, (nat, nat)>)
    requires SlotsOk(t + 1, f.n, f.rx, r1, holes) && DirectOk(t, addr, g.rx, direct) && f.n <= g.n && t < f.n
    requires Keeps(r1, r2, f.n) && r3 == r2[t := Arr(addr)]
    ensures SlotsOk(t, g.n, f.rx + g.rx, r3, holes + direct)
  {
    forall v | v in holes + direct
      ensures t <= (f.rx + g.rx)[v].r < g.n
      ensures Get(r3, (f.rx + g.rx)[v].r) == Arr((holes + direct)[v].0) && (f.rx + g.rx)[v].i == (holes + direct)[v].1
    {
      if v !in direct {
        assert Get(r2, f.rx[v].r) == Get(r1, f.rx[v].r);
      }
    }
  }

  /** The queued registers hold the objects of the elements that are applications. */
  ghost predicate Queued(n: nat, r: Regs, es: seq<Expr>, os: seq<Obj>, cs: seq<nat>, env: Objs)
    requires |es| == |os|
    decreases es
  {
    if es == [] then cs == []
    else if es[0].App? then cs != [] && cs[0] < n && Get(r, cs[0]) == os[0] && Queued(n, r, es[1..], os[1..], cs[1..], env)
    else os[0] == LeafObj(es[0], env) && Queued(n, r, es[1..], os[1..], cs, env)
  }

  lemma {:induction false} QueuedKept(n: nat, n1: nat, r: Regs, r1: Regs, es: seq<Expr>, os: seq<Obj>, cs: seq<nat>, env: Objs)
    requires |es| == |os| && n <= n1 && Keeps(r, r1, n) && Queued(n, r, es, os, cs, env)
    ensures Queued(n1, r1, es, os, cs, env)
    decreases es
  {
    if es != [] {
      QueuedKept(n, n1, r, r1, es[1..], os[1..], if es[0].App? then cs[1..] else cs, env);
    }
  }

  lemma VarsAdds(f: Frag, n: nat, c: Cpu, c1: Cpu, cells: Heap, holes: map<Name, (nat, nat)>, vars: Vars, env: Objs)
    requires Adds(f, n, c, c1, cells, holes) && VarsOk(n, vars, c.reg, env)
    ensures VarsOk(f.n, vars, c1.reg, env) && |c1.heap| == |c.heap| + |cells|
  {
  }

  lemma QueuedMoves(f: Frag, n: nat, t: nat, addr: nat, c: Cpu, c1: Cpu, direct: map<Name, (nat, nat)>, vars: Vars, es: seq<Expr>, os: seq<Obj>, cs: seq<nat>, env: Objs)
    requires Moves(f, n, t, addr, c, c1, direct) && VarsOk(n, vars, c.reg, env) && f.n == n + 1
    requires |es| == |os| && Queued(n, c.reg, es, os, cs, env)
    ensures VarsOk(f.n, vars, c1.reg, env) && Queued(f.n, c1.reg, es, os, cs, env)
  {
    QueuedKept(n, f.n, c.reg, c1.reg, es, os, cs, env);
  }

  lemma MovesGet(f: Frag, n: nat, t: nat, addr: nat, c: Cpu, c1: Cpu, direct: map<Name, (nat, nat)>, q: nat)
    requires Moves(f, n, t, addr, c, c1, direct) && q < n
    ensures Get(c1.reg, q) == Get(c.reg, q)
  {
  }

  lemma RangeStep(r: Regs, n: nat, os: seq<Obj>)
    requires os != [] && Get(r, n) == os[0] && GetRange(r, n + 1, |os| - 1) == os[1..]
    ensures GetRange(r, n, |os|) == os
  {
    assert os == [os[0]] + os[1..];
  }

  lemma {:induction false} TreeRun(n: nat, vars: Vars, e: Expr, c: Cpu, env: Objs) returns (c1: Cpu)
    requires Core(e) && !e.Var? && VarsOk(n, vars, c.reg, env) && Closed(vars, VarsOf(e), env)
    ensures Adds(TreeCode(n, vars, e), n, c, c1, Tree(|c.heap|, e, env).cells, Tree(|c.heap|, e, env).holes)
    ensures Get(c1.reg, n) == Tree(|c.heap|, e, env).o && n < TreeCode(n, vars, e).n
    ensures e.App? ==> TopSlots(n, Tree(|c.heap|, e, env).o.addr, TreeCode(n, vars, e).rx, Tree(|c.heap|, e, env).holes)
    decreases e, 2
  {
    match e
    case Const(a) =>
      c1 := c.(reg := c.reg[n := At(a)]);
      assert [Data(n, a)][1..] == [];
    case App(es) =>
      c1 := TreeApp(n, vars, e, c, env);
  }

  lemma TreeShape(n: nat, vars: Vars, e: Expr, c: Cpu, env: Objs)
    requires Core(e) && e.App? && VarsOk(n, vars, c.reg, env) && Closed(vars, VarsOf(e), env)
    ensures var f := AppsCode(n + 1, vars, e.es);
            var g := SlotsCode(f.n, n, 0, vars, e.es, AppRegs(n + 1, vars, e.es));
            TreeCode(n, vars, e) == Join(Join(f, g), Frag([Array(n, f.n, g.n - 1)], g.n, map[]))
    ensures var b := Trees(|c.heap|, e.es, env);
            var addr := |c.heap| + |b.cells|;
            Tree(|c.heap|, e, env) == Built(b.cells + [b.os], Arr(addr), b.holes + Direct(e.es, env, addr, 0))
    ensures Cores(e.es) && VarsOk(n + 1, vars, c.reg, env) && Closed(vars, VarsOfAll(e.es), env)
  {
    hide AppsCode, SlotsCode, AppRegs, Trees, Direct, Cores, VarsOfAll, Join;
  }

  lemma {:induction false} TreeApp(n: nat, vars: Vars, e: Expr, c: Cpu, env: Objs) returns (c1: Cpu)
    requires Core(e) && e.App? && VarsOk(n, vars, c.reg, env) && Closed(vars, VarsOf(e), env)
    ensures Adds(TreeCode(n, vars, e), n, c, c1, Tree(|c.heap|, e, env).cells, Tree(|c.heap|, e, env).holes)
    ensures Get(c1.reg, n) == Tree(|c.heap|, e, env).o && n < TreeCode(n, vars, e).n
    ensures TopSlots(n, Tree(|c.heap|, e, env).o.addr, TreeCode(n, vars, e).rx, Tree(|c.heap|, e, env).holes)
    decreases e, 1
  {
    hide TreeCode, AppsCode, AppRegs, SlotsCode, Tree, Trees, Direct, Run, Adds, Moves, VarsOk, Closed, Queued, Core, Cores, GetRange;
    var es := e.es;
    var b := Trees(|c.heap|, es, env);
    var addr := |c.heap| + |b.cells|;
    var f := AppsCode(n + 1, vars, es);
    var cs := AppRegs(n + 1, vars, es);
    var g := SlotsCode(f.n, n, 0, vars, es, cs);
    TreeShape(n, vars, e, c, env);
    var c2 := AppsRun(n + 1, vars, es, c, env);
    VarsAdds(f, n + 1, c, c2, b.cells, b.holes, vars, env);
    var c3 := SlotsRun(f.n, n, 0, vars, es, cs, b.os, addr, c2, env);
    c1 := ArrayDone(f, g, n, f.n, c, c2, c3, b.os, b.cells, b.holes, Direct(es, env, addr, 0));
    TreesHoles(|c.heap|, es, env);
    TopOfArrayCode(f, g, n, addr, f.n, c, c2, c3, b.cells, b.holes, Direct(es, env, addr, 0));
  }

  lemma {:induction false} AppsRun(n: nat, vars: Vars, es: seq<Expr>, c: Cpu, env: Objs) returns (c1: Cpu)
    requires Cores(es) && VarsOk(n, vars, c.reg, env) && Closed(vars, VarsOfAll(es), env)
    ensures Adds(AppsCode(n, vars, es), n, c, c1, Trees(|c.heap|, es, env).cells, Trees(|c.heap|, es, env).holes)
    ensures Queued(AppsCode(n, vars, es).n, c1.reg, es, Trees(|c.heap|, es, env).os, AppRegs(n, vars, es), env)
    decreases es, 1
  {
    if es == [] {
      c1 := c;
    } else if es[0].App? {
      c1 := AppStep(n, vars, es, c, env);
    } else {
      c1 := AppSkip(n, vars, es, c, env);
    }
  }

  lemma AppShape(n: nat, vars: Vars, es: seq<Expr>, h: nat, env: Objs)
    requires es != [] && es[0].App? && Cores(es) && Closed(vars, VarsOfAll(es), env)
    ensures var b := Tree(h, es[0], env);
            var bs := Trees(h + |b.cells|, es[1..], env);
            Trees(h, es, env) == Builts(b.cells + bs.cells, [b.o] + bs.os, b.holes + bs.holes)
    ensures var f := TreeCode(n, vars, es[0]);
            AppsCode(n, vars, es) == Join(f, AppsCode(f.n, vars, es[1..])) && AppRegs(n, vars, es) == [n] + AppRegs(f.n, vars, es[1..])
    ensures Core(es[0]) && Cores(es[1..]) && Closed(vars, VarsOf(es[0]), env) && Closed(vars, VarsOfAll(es[1..]), env)
  {
  }

  lemma {:induction false} AppStep(n: nat, vars: Vars, es: seq<Expr>, c: Cpu, env: Objs) returns (c1: Cpu)
    requires es != [] && es[0].App?
    requires Cores(es) && VarsOk(n, vars, c.reg, env) && Closed(vars, VarsOfAll(es), env)
    ensures Adds(AppsCode(n, vars, es), n, c, c1, Trees(|c.heap|, es, env).cells, Trees(|c.heap|, es, env).holes)
    ensures Queued(AppsCode(n, vars, es).n, c1.reg, es, Trees(|c.heap|, es, env).os, AppRegs(n, vars, es), env)
    decreases es, 0
  {
    hide TreeCode, AppsCode, AppRegs, Run, Tree, Trees, VarsOf, VarsOfAll, Closed, VarsOk, Core, Cores;
    var b := Tree(|c.heap|, es[0], env);
    var bs := Trees(|c.heap| + |b.cells|, es[1..], env);
    var f := TreeCode(n, vars, es[0]);
    var g := AppsCode(f.n, vars, es[1..]);
    AppShape(n, vars, es, |c.heap|, env);
    assert ([b.o] + bs.os)[1..] == bs.os;
    var c2 := TreeRun(n, vars, es[0], c, env);
    VarsAdds(f, n, c, c2, b.cells, b.holes, vars, env);
    c1 := AppsRun(f.n, vars, es[1..], c2, env);
    assert Get(c1.reg, n) == b.o && n < g.n;
    hide Adds;
    AddsThen(f, g, n, c, c2, c1, b.cells, b.holes, bs.cells, bs.holes);
  }

  lemma {:induction false} AppSkip(n: nat, vars: Vars, es: seq<Expr>, c: Cpu, env: Objs) returns (c1: Cpu)
    requires es != [] && !es[0].App?
    requires Cores(es) && VarsOk(n, vars, c.reg, env) && Closed(vars, VarsOfAll(es), env)
    ensures Adds(AppsCode(n, vars, es), n, c, c1, Trees(|c.heap|, es, env).cells, Trees(|c.heap|, es, env).holes)
    ensures Queued(AppsCode(n, vars, es).n, c1.reg, es, Trees(|c.heap|, es, env).os, AppRegs(n, vars, es), env)
    decreases es, 0
  {
    var bs := Trees(|c.heap|, es[1..], env);
    var o := LeafObj(es[0], env);
    assert Tree(|c.heap|, es[0], env) == Built([], o, map[]);
    assert [] + bs.cells == bs.cells && map[] + bs.holes == bs.holes;
    assert Trees(|c.heap|, es, env) == Builts(bs.cells, [o] + bs.os, bs.holes);
    assert ([o] + bs.os)[1..] == bs.os;
    assert AppsCode(n, vars, es) == AppsCode(n, vars, es[1..]);
    assert AppRegs(n, vars, es) == AppRegs(n, vars, es[1..]);
    assert Cores(es[1..]) && Closed(vars, VarsOfAll(es[1..]), env);
    hide AppsCode, AppRegs, Run, Tree, Trees, VarsOfAll, Closed, VarsOk, Cores, Adds;
    c1 := AppsRun(n, vars, es[1..], c, env);
  }

  lemma {:induction false} SlotsRun(n: nat, t: nat, i: nat, vars: Vars, es: seq<Expr>, cs: seq<nat>, os: seq<Obj>, addr: nat, c: Cpu, env: Objs) returns (c1: Cpu)
    requires Cores(es) && VarsOk(n, vars, c.reg, env) && Closed(vars, VarsOfAll(es), env)
    requires |es| == |os| && Queued(n, c.reg, es, os, cs, env)
    ensures Moves(SlotsCode(n, t, i, vars, es, cs), n, t, addr, c, c1, Direct(es, env, addr, i))
    ensures SlotsCode(n, t, i, vars, es, cs).n == n + |es| && GetRange(c1.reg, n, |es|) == os
    decreases es, 1
  {
    if es == [] {
      c1 := c;
    } else {
      c1 := SlotsStep(n, t, i, vars, es, cs, os, addr, c, env);
    }
  }

  lemma SlotsShape(n: nat, t: nat, i: nat, vars: Vars, es: seq<Expr>, cs: seq<nat>, os: seq<Obj>, addr: nat, r: Regs, env: Objs)
    requires |es| == |os| > 0 && Cores(es) && Closed(vars, VarsOfAll(es), env) && Queued(n, r, es, os, cs, env)
    ensures es[0].App? ==> cs != [] && Get(r, cs[0]) == os[0]
    ensures !es[0].App? ==> os[0] == LeafObj(es[0], env)
    ensures var cs1 := if es[0].App? then cs[1..] else cs;
            var f := SlotCode(n, t, i, vars, es[0], cs);
            SlotsCode(n, t, i, vars, es, cs) == Join(f, SlotsCode(f.n, t, i + 1, vars, es[1..], cs1))
            && Queued(n, r, es[1..], os[1..], cs1, env)
    ensures Direct(es, env, addr, i) == DirectOne(es[0], env, addr, i) + Direct(es[1..], env, addr, i + 1)
    ensures Core(es[0]) && !es[0].Let? && Cores(es[1..]) && Closed(vars, VarsOf(es[0]), env) && Closed(vars, VarsOfAll(es[1..]), env)
  {
  }

  lemma {:induction false} SlotsStep(n: nat, t: nat, i: nat, vars: Vars, es: seq<Expr>, cs: seq<nat>, os: seq<Obj>, addr: nat, c: Cpu, env: Objs) returns (c1: Cpu)
    requires es != [] && Cores(es) && VarsOk(n, vars, c.reg, env) && Closed(vars, VarsOfAll(es), env)
    requires |es| == |os| && Queued(n, c.reg, es, os, cs, env)
    ensures Moves(SlotsCode(n, t, i, vars, es, cs), n, t, addr, c, c1, Direct(es, env, addr, i))
    ensures SlotsCode(n, t, i, vars, es, cs).n == n + |es| && GetRange(c1.reg, n, |es|) == os
    decreases es, 0
  {
    hide SlotsCode, SlotCode, Run, VarsOf, VarsOfAll, Closed, VarsOk, Core, Cores, Queued, Direct, DirectOne, Moves, GetRange;
    SlotsShape(n, t, i, vars, es, cs, os, addr, c.reg, env);
    var cs1 := if es[0].App? then cs[1..] else cs;
    var f := SlotCode(n, t, i, vars, es[0], cs);
    var g := SlotsCode(f.n, t, i + 1, vars, es[1..], cs1);
    var c2 := SlotRun(n, t, i, vars, es[0], if es[0].App? then cs[0] else 0, cs, os[0], addr, c, env);
    QueuedMoves(f, n, t, addr, c, c2, DirectOne(es[0], env, addr, i), vars, es[1..], os[1..], cs1, env);
    c1 := SlotsRun(f.n, t, i + 1, vars, es[1..], cs1, os[1..], addr, c2, env);
    MovesGet(g, f.n, t, addr, c2, c1, Direct(es[1..], env, addr, i + 1), n);
    MovesThen(f, g, n, t, addr, c, c2, c1, DirectOne(es[0], env, addr, i), Direct(es[1..], env, addr, i + 1));
    RangeStep(c1.reg, n, os);
  }

  lemma SlotRun(n: nat, t: nat, i: nat, vars: Vars, e: Expr, q: nat, cs: seq<nat>, o: Obj, addr: nat, c: Cpu, env: Objs) returns (c1: Cpu)
    requires !e.Let? && VarsOk(n, vars, c.reg, env) && Closed(vars, VarsOf(e), env)
    requires if e.App? then cs != [] && q == cs[0] && Get(c.reg, q) == o else o == LeafObj(e, env)
    ensures SlotCode(n, t, i, vars, e, cs).n == n + 1
    ensures Moves(SlotCode(n, t, i, vars, e, cs), n, t, addr, c, c1, DirectOne(e, env, addr, i)) && Get(c1.reg, n) == o
  {
    c1 := c.(reg := c.reg[n := o]);
  }

  // Redexes

  /** The link registers hold the link. */
  ghost predicate LinkOk(n: nat, l: LinkRegs, r: Regs, link: Link) {
    && l.rt < n && l.rti < n && l.k < n && l.exc < n
    && Get(r, l.rt) == link.rt && Get(r, l.rti) == link.rti && Get(r, l.k) == link.k && Get(r, l.exc) == link.exc
  }

  lemma FourRange(r: Regs, n: nat, link: Link)
    requires Get(r, n) == link.rt && Get(r, n + 1) == link.rti && Get(r, n + 2) == link.k && Get(r, n + 3) == link.exc
    ensures GetRange(r, n, 4) == LinkObjs(link)
  {
    hide Get;
    assert GetRange(r, n + 4, 0) == [];
    assert GetRange(r, n + 3, 1) == [link.exc];
    assert GetRange(r, n + 2, 2) == [link.k, link.exc];
    assert GetRange(r, n + 1, 3) == [link.rti, link.k, link.exc];
  }

  lemma LinkRun(n: nat, t: nat, addr: nat, l: LinkRegs, c: Cpu, link: Link) returns (c1: Cpu)
    requires LinkOk(n, l, c.reg, link)
    ensures Moves(LinkCode(n, l), n, t, addr, c, c1, map[])
    ensures GetRange(c1.reg, n, 4) == LinkObjs(link)
  {
    hide Run, Moves, GetRange;
    var c2 := PairRun(n, l.rt, l.rti, t, addr, c);
    assert LinkOk(n, l, c2.reg, link) by {
      MovesGet(PairCode(n, l.rt, l.rti), n, t, addr, c, c2, map[], l.rt);
      MovesGet(PairCode(n, l.rt, l.rti), n, t, addr, c, c2, map[], l.rti);
      MovesGet(PairCode(n, l.rt, l.rti), n, t, addr, c, c2, map[], l.k);
      MovesGet(PairCode(n, l.rt, l.rti), n, t, addr, c, c2, map[], l.exc);
    }
    c1 := PairRun(n + 2, l.k, l.exc, t, addr, c2);
    MovesGet(PairCode(n + 2, l.k, l.exc), n + 2, t, addr, c2, c1, map[], n);
    MovesGet(PairCode(n + 2, l.k, l.exc), n + 2, t, addr, c2, c1, map[], n + 1);
    FourRange(c1.reg, n, link);
    MovesThen(PairCode(n, l.rt, l.rti), PairCode(n + 2, l.k, l.exc), n, t, addr, c, c2, c1, map[], map[]);
    var none: map<Name, (nat, nat)> := map[];
    assert none + none == none;
  }

  lemma PairRun(n: nat, x: nat, y: nat, t: nat, addr: nat, c: Cpu) returns (c1: Cpu)
    requires x < n && y < n
    ensures Moves(PairCode(n, x, y), n, t, addr, c, c1, map[])
    ensures Get(c1.reg, n) == Get(c.reg, x) && Get(c1.reg, n + 1) == Get(c.reg, y)
  {
    var c2 := c.(reg := c.reg[n := Get(c.reg, x)]);
    c1 := c2.(reg := c2.reg[n + 1 := Get(c2.reg, y)]);
    TwoRun(Mov(n, x), Mov(n + 1, y), c, c2, c1);
  }

  lemma {:induction false} RangeJoin(r: Regs, n: nat, a: nat, b: nat)
    ensures GetRange(r, n, a + b) == GetRange(r, n, a) + GetRange(r, n + a, b)
    decreases a
  {
    if a > 0 {
      RangeJoin(r, n + 1, a - 1, b);
    }
  }

  lemma SmallRun(n: nat, l: LinkRegs, q: nat, o: Obj, c: Cpu, link: Link) returns (c1: Cpu)
    requires LinkOk(n, l, c.reg, link) && q < n && Get(c.reg, q) == o
    ensures Adds(SmallCode(n, l, q), n, c, c1, [LinkObjs(link) + [o]], map[])
    ensures Get(c1.reg, n + 5) == Arr(|c.heap|)
  {
    hide Run;
    var c2 := LinkRun(n, 0, 0, l, c, link);
    var c3 := c2.(reg := c2.reg[n + 4 := o]);
    var arr := LinkObjs(link) + [o];
    RangeJoin(c3.reg, n, 4, 1);
    assert GetRange(c3.reg, n, 4) == LinkObjs(link);
    assert GetRange(c3.reg, n + 4, 1) == [o];
    c1 := c3.(reg := c3.reg[n + 5 := Arr(|c.heap|)], heap := c.heap + [arr]);
    TwoRun(Mov(n + 4, q), Array(n + 5, n, n + 4), c2, c3, c1);
    RunAppend(LinkCode(n, l).code, [Mov(n + 4, q), Array(n + 5, n, n + 4)], c);
  }

  lemma OneRun(i: Instr, c: Cpu, c1: Cpu)
    requires Exec(i, c) == Fall(c1)
    ensures Run([i], c) == Fall(c1)
  {
    assert [i][1..] == [];
  }

  lemma TwoRun(i: Instr, j: Instr, c: Cpu, c1: Cpu, c2: Cpu)
    requires Exec(i, c) == Fall(c1) && Exec(j, c1) == Fall(c2)
    ensures Run([i, j], c) == Fall(c2)
  {
    assert [i, j][1..] == [j];
    OneRun(j, c1, c2);
  }

  /** A redex becomes a thunk, in the register that is the next continuation. */
  lemma {:induction false} RedexRun(n: nat, vars: Vars, l: LinkRegs, e: Expr, c: Cpu, env: Objs, link: Link) returns (c1: Cpu)
    requires Core(e) && VarsOk(n, vars, c.reg, env) && Closed(vars, VarsOf(e), env) && LinkOk(n, l, c.reg, link)
    requires e.Var? ==> e.v in env
    ensures Adds(RedexCode(n, vars, l, e), n, c, c1, Thunk(|c.heap|, e, env, link).cells, Thunk(|c.heap|, e, env, link).holes)
    ensures n <= RedexReg(n, e) < RedexCode(n, vars, l, e).n
    ensures Get(c1.reg, RedexReg(n, e)) == Thunk(|c.heap|, e, env, link).o
    ensures TopSlots(RedexReg(n, e), Thunk(|c.heap|, e, env, link).o.addr, RedexCode(n, vars, l, e).rx, Thunk(|c.heap|, e, env, link).holes)
  {
    match e
    case Const(a) => c1 := ConstRedex(n, vars, l, e, c, env, link);
    case Var(v) =>
      SmallShape(|c.heap|, e, env, link);
      c1 := SmallRun(n, l, vars[v], env[v], c, link);
    case App(es) => c1 := AppRedex(n, vars, l, e, c, env, link);
  }

  lemma SmallShape(h: nat, e: Expr, env: Objs, link: Link)
    requires e.Const? || (e.Var? && e.v in env)
    ensures Thunk(h, e, env, link) == Built([LinkObjs(link) + [LeafObj(e, env)]], Arr(h), map[])
  {
    assert [e][1..] == [];
    assert Trees(h, [e], env) == Builts([], [LeafObj(e, env)], map[]);
    assert Direct([e], env, h, 4) == map[];
  }

  lemma ConstRedex(n: nat, vars: Vars, l: LinkRegs, e: Expr, c: Cpu, env: Objs, link: Link) returns (c1: Cpu)
    requires e.Const? && LinkOk(n, l, c.reg, link)
    ensures Adds(RedexCode(n, vars, l, e), n, c, c1, Thunk(|c.heap|, e, env, link).cells, Thunk(|c.heap|, e, env, link).holes)
    ensures Get(c1.reg, RedexReg(n, e)) == Thunk(|c.heap|, e, env, link).o && Thunk(|c.heap|, e, env, link).o == Arr(|c.heap|)
    ensures RedexCode(n, vars, l, e).rx == map[] && Thunk(|c.heap|, e, env, link).holes == map[]
  {
    hide Thunk, RedexCode, RedexReg, SmallCode, Adds, Run;
    SmallShape(|c.heap|, e, env, link);
    ConstShape(n, vars, l, e.a);
    var c2 := DataRun(n, e.a, c, l, link);
    c1 := SmallRun(n + 1, l, n, At(e.a), c2, link);
    AddsThen(Frag([Data(n, e.a)], n + 1, map[]), SmallCode(n + 1, l, n), n, c, c2, c1, [], map[], [LinkObjs(link) + [At(e.a)]], map[]);
    assert [] + [LinkObjs(link) + [At(e.a)]] == [LinkObjs(link) + [At(e.a)]];
    var none: map<Name, (nat, nat)> := map[];
    assert none + none == none;
  }

  lemma ConstShape(n: nat, vars: Vars, l: LinkRegs, a: Atom)
    ensures RedexCode(n, vars, l, Const(a)) == Join(Frag([Data(n, a)], n + 1, map[]), SmallCode(n + 1, l, n))
    ensures RedexReg(n, Const(a)) == n + 6 && RedexCode(n, vars, l, Const(a)).rx == map[]
  {
    var none: Slots := map[];
    assert none + none == none;
  }

  lemma DataRun(n: nat, a: Atom, c: Cpu, l: LinkRegs, link: Link) returns (c2: Cpu)
    requires LinkOk(n, l, c.reg, link)
    ensures Adds(Frag([Data(n, a)], n + 1, map[]), n, c, c2, [], map[])
    ensures LinkOk(n + 1, l, c2.reg, link) && Get(c2.reg, n) == At(a) && c2.heap == c.heap
  {
    c2 := c.(reg := c.reg[n := At(a)]);
    OneRun(Data(n, a), c, c2);
    hide Run;
    assert c2.heap == c.heap + [];
  }

  lemma RedexShape(n: nat, vars: Vars, l: LinkRegs, e: Expr, c: Cpu, env: Objs, link: Link)
    requires Core(e) && e.App? && VarsOk(n, vars, c.reg, env) && Closed(vars, VarsOf(e), env) && LinkOk(n, l, c.reg, link)
    ensures var f := AppsCode(n + 1, vars, e.es);
            var h := LinkCode(f.n, l);
            var g := SlotsCode(h.n, n, 4, vars, e.es, AppRegs(n + 1, vars, e.es));
            RedexCode(n, vars, l, e) == Join(Join(f, Join(h, g)), Frag([Array(n, f.n, g.n - 1)], g.n, map[]))
    ensures var b := Trees(|c.heap|, e.es, env);
            var addr := |c.heap| + |b.cells|;
            Thunk(|c.heap|, e, env, link) == Built(b.cells + [LinkObjs(link) + b.os], Arr(addr), b.holes + Direct(e.es, env, addr, 4))
    ensures Cores(e.es) && VarsOk(n + 1, vars, c.reg, env) && Closed(vars, VarsOfAll(e.es), env)
  {
    hide AppsCode, SlotsCode, AppRegs, Trees, Direct, Cores, VarsOfAll, Join;
  }

  lemma LinkKept(f: Frag, n: nat, c: Cpu, c1: Cpu, cells: Heap, holes: map<Name, (nat, nat)>, l: LinkRegs, link: Link)
    requires LinkOk(n, l, c.reg, link) && Adds(f, n + 1, c, c1, cells, holes)
    ensures LinkOk(f.n, l, c1.reg, link)
  {
  }

  lemma QueuedLink(f: Frag, n: nat, c: Cpu, c1: Cpu, vars: Vars, es: seq<Expr>, os: seq<Obj>, cs: seq<nat>, env: Objs)
    requires Moves(f, n, 0, 0, c, c1, map[]) && VarsOk(n, vars, c.reg, env)
    requires |es| == |os| && Queued(n, c.reg, es, os, cs, env)
    ensures VarsOk(f.n, vars, c1.reg, env) && Queued(f.n, c1.reg, es, os, cs, env)
  {
    QueuedKept(n, f.n, c.reg, c1.reg, es, os, cs, env);
  }

  lemma {:induction false} AppRedex(n: nat, vars: Vars, l: LinkRegs, e: Expr, c: Cpu, env: Objs, link: Link) returns (c1: Cpu)
    requires Core(e) && e.App? && VarsOk(n, vars, c.reg, env) && Closed(vars, VarsOf(e), env) && LinkOk(n, l, c.reg, link)
    ensures Adds(RedexCode(n, vars, l, e), n, c, c1, Thunk(|c.heap|, e, env, link).cells, Thunk(|c.heap|, e, env, link).holes)
    ensures n < RedexCode(n, vars, l, e).n && Get(c1.reg, n) == Thunk(|c.heap|, e, env, link).o
    ensures TopSlots(n, Thunk(|c.heap|, e, env, link).o.addr, RedexCode(n, vars, l, e).rx, Thunk(|c.heap|, e, env, link).holes)
  {
    hide RedexCode, AppsCode, AppRegs, SlotsCode, Thunk, Trees, Direct, Run, Adds, VarsOk, Closed, Queued, Core, Cores, GetRange;
    hide LinkOk, TopSlots, HolesIn, Moves;
    var es := e.es;
    var b := Trees(|c.heap|, es, env);
    var addr := |c.heap| + |b.cells|;
    var f := AppsCode(n + 1, vars, es);
    var h := LinkCode(f.n, l);
    var cs := AppRegs(n + 1, vars, es);
    var g := SlotsCode(h.n, n, 4, vars, es, cs);
    var direct := Direct(es, env, addr, 4);
    RedexShape(n, vars, l, e, c, env, link);
    var c2 := AppsRun(n + 1, vars, es, c, env);
    VarsAdds(f, n + 1, c, c2, b.cells, b.holes, vars, env);
    LinkKept(f, n, c, c2, b.cells, b.holes, l, link);
    var c3 := LinkRun(f.n, n, addr, l, c2, link);
    MovesAny(h, f.n, n, addr, 0, 0, c2, c3);
    QueuedLink(h, f.n, c2, c3, vars, es, b.os, cs, env);
    var c4 := SlotsRun(h.n, n, 4, vars, es, cs, b.os, addr, c3, env);
    LinkRange(f.n, g, n, addr, l, c3, c4, direct, link, b.os);
    MovesThen(h, g, f.n, n, addr, c2, c3, c4, map[], direct);
    assert map[] + direct == direct;
    c1 := ArrayDone(f, Join(h, g), n, f.n, c, c2, c4, LinkObjs(link) + b.os, b.cells, b.holes, direct);
    TreesHoles(|c.heap|, es, env);
    TopOfArrayCode(f, Join(h, g), n, addr, f.n, c, c2, c4, b.cells, b.holes, direct);
  }

  lemma MovesAny(f: Frag, n: nat, t: nat, addr: nat, t1: nat, addr1: nat, c: Cpu, c1: Cpu)
    requires Moves(f, n, t, addr, c, c1, map[])
    ensures Moves(f, n, t1, addr1, c, c1, map[])
  {
  }

  lemma LinkRange(n: nat, g: Frag, t: nat, addr: nat, l: LinkRegs, c: Cpu, c1: Cpu, direct: map<Name, (nat, nat)>, link: Link, os: seq<Obj>)
    requires Moves(g, LinkCode(n, l).n, t, addr, c, c1, direct)
    requires GetRange(c.reg, n, 4) == LinkObjs(link) && GetRange(c1.reg, n + 4, |os|) == os && g.n == n + 4 + |os|
    ensures GetRange(c1.reg, n, g.n - n) == LinkObjs(link) + os
  {
    hide Run, GetRange, DirectOk;
    RangeJoin(c1.reg, n, 4, |os|);
    assert GetRange(c1.reg, n, 4) == GetRange(c.reg, n, 4);
  }

  lemma TopOfArrayCode(f: Frag, g: Frag, t: nat, addr: nat, n: nat, c: Cpu, c1: Cpu, c2: Cpu, cells: Heap, holes: map<Name, (nat, nat)>, direct: map<Name, (nat, nat)>)
    requires Adds(f, t + 1, c, c1, cells, holes) && Moves(g, n, t, addr, c1, c2, direct)
    requires HolesIn(|c.heap|, cells, holes) && addr == |c.heap| + |cells|
    ensures TopSlots(t, addr, Join(Join(f, g), Frag([Array(t, n, if g.n == 0 then 0 else g.n - 1)], g.n, map[])).rx, holes + direct)
  {
    TopOfArray(t, addr, f.n, f.rx, g.rx, c1.reg, holes, direct);
    assert f.rx + g.rx + map[] == f.rx + g.rx;
  }

  // Roots

  /** Register 0 holds the thunk, whose elements from sp on are the left-over arguments. */
  ghost predicate FrameOk(r: Regs, h: Heap, sp: nat, extra: seq<Obj>) {
    var a := Get(r, 0);
    a.Arr? && a.addr < |h| && extra == if sp < |h[a.addr]| then h[a.addr][sp..] else []
  }

  /** The link's target is a cell of the store. */
  ghost predicate TargetOk(h: Heap, link: Link) {
    link.rt.Arr? && link.rt.addr < |h| && link.rti.At? && link.rti.atom.IntAtom? && 0 <= link.rti.atom.i < |h[link.rt.addr]|
  }

  ghost function Wrote(h: Heap, link: Link, o: Obj): Heap
    requires TargetOk(h, link)
  {
    if o.Null? then h else SetCell(h, link.rt.addr, link.rti.atom.i, o)
  }

  lemma ExtendRun(f: Frag, n: nat, k: nat, c: Cpu, c1: Cpu, b: Built, sp: nat, extra: seq<Obj>) returns (c2: Cpu)
    requires Adds(f, n, c, c1, b.cells, b.holes) && 1 <= n <= k < f.n && Get(c1.reg, k) == b.o
    requires FrameOk(c.reg, c.heap, sp, extra)
    requires b.o.Arr? ==> |c.heap| <= b.o.addr < |c.heap| + |b.cells| && |b.cells[b.o.addr - |c.heap|]| >= 2
    requires b.o.Arr? ==> TopSlots(k, b.o.addr, f.rx, b.holes)
    requires !b.o.Arr? ==> b.o.At? && b.holes == map[]
    ensures Adds(Join(f, Frag([Concatx(k, k, 0, sp)], f.n, map[])), n, c, c2, Extend(|c.heap|, b, extra).cells, Extend(|c.heap|, b, extra).holes)
    ensures Get(c2.reg, k) == Extend(|c.heap|, b, extra).o
  {
    var i := Concatx(k, k, 0, sp);
    var e := Extend(|c.heap|, b, extra);
    var frame := c.heap[Get(c.reg, 0).addr];
    assert Get(c1.reg, 0) == Get(c.reg, 0) && c1.heap[Get(c.reg, 0).addr] == frame;
    c2 := c1.(reg := c1.reg[k := e.o], heap := c.heap + e.cells);
    ConcatIs(c1.heap, b.o, frame, sp, extra, |c.heap|, b, c.heap);
    assert Exec(i, c1) == Fall(c2);
    OneRun(i, c1, c2);
    hide Run, Exec;
    RunAppend(f.code, [i], c);
    assert f.rx + map[] == f.rx;
    ExtendSlots(n, f.n, k, f.rx, c1.reg, c2.reg, b, e, |c.heap|, extra);
  }

  lemma ConcatIs(h: Heap, o: Obj, z: seq<Obj>, sp: nat, extra: seq<Obj>, n: nat, b: Built, h0: Heap)
    requires h == h0 + b.cells && n == |h0| && o == b.o && (o.At? || (o.Arr? && n <= o.addr < |h| && |h[o.addr]| >= 2))
    requires extra == if sp < |z| then z[sp..] else []
    ensures ConcatObj(h, o, z, sp) == (h0 + Extend(n, b, extra).cells, Extend(n, b, extra).o)
  {
    if extra != [] {
      assert h0 + (b.cells + [Extend(n, b, extra).cells[|b.cells|]]) == h + [Extend(n, b, extra).cells[|b.cells|]];
    }
  }

  lemma ExtendSlots(n: nat, n1: nat, k: nat, rx: Slots, r: Regs, r1: Regs, b: Built, e: Built, h: nat, extra: seq<Obj>)
    requires SlotsOk(n, n1, rx, r, b.holes)
    requires b.o.Arr? ==> h <= b.o.addr < h + |b.cells| && TopSlots(k, b.o.addr, rx, b.holes) && Get(r, k) == b.o
    requires !b.o.Arr? ==> b.holes == map[]
    requires e == Extend(h, b, extra) && r1 == r[k := e.o]
    ensures SlotsOk(n, n1, rx, r1, e.holes)
  {
  }

  ghost predicate RootDone(f: Frag, n: nat, k: nat, c: Cpu, c1: Cpu, link: Link, b: Body)
    requires TargetOk(c.heap, link)
  {
    && Run(f.code, c) == Fall(c1)
    && c1.heap == Wrote(c.heap, link, b.write) + b.cells
    && n <= f.n && k < f.n && Get(c1.reg, k) == b.k
    && Keeps(c.reg, c1.reg, n)
    && SlotsOk(n, f.n, f.rx, c1.reg, b.holes)
  }

  /** Variables are bound, and every let is used. */
  ghost predicate Fits(ds: set<Symbol>, vars: Vars, e: Expr, env: Objs, h: nat, link: Link, extra: seq<Obj>)
    decreases e
  {
    if e.Let? then
      && RedexOk(ds, e.rhs) && Closed(vars, VarsOf(e.rhs), env) && (e.rhs.Var? ==> e.rhs.v in env)
      && e.x in RootBody(ds, h, e.body, env, link, extra).holes
      && Fits(ds, vars, e.body, env, h, link, extra)
    else Core(e) && Closed(vars, VarsOf(e), env) && (e.Var? ==> e.v in env)
  }

  lemma {:induction false} RootRun(ds: set<Symbol>, n: nat, vars: Vars, l: LinkRegs, arity: nat, e: Expr, c: Cpu, env: Objs, link: Link, extra: seq<Obj>) returns (c1: Cpu)
    requires 1 <= n && VarsOk(n, vars, c.reg, env) && LinkOk(n, l, c.reg, link) && TargetOk(c.heap, link)
    requires FrameOk(c.reg, c.heap, Spurious(arity), extra) && Fits(ds, vars, e, env, |c.heap|, link, extra)
    ensures RootDone(RootCode(ds, n, vars, l, arity, e), n, RootReg(ds, n, vars, l, arity, e), c, c1, link, RootBody(ds, |c.heap|, e, env, link, extra))
    decreases e, 1
  {
    if e.Let? {
      c1 := LetRun(ds, n, vars, l, arity, e, c, env, link, extra);
    } else if IsRedex(ds, e) {
      c1 := RedexRootRun(ds, n, vars, l, arity, e, c, env, link, extra);
    } else {
      c1 := TreeRootRun(ds, n, vars, l, arity, e, c, env, link, extra);
    }
  }

  lemma {:induction false} RedexRootRun(ds: set<Symbol>, n: nat, vars: Vars, l: LinkRegs, arity: nat, e: Expr, c: Cpu, env: Objs, link: Link, extra: seq<Obj>) returns (c1: Cpu)
    requires !e.Let? && IsRedex(ds, e)
    requires 1 <= n && VarsOk(n, vars, c.reg, env) && LinkOk(n, l, c.reg, link) && TargetOk(c.heap, link)
    requires FrameOk(c.reg, c.heap, Spurious(arity), extra) && Fits(ds, vars, e, env, |c.heap|, link, extra)
    ensures RootDone(RootCode(ds, n, vars, l, arity, e), n, RootReg(ds, n, vars, l, arity, e), c, c1, link, RootBody(ds, |c.heap|, e, env, link, extra))
  {
    hide RootCode, RootReg, RootBody, RedexCode, RedexReg, Extend, Run, VarsOk, Closed, LinkOk, FrameOk, Core, VarsOf, Trees, IsRedex, Fits, Thunk;
    RedexRootShape(ds, n, vars, l, arity, e, |c.heap|, env, link, extra);
    var f := RedexCode(n, vars, l, e);
    var k := RedexReg(n, e);
    var b := Thunk(|c.heap|, e, env, link);
    var c2 := RedexRun(n, vars, l, e, c, env, link);
    c1 := ExtendRun(f, n, k, c, c2, b, Spurious(arity), extra);
  }

  lemma RedexRootShape(ds: set<Symbol>, n: nat, vars: Vars, l: LinkRegs, arity: nat, e: Expr, h: nat, env: Objs, link: Link, extra: seq<Obj>)
    requires !e.Let? && IsRedex(ds, e) && Fits(ds, vars, e, env, h, link, extra)
    ensures var k := RedexReg(n, e);
            var f := RedexCode(n, vars, l, e);
            RootCode(ds, n, vars, l, arity, e) == Join(f, Frag([Concatx(k, k, 0, Spurious(arity))], f.n, map[])) && RootReg(ds, n, vars, l, arity, e) == k
    ensures var b := Thunk(h, e, env, link);
            var t := Extend(h, b, extra);
            && RootBody(ds, h, e, env, link, extra) == Body(t.cells, t.o, t.holes, Null, Replaced(b, extra))
            && b.o.Arr? && h <= b.o.addr < h + |b.cells| && |b.cells[b.o.addr - h]| >= 2
    ensures Closed(vars, VarsOf(e), env) && Core(e) && (e.Var? ==> e.v in env)
  {
    hide RedexCode, RedexReg, Extend, Trees, Direct, Join, VarsOf;
  }

  lemma {:induction false} TreeRootRun(ds: set<Symbol>, n: nat, vars: Vars, l: LinkRegs, arity: nat, e: Expr, c: Cpu, env: Objs, link: Link, extra: seq<Obj>) returns (c1: Cpu)
    requires !e.Let? && !IsRedex(ds, e)
    requires 1 <= n && VarsOk(n, vars, c.reg, env) && LinkOk(n, l, c.reg, link) && TargetOk(c.heap, link)
    requires FrameOk(c.reg, c.heap, Spurious(arity), extra) && Fits(ds, vars, e, env, |c.heap|, link, extra)
    ensures RootDone(RootCode(ds, n, vars, l, arity, e), n, RootReg(ds, n, vars, l, arity, e), c, c1, link, RootBody(ds, |c.heap|, e, env, link, extra))
  {
    var f := TreeCode(n, vars, e);
    var b := Tree(|c.heap|, e, env);
    var sp := Spurious(arity);
    var g := Join(f, Frag([Concatx(n, n, 0, sp)], f.n, map[]));
    var t := Extend(|c.heap|, b, extra);
    TreeRootShape(ds, n, vars, l, arity, e, |c.heap|, env, link, extra);
    assert Closed(vars, VarsOf(e), env) && Core(e);
    hide RootCode, RootReg, RootBody, TreeCode, Tree, Extend, Run, VarsOk, Closed, FrameOk, Core, VarsOf;
    var c2 := TreeRun(n, vars, e, c, env);
    var c3 := ExtendRun(f, n, n, c, c2, b, sp, extra);
    c1 := SetRun(g, n, l, c, c3, link, t, Replaced(b, extra));
  }

  lemma TreeRootShape(ds: set<Symbol>, n: nat, vars: Vars, l: LinkRegs, arity: nat, e: Expr, h: nat, env: Objs, link: Link, extra: seq<Obj>)
    requires !e.Let? && !IsRedex(ds, e) && Core(e)
    ensures var f := TreeCode(n, vars, e);
            var g := Join(f, Frag([Concatx(n, n, 0, Spurious(arity))], f.n, map[]));
            RootCode(ds, n, vars, l, arity, e) == Join(g, Frag([Set(l.rt, l.rti, n)], g.n, map[]))
    ensures RootReg(ds, n, vars, l, arity, e) == l.k
    ensures var t := Extend(h, Tree(h, e, env), extra);
            RootBody(ds, h, e, env, link, extra) == Body(t.cells, link.k, t.holes, t.o, Replaced(Tree(h, e, env), extra))
    ensures !Extend(h, Tree(h, e, env), extra).o.Null?
    ensures var b := Tree(h, e, env); if b.o.Arr? then h <= b.o.addr < h + |b.cells| && |b.cells[b.o.addr - h]| >= 2 else b.o.At? && b.holes == map[]
  {
    var f := TreeCode(n, vars, e);
    assert f.code + [Concatx(n, n, 0, Spurious(arity)), Set(l.rt, l.rti, n)] == f.code + [Concatx(n, n, 0, Spurious(arity))] + [Set(l.rt, l.rti, n)];
    assert f.rx + map[] + map[] == f.rx + map[];
  }

  lemma SetRun(g: Frag, n: nat, l: LinkRegs, c: Cpu, c1: Cpu, link: Link, t: Built, dead: set<nat>) returns (c2: Cpu)
    requires Adds(g, n, c, c1, t.cells, t.holes) && n < g.n && Get(c1.reg, n) == t.o && !t.o.Null?
    requires LinkOk(n, l, c.reg, link) && TargetOk(c.heap, link)
    ensures RootDone(Join(g, Frag([Set(l.rt, l.rti, n)], g.n, map[])), n, l.k, c, c2, link, Body(t.cells, link.k, t.holes, t.o, dead))
  {
    var a, j := link.rt.addr, link.rti.atom.i;
    c2 := c1.(heap := SetCell(c1.heap, a, j, t.o));
    assert c1.heap[a] == c.heap[a];
    OneRun(Set(l.rt, l.rti, n), c1, c2);
    hide Run;
    RunAppend(g.code, [Set(l.rt, l.rti, n)], c);
    assert SetCell(c.heap + t.cells, a, j, t.o) == SetCell(c.heap, a, j, t.o) + t.cells;
    assert g.rx + map[] == g.rx;
  }

  lemma {:induction false} LetRun(ds: set<Symbol>, n: nat, vars: Vars, l: LinkRegs, arity: nat, e: Expr, c: Cpu, env: Objs, link: Link, extra: seq<Obj>) returns (c1: Cpu)
    requires e.Let?
    requires 1 <= n && VarsOk(n, vars, c.reg, env) && LinkOk(n, l, c.reg, link) && TargetOk(c.heap, link)
    requires FrameOk(c.reg, c.heap, Spurious(arity), extra) && Fits(ds, vars, e, env, |c.heap|, link, extra)
    ensures RootDone(RootCode(ds, n, vars, l, arity, e), n, RootReg(ds, n, vars, l, arity, e), c, c1, link, RootBody(ds, |c.heap|, e, env, link, extra))
    decreases e, 0
  {
    hide RootCode, RootReg, RootBody, RedexCode, RedexReg, Thunk, Run, VarsOk, Closed, FrameOk, Core, VarsOf, Adds, Wrote;
    var f := RootCode(ds, n, vars, l, arity, e.body);
    var k := RootReg(ds, n, vars, l, arity, e.body);
    var b := RootBody(ds, |c.heap|, e.body, env, link, extra);
    var link1 := Link(Arr(b.holes[e.x].0), At(IntAtom(b.holes[e.x].1)), b.k, link.exc);
    var t := Thunk(|c.heap| + |b.cells|, e.rhs, env, link1);
    LetShape(ds, n, vars, l, arity, e);
    LetBuilt(ds, vars, e, c.heap, env, link, extra);
    var c2 := RootRun(ds, n, vars, l, arity, e.body, c, env, link, extra);
    var s := f.rx[e.x];
    var c3 := c2.(reg := c2.reg[f.n := At(IntAtom(s.i))]);
    var l1 := LinkRegs(s.r, f.n, k, l.exc);
    LetLink(n, f, k, c, c2, c3, l, link, link1, vars, env, b, s);
    var c4 := RedexRun(f.n + 1, vars, l1, e.rhs, c3, env, link1);
    LetDone(f, RedexCode(f.n + 1, vars, l1, e.rhs), n, k, RedexReg(f.n + 1, e.rhs), s.i, c, c2, c3, c4, link, b, t);
    c1 := c4;
  }

  lemma LetShape(ds: set<Symbol>, n: nat, vars: Vars, l: LinkRegs, arity: nat, e: Expr)
    requires e.Let?
    ensures var f := RootCode(ds, n, vars, l, arity, e.body);
            e.x in f.rx ==>
            var l1 := LinkRegs(f.rx[e.x].r, f.n, RootReg(ds, n, vars, l, arity, e.body), l.exc);
            RootCode(ds, n, vars, l, arity, e) == Join(Join(f, Frag([Data(f.n, IntAtom(f.rx[e.x].i))], f.n + 1, map[])), RedexCode(f.n + 1, vars, l1, e.rhs))
    ensures RootReg(ds, n, vars, l, arity, e) == RedexReg(RootCode(ds, n, vars, l, arity, e.body).n + 1, e.rhs)
  {
    hide RedexCode, RedexReg, Join;
  }

  lemma LetBuilt(ds: set<Symbol>, vars: Vars, e: Expr, h: Heap, env: Objs, link: Link, extra: seq<Obj>)
    requires e.Let? && Fits(ds, vars, e, env, |h|, link, extra)
    ensures var b := RootBody(ds, |h|, e.body, env, link, extra);
            e.x in b.holes &&
            var t := Thunk(|h| + |b.cells|, e.rhs, env, Link(Arr(b.holes[e.x].0), At(IntAtom(b.holes[e.x].1)), b.k, link.exc));
            RootBody(ds, |h|, e, env, link, extra) == Body(b.cells + t.cells, t.o, b.holes + t.holes, b.write, b.dead)
    ensures Core(e.rhs) && Closed(vars, VarsOf(e.rhs), env) && (e.rhs.Var? ==> e.rhs.v in env)
    ensures Fits(ds, vars, e.body, env, |h|, link, extra)
  {
    hide Thunk, Core, Closed, VarsOf, RootBody, IsRedex;
    LetBodyIs(ds, e, |h|, env, link, extra);
  }

  lemma LetBodyIs(ds: set<Symbol>, e: Expr, h: nat, env: Objs, link: Link, extra: seq<Obj>)
    requires e.Let?
    ensures var b := RootBody(ds, h, e.body, env, link, extra);
            e.x in b.holes ==>
            var t := Thunk(h + |b.cells|, e.rhs, env, Link(Arr(b.holes[e.x].0), At(IntAtom(b.holes[e.x].1)), b.k, link.exc));
            RootBody(ds, h, e, env, link, extra) == Body(b.cells + t.cells, t.o, b.holes + t.holes, b.write, b.dead)
  {
    hide Thunk, Extend, Tree, IsRedex;
  }

  lemma LetLink(n: nat, f: Frag, k: nat, c: Cpu, c2: Cpu, c3: Cpu, l: LinkRegs, link: Link, link1: Link, vars: Vars, env: Objs, b: Body, s: Slot)
    requires TargetOk(c.heap, link) && RootDone(f, n, k, c, c2, link, b) && LinkOk(n, l, c.reg, link) && VarsOk(n, vars, c.reg, env)
    requires exists x :: x in b.holes && x in f.rx && s == f.rx[x] && link1 == Link(Arr(b.holes[x].0), At(IntAtom(b.holes[x].1)), b.k, link.exc)
    requires c3 == c2.(reg := c2.reg[f.n := At(IntAtom(s.i))])
    ensures LinkOk(f.n + 1, LinkRegs(s.r, f.n, k, l.exc), c3.reg, link1)
    ensures VarsOk(f.n + 1, vars, c3.reg, env) && |c3.heap| == |c.heap| + |b.cells|
  {
    hide Run;
  }

  lemma LetDone(f: Frag, g: Frag, n: nat, k: nat, k1: nat, i: int, c: Cpu, c2: Cpu, c3: Cpu, c4: Cpu, link: Link, b: Body, t: Built)
    requires TargetOk(c.heap, link) && RootDone(f, n, k, c, c2, link, b)
    requires c3 == c2.(reg := c2.reg[f.n := At(IntAtom(i))])
    requires Adds(g, f.n + 1, c3, c4, t.cells, t.holes) && k1 < g.n && Get(c4.reg, k1) == t.o
    ensures RootDone(Join(Join(f, Frag([Data(f.n, IntAtom(i))], f.n + 1, map[])), g), n, k1, c, c4, link, Body(b.cells + t.cells, t.o, b.holes + t.holes, b.write, b.dead))
  {
    hide Run, Wrote, SlotsOk;
    ThreeRun(f.code, Data(f.n, IntAtom(i)), g.code, c, c2, c3, c4);
    assert f.rx + map[] + g.rx == f.rx + g.rx;
    LetSlots(n, f, g, c2.reg, c3.reg, c4.reg, b.holes, t.holes);
    assert c4.heap == Wrote(c.heap, link, b.write) + (b.cells + t.cells);
  }

  lemma ThreeRun(f: seq<Instr>, i: Instr, g: seq<Instr>, c: Cpu, c2: Cpu, c3: Cpu, c4: Cpu)
    requires Run(f, c) == Fall(c2) && Exec(i, c2) == Fall(c3) && Run(g, c3) == Fall(c4)
    ensures Run(f + [i] + g, c) == Fall(c4)
  {
    OneRun(i, c2, c3);
    RunAppend(f, [i], c);
    RunAppend(f + [i], g, c);
  }

  lemma LetSlots(n: nat, f: Frag, g: Frag, r: Regs, r1: Regs, r2: Regs, holes: map<Name, (nat, nat)>, holes1: map<Name, (nat, nat)>)
    requires SlotsOk(n, f.n, f.rx, r, holes) && SlotsOk(f.n + 1, g.n, g.rx, r2, holes1) && n <= f.n < g.n
    requires Keeps(r, r1, f.n) && Keeps(r1, r2, f.n)
    ensures SlotsOk(n, g.n, f.rx + g.rx, r2, holes + holes1)
  {
    forall v | v in holes + holes1
      ensures n <= (f.rx + g.rx)[v].r < g.n
      ensures Get(r2, (f.rx + g.rx)[v].r) == Arr((holes + holes1)[v].0) && (f.rx + g.rx)[v].i == (holes + holes1)[v].1
    {
      if v !in holes1 {
        assert Get(r2, f.rx[v].r) == Get(r1, f.rx[v].r) == Get(r, f.rx[v].r);
      }
    }
  }
}
