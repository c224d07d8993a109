/** Code generation: the instructions, registers and bindings that each visit of the emitter produces. */
module Emit {
  import opened Terms
  import opened Syntax
  import opened Bytecode

  type Vars = map<Name, nat>

  /** Where a named redex must store its result: a register with an array, and an index. */
  datatype Slot = Slot(r: nat, i: nat)

  type Slots = map<Name, Slot>

  /** What a visit emits: code, the next free register, and bindings of named redexes. */
  datatype Frag = Frag(code: seq<Instr>, n: nat, rx: Slots)

  function Join(f: Frag, g: Frag): Frag {
    Frag(f.code + g.code, g.n, f.rx + g.rx)
  }

  const INDEX_RANGE := 0x1_0000

  /** Redexes are named; a combinator that is not declared data may rewrite. */
  predicate IsRedex(ds: set<Symbol>, e: Expr) {
    match e
    case Const(a) => a.CombAtom? && a.sym !in ds
    case Var(_) => true
    case App(es) => es != [] && IsRedex(ds, es[0])
    case Let(_, _, _) => false
  }

  /** A redex in let-normal form: an application of a possible redex to trees. */
  predicate RedexOk(ds: set<Symbol>, e: Expr) {
    Core(e) && IsRedex(ds, e)
  }

  // Trees

  /** One register for a constant, a copy of a variable, or the place of a redex. */
  function LeafCode(n: nat, at: Slot, vars: Vars, e: Expr): Frag {
    match e
    case Const(a) => Frag([Data(n, a)], n + 1, map[])
    case Var(v) => if v in vars then Frag([Mov(n, vars[v])], n + 1, map[]) else Frag([Nil(n)], n + 1, map[v := at])
    case _ => Frag([], n, map[])
  }

  /** An expression that is no redex ends up in register n, its first one. */
  function TreeCode(n: nat, vars: Vars, e: Expr): (f: Frag)
    ensures n <= f.n
    decreases e, 1
  {
    if e.App? then
      var f := AppsCode(n + 1, vars, e.es);
      var g := SlotsCode(f.n, n, 0, vars, e.es, AppRegs(n + 1, vars, e.es));
      Join(Join(f, g), Frag([Array(n, f.n, g.n - 1)], g.n, map[]))
    else LeafCode(n, Slot(0, 0), vars, e)
  }

  /** First the elements that are applications. */
  function AppsCode(n: nat, vars: Vars, es: seq<Expr>): (f: Frag)
    ensures n <= f.n
    decreases es, 0
  {
    if es == [] then Frag([], n, map[])
    else if es[0].App? then
      var f := TreeCode(n, vars, es[0]);
      Join(f, AppsCode(f.n, vars, es[1..]))
    else AppsCode(n, vars, es[1..])
  }

  /** The registers of those elements, in order. */
  function AppRegs(n: nat, vars: Vars, es: seq<Expr>): seq<nat>
    decreases es
  {
    if es == [] then []
    else if es[0].App? then [n] + AppRegs(TreeCode(n, vars, es[0]).n, vars, es[1..])
    else AppRegs(n, vars, es[1..])
  }

  /** One register for an element of the array in register t. */
  function SlotCode(n: nat, t: nat, i: nat, vars: Vars, e: Expr, cs: seq<nat>): Frag {
    if e.App? then Frag([Mov(n, if cs == [] then 0 else cs[0])], n + 1, map[])
    else LeafCode(n, Slot(t, i), vars, e)
  }

  /** Then every element moves to a register of its own, in order. */
  function SlotsCode(n: nat, t: nat, i: nat, vars: Vars, es: seq<Expr>, cs: seq<nat>): (f: Frag)
    ensures n <= f.n
    decreases es
  {
    if es == [] then Frag([], n, map[])
    else
      var f := SlotCode(n, t, i, vars, es[0], cs);
      Join(f, SlotsCode(f.n, t, i + 1, vars, es[1..], if es[0].App? && cs != [] then cs[1..] else cs))
  }

  // Redexes

  /** The registers that hold target, index, continuation and handler. */
  datatype LinkRegs = LinkRegs(rt: nat, rti: nat, k: nat, exc: nat)

  function PairCode(n: nat, x: nat, y: nat): Frag {
    Frag([Mov(n, x), Mov(n + 1, y)], n + 2, map[])
  }

  function LinkCode(n: nat, l: LinkRegs): Frag {
    Join(PairCode(n, l.rt, l.rti), PairCode(n + 2, l.k, l.exc))
  }

  function SmallCode(n: nat, l: LinkRegs, r: nat): Frag {
    Join(LinkCode(n, l), Frag([Mov(n + 4, r), Array(n + 5, n, n + 4)], n + 6, map[]))
  }

  /** Set up the thunk of a redex. */
  function RedexCode(n: nat, vars: Vars, l: LinkRegs, e: Expr): Frag {
    match e
    case Const(a) => Join(Frag([Data(n, a)], n + 1, map[]), SmallCode(n + 1, l, n))
    case Var(v) => SmallCode(n, l, if v in vars then vars[v] else 0)
    case App(es) =>
      var f := AppsCode(n + 1, vars, es);
      var h := LinkCode(f.n, l);
      var g := SlotsCode(h.n, n, 4, vars, es, AppRegs(n + 1, vars, es));
      Join(Join(f, Join(h, g)), Frag([Array(n, f.n, g.n - 1)], g.n, map[]))
    case Let(_, _, _) => Frag([], n, map[])
  }

  /** The register of that thunk, the new continuation. */
  function RedexReg(n: nat, e: Expr): nat {
    match e
    case Const(_) => n + 6
    case Var(_) => n + 5
    case _ => n
  }

  // Roots

  /** The index operand of CONCATX has sixteen bits. */
  function Spurious(arity: nat): nat {
    (5 + arity) % INDEX_RANGE
  }

  /** The continuation register after a body: that of its first redex, or the one it was given. */
  function RootReg(ds: set<Symbol>, n: nat, vars: Vars, l: LinkRegs, arity: nat, e: Expr): nat
    decreases e, 0
  {
    if e.Let? then RedexReg(RootCode(ds, n, vars, l, arity, e.body).n + 1, e.rhs)
    else if IsRedex(ds, e) then RedexReg(n, e)
    else l.k
  }

  /** The thunks of a body, back to front: a let leaves its result in the slot the rest has for it. */
  function RootCode(ds: set<Symbol>, n: nat, vars: Vars, l: LinkRegs, arity: nat, e: Expr): Frag
    decreases e, 1
  {
    if e.Let? then
      var f := RootCode(ds, n, vars, l, arity, e.body);
      var s := if e.x in f.rx then f.rx[e.x] else Slot(0, 0);
      var l1 := LinkRegs(s.r, f.n, RootReg(ds, n, vars, l, arity, e.body), l.exc);
      Join(Join(f, Frag([Data(f.n, IntAtom(s.i))], f.n + 1, map[])), RedexCode(f.n + 1, vars, l1, e.rhs))
    else if IsRedex(ds, e) then
      var f := RedexCode(n, vars, l, e);
      var k := RedexReg(n, e);
      Join(f, Frag([Concatx(k, k, 0, Spurious(arity))], f.n, map[]))
    else
      var f := TreeCode(n, vars, e);
      Join(f, Frag([Concatx(n, n, 0, Spurious(arity)), Set(l.rt, l.rti, n)], f.n, map[]))
  }

  // Patterns

  /** Code for a pattern, the next free register, and the registers of its variables. */
  datatype PatFrag = PatFrag(code: seq<Instr>, n: nat, vars: Vars)

  function JoinPat(f: PatFrag, g: PatFrag): PatFrag {
    PatFrag(f.code + g.code, g.n, f.vars + g.vars)
  }

  /** Match the object in register r, or go to the label. */
  function PatternCode(n: nat, r: nat, lbl: nat, p: Pattern): PatFrag
    decreases p, 1
  {
    match p
    case PConst(a) => PatFrag([Data(n, a), Test(r, n), Fail(lbl)], n + 1, map[])
    case PVar(v) => PatFrag([], n, map[v := r])
    case PTag(q, t) =>
      var f := PatternCode(n, r, lbl, q);
      JoinPat(f, PatFrag([Data(f.n, CombAtom(t)), Tag(r, f.n), Fail(lbl)], f.n + 1, map[]))
    case PApp(ps) =>
      var x := if ps == [] then 0 else n;
      var y := if ps == [] then 0 else n + |ps| - 1;
      JoinPat(PatFrag([Split(x, y, r), Fail(lbl)], n + |ps|, map[]), PatternsCode(n + |ps|, n, lbl, ps))
  }

  /** The patterns are for registers r, r+1, .. */
  function PatternsCode(n: nat, r: nat, lbl: nat, ps: seq<Pattern>): PatFrag
    decreases ps, 0
  {
    if ps == [] then PatFrag([], n, map[])
    else
      var f := PatternCode(n, r, lbl, ps[0]);
      JoinPat(f, PatternsCode(f.n, r + 1, lbl, ps[1..]))
  }

  // Blocks and definitions

  const LINK := LinkRegs(1, 2, 3, 4)

  /** The arguments, from index five of the thunk on, and their patterns. */
  function HeadCode(n: nat, lbl: nat, ps: seq<Pattern>): PatFrag {
    var f := if ps == [] then PatFrag([], n, map[]) else PatFrag([Takex(n, n + |ps| - 1, 0, 5), Fail(lbl)], n + |ps|, map[]);
    JoinPat(f, PatternsCode(n + |ps|, n, lbl, ps))
  }

  /** One alternative; stale are the bindings that earlier ones left behind. */
  function MatchCode(ds: set<Symbol>, n: nat, lbl: nat, stale: Vars, m: Alt): seq<Instr> {
    var h := HeadCode(n, lbl, m.pats);
    var vars := stale + h.vars;
    h.code + RootCode(ds, h.n, vars, LINK, |m.pats|, m.body).code + [Return(RootReg(ds, h.n, vars, LINK, |m.pats|, m.body))]
  }

  function MatchVars(n: nat, lbl: nat, stale: Vars, m: Alt): Vars {
    stale + HeadCode(n, lbl, m.pats).vars
  }

  const PROLOGUE := [Takex(1, 5, 0, 0), Fail(0)]

  function Epilogue(n: nat): seq<Instr> {
    [Array(n, 2, 1), Concatx(n + 1, n, 0, 4), Set(1, 2, n + 1), Return(3)]
  }

  /** The alternatives, each with a label of its own at its end and with the same free registers. */
  function BlockCode(ds: set<Symbol>, lbl: nat, stale: Vars, ms: seq<Alt>): seq<seq<Instr>>
    decreases |ms|
  {
    if ms == [] then []
    else [MatchCode(ds, 6, lbl, stale, ms[0])] + BlockCode(ds, lbl + 1, MatchVars(6, lbl, stale, ms[0]), ms[1..])
  }
}
