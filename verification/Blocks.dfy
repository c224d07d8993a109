/** Whole definitions: labels, jumps between alternatives, and the case that none is taken. */
module Blocks {
  import opened Terms
  import opened Heaps
  import opened Syntax
  import opened Semantics
  import opened Bytecode
  import opened Emit
  import opened Build
  import opened Codegen
  import opened Matching

  type Labels = map<nat, nat>

  /** How running a combinator's code ends. Stray stands for a jump that is not forward in the code. */
  datatype Exit = Returned(o: Obj, h: Heap) | Crashed | Stray

  /** Run from instruction pc on; labels are positions of instructions. */
  function RunFrom(code: seq<Instr>, labels: Labels, pc: nat, c: Cpu): Exit
    decreases |code| - pc
  {
    if pc >= |code| then Crashed
    else
      match Exec(code[pc], c)
      case Fall(c1) => RunFrom(code, labels, pc + 1, c1)
      case Jump(l, c1) => if l in labels && pc < labels[l] <= |code| then RunFrom(code, labels, labels[l], c1) else Stray
      case Ret(o, c1) => Returned(o, c1.heap)
      case Abort => Crashed
  }

  /** Running the code is running its segments. */
  lemma {:induction false} SegmentRun(code: seq<Instr>, labels: Labels, pc: nat, seg: seq<Instr>, c: Cpu)
    requires pc + |seg| <= |code| && code[pc..pc + |seg|] == seg
    ensures Run(seg, c).Fall? ==> RunFrom(code, labels, pc, c) == RunFrom(code, labels, pc + |seg|, Run(seg, c).c)
    ensures Run(seg, c).Ret? ==> RunFrom(code, labels, pc, c) == Returned(Run(seg, c).o, Run(seg, c).c.heap)
    ensures Run(seg, c).Jump? && Run(seg, c).l in labels && pc + |seg| <= labels[Run(seg, c).l] <= |code| ==>
              RunFrom(code, labels, pc, c) == RunFrom(code, labels, labels[Run(seg, c).l], Run(seg, c).c)
    decreases |seg|
  {
    hide Exec;
    if seg != [] {
      assert code[pc] == seg[0];
      assert code[pc + 1..pc + |seg|] == seg[1..];
      if Exec(seg[0], c).Fall? {
        SegmentRun(code, labels, pc + 1, seg[1..], Exec(seg[0], c).c);
      }
    }
  }

  function Flat(codes: seq<seq<Instr>>): seq<Instr> {
    if codes == [] then [] else codes[0] + Flat(codes[1..])
  }

  /** The position after each alternative, from label lbl on. */
  function EndLabels(lbl: nat, at: nat, codes: seq<seq<Instr>>): Labels
    decreases |codes|
  {
    if codes == [] then map[] else EndLabels(lbl + 1, at + |codes[0]|, codes[1..])[lbl := at + |codes[0]|]
  }

  function DefCode(ds: set<Symbol>, stale: Vars, ms: seq<Alt>): seq<Instr> {
    PROLOGUE + Flat(BlockCode(ds, 1, stale, ms)) + Epilogue(6)
  }

  /** Label 0 is where no alternative is left. */
  function DefLabels(ds: set<Symbol>, stale: Vars, ms: seq<Alt>): Labels {
    EndLabels(1, |PROLOGUE|, BlockCode(ds, 1, stale, ms))[0 := |PROLOGUE| + |Flat(BlockCode(ds, 1, stale, ms))|]
  }

  lemma {:induction false} EndLabelsAt(lbl: nat, at: nat, codes: seq<seq<Instr>>, l: nat)
    ensures l in EndLabels(lbl, at, codes) <==> lbl <= l < lbl + |codes|
    decreases |codes|
  {
    if codes != [] {
      EndLabelsAt(lbl + 1, at + |codes[0]|, codes[1..], l);
    }
  }

  ghost predicate BlockFits(ds: set<Symbol>, lbl: nat, stale: Vars, ms: seq<Alt>, h: Heap, link: Link, args: seq<Obj>, ts: seq<Term>)
    decreases |ms|
  {
    ms != [] ==>
      MatchFits(ds, stale, lbl, ms[0], h, link, args, ts) && BlockFits(ds, lbl + 1, MatchVars(6, lbl, stale, ms[0]), ms[1..], h, link, args, ts)
  }

  ghost predicate Placed(code: seq<Instr>, at: nat, seg: seq<Instr>) {
    at + |seg| <= |code| && code[at..at + |seg|] == seg
  }

  ghost predicate LabelsAt(labels: Labels, part: Labels) {
    forall l :: l in part ==> l in labels && labels[l] == part[l]
  }

  lemma BlockShape(ds: set<Symbol>, code: seq<Instr>, labels: Labels, lbl: nat, stale: Vars, ms: seq<Alt>, at: nat)
    requires ms != [] && Placed(code, at, Flat(BlockCode(ds, lbl, stale, ms))) && LabelsAt(labels, EndLabels(lbl, at, BlockCode(ds, lbl, stale, ms)))
    ensures var mc := MatchCode(ds, 6, lbl, stale, ms[0]);
            var codes := BlockCode(ds, lbl + 1, MatchVars(6, lbl, stale, ms[0]), ms[1..]);
            && Placed(code, at, mc) && Placed(code, at + |mc|, Flat(codes))
            && lbl in labels && labels[lbl] == at + |mc| && LabelsAt(labels, EndLabels(lbl + 1, at + |mc|, codes))
            && |Flat(BlockCode(ds, lbl, stale, ms))| == |mc| + |Flat(codes)|
  {
    hide MatchCode, MatchVars;
    var mc := MatchCode(ds, 6, lbl, stale, ms[0]);
    var codes := BlockCode(ds, lbl + 1, MatchVars(6, lbl, stale, ms[0]), ms[1..]);
    assert BlockCode(ds, lbl, stale, ms) == [mc] + codes && ([mc] + codes)[1..] == codes;
    hide BlockCode;
    var seg := Flat([mc] + codes);
    assert seg == mc + Flat(codes);
    assert EndLabels(lbl, at, [mc] + codes) == EndLabels(lbl + 1, at + |mc|, codes)[lbl := at + |mc|];
    hide Flat;
    assert code[at..at + |mc|] == seg[..|mc|] == mc;
    assert code[at + |mc|..at + |seg|] == seg[|mc|..] == Flat(codes);
    var part := EndLabels(lbl + 1, at + |mc|, codes);
    forall l | l in part ensures l in labels && labels[l] == part[l] {
      EndLabelsAt(lbl + 1, at + |mc|, codes, l);
      assert l in EndLabels(lbl, at, [mc] + codes);
    }
  }

  ghost predicate NoneTaken(code: seq<Instr>, labels: Labels, at: nat, end: nat, c: Cpu, c1: Cpu, link: Link, f: Obj, args: seq<Obj>) {
    Entered(c1, link, f, args) && c1.heap == c.heap && RunFrom(code, labels, at, c) == RunFrom(code, labels, end, c1)
  }

  ghost predicate OneTaken(ds: set<Symbol>, code: seq<Instr>, labels: Labels, at: nat, c: Cpu, ms: seq<Alt>, m: Alt, link: Link, args: seq<Obj>, ts: seq<Term>)
    requires TargetOk(c.heap, link)
  {
    && m in ms && Taken(m.pats, ts) && |ts| == |args|
    && Select(ms, ts) == Chosen(Matches(m.pats, ts[..|m.pats|], map[]).1, m.body, |m.pats|)
    && var b := MatchBody(ds, m, c.heap, link, args);
       RunFrom(code, labels, at, c) == Returned(b.k, Wrote(c.heap, link, b.write) + b.cells)
  }

  /** The code of the alternatives does what Select says. */
  lemma {:induction false} BlockRun(ds: set<Symbol>, code: seq<Instr>, labels: Labels, lbl: nat, stale: Vars, ms: seq<Alt>, at: nat, c: Cpu, link: Link, f: Obj, args: seq<Obj>, ts: seq<Term>)
    returns (m: Alt, c1: Cpu)
    requires Entered(c, link, f, args) && Reps(c.heap, args, ts) && TargetOk(c.heap, link)
    requires BlockFits(ds, lbl, stale, ms, c.heap, link, args, ts)
    requires Placed(code, at, Flat(BlockCode(ds, lbl, stale, ms))) && LabelsAt(labels, EndLabels(lbl, at, BlockCode(ds, lbl, stale, ms)))
    ensures Select(ms, ts).NoAlt? ==> NoneTaken(code, labels, at, at + |Flat(BlockCode(ds, lbl, stale, ms))|, c, c1, link, f, args)
    ensures Select(ms, ts).Chosen? ==> OneTaken(ds, code, labels, at, c, ms, m, link, args, ts)
    decreases |ms|
  {
    hide MatchCode, Run, RunFrom, Reps, MatchBody, Wrote, Entered, MatchVars, Placed, LabelsAt, Matches, Fits, PatternsOk;
    if ms == [] {
      c1 := c;
      m := Alt([], Const(IntAtom(0)));
    } else {
      BlockShape(ds, code, labels, lbl, stale, ms, at);
      var mc := MatchCode(ds, 6, lbl, stale, ms[0]);
      var stale1 := MatchVars(6, lbl, stale, ms[0]);
      var codes := BlockCode(ds, lbl + 1, stale1, ms[1..]);
      hide BlockCode, Flat, EndLabels;
      RepsLength(c.heap, args, ts);
      if Taken(ms[0].pats, ts) {
        m := ms[0];
        c1 := MatchTaken(ds, lbl, stale, ms[0], c, link, f, args, ts);
        SegmentReturns(code, labels, at, mc, c);
      } else {
        var c2 := AltFails(ds, code, labels, lbl, stale, ms[0], at, c, link, f, args, ts);
        m, c1 := BlockRun(ds, code, labels, lbl + 1, stale1, ms[1..], at + |mc|, c2, link, f, args, ts);
      }
    }
  }

  lemma SegmentReturns(code: seq<Instr>, labels: Labels, at: nat, seg: seq<Instr>, c: Cpu)
    requires Placed(code, at, seg) && Run(seg, c).Ret?
    ensures RunFrom(code, labels, at, c) == Returned(Run(seg, c).o, Run(seg, c).c.heap)
  {
    SegmentRun(code, labels, at, seg, c);
  }

  lemma AltFails(ds: set<Symbol>, code: seq<Instr>, labels: Labels, lbl: nat, stale: Vars, m: Alt, at: nat, c: Cpu, link: Link, f: Obj, args: seq<Obj>, ts: seq<Term>)
    returns (c1: Cpu)
    requires Entered(c, link, f, args) && Reps(c.heap, args, ts) && !Taken(m.pats, ts) && PatternsOk(m.pats)
    requires Placed(code, at, MatchCode(ds, 6, lbl, stale, m)) && lbl in labels && labels[lbl] == at + |MatchCode(ds, 6, lbl, stale, m)|
    ensures NoneTaken(code, labels, at, labels[lbl], c, c1, link, f, args)
  {
    c1 := MatchNotTaken(ds, lbl, stale, m, c, link, f, args, ts);
    SegmentRun(code, labels, at, MatchCode(ds, 6, lbl, stale, m), c);
  }

  /** The state in which a combinator's code starts: its thunk is in register 0. */
  function Start(h: Heap, t: nat): Cpu {
    Cpu(map[0 := Arr(t)], false, h)
  }

  lemma PrologueRun(h: Heap, t: nat, link: Link, f: Obj, args: seq<Obj>) returns (c1: Cpu)
    requires t < |h| && h[t] == LinkObjs(link) + [f] + args
    ensures Run(PROLOGUE, Start(h, t)) == Fall(c1) && c1.heap == h && Entered(c1, link, f, args)
  {
    var c := Start(h, t);
    var d := c.(reg := SetRange(c.reg, 1, h[t][0..5]), flag := true);
    c1 := TestRun(Takex(1, 5, 0, 0), 0, c, d);
    hide Run, SetRange;
    SetRangeGet(c.reg, 1, h[t][0..5], 0);
    SetRangeGet(c.reg, 1, h[t][0..5], 1);
    SetRangeGet(c.reg, 1, h[t][0..5], 2);
    SetRangeGet(c.reg, 1, h[t][0..5], 3);
    SetRangeGet(c.reg, 1, h[t][0..5], 4);
  }

  /** The combinator applied to its arguments, as a finished term in the store. */
  function NormalObj(h: Heap, f: Obj, args: seq<Obj>): (Heap, Obj) {
    if args == [] then (h, f) else (h + [[f] + args], Arr(|h|))
  }

  /** When no alternative is taken: the normal form goes to the target, and k is next. */
  lemma EpilogueRun(c: Cpu, link: Link, f: Obj, args: seq<Obj>) returns (c1: Cpu)
    requires Entered(c, link, f, args) && TargetOk(c.heap, link)
    ensures Run(Epilogue(6), c) == Ret(link.k, c1)
    ensures var (h, o) := NormalObj(c.heap + [[]], f, args); TargetOk(h, link) && c1.heap == SetCell(h, link.rt.addr, link.rti.atom.i, o)
  {
    var c2 := c.(reg := c.reg[6 := Arr(|c.heap|)], heap := c.heap + [[]]);
    assert GetRange(c.reg, 2, 0) == [];
    var (h, o) := NormalObj(c2.heap, f, args);
    var c3 := c2.(reg := c2.reg[7 := o], heap := h);
    var frame := c.heap[Get(c.reg, 0).addr];
    assert frame[4..] == [f] + args;
    assert [] + frame[4..] == frame[4..];
    c1 := c3.(heap := SetCell(h, link.rt.addr, link.rti.atom.i, o));
    assert h[link.rt.addr] == c.heap[link.rt.addr];
    EpilogueSteps(c, c2, c3, c1, link.k);
  }

  lemma EpilogueSteps(c: Cpu, c2: Cpu, c3: Cpu, c1: Cpu, k: Obj)
    requires Exec(Array(6, 2, 1), c) == Fall(c2) && Exec(Concatx(7, 6, 0, 4), c2) == Fall(c3)
    requires Exec(Set(1, 2, 7), c3) == Fall(c1) && Get(c1.reg, 3) == k
    ensures Run(Epilogue(6), c) == Ret(k, c1)
  {
    hide Run;
    TwoRun(Array(6, 2, 1), Concatx(7, 6, 0, 4), c, c2, c3);
    OneRun(Set(1, 2, 7), c3, c1);
    RunAppend([Array(6, 2, 1), Concatx(7, 6, 0, 4)], [Set(1, 2, 7)], c);
    ReturnRun([Array(6, 2, 1), Concatx(7, 6, 0, 4)], [Set(1, 2, 7)], 3, c, c3, c1);
    assert [Array(6, 2, 1), Concatx(7, 6, 0, 4)] + [Set(1, 2, 7)] + [Return(3)] == Epilogue(6);
  }

  /** One reduction of a compiled combinator: the body of the selected alternative is set up,
      or else the application itself is the result. */
  lemma DefRun(ds: set<Symbol>, stale: Vars, ms: seq<Alt>, h: Heap, t: nat, link: Link, f: Obj, args: seq<Obj>, ts: seq<Term>)
    returns (m: Alt)
    requires t < |h| && h[t] == LinkObjs(link) + [f] + args && Reps(h, args, ts) && TargetOk(h, link)
    requires BlockFits(ds, 1, stale, ms, h, link, args, ts)
    ensures Select(ms, ts).NoAlt? ==>
      var (h1, o) := NormalObj(h + [[]], f, args);
      TargetOk(h1, link) && RunFrom(DefCode(ds, stale, ms), DefLabels(ds, stale, ms), 0, Start(h, t)) == Returned(link.k, SetCell(h1, link.rt.addr, link.rti.atom.i, o))
    ensures Select(ms, ts).Chosen? ==>
      m in ms && Taken(m.pats, ts) && |ts| == |args|
      && Select(ms, ts) == Chosen(Matches(m.pats, ts[..|m.pats|], map[]).1, m.body, |m.pats|)
      && var b := MatchBody(ds, m, h, link, args);
         RunFrom(DefCode(ds, stale, ms), DefLabels(ds, stale, ms), 0, Start(h, t)) == Returned(b.k, Wrote(h, link, b.write) + b.cells)
  {
    hide BlockCode, Flat, EndLabels, Run, RunFrom, Reps, MatchBody, Wrote, Entered, Fits, Matches, BlockFits, Epilogue, Select;
    var codes := BlockCode(ds, 1, stale, ms);
    var labels := DefLabels(ds, stale, ms);
    var code := DefCode(ds, stale, ms);
    DefPlaced(ds, stale, ms);
    var c1 := PrologueRun(h, t, link, f, args);
    SegmentRun(code, labels, 0, PROLOGUE, Start(h, t));
    var c2;
    m, c2 := BlockRun(ds, code, labels, 1, stale, ms, 2, c1, link, f, args, ts);
    if Select(ms, ts).NoAlt? {
      var c3 := EpilogueRun(c2, link, f, args);
      SegmentRun(code, labels, 2 + |Flat(codes)|, Epilogue(6), c2);
    }
  }

  lemma DefPlaced(ds: set<Symbol>, stale: Vars, ms: seq<Alt>)
    ensures Placed(DefCode(ds, stale, ms), 0, PROLOGUE)
    ensures Placed(DefCode(ds, stale, ms), 2, Flat(BlockCode(ds, 1, stale, ms)))
    ensures Placed(DefCode(ds, stale, ms), 2 + |Flat(BlockCode(ds, 1, stale, ms))|, Epilogue(6))
    ensures LabelsAt(DefLabels(ds, stale, ms), EndLabels(1, 2, BlockCode(ds, 1, stale, ms)))
  {
    hide BlockCode, Flat, EndLabels, Epilogue;
    var codes := BlockCode(ds, 1, stale, ms);
    forall l | l in EndLabels(1, 2, codes) ensures l in DefLabels(ds, stale, ms) && DefLabels(ds, stale, ms)[l] == EndLabels(1, 2, codes)[l] {
      EndLabelsAt(1, 2, codes, l);
    }
  }
}
