/** The native runtime routines against the interpreter: they differ in what they check and in the flag. */
module Native {
  import opened Terms
  import opened Heaps
  import opened Syntax
  import opened Bytecode
  import opened Emit
  import opened Blocks
  import opened Codegen
  import opened LetNormal
  import opened Jumps

  function NativeConcat(h: Heap, y: Obj, z: seq<Obj>, n: nat): (Heap, Obj)
    requires y.Arr? ==> y.addr < |h|
  {
    var ys := if y.Arr? then h[y.addr] else [y];
    if |z| <= n then (h, y)
    else
      var q := ys + z[n..];
      if |q| == 1 then (h, q[0]) else (h + [q], Arr(|h|))
  }

  /** One routine; a cast of what is no array is undefined behaviour, modelled as an abort. */
  function NativeExec(i: Instr, c: Cpu): Flow {
    match i
    case Takex(x, y, z, k) =>
      if !Get(c.reg, z).Arr? then Abort else Exec(i, c)
    case Split(x, y, z) =>
      if !Get(c.reg, z).Arr? then Abort else Exec(i, c)
    case Concatx(x, y, z, n) =>
      var a := Get(c.reg, y);
      var b := Get(c.reg, z);
      if a.Null? || !b.Arr? || b.addr >= |c.heap| || (a.Arr? && a.addr >= |c.heap|) then Abort
      else
        var (h, o) := NativeConcat(c.heap, a, c.heap[b.addr], n);
        Fall(c.(reg := c.reg[x := o], heap := h))
    case Fail(l) => if c.flag then Fall(c) else Jump(l, c)
    case _ => Exec(i, c)
  }

  function NativeFrom(code: seq<Instr>, labels: Labels, pc: nat, c: Cpu): Exit
    decreases |code| - pc
  {
    if pc >= |code| then Crashed
    else
      match NativeExec(code[pc], c)
      case Fall(c1) => NativeFrom(code, labels, pc + 1, c1)
      case Jump(l, c1) => if l in labels && pc < labels[l] <= |code| then NativeFrom(code, labels, labels[l], c1) else Stray
      case Ret(o, c1) => Returned(o, c1.heap)
      case Abort => Crashed
  }

  /** The instruction splits what is no array. */
  predicate Wild(i: Instr, c: Cpu) {
    i.Split? && !Get(c.reg, i.z).Arr?
  }

  /** On the interpreter's way from pc, every operand of SPLIT is an array. */
  predicate Tame(code: seq<Instr>, labels: Labels, pc: nat, c: Cpu)
    decreases |code| - pc
  {
    pc >= |code| ||
    (!Wild(code[pc], c) &&
     match Exec(code[pc], c)
     case Fall(c1) => Tame(code, labels, pc + 1, c1)
     case Jump(l, c1) => l in labels && pc < labels[l] <= |code| ==> Tame(code, labels, labels[l], c1)
     case Ret(_, _) => true
     case Abort => true)
  }

  /** What emitted instructions look like: register 0 keeps the thunk, and no array of size one is made. */
  predicate Neat(i: Instr) {
    match i
    case Nil(x) => x > 0
    case Mov(x, _) => x > 0
    case Data(x, _) => x > 0
    case Takex(x, _, z, _) => x > 0 && z == 0
    case Split(x, _, _) => x > 0
    case Array(x, y, z) => x > 0 && y != z
    case Concatx(x, _, _, _) => x > 0
    case _ => true
  }

  predicate SetsFlag(i: Instr) {
    i.Takex? || i.Split? || i.Test? || i.Tag?
  }

  /** Every FAIL follows an instruction that sets the flag, and no jump goes to a FAIL. */
  ghost predicate Guarded(code: seq<Instr>, labels: Labels) {
    && (forall k :: 0 <= k < |code| && code[k].Fail? ==> k > 0 && SetsFlag(code[k - 1]))
    && (forall l :: l in labels && 0 <= labels[l] < |code| ==> !code[labels[l]].Fail?)
  }

  ghost predicate AllNeat(code: seq<Instr>) {
    forall k :: 0 <= k < |code| ==> Neat(code[k])
  }

  ghost predicate NoOnes(h: Heap) {
    forall a :: 0 <= a < |h| ==> |h[a]| != 1
  }

  /** The thunk is in register 0, and no array has size one. */
  ghost predicate Framed(c: Cpu) {
    Get(c.reg, 0).Arr? && Get(c.reg, 0).addr < |c.heap| && NoOnes(c.heap)
  }

  lemma FramedStep(i: Instr, c: Cpu)
    requires Framed(c) && Neat(i)
    ensures Exec(i, c).Fall? ==> Framed(Exec(i, c).c)
    ensures Exec(i, c).Jump? ==> Framed(Exec(i, c).c)
  {
    match i
    case Nil(_) =>
    case Mov(_, _) =>
    case Data(_, _) =>
    case Set(_, _, _) =>
    case Takex(x, y, z, k) => RangeFramed(i, c);
    case Split(x, y, z) => RangeFramed(i, c);
    case Array(_, _, _) =>
    case Concatx(_, _, _, _) =>
    case Test(_, _) => hide Same;
    case Tag(_, _) =>
    case Fail(_) =>
    case Return(_) =>
  }

  lemma RangeFramed(i: Instr, c: Cpu)
    requires Framed(c) && Neat(i) && (i.Takex? || i.Split?)
    ensures Exec(i, c).Fall? ==> Framed(Exec(i, c).c)
  {
    hide SetRange;
    var a := Get(c.reg, i.z);
    if Exec(i, c).Fall? && Exec(i, c).c.flag && i.x <= i.y {
      var os := if i.Takex? then c.heap[a.addr][i.i..i.i + (i.y - i.x + 1)] else c.heap[a.addr];
      SetRangeGet(c.reg, i.x, os, 0);
    } else if i.Split? && Exec(i, c).Fall? && Exec(i, c).c.flag {
      SetRangeGet(c.reg, i.x, c.heap[a.addr], 0);
    }
  }

  ghost predicate Alike(c: Cpu, c1: Cpu) {
    c1.reg == c.reg && c1.heap == c.heap
  }

  /** The same kind of end, in states that differ at most in the flag. */
  ghost predicate AlikeFlow(i: Instr, f: Flow, f1: Flow) {
    match f
    case Fall(c) => f1.Fall? && Alike(c, f1.c) && (SetsFlag(i) ==> f1.c.flag == c.flag)
    case Jump(l, c) => f1.Jump? && f1.l == l && Alike(c, f1.c)
    case Ret(o, c) => f1.Ret? && f1.o == o && Alike(c, f1.c)
    case Abort => f1.Abort?
  }

  lemma NativeStep(i: Instr, c: Cpu, c1: Cpu)
    requires Framed(c) && Neat(i) && Alike(c, c1) && (i.Fail? ==> c1.flag == c.flag)
    ensures Wild(i, c) ==> NativeExec(i, c1).Abort?
    ensures !Wild(i, c) ==> AlikeFlow(i, Exec(i, c), NativeExec(i, c1))
  {
    hide SetRange, GetRange, Same;
  }

  /** The native routines do what the interpreter does, as long as it splits arrays only; else they are undefined. */
  lemma {:induction false} NativeRun(code: seq<Instr>, labels: Labels, pc: nat, c: Cpu, c1: Cpu)
    requires AllNeat(code) && Guarded(code, labels) && Framed(c) && Alike(c, c1)
    requires pc < |code| && code[pc].Fail? ==> c1.flag == c.flag
    ensures NativeFrom(code, labels, pc, c1) == if Tame(code, labels, pc, c) then RunFrom(code, labels, pc, c) else Crashed
    decreases |code| - pc
  {
    hide Exec, NativeExec, Framed, Neat, Wild, SetsFlag;
    if pc < |code| {
      var i := code[pc];
      NativeStep(i, c, c1);
      FramedStep(i, c);
      if !Wild(i, c) {
        match Exec(i, c)
        case Fall(d) =>
          NativeRun(code, labels, pc + 1, d, NativeExec(i, c1).c);
        case Jump(l, d) =>
          if l in labels && pc < labels[l] <= |code| {
            NativeRun(code, labels, labels[l], d, NativeExec(i, c1).c);
          }
        case Ret(_, _) =>
        case Abort =>
      }
    }
  }
}
