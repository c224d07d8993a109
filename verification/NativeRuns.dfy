/** Whole runs with native code: they are the runs of the interpreter, for as long as SPLIT meets arrays only. */
module NativeRuns {
  import opened Common
  import opened Terms
  import opened Heaps
  import opened Syntax
  import opened Semantics
  import opened Bytecode
  import opened Emit
  import opened Build
  import opened Codegen
  import opened Blocks
  import opened Encoding
  import opened Machine
  import opened Compile
  import opened Chain
  import opened Toplevel
  import opened Reredex
  import opened Backend
  import opened Native
  import opened NativeCode
  import opened Tameness
  import opened NativePatterns

  /** The routines called for the bytes of a combinator; jumps go to the code of the instruction at an offset. */
  function NativeBytes(b: seq<Byte>, data: seq<Atom>, pc: nat, c: Cpu): Exit
    decreases |b| - pc
  {
    if pc >= |b| then Crashed
    else if b[pc] > 11 then NativeBytes(b, data, pc + 1, c)
    else
      match Decode(b, data, pc)
      case None => Crashed
      case Some(i) =>
        match NativeExec(i, c)
        case Fall(c1) => NativeBytes(b, data, pc + Size(b[pc]), c1)
        case Jump(l, c1) => if pc < l <= |b| then NativeBytes(b, data, l, c1) else Stray
        case Ret(o, c1) => Returned(o, c1.heap)
        case Abort => Crashed
  }

  /** On the interpreter's way through the bytes, every operand of SPLIT is an array. */
  predicate TameBytes(b: seq<Byte>, data: seq<Atom>, pc: nat, c: Cpu)
    decreases |b| - pc
  {
    if pc >= |b| then true
    else if b[pc] > 11 then TameBytes(b, data, pc + 1, c)
    else
      match Decode(b, data, pc)
      case None => true
      case Some(i) =>
        !Wild(i, c) &&
        match Exec(i, c)
        case Fall(c1) => TameBytes(b, data, pc + Size(b[pc]), c1)
        case Jump(l, c1) => pc < l <= |b| ==> TameBytes(b, data, l, c1)
        case Ret(_, _) => true
        case Abort => true
  }

  // At the bytes of a definition

  lemma NativeAt(code: seq<Instr>, labels: Labels, k: nat, c: Cpu)
    requires Encodable(code, labels) && k < |code|
    ensures var bl := ByteLabels(code, labels);
            var b := EncodeAll(Resolve(code, bl), 0);
            NativeBytes(b, Consts(code), Offset(code, k), c) ==
              match NativeExec(ResolveOne(code[k], bl), c)
              case Fall(c1) => NativeBytes(b, Consts(code), Offset(code, k + 1), c1)
              case Jump(l, c1) => if Offset(code, k) < l <= |b| then NativeBytes(b, Consts(code), l, c1) else Stray
              case Ret(o, c1) => Returned(o, c1.heap)
              case Abort => Crashed
  {
    hide Resolve, EncodeAll, Offset, Consts, Decode, NativeExec, Narrow, Size, Opcode, NativeBytes, ByteLabels, ResolveOne;
    var bl := ByteLabels(code, labels);
    var rc := Resolve(code, bl);
    ResolveAt(code, bl);
    ResolveOffset(code, bl, k);
    ResolveOffset(code, bl, k + 1);
    OffsetNext(rc, k);
    DecodeAt(rc, k);
    NativeOne(EncodeAll(rc, 0), Consts(code), Offset(rc, k), rc[k], c);
  }

  lemma NativeOne(b: seq<Byte>, data: seq<Atom>, pc: nat, i: Instr, c: Cpu)
    requires pc < |b| && b[pc] == Opcode(i) && Decode(b, data, pc) == Some(i)
    ensures NativeBytes(b, data, pc, c) ==
      match NativeExec(i, c)
      case Fall(c1) => NativeBytes(b, data, pc + Size(Opcode(i)), c1)
      case Jump(l, c1) => if pc < l <= |b| then NativeBytes(b, data, l, c1) else Stray
      case Ret(o, c1) => Returned(o, c1.heap)
      case Abort => Crashed
  {
    hide NativeExec;
  }

  lemma NativeNext(code: seq<Instr>, labels: Labels, k: nat, c: Cpu)
    requires k < |code|
    ensures NativeFrom(code, labels, k, c) ==
      match NativeExec(code[k], c)
      case Fall(c1) => NativeFrom(code, labels, k + 1, c1)
      case Jump(l, c1) => if l in labels && k < labels[l] <= |code| then NativeFrom(code, labels, labels[l], c1) else Stray
      case Ret(o, c1) => Returned(o, c1.heap)
      case Abort => Crashed
  {
    hide NativeExec;
  }

  lemma NativeResolved(i: Instr, bl: map<nat, nat>, c: Cpu)
    ensures !NativeExec(i, c).Jump? ==> NativeExec(ResolveOne(i, bl), c) == NativeExec(i, c)
    ensures NativeExec(i, c).Jump? ==>
      i.Fail? && NativeExec(i, c).l == i.l && NativeExec(ResolveOne(i, bl), c) == Jump(if i.l in bl then bl[i.l] else 0, NativeExec(i, c).c)
  {
    hide Exec;
    if !i.Fail? {
      PlainJump(i, c);
    }
  }

  lemma PlainJump(i: Instr, c: Cpu)
    requires !i.Fail?
    ensures !Exec(i, c).Jump?
  {
    hide Same, SetRange, GetRange;
  }

  lemma NativeEnd(code: seq<Instr>, labels: Labels, c: Cpu)
    requires Encodable(code, labels)
    ensures var b := EncodeAll(Resolve(code, ByteLabels(code, labels)), 0);
            && NativeBytes(b, Consts(code), Offset(code, |code|), c) == NativeFrom(code, labels, |code|, c)
            && TameBytes(b, Consts(code), Offset(code, |code|), c) && Tame(code, labels, |code|, c)
  {
    hide Resolve, EncodeAll, Offset, Consts, ByteLabels;
    var bl := ByteLabels(code, labels);
    ResolveAt(code, bl);
    ResolveOffset(code, bl, |code|);
    OffsetEnd(Resolve(code, bl), 0);
  }

  /** The native code of the bytes is that of the instructions. */
  lemma {:induction false} NativeBytesRun(code: seq<Instr>, labels: Labels, k: nat, c: Cpu)
    requires Encodable(code, labels) && k <= |code|
    ensures var b := EncodeAll(Resolve(code, ByteLabels(code, labels)), 0);
            NativeBytes(b, Consts(code), Offset(code, k), c) == NativeFrom(code, labels, k, c)
    decreases |code| - k
  {
    hide Encodable, Resolve, EncodeAll, Offset, Consts, NativeExec, NativeBytes, NativeFrom, ByteLabels, ResolveOne, Tame, TameBytes;
    if k == |code| {
      NativeEnd(code, labels, c);
    } else {
      var bl := LabelsOf(code, labels);
      NativeAt(code, labels, k, c);
      NativeNext(code, labels, k, c);
      NativeResolved(code[k], bl, c);
      match NativeExec(code[k], c)
      case Fall(c1) => NativeBytesRun(code, labels, k + 1, c1);
      case Jump(l, c1) =>
        LabelAt(code, labels, k, l);
        if l in labels && k < labels[l] {
          NativeBytesRun(code, labels, labels[l], c1);
        }
      case Ret(_, _) =>
      case Abort =>
    }
  }

  lemma LabelsOf(code: seq<Instr>, labels: Labels) returns (bl: map<nat, nat>)
    requires Encodable(code, labels)
    ensures (forall l :: l in labels ==> labels[l] <= |code|) && bl == ByteLabels(code, labels)
  {
    hide Offset, Narrow, ResolveOne;
    bl := ByteLabels(code, labels);
  }

  /** Where a jump in the bytes goes. */
  lemma LabelAt(code: seq<Instr>, labels: Labels, k: nat, l: nat)
    requires Encodable(code, labels) && k < |code| && (forall l :: l in labels ==> labels[l] <= |code|)
    ensures var bl := ByteLabels(code, labels);
            var to := if l in bl then bl[l] else 0;
            && (l in labels && k < labels[l] ==> Offset(code, k) < to <= |EncodeAll(Resolve(code, bl), 0)| && to == Offset(code, labels[l]))
            && (!(l in labels && k < labels[l]) ==> to <= Offset(code, k))
  {
    hide Encodable, Resolve, EncodeAll, Offset;
    if l in labels {
      JumpTarget(code, labels, k, l);
    } else {
      LabelKeys(code, labels, l);
    }
  }

  lemma TameAt(code: seq<Instr>, labels: Labels, k: nat, c: Cpu)
    requires Encodable(code, labels) && k < |code|
    ensures var bl := ByteLabels(code, labels);
            var b := EncodeAll(Resolve(code, bl), 0);
            TameBytes(b, Consts(code), Offset(code, k), c) ==
              (!Wild(ResolveOne(code[k], bl), c) &&
               match Exec(ResolveOne(code[k], bl), c)
               case Fall(c1) => TameBytes(b, Consts(code), Offset(code, k + 1), c1)
               case Jump(l, c1) => Offset(code, k) < l <= |b| ==> TameBytes(b, Consts(code), l, c1)
               case Ret(_, _) => true
               case Abort => true)
  {
    hide Resolve, EncodeAll, Offset, Consts, Decode, Exec, Narrow, Size, Opcode, TameBytes, ByteLabels, ResolveOne, Wild;
    var bl := ByteLabels(code, labels);
    var rc := Resolve(code, bl);
    ResolveAt(code, bl);
    ResolveOffset(code, bl, k);
    ResolveOffset(code, bl, k + 1);
    OffsetNext(rc, k);
    DecodeAt(rc, k);
    TameOne(EncodeAll(rc, 0), Consts(code), Offset(rc, k), rc[k], c);
  }

  lemma TameOne(b: seq<Byte>, data: seq<Atom>, pc: nat, i: Instr, c: Cpu)
    requires pc < |b| && b[pc] == Opcode(i) && Decode(b, data, pc) == Some(i)
    ensures TameBytes(b, data, pc, c) ==
      (!Wild(i, c) &&
       match Exec(i, c)
       case Fall(c1) => TameBytes(b, data, pc + Size(Opcode(i)), c1)
       case Jump(l, c1) => pc < l <= |b| ==> TameBytes(b, data, l, c1)
       case Ret(_, _) => true
       case Abort => true)
  {
    hide Exec, Wild;
  }

  lemma TameNext(code: seq<Instr>, labels: Labels, k: nat, c: Cpu)
    requires k < |code|
    ensures Tame(code, labels, k, c) ==
      (!Wild(code[k], c) &&
       match Exec(code[k], c)
       case Fall(c1) => Tame(code, labels, k + 1, c1)
       case Jump(l, c1) => l in labels && k < labels[l] <= |code| ==> Tame(code, labels, labels[l], c1)
       case Ret(_, _) => true
       case Abort => true)
  {
    hide Exec, Wild;
  }

  lemma WildResolved(i: Instr, bl: map<nat, nat>, c: Cpu)
    ensures Wild(ResolveOne(i, bl), c) == Wild(i, c)
  {
  }

  /** So is the condition. */
  lemma {:induction false} TameBytesRun(code: seq<Instr>, labels: Labels, k: nat, c: Cpu)
    requires Encodable(code, labels) && k <= |code|
    ensures var b := EncodeAll(Resolve(code, ByteLabels(code, labels)), 0);
            TameBytes(b, Consts(code), Offset(code, k), c) == Tame(code, labels, k, c)
    decreases |code| - k
  {
    hide Encodable, Resolve, EncodeAll, Offset, Consts, Exec, NativeBytes, NativeFrom, ByteLabels, ResolveOne, Tame, TameBytes, Wild;
    if k == |code| {
      NativeEnd(code, labels, c);
    } else {
      var bl := LabelsOf(code, labels);
      TameAt(code, labels, k, c);
      TameNext(code, labels, k, c);
      WildResolved(code[k], bl, c);
      if Exec(code[k], c).Jump? {
        JumpResolved(code[k], bl, c);
        var l := code[k].l;
        LabelAt(code, labels, k, l);
        if l in labels && k < labels[l] {
          TameBytesRun(code, labels, labels[l], Exec(code[k], c).c);
        }
      } else {
        FallResolved(code[k], bl, c);
        if Exec(code[k], c).Fall? {
          TameBytesRun(code, labels, k + 1, Exec(code[k], c).c);
        }
      }
    }
  }

  // The trampoline

  /** The thunk is one of compiled code. */
  predicate OfCode(T: Table, h: Heap, t: Obj) {
    && t.Arr? && t.addr < |h| && |h[t.addr]| >= 5
    && var c := h[t.addr][4]; c.At? && c.atom.CombAtom? && c.atom.sym in T && T[c.atom.sym].CodeComb?
  }

  function CodeOf(T: Table, h: Heap, t: Obj): Combinator
    requires OfCode(T, h, t)
  {
    T[h[t.addr][4].atom.sym]
  }

  /** One round, with native code for compiled combinators. */
  function NativeStep(T: Table, h: Heap, t: Obj): Next {
    if OfCode(T, h, t) then
      match NativeBytes(CodeOf(T, h, t).code, CodeOf(T, h, t).data, 0, Start(h, t.addr))
      case Returned(o, h1) => Go(h1, o)
      case _ => Panic
    else Step(T, h, t)
  }

  function NativeSteps(T: Table, n: nat, h: Heap, t: Obj): Next {
    if n == 0 || t.Null? then Go(h, t)
    else
      match NativeStep(T, h, t)
      case Go(h1, t1) => NativeSteps(T, n - 1, h1, t1)
      case Finish(h1, o, x) => Finish(h1, o, x)
      case Panic => Panic
  }

  predicate TameStep(T: Table, h: Heap, t: Obj) {
    OfCode(T, h, t) ==> TameBytes(CodeOf(T, h, t).code, CodeOf(T, h, t).data, 0, Start(h, t.addr))
  }

  /** In the first n rounds of the interpreter, every operand of SPLIT is an array. */
  predicate TameSteps(T: Table, n: nat, h: Heap, t: Obj) {
    n == 0 || t.Null? ||
    (TameStep(T, h, t) && (Step(T, h, t).Go? ==> TameSteps(T, n - 1, Step(T, h, t).h, Step(T, h, t).o)))
  }

  lemma AssembledNative(ds: set<Symbol>, pv: set<Name>, stale: Vars, ms: seq<Alt>, c: Combinator, h: Heap, t: nat)
    requires Assembled(ds, pv, stale, ms, c) && NoOnes(h) && t < |h|
    ensures c.CodeComb?
    ensures NativeBytes(c.code, c.data, 0, Start(h, t)) ==
      if TameBytes(c.code, c.data, 0, Start(h, t)) then RunBytes(c.code, c.data, 0, Start(h, t)) else Crashed
  {
    hide NativeBytes, TameBytes, RunBytes, RunFrom, NativeFrom, Tame, AltsOk, DefCode, DefLabels, Encodable, Resolve, ByteLabels, EncodeAll, Consts, NoOnes;
    var code, labels := DefCode(ds, stale, ms), DefLabels(ds, stale, ms);
    NativeBytesRun(code, labels, 0, Start(h, t));
    TameBytesRun(code, labels, 0, Start(h, t));
    BytesRun(code, labels, 0, Start(h, t));
    NativeDefinition(ds, pv, stale, ms, h, t);
  }

  lemma CodeNative(ds: set<Symbol>, P: Program, T: Table, h: Heap, t: Obj)
    requires Compiled(ds, P, T) && NoOnes(h) && OfCode(T, h, t)
    ensures var c := CodeOf(T, h, t);
            NativeBytes(c.code, c.data, 0, Start(h, t.addr)) ==
              if TameBytes(c.code, c.data, 0, Start(h, t.addr)) then RunBytes(c.code, c.data, 0, Start(h, t.addr)) else Crashed
  {
    hide NativeBytes, TameBytes, RunBytes, Assembled, NoOnes;
    var s := h[t.addr][4].atom.sym;
    assert s in P && CompiledAs(ds, P[s], T[s]);
    var ms := P[s].alts;
    var pv, stale :| Assembled(ds, pv, stale, ms, T[s]);
    AssembledNative(ds, pv, stale, ms, T[s], h, t.addr);
  }

  lemma StepNative(ds: set<Symbol>, P: Program, T: Table, h: Heap, t: Obj)
    requires Compiled(ds, P, T) && NoOnes(h)
    ensures NativeStep(T, h, t) == if TameStep(T, h, t) then Step(T, h, t) else Panic
  {
    hide NativeBytes, TameBytes, RunBytes, Compiled, NoOnes, ReduceArray, ReduceNormal, ReduceThrow, ReduceHandle;
    if OfCode(T, h, t) {
      CodeNative(ds, P, T, h, t);
    }
  }

  /** A run with native code is the run of the interpreter if every SPLIT meets an array, and is undefined if one does not. */
  lemma {:induction false} StepsNative(ds: set<Symbol>, P: Program, T: Table, n: nat, h: Heap, t: Obj)
    requires Compiled(ds, P, T) && NoOnes(h)
    ensures NativeSteps(T, n, h, t) == if TameSteps(T, n, h, t) then Steps(T, n, h, t) else Panic
    decreases n
  {
    hide Compiled, Step, NativeStep, TameStep, NoOnes;
    if n > 0 && !t.Null? {
      StepNative(ds, P, T, h, t);
      if TameStep(T, h, t) && Step(T, h, t).Go? {
        StepSizes(ds, P, T, h, t);
        StepsNative(ds, P, T, n - 1, Step(T, h, t).h, Step(T, h, t).o);
      }
    }
  }

  /** In the terms of the program: the condition on a thunk is that no array pattern is tried on what is no array. */
  lemma TameThunk(ds: set<Symbol>, pv: set<Name>, stale: Vars, ms: seq<Alt>, T: Table, h: Heap, t: nat, link: Link, f: Obj, args: seq<Obj>, ts: seq<Term>)
    requires t < |h| && h[t] == LinkObjs(link) + [f] + args && Reps(h, args, ts) && TargetOk(h, link)
    requires OfCode(T, h, Arr(t)) && Assembled(ds, pv, stale, ms, CodeOf(T, h, Arr(t)))
    ensures TameStep(T, h, Arr(t)) <==> SplitsAlts(ms, ts)
  {
    hide TameBytes, Tame, AltsOk, DefCode, DefLabels, Encodable, Resolve, ByteLabels, EncodeAll, Consts, SplitsAlts, Reps, TargetOk;
    TameBytesRun(DefCode(ds, stale, ms), DefLabels(ds, stale, ms), 0, Start(h, t));
    DefinitionTame(ds, pv, stale, ms, h, t, link, f, args, ts);
  }

  lemma BootSizes(h: Heap, f: Obj, ret: Symbol, exc: Symbol)
    requires NoOnes(h)
    ensures NoOnes(Boot(h, f, ret, exc))
  {
  }

  /** If the machine ends with native code, the result is that of evaluation. */
  lemma NativeSound(m: nat, P: Program, ds: set<Symbol>, T: Table, h: Heap, f: Obj, ft: Term, ret: Symbol, exc: Symbol)
    requires Emitted(ds, P, T) && SourceProgram(P) && Stops(P, T, ret, exc) && Rep(h, f, ft) && NoOnes(h)
    ensures var x := NativeSteps(T, m, Boot(h, f, ret, exc), Arr(|h| + 2));
            x.Finish? ==> !Apply(m, P, ft, []).Out? && Agrees(x, Apply(m, P, ft, []))
  {
    hide Emitted, SourceProgram, Steps, NativeSteps, TameSteps, NoOnes, Boot, Stops, Rep, Agrees, Apply, Compiled;
    EmittedCompiled(ds, P, T);
    BootSizes(h, f, ret, exc);
    StepsNative(ds, RedexedProgram(ds, P), T, m, Boot(h, f, ret, exc), Arr(|h| + 2));
    MachineSound(m, P, ds, T, h, f, ft, ret, exc);
  }
}
