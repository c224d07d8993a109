/** The native runtime routines as they run: on an array of registers, sized by a pass over the bytecode. */
module NativeOps {
  import opened Terms
  import opened Heaps
  import opened Bytecode
  import opened Encoding
  import opened Native

  /** The array holds the registers it has room for. */
  ghost predicate Holds(a: seq<Obj>, r: Regs) {
    forall n: nat :: n < |a| ==> a[n] == Get(r, n)
  }

  lemma HoldsSet(a: seq<Obj>, r: Regs, x: nat, o: Obj)
    requires Holds(a, r) && x < |a|
    ensures Holds(a[x := o], r[x := o])
  {
  }

  lemma HoldsRange(a: seq<Obj>, r: Regs, x: nat, os: seq<Obj>, b: seq<Obj>)
    requires Holds(a, r) && x + |os| <= |a| && |b| == |a|
    requires forall n :: 0 <= n < |a| ==> b[n] == if x <= n < x + |os| then os[n - x] else a[n]
    ensures Holds(b, SetRange(r, x, os))
  {
    hide SetRange;
    forall n: nat | n < |b| ensures b[n] == Get(SetRange(r, x, os), n) {
      SetRangeGet(r, x, os, n);
    }
  }

  /** Registers x, x+1, .. receive os. */
  method Store(a: array<Obj>, x: nat, os: seq<Obj>)
    requires x + |os| <= a.Length
    modifies a
    ensures forall n :: 0 <= n < a.Length ==> a[n] == if x <= n < x + |os| then os[n - x] else old(a[n])
  {
    for j := 0 to |os|
      invariant forall n :: 0 <= n < a.Length ==> a[n] == if x <= n < x + j then os[n - x] else old(a[n])
    {
      a[x + j] := os[j];
    }
  }

  method OpTakex(h: Heap, a: array<Obj>, x: nat, y: nat, z: nat, i: nat, ghost c: Cpu) returns (flag: bool)
    requires c.heap == h && Holds(a[..], c.reg) && x <= y < a.Length && z < a.Length
    requires NativeExec(Takex(x, y, z, i), c).Fall?
    modifies a
    ensures var c1 := NativeExec(Takex(x, y, z, i), c).c; Holds(a[..], c1.reg) && flag == c1.flag && c1.heap == h
  {
    hide SetRange;
    var n := y - x + 1;
    var a0 := h[a[z].addr];
    if |a0| < i + n {
      flag := false;
    } else {
      flag := true;
      ghost var was := a[..];
      Store(a, x, a0[i..i + n]);
      HoldsRange(was, c.reg, x, a0[i..i + n], a[..]);
    }
  }

  method OpSplit(h: Heap, a: array<Obj>, x: nat, y: nat, z: nat, ghost c: Cpu) returns (flag: bool)
    requires c.heap == h && Holds(a[..], c.reg) && x <= y < a.Length && z < a.Length
    requires NativeExec(Split(x, y, z), c).Fall?
    modifies a
    ensures var c1 := NativeExec(Split(x, y, z), c).c; Holds(a[..], c1.reg) && flag == c1.flag && c1.heap == h
  {
    hide SetRange;
    var n := y - x + 1;
    var a0 := h[a[z].addr];
    if |a0| != n {
      flag := false;
    } else {
      flag := true;
      ghost var was := a[..];
      Store(a, x, a0);
      HoldsRange(was, c.reg, x, a0, a[..]);
    }
  }

  method OpArray(h: Heap, a: array<Obj>, x: nat, y: nat, z: nat, ghost c: Cpu) returns (h1: Heap)
    requires c.heap == h && Holds(a[..], c.reg) && x < a.Length && z < a.Length && y <= z + 1
    modifies a
    ensures var f := NativeExec(Bytecode.Array(x, y, z), c); f.Fall? && Holds(a[..], f.c.reg) && h1 == f.c.heap
  {
    hide GetRange;
    var n := z + 1 - y;
    var a1: seq<Obj> := [];
    for i := 0 to n
      invariant |a1| == i && forall j :: 0 <= j < i ==> a1[j] == Get(c.reg, y + j)
    {
      a1 := a1 + [a[y + i]];
    }
    assert a1 == GetRange(c.reg, y, n);
    h1 := h + [a1];
    HoldsSet(a[..], c.reg, x, Arr(|h|));
    a[x] := Arr(|h|);
  }

  /** An array that gets one element only is not returned, its element is. */
  method OpConcatx(h: Heap, a: array<Obj>, x: nat, y: nat, z: nat, n: nat, ghost c: Cpu) returns (h1: Heap)
    requires c.heap == h && Holds(a[..], c.reg) && x < a.Length && y < a.Length && z < a.Length
    requires NativeExec(Concatx(x, y, z, n), c).Fall?
    modifies a
    ensures var c1 := NativeExec(Concatx(x, y, z, n), c).c; Holds(a[..], c1.reg) && h1 == c1.heap
  {
    var y0 := if a[y].Arr? then h[a[y].addr] else [a[y]];
    var z0 := h[a[z].addr];
    var o: Obj;
    if |z0| <= n {
      o, h1 := a[y], h;
    } else {
      var q := Joined(y0, z0, n);
      if |q| == 1 {
        o, h1 := q[0], h;
      } else {
        o, h1 := Arr(|h|), h + [q];
      }
    }
    HoldsSet(a[..], c.reg, x, o);
    a[x] := o;
  }

  method Joined(y0: seq<Obj>, z0: seq<Obj>, n: nat) returns (q: seq<Obj>)
    requires n <= |z0|
    ensures q == y0 + z0[n..]
  {
    q := y0;
    for i := n to |z0|
      invariant q == y0 + z0[n..i]
    {
      q := q + [z0[i]];
    }
    assert z0[n..|z0|] == z0[n..];
  }

  // The pass that sizes the register array

  /** The largest register an instruction names. */
  function MaxRegister(i: Instr): nat {
    match i
    case Nil(x) => x
    case Mov(x, y) => Max(x, y)
    case Data(x, _) => x
    case Set(x, y, z) => Max(x, Max(y, z))
    case Takex(x, y, z, _) => Max(x, Max(y, z))
    case Split(x, y, z) => Max(x, Max(y, z))
    case Array(x, y, z) => Max(x, Max(y, z))
    case Concatx(x, y, z, _) => Max(x, Max(y, z))
    case Test(x, y) => Max(x, y)
    case Tag(x, y) => Max(x, y)
    case Fail(_) => 0
    case Return(x) => x
  }

  function Max(x: nat, y: nat): nat {
    if x < y then y else x
  }

  lemma MaxZero(x: nat)
    ensures Max(x, 0) == x
  {
  }

  /** r is one of the registers the instruction names. */
  predicate Names(i: Instr, r: nat) {
    match i
    case Nil(x) => r == x
    case Mov(x, y) => r == x || r == y
    case Data(x, _) => r == x
    case Set(x, y, z) => r == x || r == y || r == z
    case Takex(x, y, z, _) => r == x || r == y || r == z
    case Split(x, y, z) => r == x || r == y || r == z
    case Array(x, y, z) => r == x || r == y || r == z
    case Concatx(x, y, z, _) => r == x || r == y || r == z
    case Test(x, y) => r == x || r == y
    case Tag(x, y) => r == x || r == y
    case Fail(_) => false
    case Return(x) => r == x
  }

  /** The largest of them, if there is any. */
  lemma MaxExactly(i: Instr)
    ensures forall r: nat :: Names(i, r) ==> r <= MaxRegister(i)
    ensures Names(i, MaxRegister(i)) || (i.Fail? && MaxRegister(i) == 0)
  {
  }

  /** The registers up to n, the store and the flag are the same. */
  ghost predicate SameUpTo(c: Cpu, d: Cpu, n: nat) {
    d.heap == c.heap && d.flag == c.flag && forall k: nat :: k <= n ==> Get(d.reg, k) == Get(c.reg, k)
  }

  ghost predicate SameFlow(f: Flow, g: Flow, n: nat) {
    && (f.Fall? <==> g.Fall?) && (f.Jump? <==> g.Jump?) && (f.Ret? <==> g.Ret?)
    && (f.Fall? ==> SameUpTo(f.c, g.c, n))
    && (f.Jump? ==> g.l == f.l && SameUpTo(f.c, g.c, n))
    && (f.Ret? ==> g.o == f.o && SameUpTo(f.c, g.c, n))
  }

  /** The registers beyond n are those of c. */
  ghost predicate KeepsBeyond(c: Cpu, f: Flow, n: nat) {
    f.Fall? ==> forall k: nat :: k > n ==> Get(f.c.reg, k) == Get(c.reg, k)
  }

  lemma RangeSame(c: Cpu, d: Cpu, x: nat, os: seq<Obj>, n: nat, flag: bool)
    requires SameUpTo(c, d, n)
    ensures SameUpTo(c.(reg := SetRange(c.reg, x, os), flag := flag), d.(reg := SetRange(d.reg, x, os), flag := flag), n)
    ensures x + |os| <= n + 1 ==> KeepsBeyond(c, Fall(c.(reg := SetRange(c.reg, x, os), flag := flag)), n)
  {
    hide SetRange;
    forall k: nat
      ensures Get(SetRange(c.reg, x, os), k) == if x <= k < x + |os| then os[k - x] else Get(c.reg, k)
      ensures Get(SetRange(d.reg, x, os), k) == if x <= k < x + |os| then os[k - x] else Get(d.reg, k)
    {
      SetRangeGet(c.reg, x, os, k);
      SetRangeGet(d.reg, x, os, k);
    }
  }

  lemma ReadSame(c: Cpu, d: Cpu, k: nat, n: nat)
    requires SameUpTo(c, d, n) && k <= n
    ensures Get(d.reg, k) == Get(c.reg, k) && d.heap == c.heap && d.flag == c.flag
  {
  }

  lemma FlowSame(c: Cpu, d: Cpu, n: nat)
    requires SameUpTo(c, d, n)
    ensures forall f: bool :: SameUpTo(c.(flag := f), d.(flag := f), n) && KeepsBeyond(c, Fall(c.(flag := f)), n)
    ensures KeepsBeyond(c, Abort, n)
    ensures forall l, f: bool :: KeepsBeyond(c, Jump(l, c.(flag := f)), n)
    ensures forall o :: KeepsBeyond(c, Ret(o, c), n)
  {
  }

  lemma SetSame(c: Cpu, d: Cpu, x: nat, o: Obj, h: Heap, n: nat)
    requires SameUpTo(c, d, n) && x <= n
    ensures SameUpTo(c.(reg := c.reg[x := o], heap := h), d.(reg := d.reg[x := o], heap := h), n)
    ensures KeepsBeyond(c, Fall(c.(reg := c.reg[x := o], heap := h)), n)
  {
    var c1, d1 := c.(reg := c.reg[x := o], heap := h), d.(reg := d.reg[x := o], heap := h);
    forall k: nat | k <= n
      ensures Get(d1.reg, k) == Get(c1.reg, k)
    {
      assert Get(d.reg, k) == Get(c.reg, k);
    }
  }

  lemma HeapSame(c: Cpu, d: Cpu, h: Heap, n: nat)
    requires SameUpTo(c, d, n)
    ensures SameUpTo(c.(heap := h), d.(heap := h), n) && KeepsBeyond(c, Fall(c.(heap := h)), n)
  {
  }

  lemma ArrayWithin(c: Cpu, d: Cpu, x: nat, y: nat, z: nat, n: nat)
    requires x <= n && y <= n && z <= n && SameUpTo(c, d, n)
    ensures SameFlow(NativeExec(Bytecode.Array(x, y, z), c), NativeExec(Bytecode.Array(x, y, z), d), n)
    ensures KeepsBeyond(c, NativeExec(Bytecode.Array(x, y, z), c), n)
  {
    if y <= z + 1 {
      var os := GetRange(c.reg, y, z + 1 - y);
      assert os == GetRange(d.reg, y, z + 1 - y);
      SetSame(c, d, x, Arr(|c.heap|), c.heap + [os], n);
    }
  }

  lemma ConcatWithin(c: Cpu, d: Cpu, x: nat, y: nat, z: nat, k: nat, n: nat)
    requires x <= n && y <= n && z <= n && SameUpTo(c, d, n)
    ensures SameFlow(NativeExec(Concatx(x, y, z, k), c), NativeExec(Concatx(x, y, z, k), d), n)
    ensures KeepsBeyond(c, NativeExec(Concatx(x, y, z, k), c), n)
  {
    hide SameUpTo, KeepsBeyond, NativeConcat;
    ReadSame(c, d, y, n);
    ReadSame(c, d, z, n);
    FlowSame(c, d, n);
    var a, b := Get(c.reg, y), Get(c.reg, z);
    if !(a.Null? || !b.Arr? || b.addr >= |c.heap| || (a.Arr? && a.addr >= |c.heap|)) {
      var (h, o) := NativeConcat(c.heap, a, c.heap[b.addr], k);
      SetSame(c, d, x, o, h, n);
    }
  }

  lemma SetWithin(c: Cpu, d: Cpu, x: nat, y: nat, z: nat, n: nat)
    requires x <= n && y <= n && z <= n && SameUpTo(c, d, n)
    ensures SameFlow(NativeExec(Bytecode.Set(x, y, z), c), NativeExec(Bytecode.Set(x, y, z), d), n)
    ensures KeepsBeyond(c, NativeExec(Bytecode.Set(x, y, z), c), n)
  {
    hide SameUpTo, KeepsBeyond;
    ReadSame(c, d, x, n);
    ReadSame(c, d, y, n);
    ReadSame(c, d, z, n);
    FlowSame(c, d, n);
    if NativeExec(Bytecode.Set(x, y, z), c).Fall? {
      HeapSame(c, d, NativeExec(Bytecode.Set(x, y, z), c).c.heap, n);
    }
  }

  lemma HeapThe(c: Cpu, d: Cpu, n: nat)
    requires SameUpTo(c, d, n)
    ensures d.heap == c.heap && d.flag == c.flag
  {
  }

  lemma TakeWithin(i: Instr, c: Cpu, d: Cpu, n: nat)
    requires (i.Takex? || i.Split?) && i.x <= n && i.y <= n && i.z <= n && SameUpTo(c, d, n)
    ensures SameFlow(NativeExec(i, c), NativeExec(i, d), n)
    ensures KeepsBeyond(c, NativeExec(i, c), n)
  {
    hide SetRange;
    var a := Get(c.reg, i.z);
    if a.Arr? && a.addr < |c.heap| {
      var all := c.heap[a.addr];
      if i.Takex? && i.x <= i.y && i.y - i.x + 1 <= |all| - i.i {
        RangeSame(c, d, i.x, all[i.i..i.i + (i.y - i.x + 1)], n, true);
      } else if i.Split? && i.y - i.x + 1 == |all| {
        RangeSame(c, d, i.x, all, n, true);
      }
    }
  }

  lemma MoveWithin(i: Instr, c: Cpu, d: Cpu, n: nat)
    requires (forall r: nat :: Names(i, r) ==> r <= n) && SameUpTo(c, d, n) && (i.Nil? || i.Mov? || i.Data?)
    ensures SameFlow(NativeExec(i, c), NativeExec(i, d), n)
    ensures KeepsBeyond(c, NativeExec(i, c), n)
  {
    hide SameUpTo, KeepsBeyond;
    HeapThe(c, d, n);
    assert Names(i, i.x);
    if i.Mov? {
      assert Names(i, i.y);
      ReadSame(c, d, i.y, n);
    }
    var o := if i.Nil? then Null else if i.Mov? then Get(c.reg, i.y) else At(i.a);
    SetSame(c, d, i.x, o, c.heap, n);
  }

  lemma LookWithin(i: Instr, c: Cpu, d: Cpu, n: nat)
    requires (forall r: nat :: Names(i, r) ==> r <= n) && SameUpTo(c, d, n) && (i.Test? || i.Tag? || i.Fail? || i.Return?)
    ensures SameFlow(NativeExec(i, c), NativeExec(i, d), n)
    ensures KeepsBeyond(c, NativeExec(i, c), n)
  {
    hide Same, SameUpTo, KeepsBeyond;
    HeapThe(c, d, n);
    FlowSame(c, d, n);
    if !i.Fail? {
      assert Names(i, i.x);
      ReadSame(c, d, i.x, n);
    }
    if i.Test? || i.Tag? {
      assert Names(i, i.y);
      ReadSame(c, d, i.y, n);
    }
  }

  /** An instruction reads and writes no register beyond the largest it names: an array of that size is enough for it. */
  lemma WithinRegisters(i: Instr, c: Cpu, d: Cpu, n: nat)
    requires (forall r: nat :: Names(i, r) ==> r <= n) && SameUpTo(c, d, n)
    ensures SameFlow(NativeExec(i, c), NativeExec(i, d), n)
    ensures KeepsBeyond(c, NativeExec(i, c), n)
  {
    hide NativeExec, SameFlow, SameUpTo, KeepsBeyond;
    if i.Set? {
      assert Names(i, i.x) && Names(i, i.y) && Names(i, i.z);
      SetWithin(c, d, i.x, i.y, i.z, n);
    } else if i.Takex? || i.Split? {
      assert Names(i, i.x) && Names(i, i.y) && Names(i, i.z);
      TakeWithin(i, c, d, n);
    } else if i.Array? {
      assert Names(i, i.x) && Names(i, i.y) && Names(i, i.z);
      ArrayWithin(c, d, i.x, i.y, i.z, n);
    } else if i.Concatx? {
      assert Names(i, i.x) && Names(i, i.y) && Names(i, i.z);
      ConcatWithin(c, d, i.x, i.y, i.z, i.i, n);
    } else if i.Nil? || i.Mov? || i.Data? {
      MoveWithin(i, c, d, n);
    } else {
      LookWithin(i, c, d, n);
    }
  }

  class AnalyzeBytecode {
    var max: nat
    var labels: set<nat>

    constructor ()
      ensures max == 0 && labels == {}
    {
      max, labels := 0, {};
    }

    method Note(x: nat)
      modifies this`max
      ensures max == Max(old(max), x)
    {
      if max < x {
        max := x;
      }
    }

    method NoteTwo(x: nat, y: nat)
      modifies this`max
      ensures max == Max(old(max), Max(x, y))
    {
      Note(x);
      Note(y);
    }

    method NoteThree(x: nat, y: nat, z: nat)
      modifies this`max
      ensures max == Max(old(max), Max(x, Max(y, z)))
    {
      Note(x);
      Note(y);
      Note(z);
    }

    method Visit(i: Instr)
      modifies this
      ensures max == Max(old(max), MaxRegister(i))
      ensures labels == old(labels) + if i.Fail? then {i.l} else {}
    {
      hide Max;
      MaxZero(max);
      match i
      case Nil(x) => Note(x);
      case Mov(x, y) => NoteTwo(x, y);
      case Data(x, _) => Note(x);
      case Set(x, y, z) => NoteThree(x, y, z);
      case Takex(x, y, z, _) => NoteThree(x, y, z);
      case Split(x, y, z) => NoteThree(x, y, z);
      case Array(x, y, z) => NoteThree(x, y, z);
      case Concatx(x, y, z, _) => NoteThree(x, y, z);
      case Test(x, y) => NoteTwo(x, y);
      case Tag(x, y) => NoteTwo(x, y);
      case Fail(l) => labels := labels + {l};
      case Return(x) => Note(x);
    }

    /** Over the bytes of code: no register it names is beyond max, one of them is max, and labels has its jump targets. */
    method Pass(bytes: seq<Byte>, data: seq<Atom>, ghost code: seq<Instr>)
      requires bytes == EncodeAll(code, 0) && data == Consts(code) && |data| < WORD
      requires forall k :: 0 <= k < |code| ==> Narrow(code[k])
      requires max == 0 && labels == {}
      modifies this
      ensures forall k, r: nat :: 0 <= k < |code| && Names(code[k], r) ==> r <= max
      ensures max == 0 || exists k :: 0 <= k < |code| && Names(code[k], max)
      ensures forall l :: l in labels <==> exists k :: 0 <= k < |code| && code[k] == Fail(l)
    {
      hide EncodeAll, Consts, Decode, Offset, Narrow, MaxRegister, Names;
      var pc := 0;
      ghost var k := 0;
      OffsetStart(code);
      OffsetEnd(code, 0);
      while pc < |bytes|
        invariant k <= |code| && pc == Offset(code, k) && pc <= |bytes|
        invariant forall j, r: nat :: 0 <= j < k && Names(code[j], r) ==> r <= max
        invariant max == 0 || exists j :: 0 <= j < k && Names(code[j], max)
        invariant forall l :: l in labels <==> exists j :: 0 <= j < k && code[j] == Fail(l)
        decreases |bytes| - pc
      {
        NotDone(code, k, |bytes|);
        DecodeAt(code, k);
        OffsetNext(code, k);
        OffsetMonotone(code, k + 1, |code|);
        var i := Decode(bytes, data, pc).value;
        MaxExactly(i);
        Visit(i);
        pc := pc + Size(bytes[pc]);
        k := k + 1;
      }
      AllDone(code, k, |bytes|);
    }
  }

  lemma OffsetStart(code: seq<Instr>)
    ensures Offset(code, 0) == 0
  {
  }

  lemma NotDone(code: seq<Instr>, k: nat, size: nat)
    requires k <= |code| && Offset(code, k) < size && Offset(code, |code|) == size
    ensures k < |code|
  {
  }

  lemma AllDone(code: seq<Instr>, k: nat, size: nat)
    requires k <= |code| && Offset(code, k) == size && Offset(code, |code|) == size
    ensures k == |code|
  {
    OffsetMonotone(code, k, |code|);
  }
}
