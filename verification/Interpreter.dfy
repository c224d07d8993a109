/** The interpreter and the trampoline as loops over mutable registers and the current thunk. */
module Interpreter {
  import opened Terms
  import opened Heaps
  import opened Bytecode
  import opened Build
  import opened Blocks
  import opened Encoding
  import opened Machine

  const MAX_REGISTERS := 64

  /** The first registers are an array, the others a map. */
  class Registers {
    const fast: array<Obj>
    var fallback: map<nat, Obj>

    constructor ()
      ensures Valid() && fresh(fast) && Holds(map[])
    {
      fast := new Obj[MAX_REGISTERS](_ => Null);
      fallback := map[];
    }

    ghost predicate Valid()
      reads this
    {
      fast.Length == MAX_REGISTERS
    }

    ghost function Value(n: nat): Obj
      requires Valid()
      reads this, fast
    {
      if n < MAX_REGISTERS then fast[n] else if n in fallback then fallback[n] else Null
    }

    /** Every register has its value in r. */
    ghost predicate Holds(r: Regs)
      requires Valid()
      reads this, fast
    {
      forall n: nat :: Value(n) == Bytecode.Get(r, n)
    }

    method Get(n: nat) returns (o: Obj)
      requires Valid()
      ensures o == Value(n)
    {
      if n < MAX_REGISTERS {
        o := fast[n];
      } else if n in fallback {
        o := fallback[n];
      } else {
        o := Null;
      }
    }

    method Set(n: nat, o: Obj, ghost r: Regs)
      requires Valid() && Holds(r)
      modifies this, fast
      ensures Valid() && Holds(r[n := o])
    {
      if n < MAX_REGISTERS {
        fast[n] := o;
      } else {
        fallback := fallback[n := o];
      }
      forall q: nat ensures Value(q) == Bytecode.Get(r[n := o], q) {
        assert old(Value(q)) == Bytecode.Get(r, q);
      }
    }

    /** Registers x, x+1, .. receive the elements of an array from index i on. */
    method SetAll(x: nat, y: nat, zz: seq<Obj>, i: nat, ghost r: Regs)
      requires Valid() && Holds(r) && x <= y + 1 && i + (y + 1 - x) <= |zz|
      modifies this, fast
      ensures Valid() && Holds(SetRange(r, x, zz[i..i + (y + 1 - x)]))
    {
      hide SetRange;
      ghost var os := zz[i..i + (y + 1 - x)];
      SetRangeNone(r, x);
      assert os[..0] == [];
      for n := x to y + 1
        invariant Valid() && Holds(SetRange(r, x, os[..n - x]))
      {
        SetRangeSnoc(r, x, os, n - x);
        Set(n, zz[n - x + i], SetRange(r, x, os[..n - x]));
        SameRegs(SetRange(r, x, os[..n - x])[n := os[n - x]], SetRange(r, x, os[..n - x + 1]));
      }
      assert os[..y + 1 - x] == os;
    }

    /** Two maps with the same values. */
    lemma SameRegs(r: Regs, r1: Regs)
      requires Valid() && Holds(r) && SameValues(r, r1)
      ensures Holds(r1)
    {
    }

    method GetAll(y: nat, z: nat, ghost r: Regs) returns (os: seq<Obj>)
      requires Valid() && Holds(r) && y <= z + 1
      ensures os == GetRange(r, y, z + 1 - y)
    {
      hide GetRange;
      os := [];
      for n := y to z + 1
        invariant |os| == n - y && forall j :: 0 <= j < n - y ==> os[j] == Bytecode.Get(r, y + j)
      {
        var o := Get(n);
        os := os + [o];
      }
    }
  }

  ghost predicate SameValues(r: Regs, r1: Regs) {
    forall n: nat :: Get(r, n) == Get(r1, n)
  }

  lemma SetRangeNone(r: Regs, x: nat)
    ensures SetRange(r, x, []) == r
  {
  }

  lemma SetRangeSnoc(r: Regs, x: nat, os: seq<Obj>, j: nat)
    requires j < |os|
    ensures SameValues(SetRange(r, x, os[..j])[x + j := os[j]], SetRange(r, x, os[..j + 1]))
  {
    hide SetRange;
    var r0 := SetRange(r, x, os[..j])[x + j := os[j]];
    var r1 := SetRange(r, x, os[..j + 1]);
    forall n: nat ensures Get(r0, n) == Get(r1, n) {
      SetRangeGet(r, x, os[..j + 1], n);
      SetRangeGet(r, x, os[..j], n);
    }
  }

  /** The members of y and those of z from index i on. */
  method Append(yc: seq<Obj>, zc: seq<Obj>, i: nat) returns (oo: seq<Obj>)
    requires i <= |zc|
    ensures oo == yc + zc[i..]
  {
    oo := yc;
    for n := i to |zc|
      invariant oo == yc + zc[i..n]
    {
      oo := oo + [zc[n]];
    }
    assert zc[i..|zc|] == zc[i..];
  }

  /** How an instruction goes on. */
  datatype Outcome = Next | Goto(l: nat) | Result(o: Obj) | Dead

  class Processor {
    const reg: Registers
    var flag: bool
    var heap: Heap
    /** The registers as a map. */
    ghost var r: Regs

    constructor (h: Heap, t: nat)
      ensures Valid() && fresh(reg) && fresh(reg.fast) && State() == Start(h, t)
    {
      reg := new Registers();
      flag := false;
      heap := h;
      r := map[];
      new;
      reg.Set(0, Arr(t), r);
      r := map[0 := Arr(t)];
    }

    ghost predicate Valid()
      reads this, reg, reg.fast
    {
      reg.Valid() && reg.Holds(r)
    }

    ghost function State(): Cpu
      reads this
    {
      Cpu(r, flag, heap)
    }

    method Put(x: nat, o: Obj)
      requires Valid()
      modifies this`r, reg, reg.fast
      ensures Valid() && r == old(r)[x := o]
    {
      reg.Set(x, o, r);
      r := r[x := o];
    }

    method OpSet(x: nat, y: nat, z: nat) returns (out: Outcome)
      requires Valid()
      modifies this`heap
      ensures Valid() && Done(Exec(Set(x, y, z), old(State())), out)
    {
      var a := reg.Get(x);
      var k := reg.Get(y);
      var o := reg.Get(z);
      if a.Arr? && a.addr < |heap| && k.At? && k.atom.IntAtom? && 0 <= k.atom.i < |heap[a.addr]| {
        heap := SetCell(heap, a.addr, k.atom.i, o);
        out := Next;
      } else {
        out := Dead;
      }
    }

    method OpTakex(x: nat, y: nat, z: nat, i: nat) returns (out: Outcome)
      requires Valid()
      modifies this`r, this`flag, reg, reg.fast
      ensures Valid() && Done(Exec(Takex(x, y, z, i), old(State())), out)
    {
      hide SetRange;
      var a := reg.Get(z);
      if a.Null? || (a.Arr? && a.addr >= |heap|) {
        out := Dead;
      } else if a.Arr? {
        flag := y - x + 1 <= |heap[a.addr]| - i;
        if flag && x <= y {
          reg.SetAll(x, y, heap[a.addr], i, r);
          r := SetRange(r, x, heap[a.addr][i..i + (y + 1 - x)]);
        }
        out := Next;
      } else {
        flag := false;
        out := Next;
      }
    }

    method OpSplit(x: nat, y: nat, z: nat) returns (out: Outcome)
      requires Valid()
      modifies this`r, this`flag, reg, reg.fast
      ensures Valid() && Done(Exec(Split(x, y, z), old(State())), out)
    {
      hide SetRange;
      var a := reg.Get(z);
      if a.Null? || (a.Arr? && a.addr >= |heap|) {
        out := Dead;
      } else if a.Arr? {
        flag := y - x + 1 == |heap[a.addr]|;
        if flag {
          assert heap[a.addr][0..0 + (y + 1 - x)] == heap[a.addr];
          reg.SetAll(x, y, heap[a.addr], 0, r);
          r := SetRange(r, x, heap[a.addr]);
        }
        out := Next;
      } else {
        flag := false;
        out := Next;
      }
    }

    method OpArray(x: nat, y: nat, z: nat) returns (out: Outcome)
      requires Valid()
      modifies this`r, this`heap, reg, reg.fast
      ensures Valid() && Done(Exec(Bytecode.Array(x, y, z), old(State())), out)
    {
      hide GetRange;
      if z + 1 < y {
        out := Dead;
      } else {
        var oo := reg.GetAll(y, z, r);
        var o := Arr(|heap|);
        heap := heap + [oo];
        Put(x, o);
        out := Next;
      }
    }

    method OpConcatx(x: nat, y: nat, z: nat, i: nat) returns (out: Outcome)
      requires Valid()
      modifies this`r, this`heap, reg, reg.fast
      ensures Valid() && Done(Exec(Concatx(x, y, z, i), old(State())), out)
    {
      var y0 := reg.Get(y);
      var z0 := reg.Get(z);
      if y0.Null? || !z0.Arr? || z0.addr >= |heap| || (y0.Arr? && y0.addr >= |heap|) {
        out := Dead;
      } else {
        var yc := if y0.Arr? then heap[y0.addr] else [y0];
        var zc := heap[z0.addr];
        if i < |zc| {
          var sz := |yc| + |zc| - i;
          if sz > 1 {
            var oo := Append(yc, zc, i);
            var o := Arr(|heap|);
            heap := heap + [oo];
            Put(x, o);
          } else {
            Put(x, zc[i]);
          }
        } else if |yc| == 1 {
          Put(x, yc[0]);
        } else {
          Put(x, y0);
        }
        out := Next;
      }
    }

    method OpTest(x: nat, y: nat) returns (out: Outcome)
      requires Valid()
      modifies this`flag
      ensures Valid() && Done(Exec(Test(x, y), old(State())), out)
    {
      var x0 := reg.Get(x);
      var y0 := reg.Get(y);
      if x0.Null? || y0.Null? {
        out := Dead;
      } else {
        flag := Same(heap, x0, y0, |heap|);
        out := Next;
      }
    }

    method OpTag(x: nat, y: nat) returns (out: Outcome)
      requires Valid()
      modifies this`flag
      ensures Valid() && Done(Exec(Tag(x, y), old(State())), out)
    {
      var x0 := reg.Get(x);
      var y0 := reg.Get(y);
      if x0.Null? || y0.Null? {
        out := Dead;
      } else {
        flag := ObjSymbol(x0) == ObjSymbol(y0);
        out := Next;
      }
    }

    /** The state and the outcome are those of the instruction. */
    ghost predicate Done(f: Flow, out: Outcome)
      reads this
    {
      match f
      case Fall(c) => out == Next && State() == c
      case Jump(l, c) => out == Goto(l) && State() == c
      case Ret(o, c) => out == Result(o) && State() == c
      case Abort => out == Dead
    }

    method Execute(i: Instr) returns (out: Outcome)
      requires Valid()
      modifies this, reg, reg.fast
      ensures Valid() && Done(Exec(i, old(State())), out)
    {
      match i
      case Nil(x) =>
        Put(x, Null);
        out := Next;
      case Mov(x, y) =>
        var o := reg.Get(y);
        Put(x, o);
        out := Next;
      case Data(x, a) =>
        Put(x, At(a));
        out := Next;
      case Set(x, y, z) => out := OpSet(x, y, z);
      case Takex(x, y, z, k) => out := OpTakex(x, y, z, k);
      case Split(x, y, z) => out := OpSplit(x, y, z);
      case Array(x, y, z) => out := OpArray(x, y, z);
      case Concatx(x, y, z, k) => out := OpConcatx(x, y, z, k);
      case Test(x, y) => out := OpTest(x, y);
      case Tag(x, y) => out := OpTag(x, y);
      case Fail(l) =>
        out := if flag then Next else Goto(l);
        flag := false;
      case Return(x) =>
        var o := reg.Get(x);
        out := Result(o);
    }
  }

  /** The code of a combinator on a thunk: fetch and execute until something is returned. */
  method Reduce(code: seq<Byte>, data: seq<Atom>, h: Heap, t: nat) returns (x: Exit)
    ensures x == RunBytes(code, data, 0, Start(h, t))
  {
    hide Exec, Decode;
    var m := new Processor(h, t);
    var pc := 0;
    while pc < |code|
      invariant fresh(m) && fresh(m.reg) && fresh(m.reg.fast) && m.Valid() && pc <= |code|
      invariant RunBytes(code, data, pc, m.State()) == RunBytes(code, data, 0, Start(h, t))
      decreases |code| - pc
    {
      var op := code[pc];
      if op > 11 {
        pc := pc + 1;
      } else {
        var i := Decode(code, data, pc);
        if i.None? {
          return Crashed;
        }
        DecodeFits(code, data, pc);
        var out := m.Execute(i.value);
        match out
        case Next => pc := pc + Size(op);
        case Result(o) => return Returned(o, m.heap);
        case Dead => return Crashed;
        case Goto(l) =>
          if l <= pc || l > |code| {
            return Stray;
          }
          pc := l;
      }
    }
    x := Crashed;
  }

  lemma DecodeFits(code: seq<Byte>, data: seq<Atom>, pc: nat)
    requires pc < |code| && code[pc] <= 11
    ensures Decode(code, data, pc).Some? ==> pc + Size(code[pc]) <= |code| && Size(code[pc]) > 0
  {
  }
}
