/** The coder: a growing buffer of bytecode, a data section, labels, and counters. */
module Coders {
  import opened Terms
  import opened Bytecode
  import opened Blocks
  import opened Encoding

  lemma {:induction false} EncodeSnoc(code: seq<Instr>, d: nat, i: Instr)
    ensures EncodeAll(code + [i], d) == EncodeAll(code, d) + Encode(i, d + |Consts(code)|)
    ensures Consts(code + [i]) == Consts(code) + if i.Data? then [i.a] else []
    decreases |code|
  {
    hide Encode, EncodeAll, Consts;
    EncodeEmpty(d);
    EncodeStep(code + [i], d);
    if code == [] {
      assert [] + [i] == [i] && [i][1..] == [];
      EncodeEmpty(if i.Data? then d + 1 else d);
      assert Encode(i, d) + [] == [] + Encode(i, d);
    } else {
      EncodeStep(code, d);
      assert (code + [i])[1..] == code[1..] + [i];
      EncodeSnoc(code[1..], if code[0].Data? then d + 1 else d, i);
    }
  }

  /** FAIL operands are replaced by labels in the first k instructions. */
  function Patched(code: seq<Instr>, labels: map<nat, nat>, k: nat): seq<Instr>
    requires k <= |code|
  {
    Resolve(code[..k], labels) + code[k..]
  }

  lemma {:induction false} ResolveAppend(a: seq<Instr>, b: seq<Instr>, labels: map<nat, nat>)
    ensures Resolve(a + b, labels) == Resolve(a, labels) + Resolve(b, labels)
    decreases |a|
  {
    if a == [] {
      assert a + b == b;
    } else {
      assert (a + b)[1..] == a[1..] + b;
      ResolveAppend(a[1..], b, labels);
    }
  }

  lemma PatchStep(code: seq<Instr>, labels: map<nat, nat>, k: nat)
    requires k < |code|
    ensures |Patched(code, labels, k)| == |Patched(code, labels, k + 1)| == |code|
    ensures Patched(code, labels, k)[k] == code[k] && Patched(code, labels, k + 1)[k] == ResolveOne(code[k], labels)
    ensures Patched(code, labels, k + 1) == Patched(code, labels, k)[k := ResolveOne(code[k], labels)]
  {
    hide Resolve, ResolveOne;
    var r := Resolve(code[..k], labels);
    ResolveAt(code[..k], labels);
    ResolveAt(code[..k + 1], labels);
    assert code[..k + 1] == code[..k] + [code[k]];
    ResolveAppend(code[..k], [code[k]], labels);
    ResolveSingle(code[k], labels);
  }

  lemma ResolveSingle(i: Instr, labels: map<nat, nat>)
    ensures Resolve([i], labels) == [ResolveOne(i, labels)]
  {
    assert [i][1..] == [];
  }

  /** The bytes of instruction k, with those before and after. */
  lemma {:induction false} EncodeReplace(code: seq<Instr>, d: nat, k: nat, i: Instr)
    requires k < |code| && Size(Opcode(i)) == Size(Opcode(code[k])) && !i.Data? && !code[k].Data?
    ensures var at := Offset(code, k);
            var e := EncodeAll(code, d);
            var size := Size(Opcode(i));
            && at + size <= |e| && |Encode(i, 0)| == size && e[at..at + size] == Encode(code[k], 0)
            && EncodeAll(code[k := i], d) == e[..at] + Encode(i, 0) + e[at + size..]
            && Offset(code[k := i], k + 1) == at + size
    decreases k
  {
    hide Encode, Size, Opcode, EncodeAll, Offset;
    var d1 := if code[0].Data? then d + 1 else d;
    EncodeStep(code, d);
    EncodeStep(code[k := i], d);
    OffsetStep(code, k);
    OffsetStep(code[k := i], k + 1);
    SizeEncode(code[0], d);
    SizeEncode(i, d);
    SizeEncode(i, 0);
    PlainEncode(i, d);
    PlainEncode(code[k], d);
    SizeEncode(code[k], 0);
    if k == 0 {
      assert code[0 := i][1..] == code[1..];
      OffsetZero(code);
      OffsetZero(code[k := i][1..]);
    } else {
      assert code[k := i][1..] == code[1..][k - 1 := i];
      EncodeReplace(code[1..], d1, k - 1, i);
      ReplaceShift(Encode(code[0], d), EncodeAll(code[1..], d1), Offset(code[1..], k - 1), Encode(i, 0), Encode(code[k], 0));
    }
  }

  lemma PlainEncode(i: Instr, d: nat)
    requires !i.Data?
    ensures Encode(i, d) == Encode(i, 0)
  {
  }

  lemma ReplaceShift(a: seq<Byte>, e: seq<Byte>, at: nat, b: seq<Byte>, b0: seq<Byte>)
    requires at + |b| <= |e| && |b| == |b0| && e[at..at + |b|] == b0
    ensures (a + e)[|a| + at..|a| + at + |b|] == b0
    ensures a + (e[..at] + b + e[at + |b|..]) == (a + e)[..|a| + at] + b + (a + e)[|a| + at + |b|..]
  {
    var s := a + e;
    assert s[..|a| + at] == a + e[..at];
    assert s[|a| + at + |b|..] == e[at + |b|..];
    assert s[|a| + at..|a| + at + |b|] == e[at..at + |b|];
  }

  /** Where the loop that patches labels stands: before instruction k. */
  ghost predicate Patching(prog: seq<Instr>, labels: map<nat, nat>, k: nat, code: seq<Byte>, pc: nat) {
    && k <= |prog| && |Patched(prog, labels, k)| == |prog|
    && code == EncodeAll(Patched(prog, labels, k), 0) && pc == Offset(Patched(prog, labels, k), k)
  }

  lemma PatchingStarts(prog: seq<Instr>, labels: map<nat, nat>)
    ensures Patching(prog, labels, 0, EncodeAll(prog, 0), 0)
  {
    hide EncodeAll;
    assert prog[..0] == [] && prog[0..] == prog;
    assert [] + prog == prog;
  }

  lemma PatchingEnds(prog: seq<Instr>, labels: map<nat, nat>, k: nat, code: seq<Byte>, pc: nat)
    requires Patching(prog, labels, k, code, pc)
    ensures pc <= |code|
    ensures pc == |code| ==> k == |prog| && code == EncodeAll(Resolve(prog, labels), 0)
  {
    hide EncodeAll, Offset, Resolve;
    var cur := Patched(prog, labels, k);
    OffsetEnd(cur, 0);
    OffsetMonotone(cur, k, |cur|);
    if k == |prog| {
      assert prog[..k] == prog && prog[k..] == [];
      assert Resolve(prog, labels) + [] == Resolve(prog, labels);
    }
  }

  /** The byte at pc is an opcode, and the next instruction is one size further. */
  lemma PatchingAt(prog: seq<Instr>, labels: map<nat, nat>, k: nat, code: seq<Byte>, pc: nat)
    requires Patching(prog, labels, k, code, pc) && pc < |code|
    ensures k < |prog| && code[pc] == Opcode(prog[k])
    ensures Offset(Patched(prog, labels, k), k + 1) == pc + Size(Opcode(prog[k]))
    ensures !prog[k].Fail? ==> Patching(prog, labels, k + 1, code, pc + Size(Opcode(prog[k])))
  {
    hide EncodeAll, Offset, Patched, Opcode, Size, Encode;
    var cur := Patched(prog, labels, k);
    OffsetEnd(cur, 0);
    PatchStep(prog, labels, k);
    OffsetNext(cur, k);
    EncodeSplit(cur, 0, k);
    EncodeStep(cur[k..], ConstsBefore(cur, k));
    SizeEncode(cur[k], ConstsBefore(cur, k));
    SizePositive(cur[k]);
    assert cur[k..][0] == cur[k] && cur[k := cur[k]] == cur;
    assert code[pc] == code[pc..][0];
    PlainResolve(prog[k], labels);
  }

  lemma SizePositive(i: Instr)
    ensures Size(Opcode(i)) > 0
  {
  }

  lemma PlainResolve(i: Instr, labels: map<nat, nat>)
    ensures !i.Fail? ==> ResolveOne(i, labels) == i
    ensures i.Fail? ==> ResolveOne(i, labels) == Fail(if i.l in labels then labels[i.l] else 0)
    ensures i.Fail? ==> Size(Opcode(i)) == 5 && Size(Opcode(ResolveOne(i, labels))) == 5 && !ResolveOne(i, labels).Data?
    ensures i.Fail? ==> Encode(i, 0) == [10] + I32(i.l)
  {
  }

  /** Patching the operand of a FAIL. */
  lemma PatchingFail(prog: seq<Instr>, labels: map<nat, nat>, k: nat, code: seq<Byte>, pc: nat, code1: seq<Byte>)
    requires Patching(prog, labels, k, code, pc) && pc < |code| && k < |prog| && prog[k].Fail? && prog[k].l < WORD
    ensures pc + 5 <= |code| && Fetch32(code, pc + 1) == prog[k].l
    ensures var l1 := if prog[k].l in labels then labels[prog[k].l] else 0;
            code1 == code[..pc] + ([10] + I32(l1)) + code[pc + 5..] ==> Patching(prog, labels, k + 1, code1, pc + 5)
  {
    hide EncodeAll, Offset, Patched, Opcode, Size, Encode, I32, Fetch32, ResolveOne;
    var cur := Patched(prog, labels, k);
    var i := ResolveOne(prog[k], labels);
    PatchStep(prog, labels, k);
    PlainResolve(prog[k], labels);
    PlainResolve(i, labels);
    EncodeReplace(cur, 0, k, i);
    OneField(code, pc, 10, prog[k].l);
  }

  /** The bytes pushed one operand after the other are those of the instruction. */
  lemma Pushed(prog: seq<Instr>, code: seq<Byte>, i: Instr, code1: seq<Byte>)
    requires code == EncodeAll(prog, 0) && code1 == code + Encode(i, |Consts(prog)|)
    ensures code1 == EncodeAll(prog + [i], 0)
    ensures Consts(prog + [i]) == Consts(prog) + if i.Data? then [i.a] else []
  {
    hide EncodeAll, Consts, Encode;
    EncodeSnoc(prog, 0, i);
  }

  lemma Glue(code: seq<Byte>, op: Byte, x: seq<Byte>, y: seq<Byte>, z: seq<Byte>, k: seq<Byte>)
    ensures code + [op] + x == code + ([op] + x)
    ensures code + [op] + x + y == code + ([op] + x + y)
    ensures code + [op] + x + y + z == code + ([op] + x + y + z)
    ensures code + [op] + x + y + z + k == code + ([op] + x + y + z + k)
  {
  }

  lemma FourBytes(code: seq<Byte>, pc: nat, n: nat, code1: seq<Byte>)
    requires pc + 5 <= |code| && code[pc] == 10
    requires code1 == code[pc + 1 := n / 0x100_0000 % 256][pc + 2 := n / 0x1_0000 % 256][pc + 3 := n / 0x100 % 256][pc + 4 := n % 256]
    ensures code1 == code[..pc] + ([10] + I32(n)) + code[pc + 5..]
  {
  }

  class Coder {
    var code: seq<Byte>
    var data: seq<Atom>
    var labelCounter: nat
    var registerCounter: nat
    var labels: map<nat, nat>
    /** The instructions emitted so far, FAIL operands being labels. */
    ghost var prog: seq<Instr>

    constructor ()
      ensures Valid() && prog == [] && labelCounter == 0 && registerCounter == 0 && labels == map[]
    {
      code, data, labelCounter, registerCounter, labels, prog := [], [], 0, 0, map[], [];
    }

    ghost predicate Valid()
      reads this
    {
      code == EncodeAll(prog, 0) && data == Consts(prog)
    }

    /** A constant is in the data section, and its instruction comes next. */
    ghost predicate Pending(a: Atom)
      reads this
    {
      code == EncodeAll(prog, 0) && data == Consts(prog) + [a]
    }

    method Reset()
      modifies this
      ensures Valid() && prog == [] && labelCounter == 0 && registerCounter == 0 && labels == map[]
    {
      code, data, labelCounter, registerCounter, labels, prog := [], [], 0, 0, map[], [];
    }

    method GenerateLabel() returns (l: nat)
      modifies this`labelCounter
      ensures l == old(labelCounter) && labelCounter == l + 1
    {
      l := labelCounter;
      labelCounter := labelCounter + 1;
    }

    method GenerateRegister() returns (r: nat)
      modifies this`registerCounter
      ensures r == old(registerCounter) && registerCounter == r + 1
    {
      r := registerCounter;
      registerCounter := registerCounter + 1;
    }

    method RestoreRegister(r: nat)
      modifies this`registerCounter
      ensures registerCounter == r
    {
      registerCounter := r;
    }

    // Bytes

    method EmitI8(b: Byte)
      modifies this`code
      ensures code == old(code) + [b]
    {
      code := code + [b];
    }

    method EmitI16(n: nat)
      modifies this`code
      ensures code == old(code) + I16(n)
    {
      code := code + [n / 0x100 % 256];
      code := code + [n % 256];
    }

    method EmitI32(n: nat)
      modifies this`code
      ensures code == old(code) + I32(n)
    {
      code := code + [n / 0x100_0000 % 256];
      code := code + [n / 0x1_0000 % 256];
      code := code + [n / 0x100 % 256];
      code := code + [n % 256];
    }

    // Instructions

    method EmitOpNil(x: nat)
      requires Valid()
      modifies this`code, this`prog
      ensures Valid() && prog == old(prog) + [Nil(x)]
    {
      hide EncodeAll, Consts, I32, I16;
      Glue(code, 0, I32(x), [], [], []);
      EmitI8(0);
      EmitI32(x);
      Pushed(prog, old(code), Nil(x), code);
      prog := prog + [Nil(x)];
    }

    method EmitOpMov(x: nat, y: nat)
      requires Valid()
      modifies this`code, this`prog
      ensures Valid() && prog == old(prog) + [Mov(x, y)]
    {
      hide EncodeAll, Consts, I32, I16;
      Glue(code, 1, I32(x), I32(y), [], []);
      EmitI8(1);
      EmitI32(x);
      EmitI32(y);
      Pushed(prog, old(code), Mov(x, y), code);
      prog := prog + [Mov(x, y)];
    }

    method EmitData(a: Atom) returns (d: nat)
      requires Valid()
      modifies this`data
      ensures Pending(a) && d == |Consts(prog)|
    {
      data := data + [a];
      d := |data| - 1;
    }

    method EmitOpData(x: nat, d: nat, ghost a: Atom)
      requires Pending(a) && d == |Consts(prog)|
      modifies this`code, this`prog
      ensures Valid() && prog == old(prog) + [Data(x, a)]
    {
      hide EncodeAll, Consts, I32, I16;
      Glue(code, 2, I32(x), I32(d), [], []);
      EmitI8(2);
      EmitI32(x);
      EmitI32(d);
      Pushed(prog, old(code), Data(x, a), code);
      prog := prog + [Data(x, a)];
    }

    method EmitOpSet(x: nat, y: nat, z: nat)
      requires Valid()
      modifies this`code, this`prog
      ensures Valid() && prog == old(prog) + [Set(x, y, z)]
    {
      hide EncodeAll, Consts, I32, I16;
      Glue(code, 3, I32(x), I32(y), I32(z), []);
      EmitI8(3);
      EmitI32(x);
      EmitI32(y);
      EmitI32(z);
      Pushed(prog, old(code), Set(x, y, z), code);
      prog := prog + [Set(x, y, z)];
    }

    method EmitOpTakex(x: nat, y: nat, z: nat, i: nat)
      requires Valid()
      modifies this`code, this`prog
      ensures Valid() && prog == old(prog) + [Takex(x, y, z, i)]
    {
      hide EncodeAll, Consts, I32, I16;
      Glue(code, 4, I32(x), I32(y), I32(z), I16(i));
      EmitI8(4);
      EmitI32(x);
      EmitI32(y);
      EmitI32(z);
      EmitI16(i);
      Pushed(prog, old(code), Takex(x, y, z, i), code);
      prog := prog + [Takex(x, y, z, i)];
    }

    method EmitOpSplit(x: nat, y: nat, z: nat)
      requires Valid()
      modifies this`code, this`prog
      ensures Valid() && prog == old(prog) + [Split(x, y, z)]
    {
      hide EncodeAll, Consts, I32, I16;
      Glue(code, 5, I32(x), I32(y), I32(z), []);
      EmitI8(5);
      EmitI32(x);
      EmitI32(y);
      EmitI32(z);
      Pushed(prog, old(code), Split(x, y, z), code);
      prog := prog + [Split(x, y, z)];
    }

    method EmitOpArray(x: nat, y: nat, z: nat)
      requires Valid()
      modifies this`code, this`prog
      ensures Valid() && prog == old(prog) + [Array(x, y, z)]
    {
      hide EncodeAll, Consts, I32, I16;
      Glue(code, 6, I32(x), I32(y), I32(z), []);
      EmitI8(6);
      EmitI32(x);
      EmitI32(y);
      EmitI32(z);
      Pushed(prog, old(code), Array(x, y, z), code);
      prog := prog + [Array(x, y, z)];
    }

    /** The index is sixteen bits wide. */
    method EmitOpConcatx(x: nat, y: nat, z: nat, i: nat)
      requires Valid()
      modifies this`code, this`prog
      ensures Valid() && prog == old(prog) + [Concatx(x, y, z, i % HALF)]
    {
      hide EncodeAll, Consts, I32, I16;
      Glue(code, 7, I32(x), I32(y), I32(z), I16(i % HALF));
      EmitI8(7);
      EmitI32(x);
      EmitI32(y);
      EmitI32(z);
      EmitI16(i % HALF);
      Pushed(prog, old(code), Concatx(x, y, z, i % HALF), code);
      prog := prog + [Concatx(x, y, z, i % HALF)];
    }

    method EmitOpTest(x: nat, y: nat)
      requires Valid()
      modifies this`code, this`prog
      ensures Valid() && prog == old(prog) + [Test(x, y)]
    {
      hide EncodeAll, Consts, I32, I16;
      Glue(code, 8, I32(x), I32(y), [], []);
      EmitI8(8);
      EmitI32(x);
      EmitI32(y);
      Pushed(prog, old(code), Test(x, y), code);
      prog := prog + [Test(x, y)];
    }

    method EmitOpTag(x: nat, y: nat)
      requires Valid()
      modifies this`code, this`prog
      ensures Valid() && prog == old(prog) + [Tag(x, y)]
    {
      hide EncodeAll, Consts, I32, I16;
      Glue(code, 9, I32(x), I32(y), [], []);
      EmitI8(9);
      EmitI32(x);
      EmitI32(y);
      Pushed(prog, old(code), Tag(x, y), code);
      prog := prog + [Tag(x, y)];
    }

    method EmitOpFail(l: nat)
      requires Valid()
      modifies this`code, this`prog
      ensures Valid() && prog == old(prog) + [Fail(l)]
    {
      hide EncodeAll, Consts, I32, I16;
      Glue(code, 10, I32(l), [], [], []);
      EmitI8(10);
      EmitI32(l);
      Pushed(prog, old(code), Fail(l), code);
      prog := prog + [Fail(l)];
    }

    method EmitOpReturn(x: nat)
      requires Valid()
      modifies this`code, this`prog
      ensures Valid() && prog == old(prog) + [Return(x)]
    {
      hide EncodeAll, Consts, I32, I16;
      Glue(code, 11, I32(x), [], [], []);
      EmitI8(11);
      EmitI32(x);
      Pushed(prog, old(code), Return(x), code);
      prog := prog + [Return(x)];
    }

    /** The label stands for the end of the code so far. */
    method EmitLabel(l: nat)
      requires Valid()
      modifies this`labels
      ensures labels == old(labels)[l := Offset(prog, |prog|)]
    {
      OffsetEnd(prog, 0);
      labels := labels[l := |code|];
    }

    /** FAIL operands become byte offsets: those of their labels. */
    method Relabel()
      requires Valid() && forall k :: 0 <= k < |prog| && prog[k].Fail? ==> prog[k].l < WORD
      modifies this`code, this`prog
      ensures Valid() && prog == Resolve(old(prog), labels) && code == EncodeAll(Resolve(old(prog), labels), 0)
    {
      hide EncodeAll, Consts, Resolve, Patching, Fetch32, I32, ResolveOne, Encode;
      var pc := 0;
      ghost var prog0, k := prog, 0;
      PatchingStarts(prog0, labels);
      PatchingEnds(prog0, labels, 0, code, 0);
      while pc < |code|
        invariant k <= |prog0| && Patching(prog0, labels, k, code, pc) && pc <= |code|
        invariant prog == prog0 && labels == old(labels) && data == old(data)
        decreases |code| - pc
      {
        PatchingAt(prog0, labels, k, code, pc);
        var op := code[pc];
        if op == 10 {
          PatchingFail(prog0, labels, k, code, pc, code);
          var l0 := Fetch32(code, pc + 1);
          var l1 := if l0 in labels then labels[l0] else 0;
          ghost var code0 := code;
          code := code[pc + 1 := l1 / 0x100_0000 % 256];
          code := code[pc + 2 := l1 / 0x1_0000 % 256];
          code := code[pc + 3 := l1 / 0x100 % 256];
          code := code[pc + 4 := l1 % 256];
          FourBytes(code0, pc, l1, code);
          PatchingFail(prog0, labels, k, code0, pc, code);
          pc := pc + 5;
        } else if op == 0 || op == 11 {
          pc := pc + 5;
        } else if op == 1 || op == 2 || op == 8 || op == 9 {
          pc := pc + 9;
        } else if op == 3 || op == 5 || op == 6 {
          pc := pc + 13;
        } else {
          pc := pc + 15;
        }
        k := k + 1;
        PatchingEnds(prog0, labels, k, code, pc);
      }
      PatchingEnds(prog0, labels, k, code, pc);
      ResolveAt(prog0, labels);
      prog := Resolve(prog0, labels);
    }
  }
}
