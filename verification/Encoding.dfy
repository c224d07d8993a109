/** Bytecode as bytes: what the coder writes, what the interpreter fetches, and labels as byte offsets. */
module Encoding {
  import opened Common
  import opened Terms
  import opened Heaps
  import opened Bytecode
  import opened Blocks

  type Byte = x: nat | x < 256

  const WORD := 0x1_0000_0000
  const HALF := 0x1_0000

  /** Four bytes, the most significant one first; higher bits are lost. */
  function I32(n: nat): seq<Byte> {
    [n / 0x100_0000 % 256, n / 0x1_0000 % 256, n / 0x100 % 256, n % 256]
  }

  function I16(n: nat): seq<Byte> {
    [n / 0x100 % 256, n % 256]
  }

  function Fetch32(b: seq<Byte>, pc: nat): nat
    requires pc + 4 <= |b|
  {
    Word(b[pc], b[pc + 1], b[pc + 2], b[pc + 3])
  }

  function Fetch16(b: seq<Byte>, pc: nat): nat
    requires pc + 2 <= |b|
  {
    Half(b[pc], b[pc + 1])
  }

  function Word(b0: nat, b1: nat, b2: nat, b3: nat): nat {
    b0 * 0x100_0000 + b1 * 0x1_0000 + b2 * 0x100 + b3
  }

  function Half(b0: nat, b1: nat): nat {
    b0 * 0x100 + b1
  }

  function Opcode(i: Instr): Byte {
    match i
    case Nil(_) => 0
    case Mov(_, _) => 1
    case Data(_, _) => 2
    case Set(_, _, _) => 3
    case Takex(_, _, _, _) => 4
    case Split(_, _, _) => 5
    case Array(_, _, _) => 6
    case Concatx(_, _, _, _) => 7
    case Test(_, _) => 8
    case Tag(_, _) => 9
    case Fail(_) => 10
    case Return(_) => 11
  }

  /** One instruction; d is the entry of the data section for its constant. */
  function Encode(i: Instr, d: nat): seq<Byte> {
    match i
    case Nil(x) => [0] + I32(x)
    case Mov(x, y) => [1] + I32(x) + I32(y)
    case Data(x, _) => [2] + I32(x) + I32(d)
    case Set(x, y, z) => [3] + I32(x) + I32(y) + I32(z)
    case Takex(x, y, z, k) => [4] + I32(x) + I32(y) + I32(z) + I16(k)
    case Split(x, y, z) => [5] + I32(x) + I32(y) + I32(z)
    case Array(x, y, z) => [6] + I32(x) + I32(y) + I32(z)
    case Concatx(x, y, z, k) => [7] + I32(x) + I32(y) + I32(z) + I16(k)
    case Test(x, y) => [8] + I32(x) + I32(y)
    case Tag(x, y) => [9] + I32(x) + I32(y)
    case Fail(l) => [10] + I32(l)
    case Return(x) => [11] + I32(x)
  }

  /** The length of the instruction with that opcode. */
  function Size(op: Byte): nat {
    if op == 0 || op == 10 || op == 11 then 5
    else if op == 1 || op == 2 || op == 8 || op == 9 then 9
    else if op == 3 || op == 5 || op == 6 then 13
    else if op == 4 || op == 7 then 15
    else 1
  }

  function Consts(code: seq<Instr>): seq<Atom> {
    if code == [] then []
    else (if code[0].Data? then [code[0].a] else []) + Consts(code[1..])
  }

  function EncodeAll(code: seq<Instr>, d: nat): seq<Byte>
    decreases |code|
  {
    if code == [] then []
    else Encode(code[0], d) + EncodeAll(code[1..], if code[0].Data? then d + 1 else d)
  }

  /** The byte offset of instruction k. */
  function Offset(code: seq<Instr>, k: nat): nat
    requires k <= |code|
    decreases k
  {
    if k == 0 then 0 else Size(Opcode(code[0])) + Offset(code[1..], k - 1)
  }

  /** The instruction at pc, its constant taken from the data section; None for a fetch beyond the code. */
  function Decode(b: seq<Byte>, data: seq<Atom>, pc: nat): Option<Instr>
    requires pc < |b| && b[pc] <= 11
  {
    if pc + Size(b[pc]) > |b| then None
    else
      var x := Fetch32(b, pc + 1);
      var op := b[pc];
      if op == 0 then Some(Nil(x))
      else if op == 10 then Some(Fail(x))
      else if op == 11 then Some(Return(x))
      else
        var y := Fetch32(b, pc + 5);
        if op == 1 then Some(Mov(x, y))
        else if op == 2 then (if y < |data| then Some(Data(x, data[y])) else None)
        else if op == 8 then Some(Test(x, y))
        else if op == 9 then Some(Tag(x, y))
        else
          var z := Fetch32(b, pc + 9);
          if op == 3 then Some(Set(x, y, z))
          else if op == 5 then Some(Split(x, y, z))
          else if op == 6 then Some(Array(x, y, z))
          else if op == 4 then Some(Takex(x, y, z, Fetch16(b, pc + 13)))
          else Some(Concatx(x, y, z, Fetch16(b, pc + 13)))
  }

  /** The interpreter: fetch, execute, advance; a byte that is no opcode is skipped. */
  function RunBytes(b: seq<Byte>, data: seq<Atom>, pc: nat, c: Cpu): Exit
    decreases |b| - pc
  {
    if pc >= |b| then Crashed
    else if b[pc] > 11 then RunBytes(b, data, pc + 1, c)
    else
      match Decode(b, data, pc)
      case None => Crashed
      case Some(i) =>
        match Exec(i, c)
        case Fall(c1) => RunBytes(b, data, pc + Size(b[pc]), c1)
        case Jump(l, c1) => if pc < l <= |b| then RunBytes(b, data, l, c1) else Stray
        case Ret(o, c1) => Returned(o, c1.heap)
        case Abort => Crashed
  }

  /** Labels as the coder sees them, byte offsets, and FAIL operands replaced by them. */
  function Resolve(code: seq<Instr>, labels: map<nat, nat>): seq<Instr> {
    if code == [] then []
    else [ResolveOne(code[0], labels)] + Resolve(code[1..], labels)
  }

  function ResolveOne(i: Instr, labels: map<nat, nat>): Instr {
    if i.Fail? then Fail(if i.l in labels then labels[i.l] else 0) else i
  }

  function ByteLabels(code: seq<Instr>, labels: Labels): map<nat, nat>
    requires forall l :: l in labels ==> labels[l] <= |code|
  {
    map l | l in labels :: Offset(code, labels[l])
  }

  // Round trip of one instruction

  /** The operands fit their fields. */
  predicate Narrow(i: Instr) {
    match i
    case Nil(x) => x < WORD
    case Mov(x, y) => x < WORD && y < WORD
    case Data(x, _) => x < WORD
    case Set(x, y, z) => x < WORD && y < WORD && z < WORD
    case Takex(x, y, z, k) => x < WORD && y < WORD && z < WORD && k < HALF
    case Split(x, y, z) => x < WORD && y < WORD && z < WORD
    case Array(x, y, z) => x < WORD && y < WORD && z < WORD
    case Concatx(x, y, z, k) => x < WORD && y < WORD && z < WORD && k < HALF
    case Test(x, y) => x < WORD && y < WORD
    case Tag(x, y) => x < WORD && y < WORD
    case Fail(l) => l < WORD
    case Return(x) => x < WORD
  }

  lemma Fetch32I32(b: seq<Byte>, pc: nat, n: nat)
    requires pc + 4 <= |b| && b[pc..pc + 4] == I32(n)
    ensures Fetch32(b, pc) == n % WORD
  {
    var s := b[pc..pc + 4];
    assert b[pc] == s[0] && b[pc + 1] == s[1] && b[pc + 2] == s[2] && b[pc + 3] == s[3];
    WordOf(n);
  }

  lemma WordOf(n: nat)
    ensures Word(n / 0x100_0000 % 256, n / 0x1_0000 % 256, n / 0x100 % 256, n % 256) == n % WORD
  {
    var q1, q2, q3 := n / 0x100, n / 0x1_0000, n / 0x100_0000;
    ByteOff(n);
    assert q2 == q1 / 0x100 && q3 == q2 / 0x100;
    ByteOff(q1);
    ByteOff(q2);
    ByteOff(q3);
    WordSum(n, n % 256, q1 % 256, q2 % 256, q3 % 256, q3 / 256);
  }

  lemma ByteOff(n: nat)
    ensures n == 0x100 * (n / 0x100) + n % 256 && n % 256 < 256
  {
  }

  lemma WordSum(n: nat, b0: nat, b1: nat, b2: nat, b3: nat, q: nat)
    requires b0 < 256 && b1 < 256 && b2 < 256 && b3 < 256
    requires n == b0 + 0x100 * (b1 + 0x100 * (b2 + 0x100 * (b3 + 0x100 * q)))
    ensures Word(b3, b2, b1, b0) == n % WORD
  {
    var w := Word(b3, b2, b1, b0);
    assert n == 0x1_0000_0000 * q + w && w < 0x1_0000_0000;
    WordRest(n, q, w);
  }

  lemma WordRest(n: nat, q: nat, w: nat)
    requires n == 0x1_0000_0000 * q + w && w < 0x1_0000_0000
    ensures n % 0x1_0000_0000 == w
  {
  }

  lemma Fetch16I16(b: seq<Byte>, pc: nat, n: nat)
    requires pc + 2 <= |b| && b[pc..pc + 2] == I16(n)
    ensures Fetch16(b, pc) == n % HALF
  {
    var s := b[pc..pc + 2];
    assert b[pc] == s[0] && b[pc + 1] == s[1];
  }

  lemma SliceOfSlice<T>(s: seq<T>, a: nat, b: nat, c: nat, d: nat)
    requires a <= b <= |s| && c <= d <= b - a
    ensures s[a..b][c..d] == s[a + c..a + d]
  {
    var t := s[a..b];
    var x, y := t[c..d], s[a + c..a + d];
    forall j | 0 <= j < |x| ensures x[j] == y[j] {
      assert t[c + j] == s[a + (c + j)];
    }
    assert x == y;
  }

  lemma Field(b: seq<Byte>, pc: nat, e: seq<Byte>, at: nat, n: nat)
    requires pc + |e| <= |b| && b[pc..pc + |e|] == e && at + 4 <= |e| && e[at..at + 4] == I32(n) && n < WORD
    ensures Fetch32(b, pc + at) == n
  {
    hide I32, Fetch32;
    SliceOfSlice(b, pc, pc + |e|, at, at + 4);
    Fetch32I32(b, pc + at, n);
  }

  lemma Slices(op: Byte, x: seq<Byte>, y: seq<Byte>, z: seq<Byte>, k: seq<Byte>)
    requires |x| == |y| == |z| == 4
    ensures [op] + x + y + z + [] == [op] + x + y + z
    ensures var e := [op] + x + y + z + k; e[1..5] == x && e[5..9] == y && e[9..13] == z && e[13..] == k
    ensures var e := [op] + x + y; e[1..5] == x && e[5..9] == y
    ensures var e := [op] + x; e[1..5] == x
  {
  }

  /** The operands of an instruction can be fetched from its bytes. */
  lemma OneField(b: seq<Byte>, pc: nat, op: Byte, x: nat)
    requires pc + 5 <= |b| && b[pc..pc + 5] == [op] + I32(x) && x < WORD
    ensures b[pc] == op && Fetch32(b, pc + 1) == x
  {
    Slices(op, I32(x), I32(x), I32(x), []);
    hide I32, Fetch32;
    var e := b[pc..pc + 5];
    assert b[pc] == e[0];
    Field(b, pc, e, 1, x);
  }

  lemma TwoFields(b: seq<Byte>, pc: nat, op: Byte, x: nat, y: nat)
    requires pc + 9 <= |b| && b[pc..pc + 9] == [op] + I32(x) + I32(y) && x < WORD && y < WORD
    ensures b[pc] == op && Fetch32(b, pc + 1) == x && Fetch32(b, pc + 5) == y
  {
    Slices(op, I32(x), I32(y), I32(x), []);
    hide I32, Fetch32;
    var e := b[pc..pc + 9];
    assert b[pc] == e[0];
    Field(b, pc, e, 1, x);
    Field(b, pc, e, 5, y);
  }

  lemma ThreeFields(b: seq<Byte>, pc: nat, op: Byte, x: nat, y: nat, z: nat, k: seq<Byte>)
    requires pc + 13 + |k| <= |b| && b[pc..pc + 13 + |k|] == [op] + I32(x) + I32(y) + I32(z) + k && x < WORD && y < WORD && z < WORD
    ensures b[pc] == op && Fetch32(b, pc + 1) == x && Fetch32(b, pc + 5) == y && Fetch32(b, pc + 9) == z && b[pc + 13..pc + 13 + |k|] == k
  {
    Slices(op, I32(x), I32(y), I32(z), k);
    hide I32, Fetch32;
    var e := b[pc..pc + 13 + |k|];
    assert b[pc] == e[0];
    Field(b, pc, e, 1, x);
    Field(b, pc, e, 5, y);
    Field(b, pc, e, 9, z);
    SliceOfSlice(b, pc, pc + 13 + |k|, 13, 13 + |k|);
    assert e[13..] == e[13..13 + |k|];
  }

  lemma FourFields(b: seq<Byte>, pc: nat, op: Byte, x: nat, y: nat, z: nat, k: nat)
    requires pc + 15 <= |b| && b[pc..pc + 15] == [op] + I32(x) + I32(y) + I32(z) + I16(k) && x < WORD && y < WORD && z < WORD && k < HALF
    ensures b[pc] == op && Fetch32(b, pc + 1) == x && Fetch32(b, pc + 5) == y && Fetch32(b, pc + 9) == z && Fetch16(b, pc + 13) == k
  {
    Lengths();
    hide I32, Fetch32;
    ThreeFields(b, pc, op, x, y, z, I16(k));
    Fetch16I16(b, pc + 13, k);
  }

  /** Decoding what was encoded gives the instruction back. */
  lemma DecodeEncode(b: seq<Byte>, data: seq<Atom>, pc: nat, i: Instr, d: nat)
    requires pc + |Encode(i, d)| <= |b| && b[pc..pc + |Encode(i, d)|] == Encode(i, d) && Narrow(i)
    requires i.Data? ==> d < WORD && d < |data| && data[d] == i.a
    ensures |Encode(i, d)| == Size(Opcode(i)) && b[pc] == Opcode(i)
    ensures Decode(b, data, pc) == Some(i)
  {
    SizeEncode(i, d);
    hide I32, I16, Fetch32, Fetch16;
    match i
    case Nil(x) => OneField(b, pc, 0, x);
    case Mov(x, y) => TwoFields(b, pc, 1, x, y);
    case Data(x, _) => TwoFields(b, pc, 2, x, d);
    case Set(x, y, z) => ThreeFields(b, pc, 3, x, y, z, []);
    case Takex(x, y, z, k) => FourFields(b, pc, 4, x, y, z, k);
    case Split(x, y, z) => ThreeFields(b, pc, 5, x, y, z, []);
    case Array(x, y, z) => ThreeFields(b, pc, 6, x, y, z, []);
    case Concatx(x, y, z, k) => FourFields(b, pc, 7, x, y, z, k);
    case Test(x, y) => TwoFields(b, pc, 8, x, y);
    case Tag(x, y) => TwoFields(b, pc, 9, x, y);
    case Fail(l) => OneField(b, pc, 10, l);
    case Return(x) => OneField(b, pc, 11, x);
  }

  lemma Lengths()
    ensures forall n :: |I32(n)| == 4
    ensures forall n :: |I16(n)| == 2
  {
  }

  // The format of an instruction

  /** Four bytes hold n, the most significant one first. */
  predicate Big32(b: seq<Byte>, at: nat, n: nat) {
    at + 4 <= |b| && n == b[at] as int * 16777216 + b[at + 1] as int * 65536 + b[at + 2] as int * 256 + b[at + 3] as int
  }

  predicate Big16(b: seq<Byte>, at: nat, n: nat) {
    at + 2 <= |b| && n == b[at] as int * 256 + b[at + 1] as int
  }

  lemma OneOperand(op: Byte, x: nat)
    ensures var e := [op] + I32(x); |e| == 5 && e[0] == op && Big32(e, 1, x % WORD)
  {
    Lengths();
    WordOf(x);
  }

  lemma TwoOperands(op: Byte, x: nat, y: nat)
    ensures var e := [op] + I32(x) + I32(y); |e| == 9 && e[0] == op && Big32(e, 1, x % WORD) && Big32(e, 5, y % WORD)
  {
    Lengths();
    WordOf(x);
    WordOf(y);
  }

  lemma ThreeOperands(op: Byte, x: nat, y: nat, z: nat)
    ensures var e := [op] + I32(x) + I32(y) + I32(z);
            |e| == 13 && e[0] == op && Big32(e, 1, x % WORD) && Big32(e, 5, y % WORD) && Big32(e, 9, z % WORD)
  {
    Lengths();
    WordOf(x);
    WordOf(y);
    WordOf(z);
  }

  lemma WithIndex(op: Byte, x: nat, y: nat, z: nat, k: nat)
    ensures var e := [op] + I32(x) + I32(y) + I32(z) + I16(k);
            && |e| == 15 && e[0] == op && Big32(e, 1, x % WORD) && Big32(e, 5, y % WORD) && Big32(e, 9, z % WORD)
            && Big16(e, 13, k % HALF)
  {
    ThreeOperands(op, x, y, z);
    Lengths();
    hide I32;
    var e3 := [op] + I32(x) + I32(y) + I32(z);
    var e := e3 + I16(k);
    assert e[..13] == e3;
    assert e[13] == I16(k)[0] && e[14] == I16(k)[1];
    assert forall j :: 0 <= j < 13 ==> e[j] == e3[j];
  }

  /** The numbers of the opcodes, and where each operand is. Constants are entries of the data section. */
  lemma EncodeLayout(i: Instr, d: nat)
    ensures var e := Encode(i, d);
            && (i.Nil? ==> |e| == 5 && e[0] == 0 && Big32(e, 1, i.x % WORD))
            && (i.Mov? ==> |e| == 9 && e[0] == 1 && Big32(e, 1, i.x % WORD) && Big32(e, 5, i.y % WORD))
            && (i.Data? ==> |e| == 9 && e[0] == 2 && Big32(e, 1, i.x % WORD) && Big32(e, 5, d % WORD))
            && (i.Set? ==> |e| == 13 && e[0] == 3 && Big32(e, 1, i.x % WORD) && Big32(e, 5, i.y % WORD) && Big32(e, 9, i.z % WORD))
            && (i.Takex? ==> |e| == 15 && e[0] == 4 && Big32(e, 1, i.x % WORD) && Big32(e, 5, i.y % WORD) && Big32(e, 9, i.z % WORD)
                             && Big16(e, 13, i.i % HALF))
            && (i.Split? ==> |e| == 13 && e[0] == 5 && Big32(e, 1, i.x % WORD) && Big32(e, 5, i.y % WORD) && Big32(e, 9, i.z % WORD))
            && (i.Array? ==> |e| == 13 && e[0] == 6 && Big32(e, 1, i.x % WORD) && Big32(e, 5, i.y % WORD) && Big32(e, 9, i.z % WORD))
            && (i.Concatx? ==> |e| == 15 && e[0] == 7 && Big32(e, 1, i.x % WORD) && Big32(e, 5, i.y % WORD) && Big32(e, 9, i.z % WORD)
                               && Big16(e, 13, i.i % HALF))
            && (i.Test? ==> |e| == 9 && e[0] == 8 && Big32(e, 1, i.x % WORD) && Big32(e, 5, i.y % WORD))
            && (i.Tag? ==> |e| == 9 && e[0] == 9 && Big32(e, 1, i.x % WORD) && Big32(e, 5, i.y % WORD))
            && (i.Fail? ==> |e| == 5 && e[0] == 10 && Big32(e, 1, i.l % WORD))
            && (i.Return? ==> |e| == 5 && e[0] == 11 && Big32(e, 1, i.x % WORD))
  {
    hide I32, I16, Big32, Big16;
    match i
    case Nil(x) => OneOperand(0, x);
    case Mov(x, y) => TwoOperands(1, x, y);
    case Data(x, _) => TwoOperands(2, x, d);
    case Set(x, y, z) => ThreeOperands(3, x, y, z);
    case Takex(x, y, z, k) => WithIndex(4, x, y, z, k);
    case Split(x, y, z) => ThreeOperands(5, x, y, z);
    case Array(x, y, z) => ThreeOperands(6, x, y, z);
    case Concatx(x, y, z, k) => WithIndex(7, x, y, z, k);
    case Test(x, y) => TwoOperands(8, x, y);
    case Tag(x, y) => TwoOperands(9, x, y);
    case Fail(l) => OneOperand(10, l);
    case Return(x) => OneOperand(11, x);
  }

  // The byte interpreter does what the instructions say

  /** The code fits the fields of its encoding once labels are byte offsets. */
  ghost predicate Encodable(code: seq<Instr>, labels: Labels) {
    && (forall l :: l in labels ==> labels[l] <= |code|)
    && (forall k :: 0 <= k < |code| ==> Narrow(ResolveOne(code[k], ByteLabels(code, labels))))
    && |Consts(code)| < WORD
  }

  lemma {:induction false} ResolveAt(code: seq<Instr>, bl: map<nat, nat>)
    ensures |Resolve(code, bl)| == |code|
    ensures forall k :: 0 <= k < |code| ==> Resolve(code, bl)[k] == ResolveOne(code[k], bl)
    ensures forall k :: 0 <= k < |code| ==>
              Resolve(code, bl)[k] == if !code[k].Fail? then code[k] else if code[k].l in bl then Fail(bl[code[k].l]) else Fail(0)
    ensures Consts(Resolve(code, bl)) == Consts(code)
    decreases |code|
  {
    if code != [] {
      ResolveAt(code[1..], bl);
      assert Resolve(code, bl)[1..] == Resolve(code[1..], bl);
    }
  }

  lemma {:induction false} ResolveOffset(code: seq<Instr>, bl: map<nat, nat>, k: nat)
    requires k <= |code|
    ensures |Resolve(code, bl)| == |code| && Offset(Resolve(code, bl), k) == Offset(code, k)
    decreases k
  {
    ResolveAt(code, bl);
    if k > 0 {
      assert Resolve(code, bl)[1..] == Resolve(code[1..], bl);
      ResolveOffset(code[1..], bl, k - 1);
    }
  }

  /** How many constants the first k instructions have. */
  function ConstsBefore(code: seq<Instr>, k: nat): nat
    requires k <= |code|
    decreases k
  {
    if k == 0 then 0 else (if code[0].Data? then 1 else 0) + ConstsBefore(code[1..], k - 1)
  }

  lemma {:induction false} ConstsAt(code: seq<Instr>, k: nat)
    requires k < |code| && code[k].Data?
    ensures ConstsBefore(code, k) < |Consts(code)| && Consts(code)[ConstsBefore(code, k)] == code[k].a
    decreases k
  {
    if k > 0 {
      ConstsAt(code[1..], k - 1);
    }
  }

  /** Dropping the first k instructions drops their bytes. */
  lemma {:induction false} EncodeSplit(code: seq<Instr>, d: nat, k: nat)
    requires k <= |code|
    ensures Offset(code, k) <= |EncodeAll(code, d)|
    ensures EncodeAll(code, d)[Offset(code, k)..] == EncodeAll(code[k..], d + ConstsBefore(code, k))
    decreases k
  {
    if k == 0 {
      assert code[0..] == code;
    } else {
      EncodeSplitStep(code, d, k);
    }
  }

  lemma OffsetZero(code: seq<Instr>)
    ensures Offset(code, 0) == 0
  {
  }

  lemma OffsetStep(code: seq<Instr>, k: nat)
    requires k <= |code|
    ensures k > 0 ==> Offset(code, k) == Size(Opcode(code[0])) + Offset(code[1..], k - 1)
  {
  }

  lemma EncodeStep(code: seq<Instr>, d: nat)
    requires code != []
    ensures EncodeAll(code, d) == Encode(code[0], d) + EncodeAll(code[1..], if code[0].Data? then d + 1 else d)
    ensures Consts(code) == (if code[0].Data? then [code[0].a] else []) + Consts(code[1..])
  {
  }

  lemma EncodeEmpty(d: nat)
    ensures EncodeAll([], d) == [] && Consts([]) == []
  {
  }

  lemma ConstsStep(code: seq<Instr>, k: nat)
    requires 0 < k <= |code|
    ensures ConstsBefore(code, k) == (if code[0].Data? then 1 else 0) + ConstsBefore(code[1..], k - 1)
  {
  }

  lemma {:induction false} EncodeSplitStep(code: seq<Instr>, d: nat, k: nat)
    requires 0 < k <= |code|
    ensures Offset(code, k) <= |EncodeAll(code, d)|
    ensures EncodeAll(code, d)[Offset(code, k)..] == EncodeAll(code[k..], d + ConstsBefore(code, k))
    decreases k, 0
  {
    hide EncodeAll, Offset, ConstsBefore, Encode, Size, Opcode, Consts;
    var d1 := if code[0].Data? then d + 1 else d;
    EncodeStep(code, d);
    OffsetStep(code, k);
    ConstsStep(code, k);
    EncodeSplit(code[1..], d1, k - 1);
    assert code[1..][k - 1..] == code[k..];
    SizeEncode(code[0], d);
    DropAppend(Encode(code[0], d), EncodeAll(code[1..], d1), Offset(code[1..], k - 1));
  }

  lemma DropAppend(a: seq<Byte>, b: seq<Byte>, k: nat)
    requires k <= |b|
    ensures (a + b)[|a| + k..] == b[k..]
  {
  }

  lemma SizeEncode(i: Instr, d: nat)
    ensures |Encode(i, d)| == Size(Opcode(i)) && Encode(i, d)[0] == Opcode(i)
  {
    hide I32, I16;
    assert forall n :: |I32(n)| == 4 by { Lengths(); }
    assert forall n :: |I16(n)| == 2 by { Lengths(); }
  }

  lemma {:induction false} OffsetMonotone(code: seq<Instr>, j: nat, k: nat)
    requires j <= k <= |code|
    ensures j < k ==> Offset(code, j) < Offset(code, k)
    decreases j
  {
    if j > 0 {
      OffsetMonotone(code[1..], j - 1, k - 1);
    }
  }

  lemma OffsetNext(code: seq<Instr>, k: nat)
    requires k < |code|
    ensures Offset(code, k + 1) == Offset(code, k) + Size(Opcode(code[k]))
    decreases k
  {
    if k > 0 {
      OffsetNext(code[1..], k - 1);
    }
  }

  lemma {:induction false} OffsetEnd(code: seq<Instr>, d: nat)
    ensures Offset(code, |code|) == |EncodeAll(code, d)|
    decreases |code|
  {
    if code != [] {
      SizeEncode(code[0], d);
      OffsetEnd(code[1..], if code[0].Data? then d + 1 else d);
    }
  }

  /** The bytes at the offset of instruction k decode to it. */
  lemma DecodeAt(code: seq<Instr>, k: nat)
    requires k < |code| && Narrow(code[k]) && |Consts(code)| < WORD
    ensures var b := EncodeAll(code, 0);
            Offset(code, k) < |b| && b[Offset(code, k)] == Opcode(code[k]) && Decode(b, Consts(code), Offset(code, k)) == Some(code[k])
  {
    hide EncodeAll, Offset, Consts, ConstsBefore, Encode, Decode, Narrow;
    EncodeSplit(code, 0, k);
    if code[k].Data? {
      ConstsAt(code, k);
    }
    DecodeHere(EncodeAll(code, 0), Consts(code), Offset(code, k), code[k..], ConstsBefore(code, k));
  }

  lemma DecodeHere(b: seq<Byte>, data: seq<Atom>, pc: nat, rest: seq<Instr>, d: nat)
    requires rest != [] && Narrow(rest[0]) && pc <= |b| && b[pc..] == EncodeAll(rest, d)
    requires rest[0].Data? ==> d < |data| < WORD && data[d] == rest[0].a
    ensures pc < |b| && b[pc] == Opcode(rest[0]) && Decode(b, data, pc) == Some(rest[0])
  {
    var e := Encode(rest[0], d);
    var tail := EncodeAll(rest[1..], if rest[0].Data? then d + 1 else d);
    assert b[pc..] == e + tail;
    hide EncodeAll, Encode, Decode, Narrow, Size, Opcode;
    SizeEncode(rest[0], d);
    assert (e + tail)[..|e|] == e;
    assert b[pc..pc + |e|] == b[pc..][..|e|];
    DecodeEncode(b, data, pc, rest[0], d);
  }

  /** Running the bytes from the offset of instruction k is running the instructions from k. */
  lemma {:induction false} BytesRun(code: seq<Instr>, labels: Labels, k: nat, c: Cpu)
    requires Encodable(code, labels) && k <= |code|
    ensures var b := EncodeAll(Resolve(code, ByteLabels(code, labels)), 0);
            RunBytes(b, Consts(code), Offset(code, k), c) == RunFrom(code, labels, k, c)
    decreases |code| - k
  {
    hide Encodable, Resolve, EncodeAll, Offset, Consts, Exec, RunBytes, RunFrom, ByteLabels;
    if k == |code| {
      EndRun(code, labels, c);
    } else if Exec(code[k], c).Jump? {
      BytesJump(code, labels, k, c);
      var l := code[k].l;
      if l in labels && k < labels[l] {
        EncodableLabel(code, labels, l);
        BytesRun(code, labels, labels[l], Exec(code[k], c).c);
      }
    } else {
      BytesFall(code, labels, k, c);
      if Exec(code[k], c).Fall? {
        BytesRun(code, labels, k + 1, Exec(code[k], c).c);
      }
    }
  }

  lemma EncodableLabel(code: seq<Instr>, labels: Labels, l: nat)
    requires Encodable(code, labels) && l in labels
    ensures labels[l] <= |code|
  {
    hide Resolve, EncodeAll, Offset, Narrow, ByteLabels;
  }

  /** A taken jump goes to the bytes of the labelled instruction, and is astray exactly when that is not ahead. */
  lemma BytesJump(code: seq<Instr>, labels: Labels, k: nat, c: Cpu)
    requires Encodable(code, labels) && k < |code| && Exec(code[k], c).Jump?
    ensures var b := EncodeAll(Resolve(code, ByteLabels(code, labels)), 0);
            var c1 := Exec(code[k], c).c;
            code[k].Fail? &&
            var l := code[k].l;
            if l in labels && k < labels[l]
            then RunBytes(b, Consts(code), Offset(code, k), c) == RunBytes(b, Consts(code), Offset(code, labels[l]), c1)
                 && RunFrom(code, labels, k, c) == RunFrom(code, labels, labels[l], c1)
            else RunBytes(b, Consts(code), Offset(code, k), c) == RunFrom(code, labels, k, c)
  {
    hide Resolve, EncodeAll, Offset, Consts, Exec, Narrow, RunBytes, RunFrom, ByteLabels, ResolveOne;
    var bl := ByteLabels(code, labels);
    BytesAt(code, labels, k, c);
    FromStep(code, labels, k, c);
    JumpResolved(code[k], bl, c);
    var l := code[k].l;
    if l in labels {
      JumpTarget(code, labels, k, l);
    } else {
      LabelKeys(code, labels, l);
    }
  }

  lemma LabelKeys(code: seq<Instr>, labels: Labels, l: nat)
    requires (forall m :: m in labels ==> labels[m] <= |code|) && l !in labels
    ensures l !in ByteLabels(code, labels)
  {
    hide Offset;
  }

  lemma BytesFall(code: seq<Instr>, labels: Labels, k: nat, c: Cpu)
    requires Encodable(code, labels) && k < |code| && !Exec(code[k], c).Jump?
    ensures var b := EncodeAll(Resolve(code, ByteLabels(code, labels)), 0);
            if Exec(code[k], c).Fall?
            then RunBytes(b, Consts(code), Offset(code, k), c) == RunBytes(b, Consts(code), Offset(code, k + 1), Exec(code[k], c).c)
                 && RunFrom(code, labels, k, c) == RunFrom(code, labels, k + 1, Exec(code[k], c).c)
            else RunBytes(b, Consts(code), Offset(code, k), c) == RunFrom(code, labels, k, c)
  {
    hide Resolve, EncodeAll, Offset, Consts, Exec, Narrow, RunBytes, RunFrom, ByteLabels, ResolveOne;
    BytesAt(code, labels, k, c);
    FromStep(code, labels, k, c);
    FallResolved(code[k], ByteLabels(code, labels), c);
  }

  lemma EndRun(code: seq<Instr>, labels: Labels, c: Cpu)
    requires Encodable(code, labels)
    ensures RunBytes(EncodeAll(Resolve(code, ByteLabels(code, labels)), 0), Consts(code), Offset(code, |code|), c) == RunFrom(code, labels, |code|, c)
  {
    var bl := ByteLabels(code, labels);
    hide Resolve, EncodeAll, Offset, Consts, ByteLabels;
    ResolveAt(code, bl);
    ResolveOffset(code, bl, |code|);
    OffsetEnd(Resolve(code, bl), 0);
  }

  /** The order of label positions is the order of their byte offsets. */
  lemma JumpTarget(code: seq<Instr>, labels: Labels, k: nat, l: nat)
    requires Encodable(code, labels) && k < |code| && l in labels
    ensures var bl := ByteLabels(code, labels);
            l in bl && bl[l] == Offset(code, labels[l]) <= |EncodeAll(Resolve(code, bl), 0)|
            && (Offset(code, k) < bl[l] <==> k < labels[l])
  {
    var bl := ByteLabels(code, labels);
    var rc := Resolve(code, bl);
    hide Resolve, EncodeAll, Offset;
    ResolveAt(code, bl);
    ResolveOffset(code, bl, |code|);
    OffsetEnd(rc, 0);
    OffsetMonotone(code, labels[l], |code|);
    if k < labels[l] {
      OffsetMonotone(code, k, labels[l]);
    } else {
      OffsetMonotone(code, labels[l], k);
    }
  }

  /** One step of the byte interpreter, at the bytes of instruction k. */
  lemma BytesAt(code: seq<Instr>, labels: Labels, k: nat, c: Cpu)
    requires Encodable(code, labels) && k < |code|
    ensures var bl := ByteLabels(code, labels);
            var b := EncodeAll(Resolve(code, bl), 0);
            RunBytes(b, Consts(code), Offset(code, k), c) ==
              match Exec(ResolveOne(code[k], bl), c)
              case Fall(c1) => RunBytes(b, Consts(code), Offset(code, k + 1), c1)
              case Jump(l, c1) => if Offset(code, k) < l <= |b| then RunBytes(b, Consts(code), l, c1) else Stray
              case Ret(o, c1) => Returned(o, c1.heap)
              case Abort => Crashed
  {
    hide Resolve, EncodeAll, Offset, Consts, Decode, Exec, Narrow, Size, Opcode, RunBytes, ByteLabels, ResolveOne;
    var bl := ByteLabels(code, labels);
    var rc := Resolve(code, bl);
    ResolveAt(code, bl);
    ResolveOffset(code, bl, k);
    ResolveOffset(code, bl, k + 1);
    OffsetNext(rc, k);
    DecodeAt(rc, k);
    BytesStep(EncodeAll(rc, 0), Consts(code), Offset(rc, k), rc[k], c);
  }

  lemma FromStep(code: seq<Instr>, labels: Labels, k: nat, c: Cpu)
    requires k < |code|
    ensures RunFrom(code, labels, k, c) ==
      match Exec(code[k], c)
      case Fall(c1) => RunFrom(code, labels, k + 1, c1)
      case Jump(l, c1) => if l in labels && k < labels[l] <= |code| then RunFrom(code, labels, labels[l], c1) else Stray
      case Ret(o, c1) => Returned(o, c1.heap)
      case Abort => Crashed
  {
    hide Exec;
  }

  lemma BytesStep(b: seq<Byte>, data: seq<Atom>, pc: nat, i: Instr, c: Cpu)
    requires pc < |b| && b[pc] == Opcode(i) && Decode(b, data, pc) == Some(i)
    ensures RunBytes(b, data, pc, c) ==
      match Exec(i, c)
      case Fall(c1) => RunBytes(b, data, pc + Size(Opcode(i)), c1)
      case Jump(l, c1) => if pc < l <= |b| then RunBytes(b, data, l, c1) else Stray
      case Ret(o, c1) => Returned(o, c1.heap)
      case Abort => Crashed
  {
    hide Exec;
  }

  lemma FallResolved(i: Instr, bl: map<nat, nat>, c: Cpu)
    requires !Exec(i, c).Jump?
    ensures Exec(ResolveOne(i, bl), c) == Exec(i, c)
  {
  }

  lemma JumpResolved(i: Instr, bl: map<nat, nat>, c: Cpu)
    requires Exec(i, c).Jump?
    ensures i.Fail? && Exec(i, c).l == i.l && Exec(ResolveOne(i, bl), c) == Jump(if i.l in bl then bl[i.l] else 0, Exec(i, c).c)
  {
  }
}
