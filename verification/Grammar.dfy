/** What the assembler accepts: the lines it reads as instructions, and that everything else is a syntax error. */
module Grammar {
  import opened Common
  import opened Terms
  import opened Bytecode
  import opened Encoding
  import opened Assembly

  predicate IsRegister(w: Lexeme, x: nat) {
    w != [] && w[0] == 'r' && x == DecimalInt(w[1..])
  }

  predicate Three(ws: seq<Lexeme>, x: nat, y: nat, z: nat) {
    |ws| >= 4 && IsRegister(ws[1], x) && IsRegister(ws[2], y) && IsRegister(ws[3], z)
  }

  /** The words read as the instruction; d is the entry of the data section they name. */
  predicate ReadsAs(ws: seq<Lexeme>, i: Instr, d: nat) {
    match i
    case Nil(x) => |ws| == 2 && ws[0] == "nil" && IsRegister(ws[1], x)
    case Mov(x, y) => |ws| == 3 && ws[0] == "mov" && IsRegister(ws[1], x) && IsRegister(ws[2], y)
    case Data(x, _) => |ws| == 3 && ws[0] == "data" && IsRegister(ws[1], x) && d == DecimalInt(ws[2])
    case Set(x, y, z) => |ws| == 4 && ws[0] == "set" && Three(ws, x, y, z)
    case Takex(x, y, z, k) => |ws| == 5 && ws[0] == "takex" && Three(ws, x, y, z) && k == DecimalInt(ws[4])
    case Split(x, y, z) => |ws| == 4 && ws[0] == "split" && Three(ws, x, y, z)
    case Array(x, y, z) => |ws| == 4 && ws[0] == "array" && Three(ws, x, y, z)
    case Concatx(x, y, z, k) => |ws| == 5 && ws[0] == "concatx" && Three(ws, x, y, z) && k == DecimalInt(ws[4])
    case Test(x, y) => |ws| == 3 && ws[0] == "test" && IsRegister(ws[1], x) && IsRegister(ws[2], y)
    case Tag(x, y) => |ws| == 3 && ws[0] == "tag" && IsRegister(ws[1], x) && IsRegister(ws[2], y)
    case Fail(l) => |ws| == 2 && ws[0] == "fail" && l == HexInt(ws[1])
    case Return(x) => |ws| == 2 && ws[0] == "return" && IsRegister(ws[1], x)
  }

  /** Lines of an ignored word and the words of an instruction, up to the word that starts the data section. */
  ghost predicate Reads(ws: seq<Lexeme>, b: seq<Byte>, rest: seq<Lexeme>)
    decreases |ws|
  {
    ws != [] && if ws[0] == "data" then b == [] && rest == ws
                else exists n: nat, i, d: nat, b1 :: ReadsLine(ws, n, i, d, b, b1) && Reads(ws[1 + n..], b1, rest)
  }

  /** The first n words after the first one are an instruction, and b1 is what follows its bytes. */
  ghost predicate ReadsLine(ws: seq<Lexeme>, n: nat, i: Instr, d: nat, b: seq<Byte>, b1: seq<Byte>) {
    1 + n <= |ws| && ReadsAs(ws[1..1 + n], i, d) && b == Encode(i, d) + b1
  }

  // The operands

  /** The values of the first words as operands. */
  ghost predicate Values(os: seq<Operand>, ws: seq<Lexeme>, vs: seq<nat>) {
    && |vs| == |os| <= |ws|
    && forall k :: 0 <= k < |os| ==> OperandValue(os[k], ws[k]) == Some(vs[k])
  }

  function BytesOf(os: seq<Operand>, vs: seq<nat>): seq<Byte>
    requires |vs| == |os|
  {
    if os == [] then [] else OperandBytes(os[0], vs[0]) + BytesOf(os[1..], vs[1..])
  }

  lemma {:induction false} OperandsGive(os: seq<Operand>, ws: seq<Lexeme>, vs: seq<nat>)
    requires Values(os, ws, vs)
    ensures Operands(os, ws) == Parsed(BytesOf(os, vs), ws[|os|..])
    decreases |os|
  {
    hide OperandValue, OperandBytes;
    if os != [] {
      assert OperandValue(os[0], ws[0]) == Some(vs[0]);
      OperandsGive(os[1..], ws[1..], vs[1..]);
    }
  }

  lemma {:induction false} OperandsNeed(os: seq<Operand>, ws: seq<Lexeme>) returns (vs: seq<nat>)
    requires Operands(os, ws).Parsed?
    ensures Values(os, ws, vs)
    decreases |os|
  {
    hide OperandValue, OperandBytes;
    if os == [] {
      vs := [];
    } else {
      var us := OperandsNeed(os[1..], ws[1..]);
      vs := [OperandValue(os[0], ws[0]).value] + us;
    }
  }

  // The instructions

  /** The operands of an instruction; that of a constant is its entry. */
  function Fields(i: Instr, d: nat): seq<nat> {
    match i
    case Nil(x) => [x]
    case Mov(x, y) => [x, y]
    case Data(x, _) => [x, d]
    case Set(x, y, z) => [x, y, z]
    case Takex(x, y, z, k) => [x, y, z, k]
    case Split(x, y, z) => [x, y, z]
    case Array(x, y, z) => [x, y, z]
    case Concatx(x, y, z, k) => [x, y, z, k]
    case Test(x, y) => [x, y]
    case Tag(x, y) => [x, y]
    case Fail(l) => [l]
    case Return(x) => [x]
  }

  lemma OneBytes(o: Operand, v: nat)
    ensures BytesOf([o], [v]) == OperandBytes(o, v)
  {
    assert [o][1..] == [] && [v][1..] == [];
  }

  lemma MoreBytes(o: Operand, os: seq<Operand>, v: nat, vs: seq<nat>)
    requires |vs| == |os|
    ensures BytesOf([o] + os, [v] + vs) == OperandBytes(o, v) + BytesOf(os, vs)
  {
    assert ([o] + os)[1..] == os && ([v] + vs)[1..] == vs;
  }

  lemma TwoBytes(o: Operand, x: nat, v: nat)
    ensures BytesOf([Register, o], [x, v]) == I32(x) + OperandBytes(o, v)
  {
    hide BytesOf, I32;
    OneBytes(o, v);
    MoreBytes(Register, [o], x, [v]);
    assert [Register] + [o] == [Register, o] && [x] + [v] == [x, v];
  }

  lemma ThreeBytes(x: nat, y: nat, z: nat)
    ensures BytesOf([Register, Register, Register], [x, y, z]) == I32(x) + I32(y) + I32(z)
  {
    hide BytesOf, I32;
    TwoBytes(Register, y, z);
    MoreBytes(Register, [Register, Register], x, [y, z]);
    assert [Register] + [Register, Register] == [Register, Register, Register] && [x] + [y, z] == [x, y, z];
  }

  lemma FourBytes(x: nat, y: nat, z: nat, k: nat)
    ensures BytesOf([Register, Register, Register, Index], [x, y, z, k]) == I32(x) + I32(y) + I32(z) + I16(k)
  {
    hide BytesOf, I32, I16;
    TwoBytes(Index, z, k);
    MoreBytes(Register, [Register, Index], y, [z, k]);
    assert [Register] + [Register, Index] == [Register, Register, Index] && [y] + [z, k] == [y, z, k];
    MoreBytes(Register, [Register, Register, Index], x, [y, z, k]);
    assert [Register] + [Register, Register, Index] == [Register, Register, Register, Index] && [x] + [y, z, k] == [x, y, z, k];
  }

  lemma Grouped(a: seq<Byte>, x: seq<Byte>, y: seq<Byte>, z: seq<Byte>, k: seq<Byte>)
    ensures a + x + y + z == a + (x + y + z) && a + x + y + z + k == a + (x + y + z + k)
    ensures a + x + y == a + (x + y)
  {
  }

  lemma ShortBytes(i: Instr, d: nat)
    requires i.Nil? || i.Fail? || i.Return?
    ensures |Fields(i, d)| == |Layout(Opcode(i))|
    ensures Encode(i, d) == [Opcode(i)] + BytesOf(Layout(Opcode(i)), Fields(i, d))
  {
    hide BytesOf, I32, I16;
    if i.Fail? {
      OneBytes(Label, i.l);
    } else {
      OneBytes(Register, i.x);
    }
  }

  lemma PairBytes(i: Instr, d: nat)
    requires i.Mov? || i.Data? || i.Test? || i.Tag?
    ensures |Fields(i, d)| == |Layout(Opcode(i))|
    ensures Encode(i, d) == [Opcode(i)] + BytesOf(Layout(Opcode(i)), Fields(i, d))
  {
    hide BytesOf, I32, I16;
    if i.Data? {
      TwoBytes(Number, i.x, d);
      Grouped([Opcode(i)], I32(i.x), I32(d), [], []);
    } else {
      Grouped([Opcode(i)], I32(i.x), I32(i.y), [], []);
      TwoBytes(Register, i.x, i.y);
    }
  }

  lemma TripleBytes(i: Instr, d: nat)
    requires i.Set? || i.Split? || i.Array?
    ensures |Fields(i, d)| == |Layout(Opcode(i))|
    ensures Encode(i, d) == [Opcode(i)] + BytesOf(Layout(Opcode(i)), Fields(i, d))
  {
    hide BytesOf, I32, I16;
    ThreeBytes(i.x, i.y, i.z);
    Grouped([Opcode(i)], I32(i.x), I32(i.y), I32(i.z), []);
  }

  lemma LongBytes(i: Instr, d: nat)
    requires i.Takex? || i.Concatx?
    ensures |Fields(i, d)| == |Layout(Opcode(i))|
    ensures Encode(i, d) == [Opcode(i)] + BytesOf(Layout(Opcode(i)), Fields(i, d))
  {
    hide BytesOf, I32, I16;
    FourBytes(i.x, i.y, i.z, i.i);
    Grouped([Opcode(i)], I32(i.x), I32(i.y), I32(i.z), I16(i.i));
  }

  lemma FieldsBytes(i: Instr, d: nat)
    ensures |Fields(i, d)| == |Layout(Opcode(i))|
    ensures Encode(i, d) == [Opcode(i)] + BytesOf(Layout(Opcode(i)), Fields(i, d))
  {
    hide BytesOf, Encode, Fields, Layout;
    if i.Nil? || i.Fail? || i.Return? {
      ShortBytes(i, d);
    } else if i.Mov? || i.Data? || i.Test? || i.Tag? {
      PairBytes(i, d);
    } else if i.Set? || i.Split? || i.Array? {
      TripleBytes(i, d);
    } else {
      LongBytes(i, d);
    }
  }

  lemma RegisterIs()
    ensures forall w: Lexeme, x: nat :: IsRegister(w, x) <==> OperandValue(Register, w) == Some(x)
  {
  }

  lemma FewValues(os: seq<Operand>, ws: seq<Lexeme>, vs: seq<nat>)
    requires |vs| == |os| == |ws| && 1 <= |os| <= 4
    ensures Values(os, ws, vs) <==>
              && OperandValue(os[0], ws[0]) == Some(vs[0])
              && (|os| > 1 ==> OperandValue(os[1], ws[1]) == Some(vs[1]))
              && (|os| > 2 ==> OperandValue(os[2], ws[2]) == Some(vs[2]))
              && (|os| > 3 ==> OperandValue(os[3], ws[3]) == Some(vs[3]))
  {
    hide OperandValue;
  }

  lemma ShortReads(ws: seq<Lexeme>, i: Instr, d: nat)
    requires i.Nil? || i.Fail? || i.Return?
    ensures ReadsAs(ws, i, d) <==>
              && |ws| == 1 + |Layout(Opcode(i))| && ws[0] == OPERATORS[Opcode(i)]
              && Values(Layout(Opcode(i)), ws[1..], Fields(i, d))
  {
    RegisterIs();
    hide IsRegister, DecimalInt, HexInt, Values;
    if |ws| == 1 + |Layout(Opcode(i))| {
      FewValues(Layout(Opcode(i)), ws[1..], Fields(i, d));
    }
  }

  lemma PairReads(ws: seq<Lexeme>, i: Instr, d: nat)
    requires i.Mov? || i.Data? || i.Test? || i.Tag?
    ensures ReadsAs(ws, i, d) <==>
              && |ws| == 1 + |Layout(Opcode(i))| && ws[0] == OPERATORS[Opcode(i)]
              && Values(Layout(Opcode(i)), ws[1..], Fields(i, d))
  {
    RegisterIs();
    hide IsRegister, DecimalInt, HexInt, Values;
    if |ws| == 1 + |Layout(Opcode(i))| {
      FewValues(Layout(Opcode(i)), ws[1..], Fields(i, d));
    }
  }

  lemma TripleReads(ws: seq<Lexeme>, i: Instr, d: nat)
    requires i.Set? || i.Split? || i.Array?
    ensures ReadsAs(ws, i, d) <==>
              && |ws| == 1 + |Layout(Opcode(i))| && ws[0] == OPERATORS[Opcode(i)]
              && Values(Layout(Opcode(i)), ws[1..], Fields(i, d))
  {
    RegisterIs();
    hide IsRegister, DecimalInt, HexInt, Values;
    if |ws| == 1 + |Layout(Opcode(i))| {
      FewValues(Layout(Opcode(i)), ws[1..], Fields(i, d));
    }
  }

  lemma LongReads(ws: seq<Lexeme>, i: Instr, d: nat)
    requires i.Takex? || i.Concatx?
    ensures ReadsAs(ws, i, d) <==>
              && |ws| == 1 + |Layout(Opcode(i))| && ws[0] == OPERATORS[Opcode(i)]
              && Values(Layout(Opcode(i)), ws[1..], Fields(i, d))
  {
    RegisterIs();
    hide IsRegister, DecimalInt, HexInt, Values;
    if |ws| == 1 + |Layout(Opcode(i))| {
      FewValues(Layout(Opcode(i)), ws[1..], Fields(i, d));
    }
  }

  /** A line is its operator and words for its operands. */
  lemma ReadsFields(ws: seq<Lexeme>, i: Instr, d: nat)
    ensures ReadsAs(ws, i, d) <==>
              && |ws| == 1 + |Layout(Opcode(i))| && ws[0] == OPERATORS[Opcode(i)]
              && Values(Layout(Opcode(i)), ws[1..], Fields(i, d))
  {
    hide ReadsAs, Values, Fields, Layout;
    if i.Nil? || i.Fail? || i.Return? {
      ShortReads(ws, i, d);
    } else if i.Mov? || i.Data? || i.Test? || i.Tag? {
      PairReads(ws, i, d);
    } else if i.Set? || i.Split? || i.Array? {
      TripleReads(ws, i, d);
    } else {
      LongReads(ws, i, d);
    }
  }

  /** Every operator and values for its operands make an instruction. */
  lemma MakeInstr(op: Byte, vs: seq<nat>) returns (i: Instr, d: nat)
    requires op < 12 && |vs| == |Layout(op)|
    ensures Opcode(i) == op && Fields(i, d) == vs
  {
    d := if op == 2 then vs[1] else 0;
    i := if op == 0 then Nil(vs[0])
         else if op == 1 then Mov(vs[0], vs[1])
         else if op == 2 then Data(vs[0], IntAtom(0))
         else if op == 3 then Bytecode.Set(vs[0], vs[1], vs[2])
         else if op == 4 then Takex(vs[0], vs[1], vs[2], vs[3])
         else if op == 5 then Split(vs[0], vs[1], vs[2])
         else if op == 6 then Bytecode.Array(vs[0], vs[1], vs[2])
         else if op == 7 then Concatx(vs[0], vs[1], vs[2], vs[3])
         else if op == 8 then Test(vs[0], vs[1])
         else if op == 9 then Tag(vs[0], vs[1])
         else if op == 10 then Fail(vs[0])
         else Return(vs[0]);
  }

  lemma {:induction false} OperatorIs(w: Lexeme, k: Byte, op: Byte)
    requires k <= 12 && Operator(w, k) == Some(op)
    ensures op < 12 && OPERATORS[op] == w
    decreases 12 - k
  {
    if OPERATORS[k] != w {
      OperatorIs(w, k + 1, op);
    }
  }

  // The code section

  lemma LineStep(ws: seq<Lexeme>, n: nat, i: Instr, d: nat)
    requires ws != [] && ws[0] != "data" && 1 + n <= |ws| && ReadsAs(ws[1..1 + n], i, d)
    ensures var r := Assembled(ws[1 + n..]);
            n > 0 && Assembled(ws) == if r.Failed? then Failed else Parsed(Encode(i, d) + r.b, r.rest)
  {
    hide ReadsAs, Operands, Assembled, Encode, Layout, Operator, BytesOf, Fields, OPERATORS;
    var line, op := ws[1..1 + n], Opcode(i);
    ReadsFields(line, i, d);
    FieldsBytes(i, d);
    OperatorBack(op, 0);
    assert line[0] == ws[1];
    ValuesMore(Layout(op), line[1..], ws[2..], Fields(i, d));
    OperandsGive(Layout(op), ws[2..], Fields(i, d));
    assert ws[2..][|Layout(op)|..] == ws[1 + n..];
    AssembleStep(ws, op, Operands(Layout(op), ws[2..]));
  }

  lemma ValuesMore(os: seq<Operand>, line: seq<Lexeme>, ws: seq<Lexeme>, vs: seq<nat>)
    requires Values(os, line, vs) && line <= ws
    ensures Values(os, ws, vs)
  {
    hide OperandValue;
    forall k | 0 <= k < |os|
      ensures OperandValue(os[k], ws[k]) == Some(vs[k])
    {
      assert line[k] == ws[k];
    }
  }

  lemma LineFound(ws: seq<Lexeme>) returns (n: nat, i: Instr, d: nat)
    requires ws != [] && ws[0] != "data" && Assembled(ws).Parsed?
    ensures 1 + n <= |ws| && ReadsAs(ws[1..1 + n], i, d)
  {
    hide ReadsAs, Operands, Encode, Layout, Operator, BytesOf, Fields, OPERATORS;
    var op := Operator(ws[1], 0).value;
    OperatorIs(ws[1], 0, op);
    var vs := OperandsNeed(Layout(op), ws[2..]);
    i, d := MakeInstr(op, vs);
    n := 1 + |Layout(op)|;
    var line := ws[1..1 + n];
    ValuesLess(Layout(op), line[1..], ws[2..], vs);
    ReadsFields(line, i, d);
  }

  lemma ValuesLess(os: seq<Operand>, line: seq<Lexeme>, ws: seq<Lexeme>, vs: seq<nat>)
    requires Values(os, ws, vs) && line <= ws && |os| <= |line|
    ensures Values(os, line, vs)
  {
    hide OperandValue;
    forall k | 0 <= k < |os|
      ensures OperandValue(os[k], line[k]) == Some(vs[k])
    {
      assert line[k] == ws[k];
    }
  }

  /** The assembler gives exactly the bytes of the instructions it reads, and fails exactly when there is no reading. */
  lemma {:induction false} AssembledExactly(ws: seq<Lexeme>, b: seq<Byte>, rest: seq<Lexeme>)
    ensures Assembled(ws) == Parsed(b, rest) <==> Reads(ws, b, rest)
    decreases |ws|
  {
    hide ReadsAs, Encode, Assembled;
    if ws == [] || ws[0] == "data" {
      AssembledEnds(ws);
    } else {
      if Assembled(ws) == Parsed(b, rest) {
        var n, i, d := LineFound(ws);
        LineStep(ws, n, i, d);
        var b1 := Assembled(ws[1 + n..]).b;
        AssembledExactly(ws[1 + n..], b1, rest);
        assert ReadsLine(ws, n, i, d, b, b1);
      }
      if Reads(ws, b, rest) {
        var n, i, d, b1 :| ReadsLine(ws, n, i, d, b, b1) && Reads(ws[1 + n..], b1, rest);
        LineStep(ws, n, i, d);
        AssembledExactly(ws[1 + n..], b1, rest);
      }
    }
  }

  lemma AssembledEnds(ws: seq<Lexeme>)
    requires ws == [] || ws[0] == "data"
    ensures Assembled(ws) == if ws == [] then Failed else Parsed([], ws)
  {
  }
}
