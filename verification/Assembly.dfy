/** The code section in readable form: the words the disassembler writes, and the bytes the assembler makes of them. */
module Assembly {
  import opened Common
  import opened Decimals
  import opened Terms
  import opened Bytecode
  import opened Encoding

  type Lexeme = string

  /** Kinds of operands. */
  datatype Operand = Register | Number | Index | Label

  const OPERATORS: seq<Lexeme> := ["nil", "mov", "data", "set", "takex", "split", "array", "concatx", "test", "tag", "fail", "return"]

  function Layout(op: Byte): seq<Operand> {
    if op == 0 || op == 11 then [Register]
    else if op == 1 || op == 8 || op == 9 then [Register, Register]
    else if op == 2 then [Register, Number]
    else if op == 3 || op == 5 || op == 6 then [Register, Register, Register]
    else if op == 4 || op == 7 then [Register, Register, Register, Index]
    else if op == 10 then [Label]
    else []
  }

  function Width(o: Operand): nat {
    if o.Index? then 2 else 4
  }

  // Numbers

  function HexDigit(i: nat): char
    requires i < 16
  {
    "0123456789abcdef"[i]
  }

  function Hex(n: nat): string {
    if n < 16 then [HexDigit(n)] else Hex(n / 16) + [HexDigit(n % 16)]
  }

  /** Digits of either case; other characters count as zero. */
  function HexValue(c: char): nat {
    if '0' <= c <= '9' then c as int - '0' as int
    else if 'A' <= c <= 'F' then c as int - 'A' as int + 10
    else if 'a' <= c <= 'f' then c as int - 'a' as int + 10
    else 0
  }

  function HexInt(s: string): nat {
    if s == [] then 0 else HexInt(s[..|s| - 1]) * 16 + HexValue(s[|s| - 1])
  }

  /** The number the text starts with. */
  function DecimalInt(s: string): nat {
    if s == [] then 0
    else if forall i :: 0 <= i < |s| ==> IsDigit(s[i]) then DecimalInt(s[..|s| - 1]) * 10 + (s[|s| - 1] as int - '0' as int)
    else DecimalInt(s[..|s| - 1])
  }

  lemma {:induction false} HexBack(n: nat)
    ensures HexInt("0x" + Hex(n)) == n
    decreases n
  {
    hide HexDigit, HexValue;
    HexDigitBack(n % 16);
    if n < 16 {
      HexPrefix();
      HexLast("0x", HexDigit(n));
    } else {
      HexBack(n / 16);
      HexLast("0x" + Hex(n / 16), HexDigit(n % 16));
      assert "0x" + Hex(n) == ("0x" + Hex(n / 16)) + [HexDigit(n % 16)];
    }
  }

  lemma HexLast(s: string, c: char)
    ensures HexInt(s + [c]) == HexInt(s) * 16 + HexValue(c)
  {
    assert (s + [c])[..|s|] == s;
  }

  lemma HexPrefix()
    ensures HexInt("0x") == 0
  {
    var none: string := "";
    HexLast(none, '0');
    HexLast(none + ['0'], 'x');
    assert none + ['0'] + ['x'] == "0x";
  }

  lemma HexDigitBack(i: nat)
    requires i < 16
    ensures HexValue(HexDigit(i)) == i
  {
    var s := "0123456789abcdef";
    assert s[0] == '0' && s[9] == '9' && s[10] == 'a' && s[15] == 'f';
  }

  lemma {:induction false} DecimalBack(n: nat)
    ensures DecimalInt(Decimal(n)) == n
    decreases n
  {
    var s := Decimal(n);
    DecimalDigits(n);
    DigitBack(n % 10);
    if n >= 10 {
      DecimalBack(n / 10);
      assert s[..|s| - 1] == Decimal(n / 10);
    } else {
      assert s[..0] == "";
    }
  }

  lemma DigitBack(i: nat)
    requires i < 10
    ensures Digit(i) as int - '0' as int == i
  {
  }

  /** What follows the digits of a number does not count. */
  lemma {:induction false} DecimalStart(n: nat, s: string)
    requires s != [] ==> !IsDigit(s[0])
    ensures DecimalInt(Decimal(n) + s) == n
    decreases |s|
  {
    if s == [] {
      assert Decimal(n) + s == Decimal(n);
      DecimalBack(n);
    } else {
      var t := Decimal(n) + s;
      assert t[..|t| - 1] == Decimal(n) + s[..|s| - 1];
      assert t[|Decimal(n)|] == s[0];
      DecimalStart(n, s[..|s| - 1]);
    }
  }

  /** Capital letters are the digits that small ones are. */
  lemma {:induction false} HexCapitals(s: string, t: string)
    requires |s| == |t|
    requires forall i :: 0 <= i < |s| ==> s[i] == t[i] || ('a' <= s[i] <= 'f' && s[i] as int - 'a' as int == t[i] as int - 'A' as int)
    ensures HexInt(s) == HexInt(t)
    decreases |s|
  {
    if s != [] {
      HexCapitals(s[..|s| - 1], t[..|t| - 1]);
    }
  }

  /** The digit with k digits after it counts the k-th powers of sixteen; from ten on digits are small letters. */
  lemma {:induction false} HexAt(n: nat, k: nat)
    requires k < |Hex(n)|
    ensures var d := n / Pow(16, k) % 16;
            Hex(n)[|Hex(n)| - 1 - k] as int == if d < 10 then '0' as int + d else 'a' as int + (d - 10)
    decreases k
  {
    hide HexDigit, Pow;
    HexDigitIs(n % 16);
    PowStep(16, k);
    if k > 0 {
      HexAt(n / 16, k - 1);
      DivideBySixteen(n, Pow(16, k - 1));
    }
  }

  lemma HexDigitIs(i: nat)
    requires i < 16
    ensures HexDigit(i) as int == if i < 10 then '0' as int + i else 'a' as int + (i - 10)
  {
  }

  lemma {:induction false} HexLength(n: nat)
    ensures |Hex(n)| > 0 && n < Pow(16, |Hex(n)|)
    ensures |Hex(n)| > 1 ==> Pow(16, |Hex(n)| - 1) <= n
    decreases n
  {
    if n >= 16 {
      HexLength(n / 16);
      assert |Hex(n)| == |Hex(n / 16)| + 1;
    } else {
      assert Pow(16, 1) == 16 * Pow(16, 0);
    }
  }

  // Words and values of operands

  function OperandWord(o: Operand, n: nat): Lexeme {
    match o
    case Register => "r" + Decimal(n)
    case Number => Decimal(n)
    case Index => Decimal(n)
    case Label => "0x" + Hex(n)
  }

  function OperandValue(o: Operand, w: Lexeme): Option<nat> {
    match o
    case Register => if w != [] && w[0] == 'r' then Some(DecimalInt(w[1..])) else None
    case Number => Some(DecimalInt(w))
    case Index => Some(DecimalInt(w))
    case Label => Some(HexInt(w))
  }

  function OperandBytes(o: Operand, n: nat): seq<Byte> {
    if o.Index? then I16(n) else I32(n)
  }

  function OperandAt(o: Operand, b: seq<Byte>, pc: nat): nat
    requires pc + Width(o) <= |b|
  {
    if o.Index? then Fetch16(b, pc) else Fetch32(b, pc)
  }

  lemma OperandBack(o: Operand, n: nat)
    ensures OperandValue(o, OperandWord(o, n)) == Some(n)
  {
    DecimalBack(n);
    HexBack(n);
    if o.Register? {
      assert ("r" + Decimal(n))[1..] == Decimal(n);
    }
  }

  // The code section

  function OperandWords(os: seq<Operand>, b: seq<Byte>, pc: nat): seq<Lexeme>
    requires pc + Widths(os) <= |b|
  {
    if os == [] then []
    else [OperandWord(os[0], OperandAt(os[0], b, pc))] + OperandWords(os[1..], b, pc + Width(os[0]))
  }

  function Widths(os: seq<Operand>): nat {
    if os == [] then 0 else Width(os[0]) + Widths(os[1..])
  }

  lemma SizeOf(op: Byte)
    requires op <= 11
    ensures Size(op) == 1 + Widths(Layout(op))
  {
    assert [Register][1..] == [] && [Label][1..] == [];
    assert [Register, Register][1..] == [Register];
    assert [Register, Number][1..] == [Number] && [Number][1..] == [];
    assert [Register, Register, Register][1..] == [Register, Register];
    assert [Register, Register, Register, Index][1..] == [Register, Register, Index];
    assert [Register, Register, Index][1..] == [Register, Index] && [Register, Index][1..] == [Index] && [Index][1..] == [];
  }

  /** The bytes from pc on are complete instructions. */
  predicate Whole(b: seq<Byte>, pc: nat)
    decreases |b| - pc
  {
    pc == |b| || (pc < |b| && b[pc] <= 11 && pc + Size(b[pc]) <= |b| && Whole(b, pc + Size(b[pc])))
  }

  /** One line for every instruction: its offset, its operator, its operands. */
  function Words(b: seq<Byte>, pc: nat): seq<Lexeme>
    requires Whole(b, pc)
    decreases |b| - pc
  {
    if pc == |b| then []
    else
      SizeOf(b[pc]);
      ["0x" + Hex(pc), OPERATORS[b[pc]]] + OperandWords(Layout(b[pc]), b, pc + 1) + Words(b, pc + Size(b[pc]))
  }

  function Operator(w: Lexeme, op: Byte): Option<Byte>
    requires op <= 12
    decreases 12 - op
  {
    if op == 12 then None else if OPERATORS[op] == w then Some(op) else Operator(w, op + 1)
  }

  datatype Parsed = Parsed(b: seq<Byte>, rest: seq<Lexeme>) | Failed

  function Operands(os: seq<Operand>, ws: seq<Lexeme>): (r: Parsed)
    ensures r.Parsed? ==> |r.rest| <= |ws|
  {
    if os == [] then Parsed([], ws)
    else if ws == [] then Failed
    else
      var v := OperandValue(os[0], ws[0]);
      if v.None? then Failed else
      var r := Operands(os[1..], ws[1..]);
      if r.Failed? then Failed else Parsed(OperandBytes(os[0], v.value) + r.b, r.rest)
  }

  /** Up to the word that starts the data section; the offset at the start of a line is skipped. */
  function Assembled(ws: seq<Lexeme>): Parsed
    decreases |ws|
  {
    if ws == [] then Failed
    else if ws[0] == "data" then Parsed([], ws)
    else if |ws| == 1 then Failed
    else
      var op := Operator(ws[1], 0);
      if op.None? then Failed else
      var r := Operands(Layout(op.value), ws[2..]);
      if r.Failed? then Failed else
      var r1 := Assembled(r.rest);
      if r1.Failed? then Failed else Parsed([op.value] + r.b + r1.b, r1.rest)
  }

  // The round trip

  lemma OperatorsDiffer()
    ensures |OPERATORS| == 12
    ensures forall i, j :: 0 <= i < j < 12 ==> OPERATORS[i] != OPERATORS[j]
  {
    assert forall i :: 0 <= i < 12 ==> |OPERATORS[i]| >= 3;
    var heads := "nmdsts";
    assert OPERATORS[3][0] == 's' && OPERATORS[3][1] == 'e';
    assert OPERATORS[4][0] == 't' && OPERATORS[4][1] == 'a' && OPERATORS[4][2] == 'k';
    assert OPERATORS[5][0] == 's' && OPERATORS[5][1] == 'p';
    assert OPERATORS[8][1] == 'e' && OPERATORS[9][1] == 'a' && OPERATORS[9][2] == 'g';
  }

  lemma {:induction false} OperatorBack(op: Byte, k: Byte)
    requires k <= op < 12
    ensures Operator(OPERATORS[op], k) == Some(op)
    decreases op - k
  {
    OperatorsDiffer();
    if k < op {
      OperatorBack(op, k + 1);
    }
  }

  lemma {:induction false} OperandsBack(os: seq<Operand>, b: seq<Byte>, pc: nat, rest: seq<Lexeme>)
    requires pc + Widths(os) <= |b|
    ensures Operands(os, OperandWords(os, b, pc) + rest) == Parsed(b[pc..pc + Widths(os)], rest)
    decreases os
  {
    hide OperandWord, OperandValue, OperandBytes, OperandAt, Operands, OperandWords, Widths;
    WidthsStep(os);
    if os == [] {
      OperandsNone(b, pc, rest);
    } else {
      var n := OperandAt(os[0], b, pc);
      OperandBack(os[0], n);
      OperandBytesBack(os[0], b, pc);
      OperandsBack(os[1..], b, pc + Width(os[0]), rest);
      WordsOf(os, b, pc, rest);
      OperandsStep(os, OperandWords(os, b, pc) + rest, n);
      assert b[pc..pc + Widths(os)] == b[pc..pc + Width(os[0])] + b[pc + Width(os[0])..pc + Widths(os)];
    }
  }

  lemma WidthsStep(os: seq<Operand>)
    ensures Widths(os) == if os == [] then 0 else Width(os[0]) + Widths(os[1..])
  {
  }

  lemma OperandsNone(b: seq<Byte>, pc: nat, rest: seq<Lexeme>)
    requires pc <= |b|
    ensures Widths([]) == 0 && Operands([], OperandWords([], b, pc) + rest) == Parsed(b[pc..pc], rest)
  {
    assert [] + rest == rest;
  }

  lemma WordsOf(os: seq<Operand>, b: seq<Byte>, pc: nat, rest: seq<Lexeme>)
    requires os != [] && pc + Widths(os) <= |b|
    ensures pc + Width(os[0]) + Widths(os[1..]) <= |b|
    ensures var ws := OperandWords(os, b, pc) + rest;
            && ws != [] && ws[0] == OperandWord(os[0], OperandAt(os[0], b, pc))
            && ws[1..] == OperandWords(os[1..], b, pc + Width(os[0])) + rest
  {
    hide OperandWord, OperandAt;
  }

  lemma OperandsStep(os: seq<Operand>, ws: seq<Lexeme>, n: nat)
    requires os != [] && ws != [] && OperandValue(os[0], ws[0]) == Some(n)
    ensures var r := Operands(os[1..], ws[1..]);
            Operands(os, ws) == if r.Failed? then Failed else Parsed(OperandBytes(os[0], n) + r.b, r.rest)
  {
    hide OperandValue, OperandBytes;
  }

  lemma OperandBytesBack(o: Operand, b: seq<Byte>, pc: nat)
    requires pc + Width(o) <= |b|
    ensures OperandBytes(o, OperandAt(o, b, pc)) == b[pc..pc + Width(o)]
  {
    if o.Index? {
      HalfBytes(b[pc], b[pc + 1]);
      assert b[pc..pc + 2] == [b[pc], b[pc + 1]];
    } else {
      WordBytes(b[pc], b[pc + 1], b[pc + 2], b[pc + 3]);
      assert b[pc..pc + 4] == [b[pc], b[pc + 1], b[pc + 2], b[pc + 3]];
    }
  }

  lemma HalfBytes(b0: Byte, b1: Byte)
    ensures I16(Half(b0, b1)) == [b0, b1]
  {
  }

  lemma WordBytes(b0: Byte, b1: Byte, b2: Byte, b3: Byte)
    ensures I32(Word(b0, b1, b2, b3)) == [b0, b1, b2, b3]
  {
    var n := Word(b0, b1, b2, b3);
    Quotient(b0, b1 * 0x1_0000 + b2 * 0x100 + b3, 0x100_0000);
    Quotient(b0 * 0x100 + b1, b2 * 0x100 + b3, 0x1_0000);
    Quotient(b0 * 0x1_0000 + b1 * 0x100 + b2, b3, 0x100);
    Remainder(b0, b1);
    Remainder(b0 * 0x100 + b1, b2);
    Remainder(b0 * 0x1_0000 + b1 * 0x100 + b2, b3);
  }

  lemma Quotient(q: nat, r: nat, d: nat)
    requires r < d && (d == 0x100_0000 || d == 0x1_0000 || d == 0x100)
    ensures (q * d + r) / d == q
  {
    if d == 0x100_0000 {
      assert (q * 0x100_0000 + r) / 0x100_0000 == q;
    } else if d == 0x1_0000 {
      assert (q * 0x1_0000 + r) / 0x1_0000 == q;
    } else {
      assert (q * 0x100 + r) / 0x100 == q;
    }
  }

  lemma Remainder(q: nat, r: nat)
    requires r < 256
    ensures (q * 256 + r) % 256 == r
  {
  }

  /** Assembling what was disassembled gives the same bytes, for all code that is made of complete instructions. */
  lemma {:induction false} AssembleBack(b: seq<Byte>, pc: nat, rest: seq<Lexeme>)
    requires Whole(b, pc) && rest != [] && rest[0] == "data"
    ensures Assembled(Words(b, pc) + rest) == Parsed(b[pc..], rest)
    decreases |b| - pc
  {
    hide Whole, Words, Assembled, Operands, OperandWords, Size, Layout, Hex, Operator, Widths;
    if pc == |b| {
      AssembleEnd(b, rest);
    } else {
      WholeStep(b, pc);
      var op := b[pc];
      SizeOf(op);
      var after := pc + Size(op);
      AssembleBack(b, after, rest);
      OperatorBack(op, 0);
      OperandsBack(Layout(op), b, pc + 1, Words(b, after) + rest);
      WordsStep(b, pc, rest);
      var ws := Words(b, pc) + rest;
      AssembleStep(ws, op, Operands(Layout(op), ws[2..]));
      assert b[pc..] == [op] + b[pc + 1..after] + b[after..];
    }
  }

  lemma WholeStep(b: seq<Byte>, pc: nat)
    requires Whole(b, pc)
    ensures pc <= |b|
    ensures pc < |b| ==> b[pc] <= 11 && pc + Size(b[pc]) <= |b| && Whole(b, pc + Size(b[pc]))
  {
  }

  lemma AssembleEnd(b: seq<Byte>, rest: seq<Lexeme>)
    requires rest != [] && rest[0] == "data"
    ensures Whole(b, |b|) && Assembled(Words(b, |b|) + rest) == Parsed(b[|b|..], rest)
  {
    assert [] + rest == rest;
  }

  lemma WordsStep(b: seq<Byte>, pc: nat, rest: seq<Lexeme>)
    requires Whole(b, pc) && pc < |b|
    ensures b[pc] <= 11 && pc + 1 + Widths(Layout(b[pc])) == pc + Size(b[pc]) <= |b| && Whole(b, pc + Size(b[pc]))
    ensures var ws := Words(b, pc) + rest;
            && |ws| >= 2 && ws[0] != "data" && ws[1] == OPERATORS[b[pc]]
            && ws[2..] == OperandWords(Layout(b[pc]), b, pc + 1) + (Words(b, pc + Size(b[pc])) + rest)
            && |Words(b, pc + Size(b[pc])) + rest| < |ws|
  {
    hide OperandWords, Hex, Layout, Widths, Size;
    SizeOf(b[pc]);
    var head, ops, tail := ["0x" + Hex(pc), OPERATORS[b[pc]]], OperandWords(Layout(b[pc]), b, pc + 1), Words(b, pc + Size(b[pc]));
    WordsAre(b, pc);
    TakeTwo(head, ops, tail, rest);
    assert ("0x" + Hex(pc))[0] == '0' && "data"[0] == 'd';
  }

  lemma WordsAre(b: seq<Byte>, pc: nat)
    requires Whole(b, pc) && pc < |b|
    ensures pc + 1 + Widths(Layout(b[pc])) <= |b|
    ensures Words(b, pc) == ["0x" + Hex(pc), OPERATORS[b[pc]]] + OperandWords(Layout(b[pc]), b, pc + 1) + Words(b, pc + Size(b[pc]))
  {
    hide OperandWords, Hex, Layout, Widths, Size;
    SizeOf(b[pc]);
  }

  lemma TakeTwo(head: seq<Lexeme>, ops: seq<Lexeme>, tail: seq<Lexeme>, rest: seq<Lexeme>)
    requires |head| == 2
    ensures var ws := head + ops + tail + rest;
            && |ws| == 2 + |ops| + |tail + rest| && ws[0] == head[0] && ws[1] == head[1] && ws[2..] == ops + (tail + rest)
  {
  }

  lemma AssembleStep(ws: seq<Lexeme>, op: Byte, r: Parsed)
    requires |ws| >= 2 && ws[0] != "data" && Operator(ws[1], 0) == Some(op) && r == Operands(Layout(op), ws[2..])
    requires r.Parsed?
    ensures var r1 := Assembled(r.rest);
            Assembled(ws) == if r1.Failed? then Failed else Parsed([op] + r.b + r1.b, r1.rest)
  {
  }

  /** The bytes of any list of instructions are complete instructions. */
  lemma {:induction false} EncodedWhole(code: seq<Instr>, d: nat, k: nat)
    requires k <= |code|
    ensures Whole(EncodeAll(code, d), Offset(code, k))
    decreases |code| - k
  {
    hide EncodeAll, Offset, Whole, Size;
    var b := EncodeAll(code, d);
    OffsetEnd(code, d);
    if k == |code| {
      WholeAt(b, |b|);
    } else {
      EncodedWhole(code, d, k + 1);
      OffsetNext(code, k);
      OffsetMonotone(code, k + 1, |code|);
      EncodeSplit(code, d, k);
      FirstByte(code[k..], d + ConstsBefore(code, k));
      assert b[Offset(code, k)] == b[Offset(code, k)..][0];
      WholeAt(b, Offset(code, k));
    }
  }

  lemma WholeAt(b: seq<Byte>, pc: nat)
    requires pc == |b| || (pc < |b| && b[pc] <= 11 && pc + Size(b[pc]) <= |b| && Whole(b, pc + Size(b[pc])))
    ensures Whole(b, pc)
  {
  }

  lemma FirstByte(code: seq<Instr>, d: nat)
    requires code != []
    ensures EncodeAll(code, d) != [] && EncodeAll(code, d)[0] == Opcode(code[0]) <= 11
  {
    hide EncodeAll, Encode;
    EncodeStep(code, d);
    SizeEncode(code[0], d);
  }

  // The lines

  /** What an instruction reads as; d is the entry of the data section for its constant. */
  function Line(i: Instr, d: nat): seq<Lexeme> {
    match i
    case Nil(x) => ["nil", "r" + Decimal(x)]
    case Mov(x, y) => ["mov", "r" + Decimal(x), "r" + Decimal(y)]
    case Data(x, _) => ["data", "r" + Decimal(x), Decimal(d)]
    case Set(x, y, z) => ["set", "r" + Decimal(x), "r" + Decimal(y), "r" + Decimal(z)]
    case Takex(x, y, z, k) => ["takex", "r" + Decimal(x), "r" + Decimal(y), "r" + Decimal(z), Decimal(k)]
    case Split(x, y, z) => ["split", "r" + Decimal(x), "r" + Decimal(y), "r" + Decimal(z)]
    case Array(x, y, z) => ["array", "r" + Decimal(x), "r" + Decimal(y), "r" + Decimal(z)]
    case Concatx(x, y, z, k) => ["concatx", "r" + Decimal(x), "r" + Decimal(y), "r" + Decimal(z), Decimal(k)]
    case Test(x, y) => ["test", "r" + Decimal(x), "r" + Decimal(y)]
    case Tag(x, y) => ["tag", "r" + Decimal(x), "r" + Decimal(y)]
    case Fail(l) => ["fail", "0x" + Hex(l)]
    case Return(x) => ["return", "r" + Decimal(x)]
  }

  lemma OneWord(o: Operand, b: seq<Byte>, pc: nat)
    requires pc + Width(o) <= |b|
    ensures Widths([o]) == Width(o) && OperandWords([o], b, pc) == [OperandWord(o, OperandAt(o, b, pc))]
  {
    assert [o][1..] == [];
  }

  lemma MoreWords(o: Operand, os: seq<Operand>, b: seq<Byte>, pc: nat)
    requires pc + Width(o) + Widths(os) <= |b|
    ensures Widths([o] + os) == Width(o) + Widths(os)
    ensures OperandWords([o] + os, b, pc) == [OperandWord(o, OperandAt(o, b, pc))] + OperandWords(os, b, pc + Width(o))
  {
    assert ([o] + os)[1..] == os;
  }

  lemma TwoWords(o: Operand, b: seq<Byte>, pc: nat)
    requires pc + 4 + Width(o) <= |b|
    ensures Widths([Register, o]) == 4 + Width(o)
    ensures OperandWords([Register, o], b, pc) == ["r" + Decimal(Fetch32(b, pc)), OperandWord(o, OperandAt(o, b, pc + 4))]
  {
    hide Decimal, Fetch32, OperandWords, Widths;
    OneWord(o, b, pc + 4);
    MoreWords(Register, [o], b, pc);
    assert [Register] + [o] == [Register, o];
  }

  lemma ThreeWords(b: seq<Byte>, pc: nat)
    requires pc + 12 <= |b|
    ensures Widths([Register, Register, Register]) == 12
    ensures OperandWords([Register, Register, Register], b, pc) ==
              ["r" + Decimal(Fetch32(b, pc)), "r" + Decimal(Fetch32(b, pc + 4)), "r" + Decimal(Fetch32(b, pc + 8))]
  {
    hide Decimal, Fetch32, OperandWords, Widths;
    TwoWords(Register, b, pc + 4);
    MoreWords(Register, [Register, Register], b, pc);
    assert [Register] + [Register, Register] == [Register, Register, Register];
  }

  lemma FourWords(b: seq<Byte>, pc: nat)
    requires pc + 14 <= |b|
    ensures Widths([Register, Register, Register, Index]) == 14
    ensures OperandWords([Register, Register, Register, Index], b, pc) ==
              ["r" + Decimal(Fetch32(b, pc)), "r" + Decimal(Fetch32(b, pc + 4)), "r" + Decimal(Fetch32(b, pc + 8)), Decimal(Fetch16(b, pc + 12))]
  {
    hide Decimal, Fetch32, Fetch16, OperandWords, Widths;
    TwoWords(Index, b, pc + 8);
    MoreWords(Register, [Register, Index], b, pc + 4);
    assert [Register] + [Register, Index] == [Register, Register, Index];
    MoreWords(Register, [Register, Register, Index], b, pc);
    assert [Register] + [Register, Register, Index] == [Register, Register, Register, Index];
  }

  lemma ShortLine(b: seq<Byte>, pc: nat, i: Instr, d: nat)
    requires pc + |Encode(i, d)| <= |b| && b[pc..pc + |Encode(i, d)|] == Encode(i, d) && Narrow(i) && d < WORD
    requires i.Nil? || i.Fail? || i.Return?
    ensures pc < |b| && b[pc] <= 11 && pc + 1 + Widths(Layout(b[pc])) <= |b|
    ensures [OPERATORS[b[pc]]] + OperandWords(Layout(b[pc]), b, pc + 1) == Line(i, d)
  {
    SizeEncode(i, d);
    hide I32, Fetch32, Decimal, Hex, OperandWords, Widths;
    if i.Fail? {
      OneField(b, pc, 10, i.l);
      OneWord(Label, b, pc + 1);
    } else {
      OneField(b, pc, if i.Nil? then 0 else 11, i.x);
      OneWord(Register, b, pc + 1);
    }
  }

  lemma PairLine(b: seq<Byte>, pc: nat, i: Instr, d: nat)
    requires pc + |Encode(i, d)| <= |b| && b[pc..pc + |Encode(i, d)|] == Encode(i, d) && Narrow(i) && d < WORD
    requires i.Mov? || i.Data? || i.Test? || i.Tag?
    ensures pc < |b| && b[pc] <= 11 && pc + 1 + Widths(Layout(b[pc])) <= |b|
    ensures [OPERATORS[b[pc]]] + OperandWords(Layout(b[pc]), b, pc + 1) == Line(i, d)
  {
    SizeEncode(i, d);
    hide I32, Fetch32, Decimal, Hex, OperandWords, Widths;
    if i.Data? {
      TwoFields(b, pc, 2, i.x, d);
      TwoWords(Number, b, pc + 1);
    } else {
      TwoFields(b, pc, if i.Mov? then 1 else if i.Test? then 8 else 9, i.x, i.y);
      TwoWords(Register, b, pc + 1);
    }
  }

  lemma TripleLine(b: seq<Byte>, pc: nat, i: Instr, d: nat)
    requires pc + |Encode(i, d)| <= |b| && b[pc..pc + |Encode(i, d)|] == Encode(i, d) && Narrow(i) && d < WORD
    requires i.Set? || i.Split? || i.Array?
    ensures pc < |b| && b[pc] <= 11 && pc + 1 + Widths(Layout(b[pc])) <= |b|
    ensures [OPERATORS[b[pc]]] + OperandWords(Layout(b[pc]), b, pc + 1) == Line(i, d)
  {
    SizeEncode(i, d);
    hide I32, Fetch32, Decimal, Hex, OperandWords, Widths;
    ThreeFields(b, pc, if i.Set? then 3 else if i.Split? then 5 else 6, i.x, i.y, i.z, []);
    ThreeWords(b, pc + 1);
  }

  lemma LongLine(b: seq<Byte>, pc: nat, i: Instr, d: nat)
    requires pc + |Encode(i, d)| <= |b| && b[pc..pc + |Encode(i, d)|] == Encode(i, d) && Narrow(i) && d < WORD
    requires i.Takex? || i.Concatx?
    ensures pc < |b| && b[pc] <= 11 && pc + 1 + Widths(Layout(b[pc])) <= |b|
    ensures [OPERATORS[b[pc]]] + OperandWords(Layout(b[pc]), b, pc + 1) == Line(i, d)
  {
    SizeEncode(i, d);
    hide I32, I16, Fetch32, Fetch16, Decimal, Hex, OperandWords, Widths;
    FourFields(b, pc, if i.Takex? then 4 else 7, i.x, i.y, i.z, i.i);
    FourWords(b, pc + 1);
  }

  /** The bytes of an instruction read as its line. */
  lemma LineIs(b: seq<Byte>, pc: nat, i: Instr, d: nat)
    requires pc + |Encode(i, d)| <= |b| && b[pc..pc + |Encode(i, d)|] == Encode(i, d) && Narrow(i) && d < WORD
    ensures pc < |b| && b[pc] <= 11 && pc + 1 + Widths(Layout(b[pc])) <= |b|
    ensures [OPERATORS[b[pc]]] + OperandWords(Layout(b[pc]), b, pc + 1) == Line(i, d)
  {
    hide Encode, Narrow, Layout, Line, OperandWords, Widths;
    if i.Nil? || i.Fail? || i.Return? {
      ShortLine(b, pc, i, d);
    } else if i.Mov? || i.Data? || i.Test? || i.Tag? {
      PairLine(b, pc, i, d);
    } else if i.Set? || i.Split? || i.Array? {
      TripleLine(b, pc, i, d);
    } else {
      LongLine(b, pc, i, d);
    }
  }

  /** The words of code are its lines in order, each with the offset of its instruction in front. */
  lemma LinesOf(code: seq<Instr>, k: nat)
    requires k < |code| && Narrow(code[k]) && |Consts(code)| < WORD
    ensures var b := EncodeAll(code, 0);
            && Whole(b, Offset(code, k)) && Whole(b, Offset(code, k + 1))
            && Words(b, Offset(code, k)) ==
                 ["0x" + Hex(Offset(code, k))] + Line(code[k], ConstsBefore(code, k)) + Words(b, Offset(code, k + 1))
    ensures Offset(code, 0) == 0 && Offset(code, |code|) == |EncodeAll(code, 0)|
  {
    hide EncodeAll, Offset, ConstsBefore, Encode, Whole, Words, Line, Narrow, Widths, Layout, OperandWords, Hex, Consts, Size;
    var b, pc := EncodeAll(code, 0), Offset(code, k);
    EncodedWhole(code, 0, k);
    EncodedWhole(code, 0, k + 1);
    OffsetZero(code);
    OffsetEnd(code, 0);
    OffsetNext(code, k);
    ConstsFew(code, k);
    EncodedAt(code, k);
    SizeEncode(code[k], ConstsBefore(code, k));
    LineIs(b, pc, code[k], ConstsBefore(code, k));
    WordsAre(b, pc);
    assert ["0x" + Hex(pc), OPERATORS[b[pc]]] == ["0x" + Hex(pc)] + [OPERATORS[b[pc]]];
  }

  lemma {:induction false} ConstsFew(code: seq<Instr>, k: nat)
    requires k <= |code|
    ensures ConstsBefore(code, k) <= |Consts(code)|
    decreases k
  {
    if k > 0 {
      ConstsFew(code[1..], k - 1);
    }
  }

  lemma EncodedAt(code: seq<Instr>, k: nat)
    requires k < |code|
    ensures var b, e, pc := EncodeAll(code, 0), Encode(code[k], ConstsBefore(code, k)), Offset(code, k);
            pc + |e| <= |b| && b[pc..pc + |e|] == e && |e| > 0 && b[pc] == Opcode(code[k])
  {
    hide EncodeAll, Offset, ConstsBefore, Encode;
    EncodeSplit(code, 0, k);
    EncodeStep(code[k..], ConstsBefore(code, k));
    SizeEncode(code[k], ConstsBefore(code, k));
    var b, e, pc := EncodeAll(code, 0), Encode(code[k], ConstsBefore(code, k)), Offset(code, k);
    assert b[pc..][..|e|] == e;
    assert b[pc] == b[pc..][0];
    FirstByte(code[k..], ConstsBefore(code, k));
  }

  /** Whatever the coder wrote survives a trip through readable form. */
  lemma CodeBack(code: seq<Instr>, d: nat, rest: seq<Lexeme>)
    requires rest != [] && rest[0] == "data"
    ensures Whole(EncodeAll(code, d), 0)
    ensures Assembled(Words(EncodeAll(code, d), 0) + rest) == Parsed(EncodeAll(code, d), rest)
  {
    hide EncodeAll, Whole, Words, Assembled;
    EncodedWhole(code, d, 0);
    OffsetZero(code);
    AssembleBack(EncodeAll(code, d), 0, rest);
  }

  // As the two classes run

  lemma WordsRest(os: seq<Operand>, i: nat, b: seq<Byte>, pc: nat, ws: seq<Lexeme>)
    requires i < |os| && pc + Widths(os[i..]) <= |b|
    ensures Widths(os[i..]) == Width(os[i]) + Widths(os[i + 1..])
    ensures ws + OperandWords(os[i..], b, pc) ==
              ws + [OperandWord(os[i], OperandAt(os[i], b, pc))] + OperandWords(os[i + 1..], b, pc + Width(os[i]))
  {
    hide OperandWord, OperandAt, OperandWords, Widths, Width;
    assert os[i..][1..] == os[i + 1..];
    WordsHead(os[i..], b, pc);
    var w, rest := OperandWord(os[i], OperandAt(os[i], b, pc)), OperandWords(os[i + 1..], b, pc + Width(os[i]));
    assert ws + ([w] + rest) == ws + [w] + rest;
  }

  lemma WordsHead(os: seq<Operand>, b: seq<Byte>, pc: nat)
    requires os != [] && pc + Widths(os) <= |b|
    ensures Widths(os) == Width(os[0]) + Widths(os[1..])
    ensures OperandWords(os, b, pc) == [OperandWord(os[0], OperandAt(os[0], b, pc))] + OperandWords(os[1..], b, pc + Width(os[0]))
  {
    hide OperandWord, OperandAt, Width;
  }

  lemma NoWords(b: seq<Byte>, pc: nat)
    requires pc <= |b|
    ensures Widths([]) == 0 && OperandWords([], b, pc) == []
  {
  }

  class Disassembler {
    const code: seq<Byte>
    var pc: nat

    constructor (code: seq<Byte>)
      ensures this.code == code && pc == 0
    {
      this.code := code;
      pc := 0;
    }

    method FetchOperand(o: Operand) returns (n: nat)
      requires pc + Width(o) <= |code|
      modifies this`pc
      ensures n == OperandAt(o, code, old(pc)) && pc == old(pc) + Width(o)
    {
      if o.Index? {
        n := Half(code[pc], code[pc + 1]);
        pc := pc + 2;
      } else {
        n := Word(code[pc], code[pc + 1], code[pc + 2], code[pc + 3]);
        pc := pc + 4;
      }
    }

    method WriteOperands(os: seq<Operand>) returns (ws: seq<Lexeme>)
      requires pc + Widths(os) <= |code|
      modifies this`pc
      ensures ws == OperandWords(os, code, old(pc)) && pc == old(pc) + Widths(os)
    {
      hide OperandWord, OperandAt, OperandWords, Widths, Width;
      ws := [];
      ghost var start := pc;
      assert os[0..] == os;
      for i := 0 to |os|
        invariant pc + Widths(os[i..]) == start + Widths(os) <= |code|
        invariant ws + OperandWords(os[i..], code, pc) == OperandWords(os, code, start)
      {
        WordsRest(os, i, code, pc, ws);
        var n := FetchOperand(os[i]);
        ws := ws + [OperandWord(os[i], n)];
      }
      assert os[|os|..] == [];
      NoWords(code, pc);
      assert ws + [] == ws;
    }

    method Write() returns (ws: seq<Lexeme>)
      requires Whole(code, 0)
      modifies this`pc
      ensures ws == Words(code, 0)
    {
      hide Words, Whole, OperandWords, Layout, Widths, Size, Hex;
      ws := [];
      pc := 0;
      WordsEnd(code, 0);
      while pc < |code|
        invariant pc <= |code| && Whole(code, pc)
        invariant ws + Words(code, pc) == Words(code, 0)
        decreases |code| - pc
      {
        WholeStep(code, pc);
        WordsAre(code, pc);
        SizeOf(code[pc]);
        var at := pc;
        pc := pc + 1;
        var os := WriteOperands(Layout(code[at]));
        ws := ws + (["0x" + Hex(at), OPERATORS[code[at]]] + os);
        WordsEnd(code, pc);
        SizePositive(code[at]);
      }
      WordsEnd(code, pc);
    }
  }

  lemma SizePositive(op: Byte)
    ensures Size(op) > 0
  {
  }

  lemma WordsEnd(b: seq<Byte>, pc: nat)
    requires Whole(b, pc)
    ensures pc <= |b| && (pc == |b| ==> Words(b, pc) == [])
  {
  }

  class Assembler {
    /** The words not yet read. */
    var words: seq<Lexeme>

    constructor (ws: seq<Lexeme>)
      ensures words == ws
    {
      words := ws;
    }

    method FetchOperands(os: seq<Operand>) returns (r: Option<seq<Byte>>)
      modifies this
      ensures r == (if Operands(os, old(words)).Failed? then None else Some(Operands(os, old(words)).b))
      ensures r.Some? ==> words == Operands(os, old(words)).rest
      ensures |words| <= |old(words)|
    {
      var b: seq<Byte> := [];
      for i := 0 to |os|
        invariant |words| <= |old(words)|
        invariant Operands(os, old(words)) == After(b, Operands(os[i..], words))
      {
        assert os[i..][1..] == os[i + 1..];
        if words == [] {
          return None;
        }
        var v := OperandValue(os[i], words[0]);
        if v.None? {
          return None;
        }
        words := words[1..];
        AfterMore(b, OperandBytes(os[i], v.value), Operands(os[i + 1..], words));
        b := b + OperandBytes(os[i], v.value);
      }
      assert os[|os|..] == [] && b + [] == b;
      r := Some(b);
    }

    /** The code section; None stands for the syntax errors. */
    method Assemble() returns (r: Option<seq<Byte>>)
      modifies this
      ensures r == (if Assembled(old(words)).Failed? then None else Some(Assembled(old(words)).b))
      ensures r.Some? ==> words == Assembled(old(words)).rest
    {
      var code: seq<Byte> := [];
      while words != [] && words[0] != "data"
        invariant Assembled(old(words)) == After(code, Assembled(words))
        decreases |words|
      {
        ghost var before := words;
        if |words| == 1 {
          return None;
        }
        var op := Operator(words[1], 0);
        if op.None? {
          return None;
        }
        words := words[2..];
        var b := FetchOperands(Layout(op.value));
        if b.None? {
          return None;
        }
        AssembleStep(before, op.value, Operands(Layout(op.value), before[2..]));
        AfterMore(code, [op.value] + b.value, Assembled(words));
        code := code + ([op.value] + b.value);
      }
      if words == [] {
        return None;
      }
      assert code + [] == code;
      r := Some(code);
    }
  }

  function After(b: seq<Byte>, r: Parsed): Parsed {
    if r.Failed? then Failed else Parsed(b + r.b, r.rest)
  }

  lemma AfterMore(a: seq<Byte>, b: seq<Byte>, r: Parsed)
    ensures After(a, After(b, r)) == After(a + b, r)
  {
    if r.Parsed? {
      assert a + (b + r.b) == a + b + r.b;
    }
  }
}
