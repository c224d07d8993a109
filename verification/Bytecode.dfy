/** The instructions of the abstract machine and what they do to registers and store. */
module Bytecode {
  import opened Terms
  import opened Heaps

  datatype Instr =
    | Nil(x: nat)                             // x := null
    | Mov(x: nat, y: nat)                     // x := y
    | Data(x: nat, a: Atom)                   // x := a constant of the data section
    | Set(x: nat, y: nat, z: nat)             // x[val(y)] := z
    | Takex(x: nat, y: nat, z: nat, i: nat)   // x,..,y := z[i],..,z[i+y-x], flag if they exist
    | Split(x: nat, y: nat, z: nat)           // x,..,y := z[0],..,z[y-x], flag if exact
    | Array(x: nat, y: nat, z: nat)           // x := [ y, y+1,.., z ]
    | Concatx(x: nat, y: nat, z: nat, i: nat) // x := y ++ drop i z
    | Test(x: nat, y: nat)                    // flag := x == y
    | Tag(x: nat, y: nat)                     // flag := tag(x) == tag(y)
    | Fail(l: nat)                            // goto l unless flag; flag := false
    | Return(x: nat)                          // return x

  type Regs = map<nat, Obj>

  /** A register that was never set holds null. */
  function Get(r: Regs, n: nat): Obj {
    if n in r then r[n] else Null
  }

  /** Registers x, x+1, .. receive the objects os. */
  function SetRange(r: Regs, x: nat, os: seq<Obj>): Regs
    decreases |os|
  {
    if os == [] then r else SetRange(r[x := os[0]], x + 1, os[1..])
  }

  function GetRange(r: Regs, x: nat, n: nat): (os: seq<Obj>)
    ensures |os| == n
    ensures forall i :: 0 <= i < n ==> os[i] == Get(r, x + i)
    decreases n
  {
    if n == 0 then [] else [Get(r, x)] + GetRange(r, x + 1, n - 1)
  }

  lemma {:induction false} SetRangeGet(r: Regs, x: nat, os: seq<Obj>, n: nat)
    ensures Get(SetRange(r, x, os), n) == if x <= n < x + |os| then os[n - x] else Get(r, n)
    decreases |os|
  {
    if os != [] {
      SetRangeGet(r[x := os[0]], x + 1, os[1..], n);
    }
  }

  datatype Cpu = Cpu(reg: Regs, flag: bool, heap: Heap)

  /** Where straight-line execution ends: past the code, at a label, with a result, or in an abort. */
  datatype Flow = Fall(c: Cpu) | Jump(l: nat, c: Cpu) | Ret(o: Obj, c: Cpu) | Abort

  function ObjSymbol(o: Obj): Symbol
    requires !o.Null?
  {
    match o
    case At(a) => AtomSymbol(a)
    case Arr(_) => SYMBOL_ARRAY
  }

  /** Structural equality; the depth bounds the recursion, |h| suffices for every acyclic store. */
  predicate Same(h: Heap, x: Obj, y: Obj, depth: nat)
    decreases depth
  {
    if x.Arr? && y.Arr? && x.addr < |h| && y.addr < |h| then
      |h[x.addr]| == |h[y.addr]| && (depth == 0 ||
      forall i :: 0 <= i < |h[x.addr]| ==> Same(h, h[x.addr][i], h[y.addr][i], depth - 1))
    else x == y
  }

  function ConcatObj(h: Heap, y: Obj, z: seq<Obj>, i: nat): (Heap, Obj)
    requires y.Arr? ==> y.addr < |h|
  {
    var ys := if y.Arr? then h[y.addr] else [y];
    if i < |z| then
      if |ys| + |z| - i > 1 then (h + [ys + z[i..]], Arr(|h|)) else (h, z[i])
    else if |ys| == 1 then (h, ys[0]) else (h, y)
  }

  /** The members of y, or y itself, then those of z from i on. An array of one member is that member. */
  lemma ConcatMembers(h: Heap, y: Obj, z: seq<Obj>, i: nat)
    requires y.Arr? ==> y.addr < |h|
    ensures var (h1, o) := ConcatObj(h, y, z, i);
            var members := (if y.Arr? then h[y.addr] else [y]) + if i < |z| then z[i..] else [];
            && h <= h1
            && (|members| == 1 ==> o == members[0])
            && (|members| != 1 ==> o.Arr? && o.addr < |h1| && h1[o.addr] == members)
  {
    var ys := if y.Arr? then h[y.addr] else [y];
    assert ys + [] == ys;
  }

  /** One instruction; null dereferences, failed assertions and panics abort. */
  function Exec(i: Instr, c: Cpu): Flow {
    var r := c.reg;
    match i
    case Nil(x) => Fall(c.(reg := r[x := Null]))
    case Mov(x, y) => Fall(c.(reg := r[x := Get(r, y)]))
    case Data(x, a) => Fall(c.(reg := r[x := At(a)]))
    case Set(x, y, z) =>
      var a := Get(r, x);
      var k := Get(r, y);
      if a.Arr? && a.addr < |c.heap| && k.At? && k.atom.IntAtom? && 0 <= k.atom.i < |c.heap[a.addr]|
      then Fall(c.(heap := SetCell(c.heap, a.addr, k.atom.i, Get(r, z)))) else Abort
    case Takex(x, y, z, i) =>
      var a := Get(r, z);
      if a.Null? || (a.Arr? && a.addr >= |c.heap|) then Abort
      else if a.Arr? && y - x + 1 <= |c.heap[a.addr]| - i then
        Fall(c.(reg := if x <= y then SetRange(r, x, c.heap[a.addr][i..i + (y - x + 1)]) else r, flag := true))
      else Fall(c.(flag := false))
    case Split(x, y, z) =>
      var a := Get(r, z);
      if a.Null? || (a.Arr? && a.addr >= |c.heap|) then Abort
      else if a.Arr? && y - x + 1 == |c.heap[a.addr]| then
        Fall(c.(reg := SetRange(r, x, c.heap[a.addr]), flag := true))
      else Fall(c.(flag := false))
    case Array(x, y, z) =>
      if z + 1 < y then Abort
      else Fall(c.(reg := r[x := Arr(|c.heap|)], heap := c.heap + [GetRange(r, y, z + 1 - y)]))
    case Concatx(x, y, z, i) =>
      var a := Get(r, y);
      var b := Get(r, z);
      if a.Null? || !b.Arr? || b.addr >= |c.heap| || (a.Arr? && a.addr >= |c.heap|) then Abort
      else
        var (h, o) := ConcatObj(c.heap, a, c.heap[b.addr], i);
        Fall(c.(reg := r[x := o], heap := h))
    case Test(x, y) =>
      if Get(r, x).Null? || Get(r, y).Null? then Abort
      else Fall(c.(flag := Same(c.heap, Get(r, x), Get(r, y), |c.heap|)))
    case Tag(x, y) =>
      if Get(r, x).Null? || Get(r, y).Null? then Abort
      else Fall(c.(flag := ObjSymbol(Get(r, x)) == ObjSymbol(Get(r, y))))
    case Fail(l) => if c.flag then Fall(c.(flag := false)) else Jump(l, c.(flag := false))
    case Return(x) => Ret(Get(r, x), c)
  }

  /** The instructions in order, up to the first that leaves the sequence. */
  function Run(code: seq<Instr>, c: Cpu): Flow
    decreases |code|
  {
    if code == [] then Fall(c)
    else
      match Exec(code[0], c)
      case Fall(c1) => Run(code[1..], c1)
      case Jump(l, c1) => Jump(l, c1)
      case Ret(o, c1) => Ret(o, c1)
      case Abort => Abort
  }

  lemma {:induction false} RunAppend(a: seq<Instr>, b: seq<Instr>, c: Cpu)
    ensures Run(a + b, c) == if Run(a, c).Fall? then Run(b, Run(a, c).c) else Run(a, c)
    decreases |a|
  {
    if a == [] {
      assert a + b == b;
    } else {
      assert (a + b)[1..] == a[1..] + b;
      if Exec(a[0], c).Fall? {
        RunAppend(a[1..], b, Exec(a[0], c).c);
      }
    }
  }

  // The tag of an application

  /** The first element of an array. */
  function HeadObj(h: Heap, o: Obj): Obj {
    if o.Arr? && o.addr < |h| && h[o.addr] != [] then h[o.addr][0] else Null
  }

  /** TAG as its comment has it: x, or its first element, has the tag of y. */
  predicate HeadTagged(h: Heap, x: Obj, y: Obj)
    requires !x.Null? && !y.Null?
  {
    ObjSymbol(x) == ObjSymbol(y) || (!HeadObj(h, x).Null? && ObjSymbol(HeadObj(h, x)) == ObjSymbol(y))
  }

  function TagFlag(i: Instr, c: Cpu): bool
    requires Exec(i, c).Fall?
  {
    Exec(i, c).c.flag
  }

  /** The code differs from the comment exactly on arrays whose first element has the tag of y, unless that is the tag
      of arrays. TAG on the first element would differ exactly when y has the tag of arrays or that of the first element,
      and not both. */
  lemma TagExactly(c: Cpu, x: nat, y: nat)
    requires !Get(c.reg, x).Null? && !Get(c.reg, y).Null?
    ensures var a, b := Get(c.reg, x), Get(c.reg, y);
            var e := HeadObj(c.heap, a);
            && Exec(Tag(x, y), c).Fall?
            && (TagFlag(Tag(x, y), c) != HeadTagged(c.heap, a, b) <==> !e.Null? && ObjSymbol(e) == ObjSymbol(b) && ObjSymbol(b) != SYMBOL_ARRAY)
            && (!e.Null? ==> (TagFlag(Tag(x, y), c) != (ObjSymbol(e) == ObjSymbol(b)) <==> (ObjSymbol(b) == SYMBOL_ARRAY) != (ObjSymbol(e) == ObjSymbol(b))))
  {
  }

  /** A pair does not have the tag of pairs. */
  lemma TagDiffers()
    ensures var c := Cpu(map[1 := Arr(0), 2 := At(CombAtom(SYMBOL_TUPLE))], false, [[At(CombAtom(SYMBOL_TUPLE)), At(IntAtom(1)), At(IntAtom(2))]]);
            Exec(Tag(1, 2), c).Fall? && !TagFlag(Tag(1, 2), c) && HeadTagged(c.heap, Get(c.reg, 1), Get(c.reg, 2))
  {
  }
}
