/** The reduction loop of the machine. */
module Trampoline {
  import opened Terms
  import opened Heaps
  import opened Semantics
  import opened Bytecode
  import opened Build
  import opened Blocks
  import opened Encoding
  import opened Machine
  import opened Compile
  import opened Chain
  import opened Toplevel
  import opened Reredex
  import opened Backend
  import I = Interpreter

  /** Append the elements of a thunk from index i on. */
  method PushFrom(rr: seq<Obj>, tt: seq<Obj>, i: nat) returns (r: seq<Obj>)
    requires i <= |tt|
    ensures r == rr + tt[i..] && (rr == [] ==> r == tt[i..])
  {
    r := rr;
    for k := i to |tt|
      invariant r == rr + tt[i..k]
    {
      r := r + [tt[k]];
    }
    assert tt[i..|tt|] == tt[i..];
  }

  /** The array made of a vector. */
  method CreateArray(h: Heap, os: seq<Obj>) returns (h1: Heap, o: Obj)
    ensures (h1, o) == Create(h, os)
  {
    if |os| == 1 {
      h1, o := h, os[0];
    } else {
      h1, o := h + [os], Arr(|h|);
    }
  }

  method SetResult(h: Heap, tt: seq<Obj>, o: Obj) returns (x: Next)
    requires |tt| >= 5
    ensures x == Finished(h, LinkOf(tt), o)
  {
    var rt, rti := tt[0], tt[1];
    if rt.Arr? && rt.addr < |h| && rti.At? && rti.atom.IntAtom? && 0 <= rti.atom.i < |h[rt.addr]| {
      x := Go(SetCell(h, rt.addr, rti.atom.i, o), tt[2]);
    } else {
      x := Panic;
    }
  }

  function LinkOf(tt: seq<Obj>): Link
    requires |tt| >= 5
  {
    Link(tt[0], tt[1], tt[2], tt[3])
  }

  lemma ThunkParts(tt: seq<Obj>)
    requires |tt| >= 5
    ensures tt[4..] == [tt[4]] + tt[5..]
  {
  }

  /** Literals and data combinators: alone they are the result, with arguments an array of them is. */
  method ReduceNormalThunk(h: Heap, tt: seq<Obj>) returns (x: Next)
    requires |tt| >= 5
    ensures x == ReduceNormal(h, LinkOf(tt), tt[4], tt[5..])
  {
    ThunkParts(tt);
    if |tt| == 5 {
      x := SetResult(h, tt, tt[4]);
    } else {
      var vv := PushFrom([], tt, 4);
      var h1, r := CreateArray(h, vv);
      x := SetResult(h1, tt, r);
    }
  }

  method ReduceArrayThunk(h: Heap, tt: seq<Obj>) returns (x: Next)
    requires |tt| >= 5 && tt[4].Arr? && tt[4].addr < |h|
    ensures x == ReduceArray(h, LinkOf(tt), tt[4].addr, tt[5..])
  {
    var vv := [tt[0], tt[1], tt[2], tt[3]];
    vv := PushFrom(vv, h[tt[4].addr], 0);
    assert h[tt[4].addr][0..] == h[tt[4].addr];
    vv := PushFrom(vv, tt, 5);
    var h1, o := CreateArray(h, vv);
    x := Go(h1, o);
  }

  method ReduceThrowThunk(h: Heap, tt: seq<Obj>) returns (x: Next)
    requires |tt| >= 5
    ensures x == ReduceThrow(h, LinkOf(tt), tt[4], tt[5..])
  {
    ThunkParts(tt);
    var exc := tt[3];
    if |tt| > 5 {
      if !exc.Arr? || exc.addr >= |h| {
        return Panic;
      }
      var rr := PushFrom([], h[exc.addr], 0);
      assert h[exc.addr][0..] == h[exc.addr];
      rr := PushFrom(rr, tt, 5);
      var h1, r := CreateArray(h, rr);
      x := Go(h1, r);
    } else {
      var rr := PushFrom([], tt, 4);
      assert rr == [tt[4]];
      var h1, r := CreateArray(h, rr);
      x := SetResult(h1, tt, r);
    }
  }

  method ReduceHandleThunk(h: Heap, tt: seq<Obj>) returns (x: Next)
    requires |tt| >= 5
    ensures x == ReduceHandle(h, LinkOf(tt), tt[4], tt[5..])
  {
    ThunkParts(tt);
    if |tt| > 6 {
      var h1, exc0 := CreateArray(h, [tt[0], tt[1], tt[2], tt[3], tt[5], NONE_OBJ]);
      assert [tt[0], tt[1], tt[2], tt[3], tt[5], NONE_OBJ] == LinkObjs(LinkOf(tt)) + [tt[5], NONE_OBJ];
      var ff := [tt[0], tt[1], tt[2], exc0, tt[6], NONE_OBJ];
      assert ff == LinkObjs(LinkOf(tt).(exc := exc0)) + [tt[6], NONE_OBJ];
      ff := PushFrom(ff, tt, 7);
      assert tt[5..][2..] == tt[7..];
      var h2, r := CreateArray(h1, ff);
      x := Go(h2, r);
    } else {
      var rr := PushFrom([], tt, 4);
      var h1, r := CreateArray(h, rr);
      x := SetResult(h1, tt, r);
    }
  }

  /** One round: the fifth element of the thunk reduces it. */
  method ReduceThunk(T: Table, h: Heap, t: Obj) returns (x: Next)
    ensures x == Step(T, h, t)
  {
    hide RunBytes, ReduceArray, ReduceNormal, ReduceThrow, ReduceHandle;
    if !t.Arr? || t.addr >= |h| || |h[t.addr]| < 5 {
      return Panic;
    }
    var tt := h[t.addr];
    match tt[4]
    case Null => x := Panic;
    case Arr(a) =>
      if a < |h| {
        x := ReduceArrayThunk(h, tt);
      } else {
        x := Panic;
      }
    case At(atom) =>
      if !atom.CombAtom? {
        x := ReduceNormalThunk(h, tt);
      } else if atom.sym !in T {
        x := Panic;
      } else {
        match T[atom.sym]
        case DataComb => x := ReduceNormalThunk(h, tt);
        case ThrowComb => x := ReduceThrowThunk(h, tt);
        case HandleComb => x := ReduceHandleThunk(h, tt);
        case ResultComb(exception) => x := if |tt| > 5 then Finish(h, tt[5], exception) else Panic;
        case CodeComb(code, data) =>
          var e := I.Reduce(code, data, h, t.addr);
          match e
          case Returned(o, h1) => x := Go(h1, o);
          case _ => x := Panic;
      }
  }

  /** Reduce until the thunk is null, a result arrives, or the machine is halted from outside, here after some rounds. */
  method Run(T: Table, h: Heap, t: Obj, rounds: nat) returns (x: Next)
    ensures x == Steps(T, rounds, h, t)
  {
    hide Step;
    var h1, trampoline := h, t;
    var left: nat := rounds;
    while trampoline != Null && left > 0
      invariant left <= rounds && Steps(T, left, h1, trampoline) == Steps(T, rounds, h, t)
      decreases left
    {
      x := ReduceThunk(T, h1, trampoline);
      match x {
        case Go(h2, o) => h1, trampoline := h2, o;
        case _ => return;
      }
      left := left - 1;
    }
    x := Go(h1, trampoline);
  }

  /** Reduce an object on a machine that holds emitted code: whatever the loop ends with is what evaluation gives. */
  method Evaluate(ghost ds: set<Symbol>, ghost P: Program, T: Table, h: Heap, f: Obj, ghost ft: Term, ret: Symbol, exc: Symbol, rounds: nat) returns (x: Next)
    requires Emitted(ds, P, T) && SourceProgram(P) && Stops(P, T, ret, exc) && Rep(h, f, ft)
    ensures !x.Go? ==> !Apply(rounds, P, ft, []).Out? && Agrees(x, Apply(rounds, P, ft, []))
  {
    hide Steps, Emitted, SourceProgram, Agrees, Apply, Stops, Rep;
    var h0 := Boot(h, f, ret, exc);
    x := Run(T, h0, Arr(|h| + 2), rounds);
    MachineSound(rounds, P, ds, T, h, f, ft, ret, exc);
  }
}
