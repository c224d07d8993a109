/** The abstract machine: reducing one thunk, and the trampoline that does so until it is told to stop. */
module Machine {
  import opened Terms
  import opened Heaps
  import opened Bytecode
  import opened Build
  import opened Blocks
  import opened Encoding
  import opened Codegen

  /** What the machine knows of a declared combinator. */
  datatype Combinator =
    | DataComb
    | ThrowComb
    | HandleComb
    | CodeComb(code: seq<Byte>, data: seq<Atom>)
    | ResultComb(exception: bool)

  type Table = map<Symbol, Combinator>

  /** After a reduction: the next thunk, or a result, or an abort. */
  datatype Next = Go(h: Heap, o: Obj) | Finish(h: Heap, result: Obj, exception: bool) | Panic

  /** A vector of objects as an object: one of length one is its element. */
  function Create(h: Heap, os: seq<Obj>): (Heap, Obj) {
    if |os| == 1 then (h, os[0]) else (h + [os], Arr(|h|))
  }

  /** Store the result and continue. */
  function Finished(h: Heap, link: Link, o: Obj): Next {
    if TargetIs(h, link) then Go(SetCell(h, link.rt.addr, link.rti.atom.i, o), link.k) else Panic
  }

  predicate TargetIs(h: Heap, link: Link) {
    link.rt.Arr? && link.rt.addr < |h| && link.rti.At? && link.rti.atom.IntAtom? && 0 <= link.rti.atom.i < |h[link.rt.addr]|
  }

  /** A literal or data combinator is a normal form, alone or applied. */
  function ReduceNormal(h: Heap, link: Link, f: Obj, args: seq<Obj>): Next {
    var (h1, o) := NormalObj(h, f, args);
    Finished(h1, link, o)
  }

  /** An array in head position is spliced. */
  function ReduceArray(h: Heap, link: Link, a: nat, args: seq<Obj>): Next
    requires a < |h|
  {
    var (h1, o) := Create(h, LinkObjs(link) + h[a] + args);
    Go(h1, o)
  }

  /** The arguments of throw are appended to the handler's thunk. */
  function ReduceThrow(h: Heap, link: Link, f: Obj, args: seq<Obj>): Next {
    if args == [] then
      var (h1, o) := Create(h, [f]);
      Finished(h1, link, o)
    else if link.exc.Arr? && link.exc.addr < |h| then
      var (h1, o) := Create(h, h[link.exc.addr] + args);
      Go(h1, o)
    else Panic
  }

  const NONE_OBJ := At(CombAtom(SYMBOL_NONE))

  /** handle h f reduces f none, with h none as its handler. */
  function ReduceHandle(h: Heap, link: Link, f: Obj, args: seq<Obj>): Next {
    if |args| >= 2 then
      var (h1, exc) := Create(h, LinkObjs(link) + [args[0], NONE_OBJ]);
      var (h2, o) := Create(h1, LinkObjs(link.(exc := exc)) + [args[1], NONE_OBJ] + args[2..]);
      Go(h2, o)
    else
      var (h1, o) := Create(h, [f] + args);
      Finished(h1, link, o)
  }

  /** One round of the trampoline on the thunk t: its fifth element is reduced. */
  function Step(T: Table, h: Heap, t: Obj): Next {
    if !t.Arr? || t.addr >= |h| || |h[t.addr]| < 5 then Panic
    else
      var tt := h[t.addr];
      var link := Link(tt[0], tt[1], tt[2], tt[3]);
      match tt[4]
      case Null => Panic
      case Arr(a) => if a < |h| then ReduceArray(h, link, a, tt[5..]) else Panic
      case At(atom) =>
        if !atom.CombAtom? then ReduceNormal(h, link, tt[4], tt[5..])
        else if atom.sym !in T then Panic
        else
          match T[atom.sym]
          case DataComb => ReduceNormal(h, link, tt[4], tt[5..])
          case ThrowComb => ReduceThrow(h, link, tt[4], tt[5..])
          case HandleComb => ReduceHandle(h, link, tt[4], tt[5..])
          case ResultComb(x) => if |tt| > 5 then Finish(h, tt[5], x) else Panic
          case CodeComb(code, data) =>
            match RunBytes(code, data, 0, Start(h, t.addr))
            case Returned(o, h1) => Go(h1, o)
            case _ => Panic
  }

  /** At most n rounds; the trampoline stops by itself at null. */
  function Steps(T: Table, n: nat, h: Heap, t: Obj): Next {
    if n == 0 || t.Null? then Go(h, t)
    else
      match Step(T, h, t)
      case Go(h1, t1) => Steps(T, n - 1, h1, t1)
      case Finish(h1, o, x) => Finish(h1, o, x)
      case Panic => Panic
  }

  /** The trampoline is still running after n rounds. */
  predicate Alive(T: Table, n: nat, h: Heap, t: Obj) {
    n == 0 || (!t.Null? && Step(T, h, t).Go? && Alive(T, n - 1, Step(T, h, t).h, Step(T, h, t).o))
  }

  lemma {:induction false} StepsAdd(T: Table, m: nat, n: nat, h: Heap, t: Obj)
    requires Steps(T, m, h, t).Go?
    ensures Steps(T, m + n, h, t) == Steps(T, n, Steps(T, m, h, t).h, Steps(T, m, h, t).o)
    decreases m
  {
    if m > 0 && !t.Null? {
      StepsAdd(T, m - 1, n, Step(T, h, t).h, Step(T, h, t).o);
    }
  }

  lemma {:induction false} AliveAdd(T: Table, m: nat, n: nat, h: Heap, t: Obj)
    requires Steps(T, m, h, t).Go? && Alive(T, n, Steps(T, m, h, t).h, Steps(T, m, h, t).o)
    ensures Alive(T, n, h, t)
    decreases m, n
  {
    if m > 0 && n > 0 && !t.Null? {
      AliveLess(T, n, Steps(T, m, h, t).h, Steps(T, m, h, t).o);
      AliveAdd(T, m - 1, n - 1, Step(T, h, t).h, Step(T, h, t).o);
    }
  }

  lemma {:induction false} AliveLess(T: Table, n: nat, h: Heap, t: Obj)
    requires n > 0 && Alive(T, n, h, t)
    ensures Alive(T, n - 1, h, t)
    decreases n
  {
    if n > 1 {
      AliveLess(T, n - 1, Step(T, h, t).h, Step(T, h, t).o);
    }
  }
}
