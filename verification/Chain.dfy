/** Back-end correctness: running the thunks a body set up does what eager evaluation says. */
module Chain {
  import opened Terms
  import opened Heaps
  import opened Syntax
  import opened Semantics
  import opened Evaluation
  import opened Bytecode
  import opened Emit
  import opened Build
  import opened Codegen
  import opened Matching
  import opened Blocks
  import opened Encoding
  import opened LetNormal
  import opened Filling
  import opened Values
  import opened Machine
  import opened Tameness
  import opened Compile

  /** A thunk may run: its target is an unfinished cell, and its handler is an array it does not write to. */
  ghost predicate Linked(h: Heap, link: Link) {
    && TargetOk(h, link)
    && link.exc.Arr? && link.exc.addr < |h| && |h[link.exc.addr]| >= 5 && link.exc.addr != link.rt.addr
    && Open(h, h[link.rt.addr][link.rti.atom.i])
  }

  ghost predicate ThunkAt(h: Heap, t: nat, link: Link, f: Obj, args: seq<Obj>) {
    t < |h| && h[t] == LinkObjs(link) + [f] + args
  }

  /** The next thunk is the handler's, with the thrown terms as further arguments. */
  ghost predicate Thrown(handler: seq<Obj>, h: Heap, o: Obj, es: seq<Term>) {
    && o.Arr? && o.addr < |h| && es != []
    && |h[o.addr]| == |handler| + |es| && h[o.addr][..|handler|] == handler
    && Reps(h, h[o.addr][|handler|..], es)
  }

  /** The next thunk is one of an undeclared combinator. */
  ghost predicate Stuck(h: Heap, o: Obj, s: Symbol) {
    o.Arr? && o.addr < |h| && |h[o.addr]| >= 5 && h[o.addr][4] == At(CombAtom(s))
  }

  /** In m rounds, every thunk that is reduced after the first one is number b or a later one. */
  ghost predicate Later(T: Table, m: nat, h: Heap, t: Obj, b: nat)
    decreases m
  {
    m <= 1 || t.Null? || !Step(T, h, t).Go? ||
    (Step(T, h, t).o.Arr? && Step(T, h, t).o.addr >= b && Later(T, m - 1, Step(T, h, t).h, Step(T, h, t).o, b))
  }

  lemma {:induction false} LaterLess(T: Table, m: nat, h: Heap, t: Obj, b: nat, b1: nat)
    requires Later(T, m, h, t, b) && b1 <= b
    ensures Later(T, m, h, t, b1)
    decreases m
  {
    hide Step;
    if m > 1 && !t.Null? && Step(T, h, t).Go? {
      LaterLess(T, m - 1, Step(T, h, t).h, Step(T, h, t).o, b, b1);
    }
  }

  lemma {:induction false} LaterAdd(T: Table, m: nat, k: nat, h: Heap, t: Obj, b: nat)
    requires Later(T, m, h, t, b) && Steps(T, m, h, t).Go?
    requires var x := Steps(T, m, h, t); Later(T, k, x.h, x.o, b) && (m > 0 && k > 0 ==> x.o.Arr? && x.o.addr >= b)
    ensures Later(T, m + k, h, t, b)
    decreases m
  {
    hide Step;
    if m > 0 && !t.Null? {
      LaterStep(T, m, k, h, t, b);
    }
  }

  lemma {:induction false} LaterStep(T: Table, m: nat, k: nat, h: Heap, t: Obj, b: nat)
    requires m > 0 && !t.Null? && Later(T, m, h, t, b) && Steps(T, m, h, t).Go?
    requires var x := Steps(T, m, h, t); Later(T, k, x.h, x.o, b) && (k > 0 ==> x.o.Arr? && x.o.addr >= b)
    ensures Later(T, m + k, h, t, b)
    decreases m, 0
  {
    hide Step;
    var h1, t1 := Step(T, h, t).h, Step(T, h, t).o;
    if m == 1 {
      assert Steps(T, 0, h1, t1) == Go(h1, t1);
    } else {
      LaterAdd(T, m - 1, k, h1, t1, b);
    }
  }

  /** The thunk has its link and its arguments: it applies a term to terms. */
  ghost predicate StartedAs(h: Heap, t: Obj, link: Link, f: Obj, args: seq<Obj>, ft: Term, ts: seq<Term>) {
    t.Arr? && Linked(h, link) && ThunkAt(h, t.addr, link, f, args) && Rep(h, f, ft) && Reps(h, args, ts)
  }

  ghost predicate Started(h: Heap, t: Obj) {
    exists link, f, args, ft, ts :: StartedAs(h, t, link, f, args, ft, ts)
  }

  /** In m rounds, every thunk that is reduced applies a term to terms. */
  ghost predicate Visits(T: Table, m: nat, h: Heap, t: Obj)
    decreases m
  {
    m == 0 || t.Null? || (Started(h, t) && (Step(T, h, t).Go? ==> Visits(T, m - 1, Step(T, h, t).h, Step(T, h, t).o)))
  }

  lemma StartedHere(h: Heap, t: nat, link: Link, f: Obj, args: seq<Obj>, ft: Term, ts: seq<Term>)
    requires Linked(h, link) && ThunkAt(h, t, link, f, args) && Rep(h, f, ft) && Reps(h, args, ts)
    ensures Started(h, Arr(t))
  {
    hide Linked, ThunkAt, Rep, Reps;
    assert StartedAs(h, Arr(t), link, f, args, ft, ts);
  }

  lemma StartedComb(h: Heap, t: nat, link: Link, f: Obj, args: seq<Obj>, s: Symbol, ts: seq<Term>)
    requires Linked(h, link) && ThunkAt(h, t, link, f, args) && f == At(CombAtom(s)) && Reps(h, args, ts)
    ensures Started(h, Arr(t))
  {
    hide Linked, ThunkAt, Reps;
    assert StartedAs(h, Arr(t), link, f, args, Leaf(CombAtom(s)), ts);
  }

  lemma StartedThunk(h: Heap, t: Obj)
    requires Started(h, t)
    ensures t.Arr?
  {
  }

  lemma {:induction false} VisitsLess(T: Table, m: nat, k: nat, h: Heap, t: Obj)
    requires Visits(T, m, h, t) && k <= m
    ensures Visits(T, k, h, t)
    decreases m
  {
    hide Step, Started;
    if k > 0 && !t.Null? && Step(T, h, t).Go? {
      VisitsLess(T, m - 1, k - 1, Step(T, h, t).h, Step(T, h, t).o);
    }
  }

  lemma {:induction false} VisitsAdd(T: Table, m: nat, k: nat, h: Heap, t: Obj)
    requires Visits(T, m, h, t) && Steps(T, m, h, t).Go?
    requires Visits(T, k, Steps(T, m, h, t).h, Steps(T, m, h, t).o)
    ensures Visits(T, m + k, h, t)
    decreases m
  {
    hide Step, Started;
    if m > 0 && !t.Null? {
      VisitsAdd(T, m - 1, k, Step(T, h, t).h, Step(T, h, t).o);
    }
  }

  lemma VisitsOne(T: Table, h: Heap, t: Obj)
    requires Started(h, t)
    ensures Visits(T, 1, h, t) && Visits(T, 0, h, t)
  {
    hide Step, Started;
    if Step(T, h, t).Go? {
      VisitsNone(T, Step(T, h, t).h, Step(T, h, t).o);
    }
  }

  lemma VisitsNone(T: Table, h: Heap, t: Obj)
    ensures Visits(T, 0, h, t)
  {
  }

  // Tame runs

  /** If the thunk applies a definition, the alternatives that are tried split applications only. */
  ghost predicate FineAt(P: Program, h: Heap, t: Obj) {
    forall link, s, args, ts ::
      StartedAs(h, t, link, At(CombAtom(s)), args, Leaf(CombAtom(s)), ts) && s in P && P[s].CodeDef? ==> SplitsAlts(P[s].alts, ts)
  }

  /** That is so in m rounds. */
  ghost predicate Fine(P: Program, T: Table, m: nat, h: Heap, t: Obj)
    decreases m
  {
    m == 0 || t.Null? || (FineAt(P, h, t) && (Step(T, h, t).Go? ==> Fine(P, T, m - 1, Step(T, h, t).h, Step(T, h, t).o)))
  }

  /** The m rounds that an evaluation with result r and fuel n takes are such exactly when w holds; if it runs out of fuel,
      they are as many as that at least. */
  ghost predicate Judged(P: Program, T: Table, n: nat, m: nat, h: Heap, t: Obj, r: Res, w: bool) {
    (Fine(P, T, m, h, t) <==> w) && (r.Out? ==> m >= n)
  }

  lemma {:induction false} RepOnce(h: Heap, o: Obj, t: Term, t1: Term)
    requires Rep(h, o, t) && Rep(h, o, t1)
    ensures t == t1
    decreases t
  {
    if t.Node? {
      forall i | 0 <= i < |t.ts|
        ensures t1.Node? && |t1.ts| == |t.ts| && t.ts[i] == t1.ts[i]
      {
        RepOnce(h, h[o.addr][i], t.ts[i], t1.ts[i]);
      }
      assert t.ts == t1.ts;
    }
  }

  lemma RepsOnce(h: Heap, os: seq<Obj>, ts: seq<Term>, ts1: seq<Term>)
    requires Reps(h, os, ts) && Reps(h, os, ts1)
    ensures ts == ts1
  {
    hide Rep;
    forall i | 0 <= i < |ts|
      ensures ts[i] == ts1[i]
    {
      RepOnce(h, os[i], ts[i], ts1[i]);
    }
  }

  lemma SameThunk(h: Heap, t: nat, link: Link, f: Obj, args: seq<Obj>, link1: Link, f1: Obj, args1: seq<Obj>)
    requires ThunkAt(h, t, link, f, args) && ThunkAt(h, t, link1, f1, args1)
    ensures f == f1 && args == args1
  {
    assert h[t][4] == f && h[t][4] == f1;
    assert h[t][5..] == args && h[t][5..] == args1;
  }

  lemma FinePlain(P: Program, h: Heap, t: nat, link: Link, f: Obj, args: seq<Obj>)
    requires ThunkAt(h, t, link, f, args)
    requires f.At? && f.atom.CombAtom? && f.atom.sym in P ==> !P[f.atom.sym].CodeDef?
    ensures FineAt(P, h, Arr(t))
  {
    hide ThunkAt, Linked, Rep, SplitsAlts;
    if !FineAt(P, h, Arr(t)) {
      var link1, s, args1, ts :|
        StartedAs(h, Arr(t), link1, At(CombAtom(s)), args1, Leaf(CombAtom(s)), ts) && s in P && P[s].CodeDef? && !SplitsAlts(P[s].alts, ts);
      SameThunk(h, t, link, f, args, link1, At(CombAtom(s)), args1);
      assert false;
    }
  }

  lemma FineCode(P: Program, h: Heap, t: nat, link: Link, f: Obj, args: seq<Obj>, s: Symbol, ts: seq<Term>)
    requires Linked(h, link) && ThunkAt(h, t, link, f, args) && f == At(CombAtom(s)) && Reps(h, args, ts) && s in P && P[s].CodeDef?
    ensures FineAt(P, h, Arr(t)) <==> SplitsAlts(P[s].alts, ts)
  {
    hide ThunkAt, Linked, Reps, SplitsAlts;
    assert StartedAs(h, Arr(t), link, At(CombAtom(s)), args, Leaf(CombAtom(s)), ts);
    forall link1, s1, args1, ts1 | StartedAs(h, Arr(t), link1, At(CombAtom(s1)), args1, Leaf(CombAtom(s1)), ts1) && s1 in P && P[s1].CodeDef?
      ensures s1 == s && ts1 == ts
    {
      SameThunk(h, t, link, f, args, link1, At(CombAtom(s1)), args1);
      RepsOnce(h, args, ts, ts1);
    }
  }

  lemma {:induction false} FineAdd(P: Program, T: Table, m: nat, k: nat, h: Heap, t: Obj)
    requires Steps(T, m, h, t).Go?
    ensures Fine(P, T, m + k, h, t) <==> Fine(P, T, m, h, t) && Fine(P, T, k, Steps(T, m, h, t).h, Steps(T, m, h, t).o)
    decreases m
  {
    hide Step, FineAt;
    if m > 0 && !t.Null? {
      FineAdd(P, T, m - 1, k, Step(T, h, t).h, Step(T, h, t).o);
    }
  }

  lemma JudgedNone(P: Program, T: Table, n: nat, h: Heap, t: Obj, r: Res, w: bool)
    requires w && (r.Out? ==> n == 0)
    ensures Judged(P, T, n, 0, h, t, r, w)
  {
  }

  lemma JudgedOne(P: Program, T: Table, n: nat, h: Heap, t: nat, r: Res, w: bool)
    requires !r.Out? && (FineAt(P, h, Arr(t)) <==> w)
    ensures Judged(P, T, n, 1, h, Arr(t), r, w)
  {
    hide FineAt, Step;
    FineNone(P, T, Step(T, h, Arr(t)));
  }

  lemma FineNone(P: Program, T: Table, x: Next)
    ensures x.Go? ==> Fine(P, T, 0, x.h, x.o)
  {
  }

  lemma JudgedAfter(P: Program, T: Table, h: Heap, t: Obj, m0: nat, h2: Heap, t2: Obj, n: nat, n2: nat, m: nat, r: Res, w0: bool, w: bool)
    requires Steps(T, m0, h, t) == Go(h2, t2) && (Fine(P, T, m0, h, t) <==> w0) && Judged(P, T, n2, m, h2, t2, r, w) && n <= n2 + m0
    ensures Judged(P, T, n, m0 + m, h, t, r, w0 && w)
  {
    hide Fine, Steps;
    FineAdd(P, T, m0, m, h, t);
  }

  lemma JudgedStep(P: Program, T: Table, h: Heap, t: nat, h2: Heap, t2: Obj, n: nat, n2: nat, m: nat, r: Res, w0: bool, w: bool)
    requires Step(T, h, Arr(t)) == Go(h2, t2) && (FineAt(P, h, Arr(t)) <==> w0) && Judged(P, T, n2, m, h2, t2, r, w) && n <= n2 + 1
    ensures Judged(P, T, n, m + 1, h, Arr(t), r, w0 && w)
  {
    hide Step, FineAt;
  }

  /** The table has nothing to reduce it with, but perhaps the end of the machine. */
  predicate Undeclared(T: Table, s: Symbol) {
    s in T ==> T[s].ResultComb?
  }

  lemma UndeclaredStops(T: Table, h: Heap, o: Obj, c: Symbol)
    requires Stuck(h, o, c) && Undeclared(T, c)
    ensures !Step(T, h, o).Go?
  {
  }

  /** From thunk t in store h0 the machine does what the result r of an evaluation with fuel n says.
      A value goes to the target and the continuation is next; an exception goes to the handler of the
      thunk, and the target stays unfinished. No other cell of an array in h changes, and no thunk of h but t is reduced;
      all thunks that are reduced apply terms to terms. */
  ghost predicate Reaches(T: Table, h: Heap, h0: Heap, t: Obj, link: Link, r: Res, n: nat, m: nat, h1: Heap, o: Obj)
    requires TargetOk(h, link) && link.exc.Arr? && link.exc.addr < |h|
  {
    match r
    case Out => Alive(T, n, h0, t) && Visits(T, n, h0, t)
    case Val(v) => Steps(T, m, h0, t) == Go(h1, link.k) && Frame(h, h1, link.rt.addr, link.rti.atom.i) && Rep(h1, h1[link.rt.addr][link.rti.atom.i], v) && Later(T, m, h0, t, |h|) && Visits(T, m, h0, t)
    case Exc(es) =>
      && Steps(T, m, h0, t) == Go(h1, o) && Frame(h, h1, link.rt.addr, link.rti.atom.i)
      && Open(h1, h1[link.rt.addr][link.rti.atom.i]) && Thrown(h[link.exc.addr], h1, o, es)
      && Later(T, m, h0, t, |h|) && o.addr >= |h| && Visits(T, m, h0, t)
    case Undef(s) => Steps(T, m, h0, t) == Go(h1, o) && Stuck(h1, o, s) && Undeclared(T, s) && Visits(T, m, h0, t)
  }

  lemma ReachesAfter(T: Table, h: Heap, h0: Heap, t: Obj, h2: Heap, t2: Obj, link: Link, r: Res, n: nat, m0: nat, m: nat, h1: Heap, o: Obj)
    requires TargetOk(h, link) && link.exc.Arr? && link.exc.addr < |h|
    requires Steps(T, m0, h0, t) == Go(h2, t2) && Reaches(T, h, h2, t2, link, r, n, m, h1, o)
    requires Later(T, m0, h0, t, |h|) && NewThunk(h, r, m, t2) && Visits(T, m0, h0, t)
    ensures Reaches(T, h, h0, t, link, r, n, m0 + m, h1, o)
  {
    hide Steps, Alive, Frame, Rep, Open, Thrown, Stuck, Later, Visits;
    StepsAdd(T, m0, m, h0, t);
    if r.Out? {
      AliveAdd(T, m0, n, h0, t);
      VisitsAdd(T, m0, n, h0, t);
      VisitsLess(T, m0 + n, n, h0, t);
    } else {
      VisitsAdd(T, m0, m, h0, t);
      if !r.Undef? {
        LaterAdd(T, m0, m, h0, t, |h|);
      }
    }
  }

  /** If it is reduced at all, the next thunk is not one of h. */
  ghost predicate NewThunk(h: Heap, r: Res, m: nat, t: Obj) {
    r.Val? || r.Exc? ==> m > 0 ==> t.Arr? && t.addr >= |h|
  }

  lemma OneStep(T: Table, h0: Heap, t: Obj, h2: Heap, t2: Obj)
    requires !t.Null? && Step(T, h0, t) == Go(h2, t2)
    ensures Steps(T, 1, h0, t) == Go(h2, t2)
    ensures forall b: nat :: Later(T, 1, h0, t, b)
  {
    hide Step;
    assert Steps(T, 0, h2, t2) == Go(h2, t2);
  }

  /** A round that uses fuel. */
  lemma ReachesNext(T: Table, h: Heap, h0: Heap, t: Obj, h2: Heap, t2: Obj, link: Link, r: Res, n: nat, m: nat, h1: Heap, o: Obj)
    requires TargetOk(h, link) && link.exc.Arr? && link.exc.addr < |h|
    requires n > 0 && !t.Null? && Step(T, h0, t) == Go(h2, t2) && Reaches(T, h, h2, t2, link, r, n - 1, m, h1, o)
    requires NewThunk(h, r, m, t2) && Started(h0, t)
    ensures Reaches(T, h, h0, t, link, r, n, m + 1, h1, o)
  {
    hide Step, Frame, Rep, Open, Thrown, Stuck, Later, Visits, Started;
    OneStep(T, h0, t, h2, t2);
    StepsAdd(T, 1, m, h0, t);
    VisitsOne(T, h0, t);
    VisitsAdd(T, 1, if r.Out? then n - 1 else m, h0, t);
    if r.Val? || r.Exc? {
      LaterAdd(T, 1, m, h0, t, |h|);
    }
  }

  /** Less changed, seen from a store with fewer arrays. */
  lemma ReachesFrom(T: Table, h: Heap, h2: Heap, h0: Heap, t: Obj, link: Link, r: Res, n: nat, m: nat, h1: Heap, o: Obj)
    requires TargetOk(h, link) && link.exc.Arr? && link.exc.addr < |h| && link.exc.addr != link.rt.addr
    requires Frame(h, h2, link.rt.addr, link.rti.atom.i)
    requires TargetOk(h2, link) && Reaches(T, h2, h0, t, link, r, n, m, h1, o)
    ensures Reaches(T, h, h0, t, link, r, n, m, h1, o)
  {
    hide Steps, Alive, Rep, Open, Thrown, Stuck, Later, Visits;
    if r.Val? || r.Exc? {
      LaterLess(T, m, h0, t, |h2|, |h|);
    }
  }

  lemma GrowFrame(h: Heap, h1: Heap, a: nat, i: nat)
    requires h <= h1 && a < |h| && i < |h[a]|
    ensures Frame(h, h1, a, i)
  {
  }

  lemma LinkedGrow(h: Heap, h1: Heap, link: Link)
    requires Linked(h, link) && h <= h1
    ensures Linked(h1, link)
  {
    hide Open;
    OpenKept(h, h1, h[link.rt.addr][link.rti.atom.i]);
  }

  // Normal forms

  lemma NormalRep(h: Heap, f: Obj, args: seq<Obj>, ft: Term, ts: seq<Term>)
    requires Rep(h, f, ft) && Reps(h, args, ts)
    ensures var (h1, o) := NormalObj(h, f, args); h <= h1 && Rep(h1, o, Normal(ft, ts))
  {
    hide Rep;
    if args != [] {
      var h1 := h + [[f] + args];
      RepGrow(h, h1, f, ft);
      RepsGrow(h, h1, args, ts);
      NodeRep(h1, Arr(|h|), f, ft, args, ts);
    }
  }

  /** One round that stores a finished term. */
  lemma Settled(T: Table, h: Heap, h0: Heap, t: Obj, link: Link, o: Obj, v: Term, n: nat)
    requires Linked(h, link) && h <= h0 && Rep(h0, o, v) && TargetOk(h0, link) && Started(h, t)
    requires Step(T, h, t) == Go(SetCell(h0, link.rt.addr, link.rti.atom.i, o), link.k)
    ensures Reaches(T, h, h, t, link, Val(v), n, 1, SetCell(h0, link.rt.addr, link.rti.atom.i, o), link.k)
  {
    hide Step, Steps, Open, Rep, Started, Visits;
    var a, i := link.rt.addr, link.rti.atom.i;
    var h1 := SetCell(h0, a, i, o);
    StartedThunk(h, t);
    VisitsOne(T, h, t);
    OneStep(T, h, t, h1, link.k);
    OpenKept(h, h0, h[a][i]);
    assert h0[a] == h[a];
    RepFrame(h0, h1, a, i, o, v);
  }

  /** The cases of a reduction, by the head of the thunk. */
  lemma StepShape(T: Table, h: Heap, t: nat, link: Link, f: Obj, args: seq<Obj>)
    requires ThunkAt(h, t, link, f, args)
    ensures f.Arr? && f.addr < |h| ==> Step(T, h, Arr(t)) == ReduceArray(h, link, f.addr, args)
    ensures f.At? && !f.atom.CombAtom? ==> Step(T, h, Arr(t)) == ReduceNormal(h, link, f, args)
    ensures f.At? && f.atom.CombAtom? && f.atom.sym in T ==>
      match T[f.atom.sym]
      case DataComb => Step(T, h, Arr(t)) == ReduceNormal(h, link, f, args)
      case ThrowComb => Step(T, h, Arr(t)) == ReduceThrow(h, link, f, args)
      case HandleComb => Step(T, h, Arr(t)) == ReduceHandle(h, link, f, args)
      case ResultComb(_) => true
      case CodeComb(code, data) =>
        RunBytes(code, data, 0, Start(h, t)).Returned? ==>
          Step(T, h, Arr(t)) == Go(RunBytes(code, data, 0, Start(h, t)).h, RunBytes(code, data, 0, Start(h, t)).o)
  {
    hide ReduceArray, ReduceNormal, ReduceThrow, ReduceHandle, RunBytes;
    var tt := h[t];
    assert tt[0] == link.rt && tt[1] == link.rti && tt[2] == link.k && tt[3] == link.exc && tt[4] == f && tt[5..] == args;
  }

  lemma NormalRun(T: Table, h: Heap, t: nat, link: Link, f: Obj, args: seq<Obj>, ft: Term, ts: seq<Term>, n: nat) returns (h1: Heap)
    requires ThunkAt(h, t, link, f, args) && Linked(h, link) && Rep(h, f, ft) && Reps(h, args, ts)
    requires Step(T, h, Arr(t)) == ReduceNormal(h, link, f, args)
    ensures Reaches(T, h, h, Arr(t), link, Val(Normal(ft, ts)), n, 1, h1, link.k)
  {
    hide Step, Rep, Reps, Open, Started;
    StartedHere(h, t, link, f, args, ft, ts);
    NormalRep(h, f, args, ft, ts);
    var (h0, o) := NormalObj(h, f, args);
    h1 := SetCell(h0, link.rt.addr, link.rti.atom.i, o);
    Settled(T, h, h0, Arr(t), link, o, Normal(ft, ts), n);
  }

  // One application

  lemma {:induction false} ApplyRun(n: nat, P: Program, ds: set<Symbol>, T: Table, h: Heap, t: nat, link: Link, f: Obj, args: seq<Obj>, ft: Term, ts: seq<Term>)
    returns (m: nat, h1: Heap, o: Obj)
    requires Compiled(ds, P, T) && Linked(h, link) && ThunkAt(h, t, link, f, args) && Rep(h, f, ft) && Reps(h, args, ts)
    ensures Reaches(T, h, h, Arr(t), link, Apply(n, P, ft, ts), n, m, h1, o)
    ensures Judged(P, T, n, m, h, Arr(t), Apply(n, P, ft, ts), TameApply(n, P, ft, ts))
    decreases n, 0, ft, 1
  {
    hide Compiled, Linked, Reps, Apply, Step, Reaches, Steps, Alive, Judged, FineAt, TameApply;
    match ft
    case Node(_) => m, h1, o := NodeRun(n, P, ds, T, h, t, link, f, args, ft, ts);
    case Leaf(a) =>
      if a.CombAtom? {
        m, h1, o := CombRun(n, P, ds, T, h, t, link, f, args, a.sym, ts);
      } else {
        StepShape(T, h, t, link, f, args);
        PlainApply(n, P, {}, a, ts);
        m, o := 1, link.k;
        h1 := NormalRun(T, h, t, link, f, args, ft, ts, n);
        TamePlain(n, P, ft, ts);
        FinePlain(P, h, t, link, f, args);
        JudgedOne(P, T, n, h, t, Apply(n, P, ft, ts), TameApply(n, P, ft, ts));
      }
  }

  lemma {:induction false} NodeRun(n: nat, P: Program, ds: set<Symbol>, T: Table, h: Heap, t: nat, link: Link, f: Obj, args: seq<Obj>, ft: Term, ts: seq<Term>)
    returns (m: nat, h1: Heap, o: Obj)
    requires ft.Node?
    requires Compiled(ds, P, T) && Linked(h, link) && ThunkAt(h, t, link, f, args) && Rep(h, f, ft) && Reps(h, args, ts)
    ensures Reaches(T, h, h, Arr(t), link, Apply(n, P, ft, ts), n, m, h1, o)
    ensures Judged(P, T, n, m, h, Arr(t), Apply(n, P, ft, ts), TameApply(n, P, ft, ts))
    decreases n, 0, ft, 0
  {
    hide Compiled, Linked, Reps, Apply, Step, Reaches, Steps, Alive, Rep, Open, Judged, FineAt, TameApply;
    var h2 := NodeStep(T, h, t, link, f, args, ft, ts);
    var os := h[f.addr];
    LinkedGrow(h, h2, link);
    m, h1, o := ApplyRun(n, P, ds, T, h2, |h|, link, os[0], os[1..] + args, ft.ts[0], ft.ts[1..] + ts);
    ApplyNode(n, P, ft, ts);
    StartedHere(h, t, link, f, args, ft, ts);
    Spliced(T, h, h2, t, link, Apply(n, P, ft, ts), n, m, h1, o);
    TameNode(n, P, ft, ts);
    FinePlain(P, h, t, link, f, args);
    JudgedStep(P, T, h, t, h2, Arr(|h|), n, n, m, Apply(n, P, ft, ts), true, TameApply(n, P, ft, ts));
    m := m + 1;
  }

  lemma NodeStep(T: Table, h: Heap, t: nat, link: Link, f: Obj, args: seq<Obj>, ft: Term, ts: seq<Term>) returns (h2: Heap)
    requires ft.Node? && ThunkAt(h, t, link, f, args) && Rep(h, f, ft) && Reps(h, args, ts)
    ensures f.Arr? && f.addr < |h| && |h[f.addr]| == |ft.ts| > 0
    ensures var os := h[f.addr];
            && h <= h2 && Step(T, h, Arr(t)) == Go(h2, Arr(|h|)) && ThunkAt(h2, |h|, link, os[0], os[1..] + args)
            && Rep(h2, os[0], ft.ts[0]) && Reps(h2, os[1..] + args, ft.ts[1..] + ts)
  {
    hide Step;
    StepShape(T, h, t, link, f, args);
    var os := h[f.addr];
    assert LinkObjs(link) + os + args == LinkObjs(link) + [os[0]] + (os[1..] + args);
    h2 := h + [LinkObjs(link) + os + args];
    assert Reps(h, os, ft.ts);
    RepsGrow(h, h2, os, ft.ts);
    RepsGrow(h, h2, args, ts);
  }

  /** After a round that only added arrays. */
  lemma Spliced(T: Table, h: Heap, h2: Heap, t: nat, link: Link, r: Res, n: nat, m: nat, h1: Heap, o: Obj)
    requires Linked(h, link) && Linked(h2, link) && h <= h2 && Step(T, h, Arr(t)) == Go(h2, Arr(|h|)) && Started(h, Arr(t))
    requires Reaches(T, h2, h2, Arr(|h|), link, r, n, m, h1, o)
    ensures Reaches(T, h, h, Arr(t), link, r, n, m + 1, h1, o)
  {
    hide Step, Reaches, Steps, Alive, Open, Started, Visits;
    VisitsOne(T, h, Arr(t));
    GrowFrame(h, h2, link.rt.addr, link.rti.atom.i);
    ReachesFrom(T, h, h2, h2, Arr(|h|), link, r, n, m, h1, o);
    OneStep(T, h, Arr(t), h2, Arr(|h|));
    ReachesAfter(T, h, h, Arr(t), h2, Arr(|h|), link, r, n, 1, m, h1, o);
  }

  lemma {:induction false} CombRun(n: nat, P: Program, ds: set<Symbol>, T: Table, h: Heap, t: nat, link: Link, f: Obj, args: seq<Obj>, s: Symbol, ts: seq<Term>)
    returns (m: nat, h1: Heap, o: Obj)
    requires Compiled(ds, P, T) && Linked(h, link) && ThunkAt(h, t, link, f, args) && f == At(CombAtom(s)) && Reps(h, args, ts)
    ensures Reaches(T, h, h, Arr(t), link, Apply(n, P, Leaf(CombAtom(s)), ts), n, m, h1, o)
    ensures Judged(P, T, n, m, h, Arr(t), Apply(n, P, Leaf(CombAtom(s)), ts), TameApply(n, P, Leaf(CombAtom(s)), ts))
    decreases n, 0, Leaf(CombAtom(s)), 0
  {
    hide Linked, Reps, Apply, Step, Reaches, Steps, Alive, Open, Assembled, RunBytes, Judged, FineAt, TameApply, ThunkAt;
    TameShape(n, P, s, ts);
    StepShape(T, h, t, link, f, args);
    ApplyShape(n, P, s, ts);
    if s !in P {
      NotInProgram(ds, P, T, s);
      m, h1, o := StuckRun(T, h, t, link, f, args, s, n);
      JudgedNone(P, T, n, h, Arr(t), Undef(s), true);
    } else {
      match P[s]
      case DataDef =>
        m, o := 1, link.k;
        h1 := NormalRun(T, h, t, link, f, args, Leaf(CombAtom(s)), ts, n);
        JudgedPlain(P, T, n, h, t, link, f, args, Apply(n, P, Leaf(CombAtom(s)), ts), s);
      case ThrowDef =>
        m, h1, o := ThrowRun(n, P, T, h, t, link, f, args, s, ts);
        JudgedPlain(P, T, n, h, t, link, f, args, Apply(n, P, Leaf(CombAtom(s)), ts), s);
      case HandleDef => m, h1, o := HandleRun(n, P, ds, T, h, t, link, f, args, s, ts);
      case CodeDef(_) => m, h1, o := CodeRun(n, P, ds, T, h, t, link, f, args, s, ts);
    }
  }

  lemma JudgedPlain(P: Program, T: Table, n: nat, h: Heap, t: nat, link: Link, f: Obj, args: seq<Obj>, r: Res, s: Symbol)
    requires ThunkAt(h, t, link, f, args) && f == At(CombAtom(s)) && (s in P ==> !P[s].CodeDef?) && !r.Out?
    ensures Judged(P, T, n, 1, h, Arr(t), r, true)
  {
    hide Judged, FineAt, ThunkAt;
    FinePlain(P, h, t, link, f, args);
    JudgedOne(P, T, n, h, t, r, true);
  }

  lemma StuckRun(T: Table, h: Heap, t: nat, link: Link, f: Obj, args: seq<Obj>, s: Symbol, n: nat) returns (m: nat, h1: Heap, o: Obj)
    requires Linked(h, link) && ThunkAt(h, t, link, f, args) && f == At(CombAtom(s)) && Undeclared(T, s)
    ensures Reaches(T, h, h, Arr(t), link, Undef(s), n, m, h1, o) && m == 0
  {
    hide Step, Open, Started;
    m, h1, o := 0, h, Arr(t);
    VisitsNone(T, h, Arr(t));
  }

  lemma NotInProgram(ds: set<Symbol>, P: Program, T: Table, s: Symbol)
    requires Compiled(ds, P, T) && s !in P
    ensures Undeclared(T, s)
  {
  }

  // Throwing

  lemma ThrowRun(n: nat, P: Program, T: Table, h: Heap, t: nat, link: Link, f: Obj, args: seq<Obj>, s: Symbol, ts: seq<Term>)
    returns (m: nat, h1: Heap, o: Obj)
    requires Linked(h, link) && ThunkAt(h, t, link, f, args) && f == At(CombAtom(s)) && Reps(h, args, ts)
    requires Step(T, h, Arr(t)) == ReduceThrow(h, link, f, args)
    ensures Reaches(T, h, h, Arr(t), link, if ts == [] then Val(Leaf(CombAtom(s))) else Exc(ts), n, m, h1, o) && m == 1
  {
    hide Step, Steps, Open, Started, Visits;
    m := 1;
    StartedComb(h, t, link, f, args, s, ts);
    VisitsOne(T, h, Arr(t));
    if args == [] {
      o := link.k;
      h1 := SetCell(h, link.rt.addr, link.rti.atom.i, f);
      Settled(T, h, h, Arr(t), link, f, Leaf(CombAtom(s)), n);
    } else {
      var handler := h[link.exc.addr];
      h1 := h + [handler + args];
      o := Arr(|h|);
      OneStep(T, h, Arr(t), h1, o);
      OpenKept(h, h1, h[link.rt.addr][link.rti.atom.i]);
      RepsGrow(h, h1, args, ts);
      assert h1[|h|][|handler|..] == args;
    }
  }

  // Handling

  /** The thunk that a handler becomes. */
  function HandlerArray(link: Link, f: Obj): seq<Obj> {
    LinkObjs(link) + [f] + [NONE_OBJ]
  }

  lemma {:induction false} HandleRun(n: nat, P: Program, ds: set<Symbol>, T: Table, h: Heap, t: nat, link: Link, f: Obj, args: seq<Obj>, s: Symbol, ts: seq<Term>)
    returns (m: nat, h1: Heap, o: Obj)
    requires s in P && P[s].HandleDef?
    requires Compiled(ds, P, T) && Linked(h, link) && ThunkAt(h, t, link, f, args) && f == At(CombAtom(s)) && Reps(h, args, ts)
    requires Step(T, h, Arr(t)) == ReduceHandle(h, link, f, args)
    ensures Reaches(T, h, h, Arr(t), link, Apply(n, P, Leaf(CombAtom(s)), ts), n, m, h1, o)
    ensures Judged(P, T, n, m, h, Arr(t), Apply(n, P, Leaf(CombAtom(s)), ts), TameApply(n, P, Leaf(CombAtom(s)), ts))
    decreases n, 0, Leaf(CombAtom(s)), 0, 0
  {
    hide Compiled, Linked, Reps, Apply, Step, Reaches, Steps, Alive, ReduceHandle, Judged, FineAt, TameApply;
    TameShape(n, P, s, ts);
    ApplyShape(n, P, s, ts);
    RepsLength(h, args, ts);
    if |ts| < 2 {
      m, o := 1, link.k;
      HandlePart(h, link, f, args);
      h1 := NormalRun(T, h, t, link, f, args, Leaf(CombAtom(s)), ts, n);
      JudgedPlain(P, T, n, h, t, link, f, args, Apply(n, P, Leaf(CombAtom(s)), ts), s);
    } else if n == 0 {
      m, h1, o := 0, h, link.k;
      ReachesOut(T, h, Arr(t), link, m, h1, o);
      JudgedNone(P, T, n, h, Arr(t), Out, true);
    } else {
      m, h1, o := HandleBody(n, P, ds, T, h, t, link, f, args, s, ts);
    }
  }

  lemma ReachesOut(T: Table, h: Heap, t: Obj, link: Link, m: nat, h1: Heap, o: Obj)
    requires Linked(h, link)
    ensures Reaches(T, h, h, t, link, Out, 0, m, h1, o)
  {
    hide Open, Started;
    VisitsNone(T, h, t);
  }

  lemma HandlePart(h: Heap, link: Link, f: Obj, args: seq<Obj>)
    requires |args| < 2
    ensures ReduceHandle(h, link, f, args) == ReduceNormal(h, link, f, args)
  {
    assert [f] + [] == [f];
  }

  /** The handler gets the link of the handled application, and that gets the handler. */
  lemma HandleStep(T: Table, h: Heap, t: nat, link: Link, f: Obj, args: seq<Obj>, ts: seq<Term>) returns (h2: Heap)
    requires Linked(h, link) && Reps(h, args, ts) && |args| >= 2
    requires Step(T, h, Arr(t)) == ReduceHandle(h, link, f, args)
    ensures h <= h2 && Step(T, h, Arr(t)) == Go(h2, Arr(|h| + 1)) && |h| < |h2| && h2[|h|] == HandlerArray(link, args[0])
    ensures var link1 := link.(exc := Arr(|h|));
            Linked(h2, link1) && ThunkAt(h2, |h| + 1, link1, args[1], [NONE_OBJ] + args[2..])
    ensures Rep(h2, args[0], ts[0]) && Rep(h2, args[1], ts[1]) && Reps(h2, [NONE_OBJ] + args[2..], [NONE] + ts[2..])
  {
    hide Step, Open;
    var link1 := link.(exc := Arr(|h|));
    assert LinkObjs(link) + [args[0], NONE_OBJ] == HandlerArray(link, args[0]);
    assert LinkObjs(link1) + [args[1], NONE_OBJ] + args[2..] == LinkObjs(link1) + [args[1]] + ([NONE_OBJ] + args[2..]);
    h2 := h + [HandlerArray(link, args[0])] + [LinkObjs(link1) + [args[1]] + ([NONE_OBJ] + args[2..])];
    assert h2 == h + [LinkObjs(link) + [args[0], NONE_OBJ]] + [LinkObjs(link1) + [args[1], NONE_OBJ] + args[2..]];
    OpenKept(h, h2, h[link.rt.addr][link.rti.atom.i]);
    RepsGrow(h, h2, args, ts);
  }

  lemma {:induction false} HandleBody(n: nat, P: Program, ds: set<Symbol>, T: Table, h: Heap, t: nat, link: Link, f: Obj, args: seq<Obj>, s: Symbol, ts: seq<Term>)
    returns (m: nat, h1: Heap, o: Obj)
    requires s in P && P[s].HandleDef? && |ts| == |args| >= 2 && n > 0
    requires Compiled(ds, P, T) && Linked(h, link) && ThunkAt(h, t, link, f, args) && f == At(CombAtom(s)) && Reps(h, args, ts)
    requires Step(T, h, Arr(t)) == ReduceHandle(h, link, f, args)
    ensures Reaches(T, h, h, Arr(t), link, Apply(n, P, Leaf(CombAtom(s)), ts), n, m, h1, o)
    ensures Judged(P, T, n, m, h, Arr(t), Apply(n, P, Leaf(CombAtom(s)), ts), TameApply(n, P, Leaf(CombAtom(s)), ts))
    decreases n, 0, Leaf(CombAtom(s)), 0, 0, 0
  {
    hide Compiled, Linked, Reps, Rep, Apply, Step, Reaches, Steps, Alive, ReduceHandle, HandlerArray, ThunkAt, Judged, FineAt, TameApply;
    ApplyShape(n, P, s, ts);
    TameShape(n, P, s, ts);
    FinePlain(P, h, t, link, f, args);
    StartedComb(h, t, link, f, args, s, ts);
    var h2 := HandleStep(T, h, t, link, f, args, ts);
    var link1 := link.(exc := Arr(|h|));
    var r := Apply(n - 1, P, ts[1], [NONE] + ts[2..]);
    m, h1, o := ApplyRun(n - 1, P, ds, T, h2, |h| + 1, link1, args[1], [NONE_OBJ] + args[2..], ts[1], [NONE] + ts[2..]);
    var w := TameApply(n - 1, P, ts[1], [NONE] + ts[2..]);
    if r.Exc? {
      var h3, m1 := h1, m;
      CaughtStep(T, h, h2, link, args[0], r.ts, n - 1, m1, h3, o, ts[0]);
      var t3, args3 := o.addr, [NONE_OBJ] + h1[o.addr][6..];
      m, h1, o := ApplyRun(n - 1, P, ds, T, h3, t3, link, args[0], args3, ts[0], [NONE] + r.ts);
      var r1 := Apply(n - 1, P, ts[0], [NONE] + r.ts);
      var w1 := TameApply(n - 1, P, ts[0], [NONE] + r.ts);
      Caught(T, h, h2, t, link, r1, n, m1, h3, t3, m, h1, o);
      JudgedFine(P, T, n - 1, m1, h2, Arr(|h| + 1), r, w);
      JudgedAfter(P, T, h2, Arr(|h| + 1), m1, h3, Arr(t3), n - 1, n - 1, m, r1, w, w1);
      JudgedStep(P, T, h, t, h2, Arr(|h| + 1), n, n - 1, m1 + m, r1, true, w && w1);
      m := m1 + m + 1;
    } else {
      NotCaught(T, h, h2, t, link, r, n, m, h1, o);
      JudgedStep(P, T, h, t, h2, Arr(|h| + 1), n, n - 1, m, r, true, w);
      m := m + 1;
    }
  }

  lemma JudgedFine(P: Program, T: Table, n: nat, m: nat, h: Heap, t: Obj, r: Res, w: bool)
    requires Judged(P, T, n, m, h, t, r, w)
    ensures Fine(P, T, m, h, t) <==> w
  {
  }

  /** A thrown exception has the handler of the thunk as its head, with the link of the handle. */
  lemma CaughtStep(T: Table, h: Heap, h2: Heap, link: Link, f: Obj, es: seq<Term>, n: nat, m: nat, h3: Heap, o: Obj, ft: Term)
    requires Linked(h, link) && h <= h2 && |h| < |h2| && h2[|h|] == HandlerArray(link, f)
    requires Linked(h2, link.(exc := Arr(|h|))) && Rep(h2, f, ft)
    requires Reaches(T, h2, h2, Arr(|h| + 1), link.(exc := Arr(|h|)), Exc(es), n, m, h3, o)
    ensures o.Arr? && o.addr < |h3| && |h3[o.addr]| >= 6
    ensures Linked(h3, link) && Frame(h, h3, link.rt.addr, link.rti.atom.i)
    ensures var args := [NONE_OBJ] + h3[o.addr][6..]; ThunkAt(h3, o.addr, link, f, args) && Reps(h3, args, [NONE] + es)
    ensures Rep(h3, f, ft)
    ensures Steps(T, m, h2, Arr(|h| + 1)) == Go(h3, Arr(o.addr)) && Later(T, m, h2, Arr(|h| + 1), |h|) && o.addr >= |h| && Visits(T, m, h2, Arr(|h| + 1))
  {
    hide Steps, Open, Later, Rep, Reps, HandlerArray, ThunkAt, Linked, Visits;
    var link1 := link.(exc := Arr(|h|));
    ThrownParts(T, h2, Arr(|h| + 1), link1, es, n, m, h3, o);
    LaterLess(T, m, h2, Arr(|h| + 1), |h2|, |h|);
    LinkedTarget(h2, link1);
    RepFrame(h2, h3, link.rt.addr, link.rti.atom.i, f, ft);
    HandlerSize(link, f);
    CaughtThunk(h3, o.addr, link, f, es);
    CaughtLinked(h, h2, h3, link);
  }

  lemma HandlerSize(link: Link, f: Obj)
    ensures |HandlerArray(link, f)| == 6
  {
  }

  lemma ThrownParts(T: Table, h2: Heap, t: Obj, link: Link, es: seq<Term>, n: nat, m: nat, h3: Heap, o: Obj)
    requires Linked(h2, link) && Reaches(T, h2, h2, t, link, Exc(es), n, m, h3, o)
    ensures Steps(T, m, h2, t) == Go(h3, o) && Frame(h2, h3, link.rt.addr, link.rti.atom.i) && Open(h3, h3[link.rt.addr][link.rti.atom.i])
    ensures Later(T, m, h2, t, |h2|) && o.Arr? && |h2| <= o.addr < |h3| && Visits(T, m, h2, t)
    ensures var k := |h2[link.exc.addr]|;
            |h3[o.addr]| == k + |es| && es != [] && h3[o.addr][..k] == h2[link.exc.addr] && Reps(h3, h3[o.addr][k..], es)
  {
    hide Steps, Open, Later, Rep, Reps, Visits;
  }

  lemma CaughtThunk(h: Heap, t: nat, link: Link, f: Obj, es: seq<Term>)
    requires t < |h| && |h[t]| == 6 + |es| && h[t][..6] == HandlerArray(link, f) && Reps(h, h[t][6..], es)
    ensures var args := [NONE_OBJ] + h[t][6..]; ThunkAt(h, t, link, f, args) && Reps(h, args, [NONE] + es)
  {
    hide Rep;
    var tt := h[t];
    assert tt == HandlerArray(link, f) + tt[6..];
    assert HandlerArray(link, f) + tt[6..] == LinkObjs(link) + [f] + ([NONE_OBJ] + tt[6..]);
    var args := [NONE_OBJ] + tt[6..];
    NoneIsNone(h);
    forall i | 0 <= i < |es| + 1 ensures Rep(h, args[i], ([NONE] + es)[i]) {
      if i > 0 {
        assert Rep(h, tt[6..][i - 1], es[i - 1]);
      }
    }
  }

  lemma NoneIsNone(h: Heap)
    ensures Rep(h, NONE_OBJ, NONE)
  {
  }

  lemma CaughtLinked(h: Heap, h2: Heap, h3: Heap, link: Link)
    requires Linked(h, link) && h <= h2 && Frame(h2, h3, link.rt.addr, link.rti.atom.i) && Open(h3, h3[link.rt.addr][link.rti.atom.i])
    ensures Linked(h3, link) && Frame(h, h3, link.rt.addr, link.rti.atom.i)
  {
    hide Open;
  }

  lemma Caught(T: Table, h: Heap, h2: Heap, t: nat, link: Link, r: Res, n: nat, m1: nat, h3: Heap, t3: nat, m: nat, h1: Heap, o: Obj)
    requires n > 0 && Linked(h, link) && Linked(h3, link) && Frame(h, h3, link.rt.addr, link.rti.atom.i)
    requires Step(T, h, Arr(t)) == Go(h2, Arr(|h| + 1)) && Steps(T, m1, h2, Arr(|h| + 1)) == Go(h3, Arr(t3))
    requires Later(T, m1, h2, Arr(|h| + 1), |h|) && t3 >= |h| && Visits(T, m1, h2, Arr(|h| + 1)) && Started(h, Arr(t))
    requires Reaches(T, h3, h3, Arr(t3), link, r, n - 1, m, h1, o)
    ensures Reaches(T, h, h, Arr(t), link, r, n, m1 + m + 1, h1, o)
  {
    hide Step, Reaches, Steps, Open, Frame, Started, Visits;
    ReachesFrom(T, h, h3, h3, Arr(t3), link, r, n - 1, m, h1, o);
    ReachesAfter(T, h, h2, Arr(|h| + 1), h3, Arr(t3), link, r, n - 1, m1, m, h1, o);
    ReachesNext(T, h, h, Arr(t), h2, Arr(|h| + 1), link, r, n, m1 + m, h1, o);
  }

  /** Whatever is not an exception ignores the handler. */
  lemma NotCaught(T: Table, h: Heap, h2: Heap, t: nat, link: Link, r: Res, n: nat, m: nat, h1: Heap, o: Obj)
    requires n > 0 && !r.Exc? && h <= h2 && Linked(h, link) && Linked(h2, link.(exc := Arr(|h|))) && Started(h, Arr(t))
    requires Step(T, h, Arr(t)) == Go(h2, Arr(|h| + 1))
    requires Reaches(T, h2, h2, Arr(|h| + 1), link.(exc := Arr(|h|)), r, n - 1, m, h1, o)
    ensures Reaches(T, h, h, Arr(t), link, r, n, m + 1, h1, o)
  {
    hide Step, Steps, Open, Rep, Alive, Later, Visits, Started;
    if r.Val? {
      LaterLess(T, m, h2, Arr(|h| + 1), |h2|, |h|);
    }
    assert Reaches(T, h, h2, Arr(|h| + 1), link, r, n - 1, m, h1, o);
    ReachesNext(T, h, h, Arr(t), h2, Arr(|h| + 1), link, r, n, m, h1, o);
  }

  // Definitions

  /** The store has the arrays of a body, set up in a store h; only its target cell may have changed in h. */
  ghost predicate Ready(ds: set<Symbol>, h: Heap, h0: Heap, e: Expr, env: Objs, tenv: Env, link: Link, extra: seq<Obj>, textra: seq<Term>) {
    && Linked(h, link) && Frame(h, h0, link.rt.addr, link.rti.atom.i)
    && RepEnv(h0, env, tenv) && Reps(h0, extra, textra) && BodyOk(ds, env.Keys, e)
    && var b := RootBody(ds, |h|, e, env, link, extra);
       && Holds(h0, |h|, b.cells, b.dead)
       && h0[link.rt.addr][link.rti.atom.i] == if b.write.Null? then h[link.rt.addr][link.rti.atom.i] else b.write
  }

  lemma {:induction false} CodeRun(n: nat, P: Program, ds: set<Symbol>, T: Table, h: Heap, t: nat, link: Link, f: Obj, args: seq<Obj>, s: Symbol, ts: seq<Term>)
    returns (m: nat, h1: Heap, o: Obj)
    requires s in P && P[s].CodeDef?
    requires Compiled(ds, P, T) && Linked(h, link) && ThunkAt(h, t, link, f, args) && f == At(CombAtom(s)) && Reps(h, args, ts)
    ensures Reaches(T, h, h, Arr(t), link, Apply(n, P, Leaf(CombAtom(s)), ts), n, m, h1, o)
    ensures Judged(P, T, n, m, h, Arr(t), Apply(n, P, Leaf(CombAtom(s)), ts), TameApply(n, P, Leaf(CombAtom(s)), ts))
    decreases n, 0, Leaf(CombAtom(s)), 0, 0
  {
    hide Linked, Reps, Apply, Step, Reaches, Steps, Alive, Assembled, RunBytes, Select, EvalRoot, Ready, Started, Judged, FineAt, TameApply, TameRoot, SplitsAlts, ThunkAt;
    ApplyCode(n, P, s, ts);
    if n == 0 {
      m, h1, o := 0, h, link.k;
      ReachesOut(T, h, Arr(t), link, m, h1, o);
      TameShape(n, P, s, ts);
      JudgedNone(P, T, n, h, Arr(t), Out, true);
    } else {
      TameCode(n, P, s, ts);
      FineCode(P, h, t, link, f, args, s, ts);
      var ms := P[s].alts;
      assert CompiledAs(ds, P[s], T[s]);
      var pv, stale :| Assembled(ds, pv, stale, ms, T[s]);
      if Select(ms, ts).NoAlt? {
        m, o := 1, link.k;
        h1 := NoAltRun(ds, pv, stale, T, h, t, link, f, args, s, ts, ms, n);
        JudgedOne(P, T, n, h, t, Apply(n, P, Leaf(CombAtom(s)), ts), SplitsAlts(ms, ts));
      } else {
        var c := Select(ms, ts);
        var h0, k, env := ChosenStep(ds, pv, stale, T, h, t, link, f, args, s, ts, ms);
        m, h1, o := ChainRun(n - 1, P, ds, T, h, h0, c.body, env, c.env, link, args[c.arity..], ts[c.arity..], k);
        StartedComb(h, t, link, f, args, s, ts);
        ChosenNext(T, h, t, link, EvalRoot(n - 1, P, c.body, c.env, ts[c.arity..]), n, m, h0, k, h1, o);
        JudgedStep(P, T, h, t, h0, k, n, n - 1, m, EvalRoot(n - 1, P, c.body, c.env, ts[c.arity..]), SplitsAlts(ms, ts), TameRoot(n - 1, P, c.body, c.env, ts[c.arity..]));
        m := m + 1;
      }
    }
  }

  lemma ChosenNext(T: Table, h: Heap, t: nat, link: Link, r: Res, n: nat, m: nat, h0: Heap, k: Obj, h1: Heap, o: Obj)
    requires n > 0 && Linked(h, link) && Step(T, h, Arr(t)) == Go(h0, k) && Reaches(T, h, h0, k, link, r, n - 1, m, h1, o) && NewThunk(h, r, m, k)
    requires Started(h, Arr(t))
    ensures Reaches(T, h, h, Arr(t), link, r, n, m + 1, h1, o)
  {
    hide Step, Reaches, Open, Started;
    ReachesNext(T, h, h, Arr(t), h0, k, link, r, n, m, h1, o);
  }

  /** The bytes of a definition do one reduction as its instructions do. */
  lemma CodeStep(ds: set<Symbol>, pv: set<Name>, stale: Vars, T: Table, h: Heap, t: nat, link: Link, f: Obj, args: seq<Obj>, s: Symbol, ms: seq<Alt>)
    requires s in T && Assembled(ds, pv, stale, ms, T[s])
    requires ThunkAt(h, t, link, f, args) && f == At(CombAtom(s))
    ensures var x := RunFrom(DefCode(ds, stale, ms), DefLabels(ds, stale, ms), 0, Start(h, t));
            x.Returned? ==> Step(T, h, Arr(t)) == Go(x.h, x.o)
  {
    hide Step, AltsOk, DefCode, DefLabels, RunFrom, RunBytes, Resolve, ByteLabels, EncodeAll, Consts, Encodable;
    StepShape(T, h, t, link, f, args);
    BytesRun(DefCode(ds, stale, ms), DefLabels(ds, stale, ms), 0, Start(h, t));
  }

  lemma AssembledFits(ds: set<Symbol>, pv: set<Name>, stale: Vars, ms: seq<Alt>, c: Combinator, h: Heap, link: Link, args: seq<Obj>, ts: seq<Term>)
    requires Assembled(ds, pv, stale, ms, c) && Reps(h, args, ts)
    ensures BlockFits(ds, 1, stale, ms, h, link, args, ts)
    ensures AltsOk(ds, pv, ms)
  {
    hide AltsOk, DefCode, DefLabels, Resolve, ByteLabels, EncodeAll, Consts, Encodable, Reps, BlockFits;
    FitsBlock(ds, pv, 1, stale, ms, h, link, args, ts);
  }

  lemma LinkedTarget(h: Heap, link: Link)
    requires Linked(h, link)
    ensures TargetOk(h, link) && Open(h, h[link.rt.addr][link.rti.atom.i])
  {
  }

  lemma NoAltRun(ds: set<Symbol>, pv: set<Name>, stale: Vars, T: Table, h: Heap, t: nat, link: Link, f: Obj, args: seq<Obj>, s: Symbol, ts: seq<Term>, ms: seq<Alt>, n: nat) returns (h1: Heap)
    requires s in T && Assembled(ds, pv, stale, ms, T[s]) && Select(ms, ts).NoAlt?
    requires Linked(h, link) && ThunkAt(h, t, link, f, args) && f == At(CombAtom(s)) && Reps(h, args, ts)
    ensures Reaches(T, h, h, Arr(t), link, Val(Normal(Leaf(CombAtom(s)), ts)), n, 1, h1, link.k)
  {
    hide Step, Assembled, Select, Reaches, Steps, Alive, DefCode, DefLabels, RunFrom, BlockFits, Reps, Open, AltsOk, Started;
    LinkedTarget(h, link);
    AssembledFits(ds, pv, stale, ms, T[s], h, link, args, ts);
    var _ := DefRun(ds, stale, ms, h, t, link, f, args, ts);
    CodeStep(ds, pv, stale, T, h, t, link, f, args, s, ms);
    var g := h + [[]];
    RepsGrow(h, g, args, ts);
    NormalRep(g, f, args, Leaf(CombAtom(s)), ts);
    var (h0, o) := NormalObj(g, f, args);
    assert h <= h0;
    h1 := SetCell(h0, link.rt.addr, link.rti.atom.i, o);
    StartedComb(h, t, link, f, args, s, ts);
    Settled(T, h, h0, Arr(t), link, o, Normal(Leaf(CombAtom(s)), ts), n);
  }

  lemma ChosenStep(ds: set<Symbol>, pv: set<Name>, stale: Vars, T: Table, h: Heap, t: nat, link: Link, f: Obj, args: seq<Obj>, s: Symbol, ts: seq<Term>, ms: seq<Alt>)
    returns (h0: Heap, k: Obj, env: Objs)
    requires s in T && Assembled(ds, pv, stale, ms, T[s]) && Select(ms, ts).Chosen?
    requires Linked(h, link) && ThunkAt(h, t, link, f, args) && f == At(CombAtom(s)) && Reps(h, args, ts)
    ensures var c := Select(ms, ts);
            && c.arity <= |ts| == |args|
            && Step(T, h, Arr(t)) == Go(h0, k)
            && Ready(ds, h, h0, c.body, env, c.env, link, args[c.arity..], ts[c.arity..])
            && k == RootBody(ds, |h|, c.body, env, link, args[c.arity..]).k
  {
    hide Step, Assembled, Select, DefCode, DefLabels, RunFrom, BlockFits, Reps, Open, AltsOk, Ready, Taken, MatchObjs, MatchBody, Wrote;
    LinkedTarget(h, link);
    AssembledFits(ds, pv, stale, ms, T[s], h, link, args, ts);
    var m := DefRun(ds, stale, ms, h, t, link, f, args, ts);
    CodeStep(ds, pv, stale, T, h, t, link, f, args, s, ms);
    TakenEnv(h, m.pats, args, ts);
    var n := |m.pats|;
    TakenArity(m.pats, ts);
    env := MatchObjs(h, m.pats, args[..n], map[]);
    var b := MatchBody(ds, m, h, link, args);
    h0 := Wrote(h, link, b.write) + b.cells;
    k := b.k;
    TakenOk(ds, pv, ms, m);
    BodyReady(ds, h, m, link, args, ts);
  }

  lemma TakenArity(ps: seq<Pattern>, ts: seq<Term>)
    requires Taken(ps, ts)
    ensures |ps| <= |ts|
  {
  }

  lemma TakenOk(ds: set<Symbol>, pv: set<Name>, ms: seq<Alt>, m: Alt)
    requires AltsOk(ds, pv, ms) && m in ms
    ensures BodyOk(ds, PatsVars(m.pats), m.body)
  {
    hide BodyOk;
  }

  lemma BodyReady(ds: set<Symbol>, h: Heap, m: Alt, link: Link, args: seq<Obj>, ts: seq<Term>)
    requires Linked(h, link) && Reps(h, args, ts) && Taken(m.pats, ts) && |ts| == |args| && |m.pats| <= |args|
    requires BodyOk(ds, PatsVars(m.pats), m.body)
    ensures var b := MatchBody(ds, m, h, link, args);
            var n := |m.pats|;
            b == RootBody(ds, |h|, m.body, MatchObjs(h, m.pats, args[..n], map[]), link, args[n..]) &&
            Ready(ds, h, Wrote(h, link, b.write) + b.cells, m.body, MatchObjs(h, m.pats, args[..n], map[]), Matches(m.pats, ts[..n], map[]).1, link, args[n..], ts[n..])
  {
    hide RootBody, BodyOk, Open, MatchObjs, Matches, Rep;
    TakenEnv(h, m.pats, args, ts);
    var n := |m.pats|;
    var env := MatchObjs(h, m.pats, args[..n], map[]);
    var tenv := Matches(m.pats, ts[..n], map[]).1;
    var b := RootBody(ds, |h|, m.body, env, link, args[n..]);
    var h0 := Wrote(h, link, b.write) + b.cells;
    var a, i := link.rt.addr, link.rti.atom.i;
    assert Frame(h, h0, a, i);
    RepsFrame(h, h0, a, i, args, ts);
    forall v | v in env ensures Rep(h0, env[v], tenv[v]) {
      RepFrame(h, h0, a, i, env[v], tenv[v]);
    }
  }

  // Bodies

  lemma {:induction false} ChainRun(n: nat, P: Program, ds: set<Symbol>, T: Table, h: Heap, h0: Heap, e: Expr, env: Objs, tenv: Env, link: Link, extra: seq<Obj>, textra: seq<Term>, k: Obj)
    returns (m: nat, h1: Heap, o: Obj)
    requires Compiled(ds, P, T) && Linked(h, link) && Ready(ds, h, h0, e, env, tenv, link, extra, textra)
    requires k == RootBody(ds, |h|, e, env, link, extra).k
    ensures Reaches(T, h, h0, k, link, EvalRoot(n, P, e, tenv, textra), n, m, h1, o)
    ensures NewThunk(h, EvalRoot(n, P, e, tenv, textra), m, k)
    ensures Judged(P, T, n, m, h0, k, EvalRoot(n, P, e, tenv, textra), TameRoot(n, P, e, tenv, textra))
    decreases n, 1, e, 1
  {
    hide Compiled, Linked, Ready, RootBody, Reaches, EvalRoot, IsRedex, Judged, TameRoot;
    if e.Let? {
      m, h1, o := LetChain(n, P, ds, T, h, h0, e, env, tenv, link, extra, textra, k);
    } else if IsRedex(ds, e) {
      m, h1, o := RedexChain(n, P, ds, T, h, h0, e, env, tenv, link, extra, textra, k);
    } else {
      m, h1, o := 0, h0, link.k;
      TreeChain(n, P, ds, T, h, h0, e, env, tenv, link, extra, textra, k);
    }
  }

  /** A tree is finished as soon as it is built. */
  lemma TreeChain(n: nat, P: Program, ds: set<Symbol>, T: Table, h: Heap, h0: Heap, e: Expr, env: Objs, tenv: Env, link: Link, extra: seq<Obj>, textra: seq<Term>, k: Obj)
    requires !e.Let? && !IsRedex(ds, e)
    requires Compiled(ds, P, T) && Linked(h, link) && Ready(ds, h, h0, e, env, tenv, link, extra, textra)
    requires k == RootBody(ds, |h|, e, env, link, extra).k
    ensures Reaches(T, h, h0, k, link, EvalRoot(n, P, e, tenv, textra), n, 0, h0, link.k)
    ensures Judged(P, T, n, 0, h0, k, EvalRoot(n, P, e, tenv, textra), TameRoot(n, P, e, tenv, textra))
  {
    hide Linked, RootBody, EvalRoot, IsRedex, VarsOf, TreeOk, CompiledAs, Tree, Extend, Rep, Open, Holds, Started, Judged, TameRoot, TameEval;
    VisitsNone(T, h0, k);
    TreeInside(ds, |h|, e, env);
    RootShape(ds, |h|, e, env, link, extra);
    RootTreeValue(n, P, ds, |h|, h0, e, env, tenv, extra, textra);
    NotVar(ds, e);
    TreeTame(n, P, ds, e, tenv, textra);
    JudgedNone(P, T, n, h0, k, EvalRoot(n, P, e, tenv, textra), true);
  }

  /** The tree of a root, with the left-over arguments. */
  lemma RootTreeValue(n: nat, P: Program, ds: set<Symbol>, m: nat, h: Heap, e: Expr, env: Objs, tenv: Env, extra: seq<Obj>, textra: seq<Term>)
    requires !e.Let? && !IsRedex(ds, e) && TreeOk(ds, e) && VarsOf(e) <= env.Keys && DataOk(P, ds)
    requires RepEnv(h, env, tenv) && Reps(h, extra, textra)
    requires var b := Tree(m, e, env);
             (b.o.Arr? ==> m <= b.o.addr < m + |b.cells|) && Holds(h, m, Extend(m, b, extra).cells, Replaced(b, extra))
    ensures EvalRoot(n, P, e, tenv, textra).Val?
    ensures var o := Extend(m, Tree(m, e, env), extra).o; !o.Null? && Rep(h, o, EvalRoot(n, P, e, tenv, textra).t)
  {
    hide Rep, Holds, EvalRoot, EvalArgs, Apply, VarsOf, VarsOfAll, TreeOk, TreesOk, Reps, RepEnv, Trees, Tree, IsRedex, Extend, Replaced;
    NotVar(ds, e);
    EvalShape(n, P, e, tenv, textra);
    if e.App? {
      AppParts(ds, m, e, env);
      var o, os := RootArray(h, m, e, env, extra);
      var ts := TreesValue(n, P, ds, h, m, e.es[1..], env, tenv);
      SpineShape(n, P, e, tenv);
      PlainApply(n, P, ds, e.es[0].a, ts + textra);
      RepsLength(h, os, ts);
      RepsAppend(h, os, ts, extra, textra);
      ConstRep(h, e.es[0].a);
      NodeRep(h, o, At(e.es[0].a), Leaf(e.es[0].a), os + extra, ts + textra);
    } else {
      RootConst(n, P, ds, m, h, e, env, tenv, extra, textra);
    }
  }

  lemma NotVar(ds: set<Symbol>, e: Expr)
    requires !e.Let? && !IsRedex(ds, e)
    ensures !e.Var?
  {
  }

  lemma ConstRep(h: Heap, a: Atom)
    ensures Rep(h, At(a), Leaf(a))
  {
  }

  lemma RepsAppend(h: Heap, os: seq<Obj>, ts: seq<Term>, os1: seq<Obj>, ts1: seq<Term>)
    requires Reps(h, os, ts) && Reps(h, os1, ts1)
    ensures Reps(h, os + os1, ts + ts1) && (ts != [] ==> ts + ts1 != [])
  {
    hide Rep;
  }

  lemma RootConst(n: nat, P: Program, ds: set<Symbol>, m: nat, h: Heap, e: Expr, env: Objs, tenv: Env, extra: seq<Obj>, textra: seq<Term>)
    requires e.Const? && !IsRedex(ds, e) && DataOk(P, ds) && Reps(h, extra, textra)
    requires Holds(h, m, Extend(m, Tree(m, e, env), extra).cells, Replaced(Tree(m, e, env), extra))
    ensures EvalRoot(n, P, e, tenv, textra) == Val(Normal(Leaf(e.a), textra))
    ensures var o := Extend(m, Tree(m, e, env), extra).o; !o.Null? && Rep(h, o, Normal(Leaf(e.a), textra))
  {
    hide Apply, Rep;
    assert [] + textra == textra;
    PlainApply(n, P, ds, e.a, textra);
    ConstRep(h, e.a);
    if extra != [] {
      assert [] + [[At(e.a)] + extra] == [[At(e.a)] + extra];
      LastHeld(h, m, [At(e.a)] + extra);
      NodeRep(h, Arr(m), At(e.a), Leaf(e.a), extra, textra);
    }
  }

  /** The array of a root application, and its argument trees. */
  lemma RootArray(h: Heap, m: nat, e: Expr, env: Objs, extra: seq<Obj>) returns (o: Obj, os: seq<Obj>)
    requires e.App? && e.es != [] && e.es[0].Const?
    requires var b := Tree(m, e, env);
             (b.o.Arr? ==> m <= b.o.addr < m + |b.cells|) && Holds(h, m, Extend(m, b, extra).cells, Replaced(b, extra))
    ensures o == Extend(m, Tree(m, e, env), extra).o && os == Trees(m, e.es[1..], env).os
    ensures o.Arr? && o.addr < |h| && h[o.addr] == [At(e.es[0].a)] + (os + extra)
    ensures Holds(h, m, Trees(m, e.es[1..], env).cells, {})
  {
    hide Holds, Trees, Direct;
    TreeIsArray(m, e, env);
    o, os := ExtendedArray(h, m, e.es, env, [], extra);
    HeadTree(m, e.es, env);
    assert [] + ([LeafObj(e.es[0], env)] + os + extra) == [At(e.es[0].a)] + (os + extra);
  }

  /** An array and its copy with further elements: the trees of the elements after the first. */
  lemma ExtendedArray(h: Heap, m: nat, es: seq<Expr>, env: Objs, prefix: seq<Obj>, extra: seq<Obj>) returns (o: Obj, os: seq<Obj>)
    requires es != [] && !es[0].App?
    requires var b := ArrayOf(m, es, env, prefix);
             m <= b.o.addr < m + |b.cells| && Holds(h, m, Extend(m, b, extra).cells, Replaced(b, extra))
    ensures o == Extend(m, ArrayOf(m, es, env, prefix), extra).o && os == Trees(m, es[1..], env).os
    ensures o.Arr? && m <= o.addr < |h| && h[o.addr] == prefix + ([LeafObj(es[0], env)] + os + extra)
    ensures Holds(h, m, Trees(m, es[1..], env).cells, {})
  {
    hide Holds, Trees, Direct;
    HeadTree(m, es, env);
    var b := Trees(m, es, env);
    var a := m + |b.cells|;
    os := Trees(m, es[1..], env).os;
    o := Extend(m, ArrayOf(m, es, env, prefix), extra).o;
    if extra == [] {
      HoldsParts(h, m, b.cells, [prefix + b.os], {});
      LastHeld(h, a, prefix + b.os);
      assert prefix + b.os == prefix + ([LeafObj(es[0], env)] + os + extra);
    } else {
      assert b.cells + [prefix + b.os] + [prefix + b.os + extra] == b.cells + [prefix + b.os, prefix + b.os + extra];
      HoldsParts(h, m, b.cells, [prefix + b.os, prefix + b.os + extra], {a});
      assert [prefix + b.os, prefix + b.os + extra] == [prefix + b.os] + [prefix + b.os + extra];
      HoldsParts(h, a, [prefix + b.os], [prefix + b.os + extra], {a});
      HoldsWithout(h, m, b.cells, a);
      HoldsWithout(h, a + 1, [prefix + b.os + extra], a);
      LastHeld(h, a + 1, prefix + b.os + extra);
      assert prefix + b.os + extra == prefix + ([LeafObj(es[0], env)] + os + extra);
    }
  }

  lemma HoldsWithout(h: Heap, n: nat, cells: Heap, a: nat)
    requires Holds(h, n, cells, {a}) && !(n <= a < n + |cells|)
    ensures Holds(h, n, cells, {})
  {
    forall b | 0 <= b < |cells| ensures h[n + b] == cells[b] {
      assert n + b !in {a};
    }
  }

  // Redexes

  /** The thunk of a redex: its head and the trees of its arguments, after the link. */
  lemma RedexThunk(ds: set<Symbol>, h: Heap, m: nat, e: Expr, env: Objs, link: Link, extra: seq<Obj>) returns (a: nat, f: Obj, os: seq<Obj>)
    requires RedexTree(ds, e)
    requires var b := Thunk(m, e, env, link);
             (b.o.Arr? ==> m <= b.o.addr < m + |b.cells|) && Holds(h, m, Extend(m, b, extra).cells, Replaced(b, extra))
    ensures Extend(m, Thunk(m, e, env, link), extra).o == Arr(a) && a >= m
    ensures f == LeafObj(Elements(e)[0], env) && os == Trees(m, Elements(e)[1..], env).os
    ensures ThunkAt(h, a, link, f, os + extra) && Holds(h, m, Trees(m, Elements(e)[1..], env).cells, {})
  {
    hide Holds, Trees, Direct, TreesOk;
    ThunkIsArray(m, e, env, link);
    var o, os1 := ExtendedArray(h, m, Elements(e), env, LinkObjs(link), extra);
    a, f, os := o.addr, LeafObj(Elements(e)[0], env), os1;
    assert LinkObjs(link) + ([f] + os + extra) == LinkObjs(link) + [f] + (os + extra);
  }

  /** Evaluating a redex down to its head and arguments. */
  lemma RedexSpine(n: nat, P: Program, ds: set<Symbol>, h: Heap, m: nat, e: Expr, env: Objs, tenv: Env) returns (ft: Term, ts: seq<Term>)
    requires RedexTree(ds, e) && VarsOf(e) <= env.Keys && RepEnv(h, env, tenv) && DataOk(P, ds)
    requires Holds(h, m, Trees(m, Elements(e)[1..], env).cells, {})
    ensures EvalSpine(n, P, e, tenv) == Spine(ft, ts)
    ensures Rep(h, LeafObj(Elements(e)[0], env), ft) && Reps(h, Trees(m, Elements(e)[1..], env).os, ts)
  {
    hide Holds, Trees, Direct, TreesOk, Reps, Rep, VarsOfAll, EvalArgs, EvalSpine, IsRedex;
    var es := Elements(e);
    RedexHead(ds, e);
    HeadSpine(n, P, h, es[0], env, tenv);
    ft := HeadTerm(es[0], tenv);
    if e.App? {
      VarsSplit(es);
      ts := TreesValue(n, P, ds, h, m, es[1..], env, tenv);
      SpineShape(n, P, e, tenv);
    } else {
      assert es[1..] == [];
      TreesNone(m, env);
      ts := [];
      RepsNone(h);
    }
  }

  /** The arguments of a redex are trees. */
  lemma RedexTame(n: nat, P: Program, ds: set<Symbol>, e: Expr, tenv: Env)
    requires RedexTree(ds, e) && DataOk(P, ds)
    ensures TameSpine(n, P, e, tenv)
  {
    hide TameArgs, TreesOk, IsRedex, EvalSpine;
    if e.App? {
      TreesTame(n, P, ds, e.es[1..], tenv);
    }
  }

  lemma RepsNone(h: Heap)
    ensures Reps(h, [], [])
  {
  }

  function HeadTerm(e: Expr, tenv: Env): Term {
    match e
    case Const(a) => Leaf(a)
    case Var(v) => if v in tenv then tenv[v] else NONE
    case _ => NONE
  }

  lemma RedexHead(ds: set<Symbol>, e: Expr)
    requires RedexTree(ds, e)
    ensures Elements(e)[0].Const? || Elements(e)[0].Var?
    ensures VarsOf(Elements(e)[0]) <= VarsOf(e)
    ensures !e.App? ==> Elements(e) == [e]
  {
  }

  lemma VarsSplit(es: seq<Expr>)
    requires es != []
    ensures VarsOfAll(es) == VarsOf(es[0]) + VarsOfAll(es[1..])
  {
  }

  lemma HeadSpine(n: nat, P: Program, h: Heap, e: Expr, env: Objs, tenv: Env)
    requires e.Const? || (e.Var? && (e.v in env ==> RepEnv(h, env, tenv)))
    ensures e.Const? || e.v in env ==> EvalSpine(n, P, e, tenv) == Spine(HeadTerm(e, tenv), []) && Rep(h, LeafObj(e, env), HeadTerm(e, tenv))
    ensures e.Var? && e.v in env ==> e.v in tenv
  {
  }

  lemma {:induction false} RedexChain(n: nat, P: Program, ds: set<Symbol>, T: Table, h: Heap, h0: Heap, e: Expr, env: Objs, tenv: Env, link: Link, extra: seq<Obj>, textra: seq<Term>, k: Obj)
    returns (m: nat, h1: Heap, o: Obj)
    requires !e.Let? && IsRedex(ds, e)
    requires Compiled(ds, P, T) && Linked(h, link) && Ready(ds, h, h0, e, env, tenv, link, extra, textra)
    requires k == RootBody(ds, |h|, e, env, link, extra).k
    ensures Reaches(T, h, h0, k, link, EvalRoot(n, P, e, tenv, textra), n, m, h1, o)
    ensures NewThunk(h, EvalRoot(n, P, e, tenv, textra), m, k)
    ensures Judged(P, T, n, m, h0, k, EvalRoot(n, P, e, tenv, textra), TameRoot(n, P, e, tenv, textra))
    decreases n, 1, e, 0
  {
    hide Compiled, Linked, Ready, RootBody, Reaches, EvalRoot, IsRedex, RepEnv, Reps, Rep, Holds, Thunk, Trees, Extend, Replaced, EvalSpine, VarsOf, RedexTree, Apply, Frame, Judged, TameRoot, TameEval, TameSpine, TameApply;
    CompiledData(ds, P, T);
    ReadyRedex(ds, h, h0, e, env, tenv, link, extra, textra);
    ThunkTop(|h|, e, env, link);
    RootShape(ds, |h|, e, env, link, extra);
    var a, f, os := RedexThunk(ds, h0, |h|, e, env, link, extra);
    var ft, ts := RedexSpine(n, P, ds, h0, |h|, e, env, tenv);
    EvalShape(n, P, e, tenv, textra);
    RedexTame(n, P, ds, e, tenv);
    TameEnd(n, P, e, tenv, textra);
    RepsAppend(h0, os, ts, extra, textra);
    m, h1, o := ApplyRun(n, P, ds, T, h0, a, link, f, os + extra, ft, ts + textra);
    LinkedParts(h, h0, link);
    ReachesFrom(T, h, h0, h0, Arr(a), link, Apply(n, P, ft, ts + textra), n, m, h1, o);
  }

  lemma CompiledData(ds: set<Symbol>, P: Program, T: Table)
    requires Compiled(ds, P, T)
    ensures DataOk(P, ds)
  {
  }

  lemma LinkedParts(h: Heap, h0: Heap, link: Link)
    requires Linked(h, link) && Linked(h0, link)
    ensures TargetOk(h, link) && link.exc.Arr? && link.exc.addr < |h| && link.exc.addr != link.rt.addr && TargetOk(h0, link)
  {
  }

  /** Before the redex of a root runs, its target is as it was. */
  lemma ReadyRedex(ds: set<Symbol>, h: Heap, h0: Heap, e: Expr, env: Objs, tenv: Env, link: Link, extra: seq<Obj>, textra: seq<Term>)
    requires !e.Let? && IsRedex(ds, e) && Linked(h, link) && Ready(ds, h, h0, e, env, tenv, link, extra, textra)
    ensures Linked(h0, link) && Frame(h, h0, link.rt.addr, link.rti.atom.i)
    ensures RepEnv(h0, env, tenv) && Reps(h0, extra, textra) && RedexTree(ds, e) && VarsOf(e) <= env.Keys
    ensures var b := Thunk(|h|, e, env, link); (b.o.Arr? ==> |h| <= b.o.addr < |h| + |b.cells|) ==> Holds(h0, |h|, Extend(|h|, b, extra).cells, Replaced(b, extra))
  {
    hide RootBody, Open, Rep, Holds, Thunk, Extend, RedexTree, IsRedex;
    RootShape(ds, |h|, e, env, link, extra);
    var a, i := link.rt.addr, link.rti.atom.i;
    assert h0[a][i] == h[a][i];
    assert h0[a] == h[a];
    OpenKept(h, h0, h[a][i]);
  }

  // Lets

  /** Where the value of a let goes, and what comes after. */
  function LetLink(n: nat, b: Body, x: Name, exc: Obj): Link {
    var (a, i) := if x in b.holes then b.holes[x] else (0, 0);
    Link(Arr(a), At(IntAtom(i)), b.k, exc)
  }

  /** The state before the redex of a let runs. */
  ghost predicate LetReady(ds: set<Symbol>, h: Heap, h0: Heap, e: Expr, env: Objs, link: Link, b: Body, k: Obj)
    requires e.Let?
  {
    && e.x in b.holes && Inside(|h|, b.cells, b.holes[e.x]) && b.holes[e.x].0 !in b.dead && e.x !in env
    && var l := LetLink(|h|, b, e.x, link.exc);
       var m := |h| + |b.cells|;
       && Linked(h0, l) && Holds(h0, |h|, b.cells, b.dead) && Holds(h0, m, Thunk(m, e.rhs, env, l).cells, {})
       && k == Thunk(m, e.rhs, env, l).o
       && RedexTree(ds, e.rhs) && !e.rhs.Var? && VarsOf(e.rhs) <= env.Keys && BodyOk(ds, env.Keys + {e.x}, e.body) && Count(e.x, e.body) == 1
  }

  lemma LetSetup(ds: set<Symbol>, h: Heap, h0: Heap, e: Expr, env: Objs, tenv: Env, link: Link, extra: seq<Obj>, textra: seq<Term>, k: Obj)
    requires e.Let? && Linked(h, link) && Ready(ds, h, h0, e, env, tenv, link, extra, textra)
    requires k == RootBody(ds, |h|, e, env, link, extra).k
    ensures LetReady(ds, h, h0, e, env, link, RootBody(ds, |h|, e.body, env, link, extra), k)
  {
    hide RootBody, Open, Rep, Thunk, RedexTree, IsRedex, Reps, RepEnv, Count, TreeOk, FilledBody, Holds;
    var b := RootBody(ds, |h|, e.body, env, link, extra);
    RootShape(ds, |h|, e, env, link, extra);
    LetsFresh(ds, env.Keys + {e.x}, e.body, e.x);
    BodyIsCore(ds, env.Keys + {e.x}, e.body);
    RootFill(ds, |h|, e.body, env, link, extra, e.x, Null);
    FilledHole(|h|, b, RootBody(ds, |h|, e.body, env[e.x := Null], link, extra), e.x, Null);
    BodyHoles(ds, |h|, e.body, env, link, extra);
    DeadInside(ds, |h|, e.body, env, link, extra);
    var l := LetLink(|h|, b, e.x, link.exc);
    var m := |h| + |b.cells|;
    var t := Thunk(m, e.rhs, env, l);
    HoldsParts(h0, |h|, b.cells, t.cells, b.dead);
    HoldsAfter(h0, m, t.cells, b.dead);
    HoleLinked(h, h0, link, b, e.x);
  }

  lemma HoldsAfter(h: Heap, n: nat, cells: Heap, dead: set<nat>)
    requires Holds(h, n, cells, dead) && forall a :: a in dead ==> a < n
    ensures Holds(h, n, cells, {})
  {
    forall a | 0 <= a < |cells| ensures h[n + a] == cells[a] {
      assert n + a !in dead;
    }
  }

  lemma HoleLinked(h: Heap, h0: Heap, link: Link, b: Body, x: Name)
    requires Linked(h, link) && Frame(h, h0, link.rt.addr, link.rti.atom.i) && Holds(h0, |h|, b.cells, b.dead)
    requires x in b.holes && Inside(|h|, b.cells, b.holes[x]) && b.holes[x].0 !in b.dead && HolesIn(|h|, b.cells, b.holes)
    ensures Linked(h0, LetLink(|h|, b, x, link.exc))
  {
    hide Open;
    var (a, i) := b.holes[x];
    assert h0[|h| + (a - |h|)] == b.cells[a - |h|];
    NullOpen(h0);
  }

  lemma {:induction false} LetChain(n: nat, P: Program, ds: set<Symbol>, T: Table, h: Heap, h0: Heap, e: Expr, env: Objs, tenv: Env, link: Link, extra: seq<Obj>, textra: seq<Term>, k: Obj)
    returns (m: nat, h1: Heap, o: Obj)
    requires e.Let?
    requires Compiled(ds, P, T) && Linked(h, link) && Ready(ds, h, h0, e, env, tenv, link, extra, textra)
    requires k == RootBody(ds, |h|, e, env, link, extra).k
    ensures Reaches(T, h, h0, k, link, EvalRoot(n, P, e, tenv, textra), n, m, h1, o)
    ensures NewThunk(h, EvalRoot(n, P, e, tenv, textra), m, k)
    ensures Judged(P, T, n, m, h0, k, EvalRoot(n, P, e, tenv, textra), TameRoot(n, P, e, tenv, textra))
    decreases n, 1, e, 0
  {
    hide Compiled, Linked, Ready, RootBody, Reaches, EvalRoot, Eval, LetReady, LetLink, Judged, TameRoot, TameEval;
    TameLet(n, P, e, tenv, textra);
    var b := RootBody(ds, |h|, e.body, env, link, extra);
    var l := LetLink(|h|, b, e.x, link.exc);
    LetSetup(ds, h, h0, e, env, tenv, link, extra, textra, k);
    LetEval(n, P, e, tenv, textra);
    var w := Eval(n, P, e.rhs, tenv);
    LetTarget(ds, h, h0, e, env, link, b, k);
    m, h1, o := RhsRun(n, P, ds, T, h, h0, e, env, tenv, link, extra, textra, b, k);
    if w.Val? {
      var h2, m0 := h1, m;
      var v := LetNext(ds, T, h, h0, e, env, tenv, link, extra, textra, k, w.t, n, m0, h2, o);
      m, h1, o := ChainRun(n, P, ds, T, h, h2, e.body, env[e.x := v], tenv[e.x := w.t], link, extra, textra, b.k);
      var r := EvalRoot(n, P, e.body, tenv[e.x := w.t], textra);
      LetDone(T, h, h0, k, h2, l, link, w.t, b.k, r, n, m0, m, h1, o);
      JudgedFine(P, T, n, m0, h0, k, w, TameEval(n, P, e.rhs, tenv));
      LetStep(T, h0, k, h2, l, w.t, b.k, n, m0);
      JudgedAfter(P, T, h0, k, m0, h2, b.k, n, n, m, r, TameEval(n, P, e.rhs, tenv), TameRoot(n, P, e.body, tenv[e.x := w.t], textra));
      m := m0 + m;
    } else {
      LetStops(ds, T, h, h0, e, env, tenv, link, extra, textra, k, w, n, m, h1, o);
    }
  }

  lemma LetTarget(ds: set<Symbol>, h: Heap, h0: Heap, e: Expr, env: Objs, link: Link, b: Body, k: Obj)
    requires e.Let? && LetReady(ds, h, h0, e, env, link, b, k)
    ensures var l := LetLink(|h|, b, e.x, link.exc);
            l.k == b.k && Linked(h0, l) && TargetOk(h0, l) && l.exc.Arr? && l.exc.addr < |h0|
    ensures k.Arr? && k.addr >= |h| && |h| <= |h0|
  {
    hide Open, Thunk, RedexTree, VarsOf, BodyOk, Count;
    ThunkTop(|h| + |b.cells|, e.rhs, env, LetLink(|h|, b, e.x, link.exc));
  }

  /** The redex of a let. */
  lemma {:induction false} RhsRun(n: nat, P: Program, ds: set<Symbol>, T: Table, h: Heap, h0: Heap, e: Expr, env: Objs, tenv: Env, link: Link, extra: seq<Obj>, textra: seq<Term>, b: Body, k: Obj)
    returns (m: nat, h1: Heap, o: Obj)
    requires e.Let? && LetReady(ds, h, h0, e, env, link, b, k)
    requires Compiled(ds, P, T) && Ready(ds, h, h0, e, env, tenv, link, extra, textra)
    ensures Linked(h0, LetLink(|h|, b, e.x, link.exc))
    ensures Reaches(T, h0, h0, k, LetLink(|h|, b, e.x, link.exc), Eval(n, P, e.rhs, tenv), n, m, h1, o)
    ensures Judged(P, T, n, m, h0, k, Eval(n, P, e.rhs, tenv), TameEval(n, P, e.rhs, tenv))
    decreases n, 1, e, 0, 0
  {
    hide Compiled, Linked, RootBody, Reaches, Eval, EvalSpine, LetLink, Judged, TameRoot, TameEval, TameSpine, TameApply, Holds, RedexTree, RepEnv, Reps, Rep, Trees, Thunk, VarsOf, Inside, BodyOk, Count, Frame, IsRedex, Elements;
    var l := LetLink(|h|, b, e.x, link.exc);
    var m0 := |h| + |b.cells|;
    var t := Thunk(m0, e.rhs, env, l);
    CompiledData(ds, P, T);
    ThunkTop(m0, e.rhs, env, l);
    RedexNoLet(ds, e.rhs);
    var a, f, os := RedexThunk(ds, h0, m0, e.rhs, env, l, []);
    assert os + [] == os;
    var ft, ts := RedexSpine(n, P, ds, h0, m0, e.rhs, env, tenv);
    EvalShape(n, P, e.rhs, tenv, []);
    RedexTame(n, P, ds, e.rhs, tenv);
    TameEnd(n, P, e.rhs, tenv, []);
    m, h1, o := ApplyRun(n, P, ds, T, h0, a, l, f, os, ft, ts);
  }

  lemma RedexNoLet(ds: set<Symbol>, e: Expr)
    requires RedexTree(ds, e)
    ensures !e.Let?
  {
  }

  lemma LetStep(T: Table, h0: Heap, k: Obj, h2: Heap, l: Link, v: Term, k2: Obj, n: nat, m0: nat)
    requires TargetOk(h0, l) && l.exc.Arr? && l.exc.addr < |h0| && l.k == k2
    requires exists o0 :: Reaches(T, h0, h0, k, l, Val(v), n, m0, h2, o0)
    ensures Steps(T, m0, h0, k) == Go(h2, k2)
  {
    hide Open, Later, Rep, Steps, Alive, Frame, Thrown, Stuck, Visits;
  }

  lemma LetDone(T: Table, h: Heap, h0: Heap, k: Obj, h2: Heap, l: Link, link: Link, v: Term, k2: Obj, r: Res, n: nat, m0: nat, m: nat, h1: Heap, o: Obj)
    requires Linked(h, link) && TargetOk(h0, l) && l.exc.Arr? && l.exc.addr < |h0| && l.k == k2
    requires exists o0 :: Reaches(T, h0, h0, k, l, Val(v), n, m0, h2, o0)
    requires Reaches(T, h, h2, k2, link, r, n, m, h1, o) && NewThunk(h, r, m, k2) && |h| <= |h0|
    ensures Reaches(T, h, h0, k, link, r, n, m0 + m, h1, o)
  {
    hide Open, Later, Rep, Steps, Alive, Frame, Thrown, Stuck, Visits;
    LaterLess(T, m0, h0, k, |h0|, |h|);
    ReachesAfter(T, h, h0, k, h2, k2, link, r, n, m0, m, h1, o);
  }

  lemma HoldsFilled(h: Heap, h1: Heap, n: nat, cells: Heap, dead: set<nat>, at: (nat, nat))
    requires Holds(h, n, cells, dead) && Inside(n, cells, at) && at.0 !in dead && Frame(h, h1, at.0, at.1)
    ensures Holds(h1, n, Filled(n, cells, at, h1[at.0][at.1]), dead)
  {
    assert h[n + (at.0 - n)] == cells[at.0 - n];
    var w := h1[at.0][at.1];
    forall a | 0 <= a < |cells| && n + a !in dead ensures h1[n + a] == Filled(n, cells, at, w)[a] {
      assert h[n + a] == cells[a];
    }
  }

  lemma HoldsSame(h: Heap, n: nat, cells: Heap, cells1: Heap, dead: set<nat>)
    requires Holds(h, n, cells, dead) && SameLive(n, cells, cells1, dead)
    ensures Holds(h, n, cells1, dead)
  {
  }

  lemma HoldsNear(h: Heap, h1: Heap, n: nat, cells: Heap, dead: set<nat>, at: (nat, nat))
    requires Holds(h, n, cells, dead) && Inside(n, cells, at) && at.0 !in dead && Frame(h, h1, at.0, at.1)
    requires Open(h1, h1[at.0][at.1])
    ensures Near(h1, n, cells, dead)
  {
    hide Open;
    forall a | 0 <= a < |cells| && n + a !in dead ensures NearArray(h1, cells[a], h1[n + a]) {
      assert h[n + a] == cells[a];
    }
  }

  /** A change to an array of the body leaves the arrays of h as they are. */
  lemma FrameNew(h: Heap, h0: Heap, h1: Heap, link: Link, at: (nat, nat))
    requires TargetOk(h, link) && Frame(h, h0, link.rt.addr, link.rti.atom.i) && Frame(h0, h1, at.0, at.1) && |h| <= at.0
    ensures Frame(h, h1, link.rt.addr, link.rti.atom.i) && h1[link.rt.addr] == h0[link.rt.addr]
    ensures |h| <= |h1| && forall a :: 0 <= a < |h| ==> h1[a] == h0[a]
  {
  }

  lemma FrameReps(h: Heap, h1: Heap, at: (nat, nat), env: Objs, tenv: Env, x: Name, v: Obj, w: Term, extra: seq<Obj>, textra: seq<Term>)
    requires Frame(h, h1, at.0, at.1) && Open(h, h[at.0][at.1])
    requires RepEnv(h, env, tenv) && Reps(h, extra, textra) && Rep(h1, v, w)
    ensures RepEnv(h1, env[x := v], tenv[x := w]) && Reps(h1, extra, textra)
  {
    hide Open, Rep;
    RepsFrame(h, h1, at.0, at.1, extra, textra);
    forall y | y in env ensures Rep(h1, env[y], tenv[y]) {
      RepFrame(h, h1, at.0, at.1, env[y], tenv[y]);
    }
  }

  /** What Reaches says of the redex of a let that has a value. */
  lemma RhsValue(T: Table, h0: Heap, k: Obj, l: Link, w: Term, n: nat, m: nat, h1: Heap, o: Obj)
    requires Linked(h0, l) && Reaches(T, h0, h0, k, l, Val(w), n, m, h1, o)
    ensures var (a, i) := (l.rt.addr, l.rti.atom.i); Frame(h0, h1, a, i) && Open(h0, h0[a][i]) && Rep(h1, h1[a][i], w)
  {
    hide Steps, Open, Rep, Visits;
  }

  lemma FilledParts(n: nat, b: Body, b1: Body, v: Name, w: Obj)
    requires FilledBody(n, b, b1, v, w)
    ensures v in b.holes && SameLive(n, Filled(n, b.cells, b.holes[v], w), b1.cells, b.dead)
    ensures b1.k == b.k && b1.write == b.write && b1.dead == b.dead
  {
    hide Filled, Inside;
  }

  lemma LetNext(ds: set<Symbol>, T: Table, h: Heap, h0: Heap, e: Expr, env: Objs, tenv: Env, link: Link, extra: seq<Obj>, textra: seq<Term>, k: Obj, w: Term, n: nat, m: nat, h1: Heap, o: Obj)
    returns (v: Obj)
    requires e.Let? && Linked(h, link) && Ready(ds, h, h0, e, env, tenv, link, extra, textra)
    requires LetReady(ds, h, h0, e, env, link, RootBody(ds, |h|, e.body, env, link, extra), k)
    requires var l := LetLink(|h|, RootBody(ds, |h|, e.body, env, link, extra), e.x, link.exc);
             Linked(h0, l) && Reaches(T, h0, h0, k, l, Val(w), n, m, h1, o)
    ensures Ready(ds, h, h1, e.body, env[e.x := v], tenv[e.x := w], link, extra, textra)
    ensures RootBody(ds, |h|, e.body, env[e.x := v], link, extra).k == RootBody(ds, |h|, e.body, env, link, extra).k
  {
    hide RootBody, Open, Rep, Reps, RepEnv, Holds, Frame, Reaches, Thunk, RedexTree, VarsOf, BodyOk, Count, IsRedex, FilledBody, SameLive, Filled;
    var b := RootBody(ds, |h|, e.body, env, link, extra);
    var at := b.holes[e.x];
    RhsValue(T, h0, k, LetLink(|h|, b, e.x, link.exc), w, n, m, h1, o);
    v := CellOf(h0, h1, at);
    var b1 := RootBody(ds, |h|, e.body, env[e.x := v], link, extra);
    FrameNew(h, h0, h1, link, at);
    FrameReps(h0, h1, at, env, tenv, e.x, v, w, extra, textra);
    LetsFresh(ds, env.Keys + {e.x}, e.body, e.x);
    BodyIsCore(ds, env.Keys + {e.x}, e.body);
    RootFill(ds, |h|, e.body, env, link, extra, e.x, v);
    FilledParts(|h|, b, b1, e.x, v);
    HoldsFilled(h0, h1, |h|, b.cells, b.dead, at);
    HoldsSame(h1, |h|, Filled(|h|, b.cells, at, v), b1.cells, b.dead);
    assert env[e.x := v].Keys == env.Keys + {e.x};
    LetWrite(ds, |h|, e, env, link, extra);
  }

  lemma CellOf(h0: Heap, h1: Heap, at: (nat, nat)) returns (v: Obj)
    requires Frame(h0, h1, at.0, at.1)
    ensures at.0 < |h1| && at.1 < |h1[at.0]| && v == h1[at.0][at.1]
  {
    v := h1[at.0][at.1];
  }

  lemma LetWrite(ds: set<Symbol>, n: nat, e: Expr, env: Objs, link: Link, extra: seq<Obj>)
    requires e.Let?
    ensures RootBody(ds, n, e, env, link, extra).write == RootBody(ds, n, e.body, env, link, extra).write
  {
    hide RootBody, Thunk;
    RootShape(ds, n, e, env, link, extra);
  }

  /** What a tree root already stored is unfinished while one of its lets has no value. */
  lemma {:induction false} BodyOpen(ds: set<Symbol>, scope: set<Name>, h: Heap, n: nat, e: Expr, env: Objs, link: Link, extra: seq<Obj>, v: Name)
    requires BodyOk(ds, scope, e) && env.Keys <= scope && v !in env && Count(v, e) == 1
    requires var b := RootBody(ds, n, e, env, link, extra); Near(h, n, b.cells, b.dead) && !b.write.Null?
    ensures Open(h, RootBody(ds, n, e, env, link, extra).write)
    decreases e
  {
    hide RootBody, Open, Thunk, Near, Count, IsRedex, Core, RedexTree, VarsOf, TreeOk;
    BodyIsCore(ds, scope, e);
    if e.Let? {
      RootShape(ds, n, e, env, link, extra);
      var b := RootBody(ds, n, e.body, env, link, extra);
      var l := LetLink(n, b, e.x, link.exc);
      NearParts(h, n, b.cells, Thunk(n + |b.cells|, e.rhs, env, l).cells, b.dead);
      BodyOpen(ds, scope + {e.x}, h, n, e.body, env, link, extra, e.x);
    } else {
      WriteOpen(ds, h, n, e, env, link, extra, v);
    }
  }

  /** An exception or a stuck thunk in the redex of a let ends the body. */
  lemma LetStops(ds: set<Symbol>, T: Table, h: Heap, h0: Heap, e: Expr, env: Objs, tenv: Env, link: Link, extra: seq<Obj>, textra: seq<Term>, k: Obj, r: Res, n: nat, m: nat, h1: Heap, o: Obj)
    requires e.Let? && !r.Val? && Linked(h, link) && Ready(ds, h, h0, e, env, tenv, link, extra, textra)
    requires LetReady(ds, h, h0, e, env, link, RootBody(ds, |h|, e.body, env, link, extra), k)
    requires var l := LetLink(|h|, RootBody(ds, |h|, e.body, env, link, extra), e.x, link.exc);
             Linked(h0, l) && Reaches(T, h0, h0, k, l, r, n, m, h1, o)
    ensures Reaches(T, h, h0, k, link, r, n, m, h1, o)
  {
    hide RootBody, Open, Rep, Reps, RepEnv, Holds, Frame, Thrown, Thunk, RedexTree, VarsOf, BodyOk, Count, IsRedex, Steps, Alive, Later, Visits;
    if r.Exc? {
      FrameSize(h, h0, link);
      LaterLess(T, m, h0, k, |h0|, |h|);
      var b := RootBody(ds, |h|, e.body, env, link, extra);
      var at := b.holes[e.x];
      FrameNew(h, h0, h1, link, at);
      SameHandler(h, h0, link);
      LetWrite(ds, |h|, e, env, link, extra);
      if b.write.Null? {
        UntouchedOpen(h, h0, h1, link);
      } else {
        HoldsNear(h0, h1, |h|, b.cells, b.dead, at);
        BodyOpen(ds, env.Keys + {e.x}, h1, |h|, e.body, env, link, extra, e.x);
      }
    }
  }

  lemma FrameSize(h: Heap, h0: Heap, link: Link)
    requires Linked(h, link) && Frame(h, h0, link.rt.addr, link.rti.atom.i)
    ensures |h| <= |h0|
  {
    hide Open;
  }

  lemma SameHandler(h: Heap, h0: Heap, link: Link)
    requires Linked(h, link) && Frame(h, h0, link.rt.addr, link.rti.atom.i)
    ensures link.exc.addr < |h0| && h0[link.exc.addr] == h[link.exc.addr]
  {
    hide Open;
  }

  lemma UntouchedOpen(h: Heap, h0: Heap, h1: Heap, link: Link)
    requires Linked(h, link) && Frame(h, h0, link.rt.addr, link.rti.atom.i) && |h| <= |h1|
    requires h0[link.rt.addr][link.rti.atom.i] == h[link.rt.addr][link.rti.atom.i]
    requires forall a :: 0 <= a < |h| ==> h1[a] == h0[a]
    ensures Open(h1, h1[link.rt.addr][link.rti.atom.i])
  {
    hide Open;
    assert h0[link.rt.addr] == h[link.rt.addr];
    OpenKept(h, h1, h[link.rt.addr][link.rti.atom.i]);
  }
}
