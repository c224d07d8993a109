/** Whole runs: the trampoline on a fresh thunk computes exactly what eager evaluation computes. */
module Toplevel {
  import opened Terms
  import opened Heaps
  import opened Semantics
  import opened Bytecode
  import opened Build
  import opened Codegen
  import opened Values
  import opened Machine
  import opened Compile
  import opened Chain

  /** The link of the first thunk: it writes to the argument of the thunk r, which is next, and throws to e. */
  function FirstLink(h: Heap): Link {
    Link(Arr(|h|), At(IntAtom(5)), Arr(|h|), Arr(|h| + 1))
  }

  /** The store in which the machine starts to reduce f; the thunk is the last array. */
  function Boot(h: Heap, f: Obj, ret: Symbol, exc: Symbol): Heap {
    h + [[Null, Null, Null, Null, At(CombAtom(ret)), Null], [Null, Null, Null, Null, At(CombAtom(exc))], [Arr(|h|), At(IntAtom(5)), Arr(|h|), Arr(|h| + 1), f]]
  }

  /** The table has the combinators that stop the machine, and they are not part of the program. */
  ghost predicate Stops(P: Program, T: Table, ret: Symbol, exc: Symbol) {
    && ret !in P && exc !in P && ret in T && exc in T
    && T[ret] == ResultComb(false) && T[exc] == ResultComb(true)
  }

  lemma BootLinked(h: Heap, f: Obj, ft: Term, ret: Symbol, exc: Symbol)
    requires Rep(h, f, ft)
    ensures var h0 := Boot(h, f, ret, exc);
            && Linked(h0, FirstLink(h)) && ThunkAt(h0, |h| + 2, FirstLink(h), f, []) && Rep(h0, f, ft)
            && h0[|h|][4] == At(CombAtom(ret)) && h0[|h| + 1][4] == At(CombAtom(exc)) && |h0[|h|]| == 6 && |h0[|h| + 1]| == 5
  {
    hide Rep, Open;
    var h0 := Boot(h, f, ret, exc);
    NullOpen(h0);
    RepGrow(h, h0, f, ft);
    assert LinkObjs(FirstLink(h)) + [f] + [] == [Arr(|h|), At(IntAtom(5)), Arr(|h|), Arr(|h| + 1), f];
  }

  /** What the machine has done after m rounds agrees with the result of an evaluation. */
  ghost predicate Agrees(x: Next, r: Res) {
    match r
    case Out => x.Go?
    case Val(v) => x.Finish? && !x.exception && Rep(x.h, x.result, v)
    case Exc(es) => x.Finish? && x.exception && es != [] && Rep(x.h, x.result, es[0])
    case Undef(_) => true
  }

  /** If evaluation ends, so does the machine, with the same value or exception. */
  lemma {:induction false} RunComplete(n: nat, P: Program, ds: set<Symbol>, T: Table, h: Heap, f: Obj, ft: Term, ret: Symbol, exc: Symbol) returns (m: nat)
    requires Compiled(ds, P, T) && Stops(P, T, ret, exc) && Rep(h, f, ft)
    ensures var r := Apply(n, P, ft, []);
            var x := Steps(T, m, Boot(h, f, ret, exc), Arr(|h| + 2));
            match r
            case Out => Alive(T, n, Boot(h, f, ret, exc), Arr(|h| + 2))
            case Val(v) => x.Finish? && !x.exception && Rep(x.h, x.result, v)
            case Exc(es) => x.Finish? && x.exception && es != [] && Rep(x.h, x.result, es[0])
            case Undef(s) => x.Go? && Stuck(x.h, x.o, s)
  {
    hide Compiled, Linked, Apply, Step, Steps, Alive, Rep, Open, Boot;
    var h0 := Boot(h, f, ret, exc);
    var link := FirstLink(h);
    BootLinked(h, f, ft, ret, exc);
    RepsNone(h0);
    var h1, o;
    m, h1, o := ApplyRun(n, P, ds, T, h0, |h| + 2, link, f, [], ft, []);
    match Apply(n, P, ft, [])
    case Out =>
    case Undef(_) =>
    case Val(v) =>
      ValueStep(T, h0, h1, |h|, ret);
      LastStep(T, m, h0, Arr(|h| + 2), h1, Arr(|h|));
      m := m + 1;
    case Exc(es) =>
      ThrownStep(T, h0[|h| + 1], h1, o, es, exc);
      LastStep(T, m, h0, Arr(|h| + 2), h1, o);
      m := m + 1;
  }

  lemma ValueStep(T: Table, h0: Heap, h1: Heap, a: nat, ret: Symbol)
    requires Frame(h0, h1, a, 5) && |h0[a]| == 6 && h0[a][4] == At(CombAtom(ret)) && ret in T && T[ret] == ResultComb(false)
    ensures Step(T, h1, Arr(a)) == Finish(h1, h1[a][5], false)
  {
  }

  lemma ThrownStep(T: Table, handler: seq<Obj>, h1: Heap, o: Obj, es: seq<Term>, exc: Symbol)
    requires Thrown(handler, h1, o, es) && |handler| == 5 && handler[4] == At(CombAtom(exc)) && exc in T && T[exc] == ResultComb(true)
    ensures Step(T, h1, o) == Finish(h1, h1[o.addr][5], true) && es != [] && Rep(h1, h1[o.addr][5], es[0])
  {
    hide Rep;
    var tt := h1[o.addr];
    assert tt[..5][4] == handler[4];
    assert Rep(h1, tt[5..][0], es[0]);
  }

  lemma LastStep(T: Table, m: nat, h: Heap, t: Obj, h1: Heap, o: Obj)
    requires Steps(T, m, h, t) == Go(h1, o) && !o.Null? && !Step(T, h1, o).Go?
    ensures Steps(T, m + 1, h, t) == Step(T, h1, o)
  {
    hide Step;
    StepsAdd(T, m, 1, h, t);
  }

  // The machine does nothing else.

  lemma {:induction false} StepsEnd(T: Table, m: nat, k: nat, h: Heap, t: Obj)
    requires !Steps(T, m, h, t).Go?
    ensures Steps(T, m + k, h, t) == Steps(T, m, h, t)
    decreases m
  {
    hide Step;
    if m > 0 && !t.Null? && Step(T, h, t).Go? {
      StepsEnd(T, m - 1, k, Step(T, h, t).h, Step(T, h, t).o);
    }
  }

  lemma {:induction false} AliveGoes(T: Table, n: nat, h: Heap, t: Obj)
    requires Alive(T, n, h, t)
    ensures Steps(T, n, h, t).Go?
    decreases n
  {
    hide Step;
    if n > 0 {
      AliveGoes(T, n - 1, Step(T, h, t).h, Step(T, h, t).o);
    }
  }

  lemma EndsOnce(T: Table, m: nat, m1: nat, h: Heap, t: Obj)
    requires !Steps(T, m, h, t).Go? && !Steps(T, m1, h, t).Go?
    ensures Steps(T, m, h, t) == Steps(T, m1, h, t)
  {
    hide Steps;
    if m <= m1 {
      StepsEnd(T, m, m1 - m, h, t);
    } else {
      StepsEnd(T, m1, m - m1, h, t);
    }
  }

  /** If the machine ends within m rounds, then evaluation with fuel m ends, with the same value or exception. */
  lemma RunSound(m: nat, P: Program, ds: set<Symbol>, T: Table, h: Heap, f: Obj, ft: Term, ret: Symbol, exc: Symbol)
    requires Compiled(ds, P, T) && Stops(P, T, ret, exc) && Rep(h, f, ft)
    ensures var x := Steps(T, m, Boot(h, f, ret, exc), Arr(|h| + 2));
            !x.Go? ==> !Apply(m, P, ft, []).Out? && Agrees(x, Apply(m, P, ft, []))
  {
    hide Compiled, Apply, Step, Steps, Alive, Rep, Boot, Stuck, Stops;
    var h0 := Boot(h, f, ret, exc);
    var t := Arr(|h| + 2);
    if !Steps(T, m, h0, t).Go? {
      var m1 := RunComplete(m, P, ds, T, h, f, ft, ret, exc);
      match Apply(m, P, ft, [])
      case Out => AliveGoes(T, m, h0, t);
      case Undef(_) =>
      case Val(_) => EndsOnce(T, m, m1, h0, t);
      case Exc(_) => EndsOnce(T, m, m1, h0, t);
    }
  }

  /** Evaluation has no result, however much fuel it gets. */
  ghost predicate Diverges(P: Program, f: Term) {
    forall n: nat :: Apply(n, P, f, []).Out?
  }

  ghost predicate RunsForever(T: Table, h: Heap, t: Obj) {
    forall m: nat :: Alive(T, m, h, t)
  }

  /** The machine runs forever when evaluation does not end, whatever its fuel; and if it runs forever, then evaluation
      does not end, or meets an undeclared combinator. */
  lemma RunForever(P: Program, ds: set<Symbol>, T: Table, h: Heap, f: Obj, ft: Term, ret: Symbol, exc: Symbol)
    requires Compiled(ds, P, T) && Stops(P, T, ret, exc) && Rep(h, f, ft)
    ensures Diverges(P, ft) ==> RunsForever(T, Boot(h, f, ret, exc), Arr(|h| + 2))
    ensures RunsForever(T, Boot(h, f, ret, exc), Arr(|h| + 2)) ==> forall n: nat :: Apply(n, P, ft, []).Out? || Apply(n, P, ft, []).Undef?
  {
    hide Compiled, Apply, Step, Steps, Alive, Rep, Boot, Stuck, Stops;
    var h0 := Boot(h, f, ret, exc);
    var t := Arr(|h| + 2);
    if Diverges(P, ft) {
      forall m: nat ensures Alive(T, m, h0, t) {
        var _ := RunComplete(m, P, ds, T, h, f, ft, ret, exc);
      }
    }
    if RunsForever(T, h0, t) {
      forall n: nat ensures Apply(n, P, ft, []).Out? || Apply(n, P, ft, []).Undef? {
        var m := RunComplete(n, P, ds, T, h, f, ft, ret, exc);
        assert Alive(T, m, h0, t);
        AliveGoes(T, m, h0, t);
      }
    }
  }

  // The rounds of a run

  /** After q rounds from the first thunk, o is next. */
  ghost predicate RunAt(T: Table, h: Heap, f: Obj, ret: Symbol, exc: Symbol, q: nat, hq: Heap, o: Obj) {
    Steps(T, q, Boot(h, f, ret, exc), Arr(|h| + 2)) == Go(hq, o)
  }

  lemma {:induction false} VisitsAt(T: Table, m: nat, q: nat, h: Heap, t: Obj)
    requires Visits(T, m, h, t) && q < m && Steps(T, q, h, t).Go? && !Steps(T, q, h, t).o.Null?
    ensures Started(Steps(T, q, h, t).h, Steps(T, q, h, t).o)
    decreases q
  {
    hide Step, Started;
    if q > 0 {
      VisitsAt(T, m - 1, q - 1, Step(T, h, t).h, Step(T, h, t).o);
    }
  }

  /** The thunk is one that the machine stops at. */
  ghost predicate Stopping(T: Table, h: Heap, o: Obj) {
    exists c :: Stuck(h, o, c) && Undeclared(T, c)
  }

  lemma StopsAt(T: Table, h: Heap, o: Obj, c: Symbol)
    requires Stuck(h, o, c) && Undeclared(T, c)
    ensures Stopping(T, h, o) && !o.Null? && !Step(T, h, o).Go?
  {
    UndeclaredStops(T, h, o, c);
  }

  /** The machine stops at the thunk that is next after m rounds. */
  lemma {:induction false} LastVisit(T: Table, m: nat, q: nat, h: Heap, t: Obj, h1: Heap, o1: Obj)
    requires Visits(T, m, h, t) && Steps(T, m, h, t) == Go(h1, o1) && !o1.Null? && !Step(T, h1, o1).Go? && Stopping(T, h1, o1)
    requires var y := Steps(T, q, h, t); y.Go? && !y.o.Null?
    ensures var y := Steps(T, q, h, t); Started(y.h, y.o) || Stopping(T, y.h, y.o)
  {
    hide Step, Started, Visits, Stopping;
    if q < m {
      VisitsAt(T, m, q, h, t);
    } else {
      StepsAdd(T, m, q - m, h, t);
      assert q == m;
    }
  }

  /** Every thunk of a run applies a term to terms, or it is one that the machine stops at. */
  lemma RunState(q: nat, P: Program, ds: set<Symbol>, T: Table, h: Heap, f: Obj, ft: Term, ret: Symbol, exc: Symbol, hq: Heap, o: Obj)
    requires Compiled(ds, P, T) && Stops(P, T, ret, exc) && Rep(h, f, ft)
    requires RunAt(T, h, f, ret, exc, q, hq, o) && !o.Null?
    ensures Started(hq, o) || Stopping(T, hq, o)
  {
    hide Compiled, Linked, Apply, Step, Steps, Alive, Rep, Open, Boot, Started, Visits, Later, Stuck, Undeclared, Stopping;
    var h0 := Boot(h, f, ret, exc);
    var link := FirstLink(h);
    var t := Arr(|h| + 2);
    BootLinked(h, f, ft, ret, exc);
    RepsNone(h0);
    var m, h1, o1 := ApplyRun(q + 1, P, ds, T, h0, |h| + 2, link, f, [], ft, []);
    match Apply(q + 1, P, ft, [])
    case Out => VisitsAt(T, q + 1, q, h0, t);
    case Undef(s) =>
      StopsAt(T, h1, o1, s);
      LastVisit(T, m, q, h0, t, h1, o1);
    case Val(v) =>
      ValueStuck(T, h0, h1, |h|, ret);
      StopsAt(T, h1, Arr(|h|), ret);
      LastVisit(T, m, q, h0, t, h1, Arr(|h|));
    case Exc(es) =>
      ThrownStuck(T, h0[|h| + 1], h1, o1, es, exc);
      StopsAt(T, h1, o1, exc);
      LastVisit(T, m, q, h0, t, h1, o1);
  }

  lemma ValueStuck(T: Table, h0: Heap, h1: Heap, a: nat, ret: Symbol)
    requires Frame(h0, h1, a, 5) && |h0[a]| == 6 && h0[a][4] == At(CombAtom(ret)) && ret in T && T[ret] == ResultComb(false)
    ensures Stuck(h1, Arr(a), ret) && Undeclared(T, ret)
  {
  }

  lemma ThrownStuck(T: Table, handler: seq<Obj>, h1: Heap, o: Obj, es: seq<Term>, exc: Symbol)
    requires Thrown(handler, h1, o, es) && |handler| == 5 && handler[4] == At(CombAtom(exc)) && exc in T && T[exc] == ResultComb(true)
    ensures Stuck(h1, o, exc) && Undeclared(T, exc)
  {
    hide Rep;
    assert h1[o.addr][..5][4] == handler[4];
  }

  lemma RunStarted(q: nat, P: Program, ds: set<Symbol>, T: Table, h: Heap, f: Obj, ft: Term, ret: Symbol, exc: Symbol, hq: Heap, o: Obj)
    requires Compiled(ds, P, T) && Stops(P, T, ret, exc) && Rep(h, f, ft)
    requires RunAt(T, h, f, ret, exc, q, hq, o) && !o.Null? && Step(T, hq, o).Go?
    ensures Started(hq, o)
  {
    hide Compiled, Stops, Rep, RunAt, Step, Started, Stuck, Undeclared;
    RunState(q, P, ds, T, h, f, ft, ret, exc, hq, o);
    if !Started(hq, o) {
      var c :| Stuck(hq, o, c) && Undeclared(T, c);
      UndeclaredStops(T, hq, o, c);
    }
  }

  lemma RunNext(T: Table, h: Heap, f: Obj, ret: Symbol, exc: Symbol, q: nat, hq: Heap, o: Obj)
    requires RunAt(T, h, f, ret, exc, q, hq, o) && !o.Null? && Step(T, hq, o).Go?
    ensures RunAt(T, h, f, ret, exc, q + 1, Step(T, hq, o).h, Step(T, hq, o).o)
  {
    hide Step, Boot;
    StepsAdd(T, q, 1, Boot(h, f, ret, exc), Arr(|h| + 2));
  }

  lemma RunMore(T: Table, h: Heap, f: Obj, ret: Symbol, exc: Symbol, q: nat, m: nat, hq: Heap, o: Obj)
    requires RunAt(T, h, f, ret, exc, q, hq, o) && Steps(T, m, hq, o).Go?
    ensures RunAt(T, h, f, ret, exc, q + m, Steps(T, m, hq, o).h, Steps(T, m, hq, o).o)
  {
    hide Step, Boot, Steps;
    StepsAdd(T, q, m, Boot(h, f, ret, exc), Arr(|h| + 2));
  }
}
