/** Exception handlers over whole runs. */
module Handlers {
  import opened Terms
  import opened Heaps
  import opened Semantics
  import opened Bytecode
  import opened Build
  import opened Codegen
  import opened Machine
  import opened Compile
  import opened Chain

  /** A handle of two arguments or more is about to run: handler, handled function, further arguments. */
  ghost predicate Handling(P: Program, ds: set<Symbol>, T: Table, h: Heap, t: nat, link: Link, s: Symbol, args: seq<Obj>, ts: seq<Term>) {
    && Compiled(ds, P, T) && s in P && P[s].HandleDef?
    && Linked(h, link) && ThunkAt(h, t, link, At(CombAtom(s)), args) && Reps(h, args, ts) && |ts| >= 2
  }

  lemma HandleRound(P: Program, ds: set<Symbol>, T: Table, h: Heap, t: nat, link: Link, s: Symbol, args: seq<Obj>, ts: seq<Term>) returns (h2: Heap)
    requires Handling(P, ds, T, h, t, link, s, args, ts)
    ensures |args| == |ts|
    ensures h <= h2 && Step(T, h, Arr(t)) == Go(h2, Arr(|h| + 1)) && |h| < |h2| && h2[|h|] == HandlerArray(link, args[0])
    ensures var link1 := link.(exc := Arr(|h|));
            Linked(h2, link1) && ThunkAt(h2, |h| + 1, link1, args[1], [NONE_OBJ] + args[2..])
    ensures Rep(h2, args[0], ts[0]) && Rep(h2, args[1], ts[1]) && Reps(h2, [NONE_OBJ] + args[2..], [NONE] + ts[2..])
  {
    hide Step, Open, Rep, ReduceHandle, HandlerArray;
    assert CompiledAs(ds, P[s], T[s]);
    StepShape(T, h, t, link, At(CombAtom(s)), args);
    h2 := HandleStep(T, h, t, link, At(CombAtom(s)), args, ts);
  }

  /** If the handled application throws es, the machine goes on with the handler applied to none and es: its thunk
      has the target, index, continuation and enclosing handler of the handle. Until then no thunk older than
      the handle is reduced, and nothing older but the target cell changes. */
  lemma HandlerResumes(n: nat, P: Program, ds: set<Symbol>, T: Table, h: Heap, t: nat, link: Link, s: Symbol, args: seq<Obj>, ts: seq<Term>, es: seq<Term>)
    returns (m: nat, h3: Heap, t3: nat)
    requires Handling(P, ds, T, h, t, link, s, args, ts)
    requires Apply(n, P, ts[1], [NONE] + ts[2..]) == Exc(es)
    ensures |args| == |ts| && |h| <= t3 < |h3|
    ensures Steps(T, m, h, Arr(t)) == Go(h3, Arr(t3)) && Later(T, m, h, Arr(t), |h|)
    ensures |h3[t3]| >= 6 && var ws := h3[t3][6..]; h3[t3] == LinkObjs(link) + [args[0], NONE_OBJ] + ws && Reps(h3, ws, es)
    ensures Linked(h3, link) && Frame(h, h3, link.rt.addr, link.rti.atom.i) && Rep(h3, args[0], ts[0])
  {
    hide Step, Steps, Open, Rep, Later, Apply, Frame, Compiled;
    var h2 := HandleRound(P, ds, T, h, t, link, s, args, ts);
    var link1 := link.(exc := Arr(|h|));
    var m1, h1, o := ApplyRun(n, P, ds, T, h2, |h| + 1, link1, args[1], [NONE_OBJ] + args[2..], ts[1], [NONE] + ts[2..]);
    CaughtStep(T, h, h2, link, args[0], es, n, m1, h1, o, ts[0]);
    h3, t3 := h1, o.addr;
    OneStep(T, h, Arr(t), h2, Arr(|h| + 1));
    StepsAdd(T, 1, m1, h, Arr(t));
    LaterAdd(T, 1, m1, h, Arr(t), |h|);
    m := 1 + m1;
    ResumedThunk(h3, t3, link, args[0], es);
  }

  lemma ResumedThunk(h: Heap, t: nat, link: Link, f: Obj, es: seq<Term>)
    requires t < |h| && |h[t]| >= 6
    requires var args := [NONE_OBJ] + h[t][6..]; ThunkAt(h, t, link, f, args) && Reps(h, args, [NONE] + es)
    ensures h[t] == LinkObjs(link) + [f, NONE_OBJ] + h[t][6..] && Reps(h, h[t][6..], es)
  {
    hide Rep;
    var ws := h[t][6..];
    assert LinkObjs(link) + [f] + ([NONE_OBJ] + ws) == LinkObjs(link) + [f, NONE_OBJ] + ws;
    forall i | 0 <= i < |es| ensures |ws| == |es| && Rep(h, ws[i], es[i]) {
      assert ([NONE_OBJ] + ws)[i + 1] == ws[i] && ([NONE] + es)[i + 1] == es[i];
      assert Rep(h, ([NONE_OBJ] + ws)[i + 1], ([NONE] + es)[i + 1]);
    }
  }

  /** Then the handler runs in place of the handle. If it returns, its value goes to the handle's target, and the
      handle's continuation is next; if it throws, the enclosing handler is next. On the way only the handler's
      thunk and thunks made after the throw are reduced: those that the throw abandoned are not. */
  lemma HandlerRuns(n: nat, P: Program, ds: set<Symbol>, T: Table, h: Heap, t: nat, link: Link, s: Symbol, args: seq<Obj>, ts: seq<Term>, es: seq<Term>, m: nat, h3: Heap, t3: nat)
    returns (m2: nat, h4: Heap, o: Obj)
    requires Handling(P, ds, T, h, t, link, s, args, ts)
    requires |args| == |ts| && |h| <= t3 < |h3| && Steps(T, m, h, Arr(t)) == Go(h3, Arr(t3))
    requires |h3[t3]| >= 6 && var ws := h3[t3][6..]; h3[t3] == LinkObjs(link) + [args[0], NONE_OBJ] + ws && Reps(h3, ws, es)
    requires Linked(h3, link) && Frame(h, h3, link.rt.addr, link.rti.atom.i) && Rep(h3, args[0], ts[0])
    ensures var r := Apply(n, P, ts[0], [NONE] + es);
            && (r.Val? ==> Steps(T, m + m2, h, Arr(t)) == Go(h4, link.k) && Frame(h, h4, link.rt.addr, link.rti.atom.i) && Rep(h4, h4[link.rt.addr][link.rti.atom.i], r.t))
            && (r.Exc? ==> Steps(T, m + m2, h, Arr(t)) == Go(h4, o) && Frame(h, h4, link.rt.addr, link.rti.atom.i) && Thrown(h[link.exc.addr], h4, o, r.ts))
            && (r.Val? || r.Exc? ==> Later(T, m2, h3, Arr(t3), |h3|))
  {
    hide Step, Steps, Open, Rep, Later, Apply, Compiled, Thrown;
    var ws := h3[t3][6..];
    HandlerThunk(h3, t3, link, args[0], ws, es);
    m2, h4, o := ApplyRun(n, P, ds, T, h3, t3, link, args[0], [NONE_OBJ] + ws, ts[0], [NONE] + es);
    StepsAdd(T, m, m2, h, Arr(t));
  }

  lemma HandlerThunk(h: Heap, t: nat, link: Link, f: Obj, ws: seq<Obj>, es: seq<Term>)
    requires t < |h| && h[t] == LinkObjs(link) + [f, NONE_OBJ] + ws && Reps(h, ws, es)
    ensures ThunkAt(h, t, link, f, [NONE_OBJ] + ws) && Reps(h, [NONE_OBJ] + ws, [NONE] + es)
  {
    hide Rep;
    assert LinkObjs(link) + [f] + ([NONE_OBJ] + ws) == LinkObjs(link) + [f, NONE_OBJ] + ws;
    NoneRep(h);
    forall i | 0 <= i < |es| + 1 ensures Rep(h, ([NONE_OBJ] + ws)[i], ([NONE] + es)[i]) {
      if i > 0 {
        assert Rep(h, ws[i - 1], es[i - 1]);
      }
    }
  }

  lemma NoneRep(h: Heap)
    ensures Rep(h, NONE_OBJ, NONE)
  {
  }

  /** If the handled application returns, the handler is not run: the value goes to the handle's target, and the
      continuation, which has the enclosing handler, is next. */
  lemma HandlerUnused(n: nat, P: Program, ds: set<Symbol>, T: Table, h: Heap, t: nat, link: Link, s: Symbol, args: seq<Obj>, ts: seq<Term>, v: Term)
    returns (m: nat, h3: Heap)
    requires Handling(P, ds, T, h, t, link, s, args, ts)
    requires Apply(n, P, ts[1], [NONE] + ts[2..]) == Val(v)
    ensures Steps(T, m, h, Arr(t)) == Go(h3, link.k) && Later(T, m, h, Arr(t), |h|)
    ensures Frame(h, h3, link.rt.addr, link.rti.atom.i) && Rep(h3, h3[link.rt.addr][link.rti.atom.i], v)
  {
    hide Step, Steps, Open, Rep, Later, Apply, Compiled;
    var h2 := HandleRound(P, ds, T, h, t, link, s, args, ts);
    var link1 := link.(exc := Arr(|h|));
    var m1, h1, o := ApplyRun(n, P, ds, T, h2, |h| + 1, link1, args[1], [NONE_OBJ] + args[2..], ts[1], [NONE] + ts[2..]);
    h3 := h1;
    OneStep(T, h, Arr(t), h2, Arr(|h| + 1));
    StepsAdd(T, 1, m1, h, Arr(t));
    LaterLess(T, m1, h2, Arr(|h| + 1), |h2|, |h|);
    LaterAdd(T, 1, m1, h, Arr(t), |h|);
    m := 1 + m1;
  }
}
