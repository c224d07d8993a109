/** What a handler leaves behind: to the end of a run, no thunk that a throw gave up is reduced. */
module Abandoned {
  import opened Terms
  import opened Heaps
  import opened Semantics
  import opened Bytecode
  import opened Build
  import opened Codegen
  import opened Machine
  import opened Compile
  import opened Chain
  import opened Toplevel
  import opened Handlers
  import opened Pending

  /** From then on the next thunk is in a closed set, or a new one. */
  lemma {:induction false} PendRun(k: nat, P: Program, ds: set<Symbol>, T: Table, h: Heap, f: Obj, ft: Term, ret: Symbol, exc: Symbol, q: nat, hq: Heap, o: Obj, s: set<nat>) returns (s1: set<nat>)
    requires Compiled(ds, P, T) && Stops(P, T, ret, exc) && Rep(h, f, ft)
    requires RunAt(T, h, f, ret, exc, q, hq, o) && Pend(hq, s) && Within(o, s)
    ensures PendNext(hq, s, Steps(T, k, hq, o), s1)
    decreases k
  {
    hide Compiled, Stops, Rep, RunAt, Pend, Step, PendNext;
    s1 := s;
    if k == 0 || o.Null? {
      PendHere(hq, s, o);
    } else if Step(T, hq, o).Go? {
      var h1, o1 := Step(T, hq, o).h, Step(T, hq, o).o;
      RunStarted(q, P, ds, T, h, f, ft, ret, exc, hq, o);
      var s0 := PendStep(P, ds, T, hq, s, o.addr);
      PendParts(hq, s, Go(h1, o1), s0);
      RunNext(T, h, f, ret, exc, q, hq, o);
      s1 := PendRun(k - 1, P, ds, T, h, f, ft, ret, exc, q + 1, h1, o1, s0);
      PendTwice(hq, s, Go(h1, o1), s0, Steps(T, k, hq, o), s1);
    } else {
      PendEnd(hq, s, Steps(T, k, hq, o));
    }
  }

  lemma PendHere(h: Heap, s: set<nat>, o: Obj)
    requires Pend(h, s) && Within(o, s)
    ensures PendNext(h, s, Go(h, o), s)
  {
  }

  lemma PendEnd(h: Heap, s: set<nat>, x: Next)
    requires !x.Go?
    ensures PendNext(h, s, x, s)
  {
  }

  /** The first three thunks are a closed set. */
  lemma BootPend(h: Heap, f: Obj, ret: Symbol, exc: Symbol)
    ensures Pend(Boot(h, f, ret, exc), {|h|, |h| + 1, |h| + 2})
  {
  }

  /** The thunks older than a thunk of the run, as far as they are pending, are a closed set. */
  lemma RunPend(P: Program, ds: set<Symbol>, T: Table, h: Heap, f: Obj, ft: Term, ret: Symbol, exc: Symbol, q: nat, hq: Heap, o: Obj) returns (s: set<nat>)
    requires Compiled(ds, P, T) && Stops(P, T, ret, exc) && Rep(h, f, ft) && RunAt(T, h, f, ret, exc, q, hq, o)
    ensures Pend(hq, s) && Within(o, s)
  {
    hide Compiled, Stops, Rep, Boot, Pend, Steps;
    var h0, t0 := Boot(h, f, ret, exc), Arr(|h| + 2);
    BootPend(h, f, ret, exc);
    NoSteps(T, h0, t0);
    s := PendRun(q, P, ds, T, h, f, ft, ret, exc, 0, h0, t0, {|h|, |h| + 1, |h| + 2});
  }

  lemma NoSteps(T: Table, h: Heap, t: Obj)
    ensures Steps(T, 0, h, t) == Go(h, t)
  {
  }

  /** However long the machine goes on from there, no thunk from lo on and below hi is reduced, except u. */
  ghost predicate NeverReduced(T: Table, h: Heap, t: Obj, lo: nat, hi: nat, u: nat) {
    forall k: nat :: OutsideOf(Steps(T, k, h, t), lo, hi, u)
  }

  /** The thunk that comes next is not one of lo up to hi, except u. */
  predicate OutsideOf(x: Next, lo: nat, hi: nat, u: nat) {
    x.Go? && x.o.Arr? && lo <= x.o.addr < hi ==> x.o.addr == u
  }

  lemma PendNever(P: Program, ds: set<Symbol>, T: Table, h: Heap, f: Obj, ft: Term, ret: Symbol, exc: Symbol, q: nat, hq: Heap, o: Obj, s: set<nat>, lo: nat, u: nat)
    requires Compiled(ds, P, T) && Stops(P, T, ret, exc) && Rep(h, f, ft)
    requires RunAt(T, h, f, ret, exc, q, hq, o) && Pend(hq, s) && Within(o, s)
    requires forall v :: v in s ==> v < lo || v == u
    ensures NeverReduced(T, hq, o, lo, |hq|, u)
  {
    hide Compiled, Stops, Rep, RunAt, Pend, Step, Steps;
    forall k: nat ensures OutsideOf(Steps(T, k, hq, o), lo, |hq|, u) {
      var s1 := PendRun(k, P, ds, T, h, f, ft, ret, exc, q, hq, o, s);
    }
  }

  /** The closed set of a thunk is closed after it is done, as only its target has changed. */
  lemma PendFrame(h: Heap, s: set<nat>, t: nat, link: Link, g: Obj, args: seq<Obj>, h1: Heap)
    requires Pend(h, s) && t in s && ThunkAt(h, t, link, g, args) && Linked(h, link) && Frame(h, h1, link.rt.addr, link.rti.atom.i)
    ensures Pend(h1, s) && LinksKept(h, h1, s) && Within(link.k, s) && Within(link.exc, s) && TargetApart(link.rt, link.rti, s, |h|)
    ensures forall u :: u in s ==> u < |h|
  {
    hide Pend, Frame, Open;
    PendLink(h, s, t, link, g, args);
    FrameGrows(h, h1, link.rt.addr, link.rti.atom.i);
    FrameLinks(h, h1, link.rt.addr, link.rti.atom.i, s);
    PendGrow(h, h1, s, s);
    PendIn(h, s);
  }

  lemma HandlerJoins(h: Heap, h1: Heap, s: set<nat>, t: nat, link: Link, os: seq<Obj>)
    requires Pend(h, s) && LinksKept(h, h1, s) && |h| <= t < |h1| && h1[t] == LinkObjs(link) + os
    requires Within(link.k, s) && Within(link.exc, s) && TargetApart(link.rt, link.rti, s, |h|)
    ensures Pend(h1, s + {t})
  {
    hide Pend, LinksKept;
    PendGrow(h, h1, s, s + {t});
  }

  /** A handle is met in a run, and the handled application throws es. Then the machine comes to the handler's thunk,
      which has the link of the handle, and from there to the end of the run no thunk made since the handle is reduced
      but the handler's: what the throw gave up stays so. */
  lemma HandlerFinal(n: nat, P: Program, ds: set<Symbol>, T: Table, h: Heap, f: Obj, ft: Term, ret: Symbol, exc: Symbol,
                     q: nat, hq: Heap, t: nat, link: Link, s: Symbol, args: seq<Obj>, ts: seq<Term>, es: seq<Term>)
    returns (m: nat, h3: Heap, t3: nat)
    requires Stops(P, T, ret, exc) && Rep(h, f, ft) && RunAt(T, h, f, ret, exc, q, hq, Arr(t))
    requires Handling(P, ds, T, hq, t, link, s, args, ts)
    requires Apply(n, P, ts[1], [NONE] + ts[2..]) == Exc(es)
    ensures |args| == |ts| && |hq| <= t3 < |h3| && RunAt(T, h, f, ret, exc, q + m, h3, Arr(t3))
    ensures |h3[t3]| >= 6 && var ws := h3[t3][6..]; h3[t3] == LinkObjs(link) + [args[0], NONE_OBJ] + ws && Reps(h3, ws, es)
    ensures NeverReduced(T, h3, Arr(t3), |hq|, |h3|, t3)
  {
    hide Stops, Rep, RunAt, Apply, Pend, Steps, Linked, Reps, Compiled, Within, TargetApart, LinksKept, Frame, NeverReduced, Later;
    m, h3, t3 := HandlerResumes(n, P, ds, T, hq, t, link, s, args, ts, es);
    RunMore(T, h, f, ret, exc, q, m, hq, Arr(t));
    var s0 := RunPend(P, ds, T, h, f, ft, ret, exc, q, hq, Arr(t));
    InSet(s0, t);
    PendFrame(hq, s0, t, link, At(CombAtom(s)), args, h3);
    LinkedTarget(hq, link);
    assert LinkObjs(link) + [args[0], NONE_OBJ] + h3[t3][6..] == LinkObjs(link) + ([args[0], NONE_OBJ] + h3[t3][6..]);
    HandlerJoins(hq, h3, s0, t3, link, [args[0], NONE_OBJ] + h3[t3][6..]);
    InSet(s0 + {t3}, t3);
    PendNever(P, ds, T, h, f, ft, ret, exc, q + m, h3, Arr(t3), s0 + {t3}, |hq|, t3);
  }

  lemma InSet(s: set<nat>, t: nat)
    ensures Within(Arr(t), s) <==> t in s
  {
  }

  /** If the handled application returns, then to the end of the run no thunk made since the handle is reduced: neither
      the handler's nor one of the application. */
  lemma HandlerGone(n: nat, P: Program, ds: set<Symbol>, T: Table, h: Heap, f: Obj, ft: Term, ret: Symbol, exc: Symbol,
                    q: nat, hq: Heap, t: nat, link: Link, s: Symbol, args: seq<Obj>, ts: seq<Term>, v: Term)
    returns (m: nat, h3: Heap)
    requires Stops(P, T, ret, exc) && Rep(h, f, ft) && RunAt(T, h, f, ret, exc, q, hq, Arr(t))
    requires Handling(P, ds, T, hq, t, link, s, args, ts)
    requires Apply(n, P, ts[1], [NONE] + ts[2..]) == Val(v)
    ensures |hq| <= |h3| && RunAt(T, h, f, ret, exc, q + m, h3, link.k)
    ensures TargetOk(h3, link) && Rep(h3, h3[link.rt.addr][link.rti.atom.i], v)
    ensures NeverReduced(T, h3, link.k, |hq|, |h3|, |h3|)
  {
    hide Stops, Rep, RunAt, Apply, Pend, Steps, Linked, Reps, Compiled, Within, TargetApart, LinksKept, NeverReduced, Later;
    m, h3 := HandlerUnused(n, P, ds, T, hq, t, link, s, args, ts, v);
    RunMore(T, h, f, ret, exc, q, m, hq, Arr(t));
    var s0 := RunPend(P, ds, T, h, f, ft, ret, exc, q, hq, Arr(t));
    InSet(s0, t);
    PendFrame(hq, s0, t, link, At(CombAtom(s)), args, h3);
    LinkedTarget(hq, link);
    PendNever(P, ds, T, h, f, ft, ret, exc, q + m, h3, link.k, s0, |hq|, |h3|);
  }
}
