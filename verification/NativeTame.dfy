/** Native code against evaluation: it computes what evaluation does exactly when that tries array patterns on applications only. */
module NativeTames {
  import opened Terms
  import opened Heaps
  import opened Syntax
  import opened Semantics
  import opened Bytecode
  import opened Build
  import opened Codegen
  import opened Blocks
  import opened Encoding
  import opened Machine
  import opened Tameness
  import opened Compile
  import opened Chain
  import opened Toplevel
  import opened Reredex
  import opened RedexTames
  import opened Backend
  import opened Native
  import opened NativeCode
  import opened NativePatterns
  import opened NativeRuns

  // The condition on thunks is the condition on terms.

  lemma TameState(P: Program, ds: set<Symbol>, T: Table, h: Heap, o: Obj)
    requires Compiled(ds, P, T) && (Started(h, o) || Stopping(T, h, o))
    ensures TameStep(T, h, o) <==> FineAt(P, h, o)
  {
    hide Compiled, Linked, Rep, Reps, ThunkAt, FineAt, TameStep, Stuck, Undeclared;
    if Started(h, o) {
      var link, f, args, ft, ts :| StartedAs(h, o, link, f, args, ft, ts);
      if f.At? && f.atom.CombAtom? {
        CombState(P, ds, T, h, o.addr, link, f, args, f.atom.sym, ts);
      } else {
        FinePlain(P, h, o.addr, link, f, args);
        NotCode(T, h, o.addr, link, f, args);
      }
    } else {
      var c :| Stuck(h, o, c) && Undeclared(T, c);
      StopState(P, ds, T, h, o, c);
    }
  }

  lemma NotCode(T: Table, h: Heap, t: nat, link: Link, f: Obj, args: seq<Obj>)
    requires ThunkAt(h, t, link, f, args)
    requires f.At? && f.atom.CombAtom? ==> f.atom.sym !in T || !T[f.atom.sym].CodeComb?
    ensures TameStep(T, h, Arr(t))
  {
    hide TameBytes;
    assert h[t][4] == f;
  }

  lemma IsCode(T: Table, h: Heap, t: nat, link: Link, f: Obj, args: seq<Obj>, s: Symbol)
    requires ThunkAt(h, t, link, f, args) && f == At(CombAtom(s)) && s in T && T[s].CodeComb?
    ensures OfCode(T, h, Arr(t)) && CodeOf(T, h, Arr(t)) == T[s] && t < |h| && h[t] == LinkObjs(link) + [f] + args
  {
    assert h[t][4] == f;
  }

  lemma CodeIsCode(ds: set<Symbol>, d: Def, c: Combinator)
    requires CompiledAs(ds, d, c) && d.CodeDef?
    ensures c.CodeComb?
  {
    hide AltsOk, DefCode, DefLabels, Encodable, Resolve, ByteLabels, EncodeAll, Consts;
    var pv, stale :| Assembled(ds, pv, stale, d.alts, c);
  }

  lemma CombState(P: Program, ds: set<Symbol>, T: Table, h: Heap, t: nat, link: Link, f: Obj, args: seq<Obj>, s: Symbol, ts: seq<Term>)
    requires Compiled(ds, P, T) && Linked(h, link) && ThunkAt(h, t, link, f, args) && f == At(CombAtom(s)) && Reps(h, args, ts)
    ensures TameStep(T, h, Arr(t)) <==> FineAt(P, h, Arr(t))
  {
    hide Linked, Reps, ThunkAt, FineAt, TameStep, Assembled, OfCode, CodeOf, SplitsAlts;
    if s in P && P[s].CodeDef? {
      CodeIsCode(ds, P[s], T[s]);
    }
    if s in T && T[s].CodeComb? {
      var ms := P[s].alts;
      var pv, stale :| Assembled(ds, pv, stale, ms, T[s]);
      IsCode(T, h, t, link, f, args, s);
      LinkedTarget(h, link);
      TameThunk(ds, pv, stale, ms, T, h, t, link, f, args, ts);
      FineCode(P, h, t, link, f, args, s, ts);
    } else {
      NotCode(T, h, t, link, f, args);
      FinePlain(P, h, t, link, f, args);
    }
  }

  lemma StopState(P: Program, ds: set<Symbol>, T: Table, h: Heap, o: Obj, c: Symbol)
    requires Compiled(ds, P, T) && Stuck(h, o, c) && Undeclared(T, c)
    ensures TameStep(T, h, o) && FineAt(P, h, o)
  {
    hide Linked, Rep, TameBytes, SplitsAlts, Assembled;
    if c in P && P[c].CodeDef? {
      CodeIsCode(ds, P[c], T[c]);
    }
  }

  lemma {:induction false} TameRun(m: nat, P: Program, ds: set<Symbol>, T: Table, h: Heap, f: Obj, ft: Term, ret: Symbol, exc: Symbol, q: nat, hq: Heap, o: Obj)
    requires Compiled(ds, P, T) && Stops(P, T, ret, exc) && Rep(h, f, ft) && RunAt(T, h, f, ret, exc, q, hq, o)
    ensures TameSteps(T, m, hq, o) <==> Fine(P, T, m, hq, o)
    decreases m
  {
    hide Compiled, Stops, Rep, RunAt, TameStep, FineAt, Step, Started, Stopping;
    if m > 0 && !o.Null? {
      RunState(q, P, ds, T, h, f, ft, ret, exc, hq, o);
      TameState(P, ds, T, hq, o);
      if Step(T, hq, o).Go? {
        RunNext(T, h, f, ret, exc, q, hq, o);
        TameRun(m - 1, P, ds, T, h, f, ft, ret, exc, q + 1, Step(T, hq, o).h, Step(T, hq, o).o);
      }
    }
  }

  // Rounds

  lemma {:induction false} TameLess(T: Table, m: nat, k: nat, h: Heap, t: Obj)
    requires TameSteps(T, m, h, t) && k <= m
    ensures TameSteps(T, k, h, t)
    decreases m
  {
    hide Step, TameStep;
    if k > 0 && !t.Null? && Step(T, h, t).Go? {
      TameLess(T, m - 1, k - 1, Step(T, h, t).h, Step(T, h, t).o);
    }
  }

  lemma {:induction false} TameMore(T: Table, m: nat, h: Heap, t: Obj, h1: Heap, o1: Obj)
    requires TameSteps(T, m, h, t) && Steps(T, m, h, t) == Go(h1, o1) && TameStep(T, h1, o1)
    ensures TameSteps(T, m + 1, h, t)
    decreases m
  {
    hide Step, TameStep;
    if m > 0 && !t.Null? {
      TameMore(T, m - 1, Step(T, h, t).h, Step(T, h, t).o, h1, o1);
    } else if Step(T, h, t).Go? {
      assert TameSteps(T, 0, Step(T, h, t).h, Step(T, h, t).o);
    }
  }

  /** Before a round that is not tame, the machine does not end. */
  lemma {:induction false} WildGoes(T: Table, m: nat, k: nat, h: Heap, t: Obj)
    requires !TameSteps(T, m, h, t) && TameSteps(T, k, h, t)
    ensures Steps(T, k, h, t).Go?
    decreases k
  {
    hide Step, TameStep;
    if k > 0 && !t.Null? {
      WildGoes(T, m - 1, k - 1, Step(T, h, t).h, Step(T, h, t).o);
    }
  }

  lemma WildNever(ds: set<Symbol>, P: Program, T: Table, m: nat, h: Heap, t: Obj)
    requires Compiled(ds, P, T) && NoOnes(h) && !TameSteps(T, m, h, t)
    ensures NativeSteps(T, m, h, t) == Panic && forall k: nat :: !NativeSteps(T, k, h, t).Finish?
  {
    hide Compiled, NoOnes, TameSteps, Steps, NativeSteps;
    StepsNative(ds, P, T, m, h, t);
    forall k: nat
      ensures !NativeSteps(T, k, h, t).Finish?
    {
      StepsNative(ds, P, T, k, h, t);
      if TameSteps(T, k, h, t) {
        WildGoes(T, m, k, h, t);
      }
    }
  }

  // Whole runs

  /** What native code does against the result r of an evaluation that is tame if w holds. */
  ghost predicate NativeAgrees(T: Table, n: nat, m: nat, h: Heap, t: Obj, r: Res, w: bool) {
    if w then
      Agrees(NativeSteps(T, m, h, t), r) && (r.Out? ==> m == n)
    else
      NativeSteps(T, m, h, t) == Panic && forall k: nat :: !NativeSteps(T, k, h, t).Finish?
  }

  lemma {:induction false} CompiledNative(n: nat, P: Program, ds: set<Symbol>, T: Table, h: Heap, f: Obj, ft: Term, ret: Symbol, exc: Symbol) returns (m: nat)
    requires Compiled(ds, P, T) && Stops(P, T, ret, exc) && Rep(h, f, ft) && NoOnes(h)
    ensures NativeAgrees(T, n, m, Boot(h, f, ret, exc), Arr(|h| + 2), Apply(n, P, ft, []), TameApply(n, P, ft, []))
  {
    hide Compiled, Stops, Linked, Apply, Step, Steps, Alive, Rep, Open, Boot, Visits, Later, NoOnes, TameSteps, NativeSteps, Fine, TameApply, RunAt;
    var h0, t := Boot(h, f, ret, exc), Arr(|h| + 2);
    BootLinked(h, f, ft, ret, exc);
    BootSizes(h, f, ret, exc);
    RepsNone(h0);
    var r, w := Apply(n, P, ft, []), TameApply(n, P, ft, []);
    var h1, o1;
    m, h1, o1 := ApplyRun(n, P, ds, T, h0, |h| + 2, FirstLink(h), f, [], ft, []);
    StartsHere(T, h, f, ret, exc);
    TameRun(m, P, ds, T, h, f, ft, ret, exc, 0, h0, t);
    if !w {
      WildNever(ds, P, T, m, h0, t);
    } else if r.Out? {
      TameLess(T, m, n, h0, t);
      AliveGoes(T, n, h0, t);
      m := n;
      StepsNative(ds, P, T, m, h0, t);
    } else if !r.Undef? {
      m := NativeEnd(P, ds, T, h, f, ft, ret, exc, r, n, m, h1, o1);
      StepsNative(ds, P, T, m, h0, t);
    }
  }

  lemma StartsHere(T: Table, h: Heap, f: Obj, ret: Symbol, exc: Symbol)
    ensures RunAt(T, h, f, ret, exc, 0, Boot(h, f, ret, exc), Arr(|h| + 2))
  {
    hide Boot;
  }

  /** The last round is one of a combinator that stops the machine. */
  lemma NativeEnd(P: Program, ds: set<Symbol>, T: Table, h: Heap, f: Obj, ft: Term, ret: Symbol, exc: Symbol, r: Res, n: nat, m0: nat, h1: Heap, o1: Obj) returns (m: nat)
    requires Compiled(ds, P, T) && Stops(P, T, ret, exc) && Rep(h, f, ft) && (r.Val? || r.Exc?)
    requires var h0 := Boot(h, f, ret, exc);
             && Linked(h0, FirstLink(h)) && TameSteps(T, m0, h0, Arr(|h| + 2))
             && Reaches(T, h0, h0, Arr(|h| + 2), FirstLink(h), r, n, m0, h1, o1)
    ensures TameSteps(T, m, Boot(h, f, ret, exc), Arr(|h| + 2)) && Agrees(Steps(T, m, Boot(h, f, ret, exc), Arr(|h| + 2)), r)
  {
    hide Compiled, Linked, Step, Steps, Alive, Rep, Open, Boot, Visits, Later, TameSteps, TameStep, Stuck, Undeclared, FineAt;
    var h0, t := Boot(h, f, ret, exc), Arr(|h| + 2);
    BootLinked(h, f, ft, ret, exc);
    var o := if r.Val? then Arr(|h|) else o1;
    if r.Val? {
      ValueStep(T, h0, h1, |h|, ret);
      ValueStuck(T, h0, h1, |h|, ret);
      StopState(P, ds, T, h1, o, ret);
    } else {
      HandlerThere(h0, FirstLink(h));
      ThrownStep(T, h0[|h| + 1], h1, o, r.ts, exc);
      ThrownStuck(T, h0[|h| + 1], h1, o, r.ts, exc);
      StopState(P, ds, T, h1, o, exc);
    }
    TameMore(T, m0, h0, t, h1, o);
    LastStep(T, m0, h0, t, h1, o);
    m := m0 + 1;
  }

  lemma HandlerThere(h: Heap, link: Link)
    requires Linked(h, link)
    ensures link.exc.Arr? && link.exc.addr < |h|
  {
    hide Open;
  }

  /** If evaluation tries array patterns on applications only, the machine with native code does what evaluation does; if
      it does not, the machine with native code comes to a cast of something else, and never ends. */
  lemma NativeExactly(n: nat, P: Program, ds: set<Symbol>, T: Table, h: Heap, f: Obj, ft: Term, ret: Symbol, exc: Symbol) returns (m: nat)
    requires Emitted(ds, P, T) && SourceProgram(P) && Stops(P, T, ret, exc) && Rep(h, f, ft) && NoOnes(h)
    ensures var r := Apply(n, P, ft, []);
            NativeAgrees(T, n, m, Boot(h, f, ret, exc), Arr(|h| + 2), r, TameApply(n, P, ft, []))
  {
    hide Emitted, SourceProgram, NoOnes, Boot, Stops, Rep, Apply, Compiled, TameApply, NativeAgrees;
    EmittedCompiled(ds, P, T);
    ProgramApply(n, P, ds, ft, []);
    ProgramTame(n, P, ds, ft, []);
    StopsRedexed(P, ds, T, ret, exc);
    m := CompiledNative(n, RedexedProgram(ds, P), ds, T, h, f, ft, ret, exc);
  }

  lemma StopsRedexed(P: Program, ds: set<Symbol>, T: Table, ret: Symbol, exc: Symbol)
    requires Stops(P, T, ret, exc)
    ensures Stops(RedexedProgram(ds, P), T, ret, exc)
  {
  }

  /** If the machine ends with native code, evaluation ends with the same result, and tries array patterns on applications only. */
  lemma NativeTamely(m: nat, P: Program, ds: set<Symbol>, T: Table, h: Heap, f: Obj, ft: Term, ret: Symbol, exc: Symbol)
    requires Emitted(ds, P, T) && SourceProgram(P) && Stops(P, T, ret, exc) && Rep(h, f, ft) && NoOnes(h)
    ensures var x := NativeSteps(T, m, Boot(h, f, ret, exc), Arr(|h| + 2));
            x.Finish? ==> !Apply(m, P, ft, []).Out? && Agrees(x, Apply(m, P, ft, [])) && TameApply(m, P, ft, [])
  {
    hide Emitted, SourceProgram, NoOnes, Boot, Stops, Rep, Apply, Compiled, TameApply, NativeSteps, Agrees;
    NativeSound(m, P, ds, T, h, f, ft, ret, exc);
    var _ := NativeExactly(m, P, ds, T, h, f, ft, ret, exc);
  }
}
