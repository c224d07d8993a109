/** When native code splits arrays only: exactly when no array pattern is tried on what is no array. */
module NativePatterns {
  import opened Terms
  import opened Heaps
  import opened Syntax
  import opened Semantics
  import opened Bytecode
  import opened Emit
  import opened Build
  import opened Codegen
  import opened Matching
  import opened Tameness
  import opened Blocks
  import opened LetNormal
  import opened Compile
  import opened Encoding
  import opened Machine
  import opened Jumps
  import opened Shapes
  import opened Native
  import opened NativeCode

  // Whether a pattern matches does not depend on what is bound already.

  lemma {:induction false} MatchAny(p: Pattern, t: Term, env: Env, env1: Env)
    ensures Match(p, t, env).0 == Match(p, t, env1).0
    decreases p, 1
  {
    match p
    case PConst(_) =>
    case PVar(_) =>
    case PTag(q, _) => MatchAny(q, t, env, env1);
    case PApp(ps) =>
      if t.Node? && |t.ts| == |ps| {
        MatchesAny(ps, t.ts, env, env1);
      }
  }

  lemma {:induction false} MatchesAny(ps: seq<Pattern>, ts: seq<Term>, env: Env, env1: Env)
    requires |ps| == |ts|
    ensures Matches(ps, ts, env).0 == Matches(ps, ts, env1).0
    decreases ps, 0
  {
    hide Match;
    if ps != [] {
      MatchAny(ps[0], ts[0], env, env1);
      MatchesAny(ps[1..], ts[1..], Match(ps[0], ts[0], env).1, Match(ps[0], ts[0], env1).1);
    }
  }

  // Straight-line code

  predicate TameSeg(seg: seq<Instr>, c: Cpu)
    decreases |seg|
  {
    seg == [] || (!Wild(seg[0], c) && (Exec(seg[0], c).Fall? ==> TameSeg(seg[1..], Exec(seg[0], c).c)))
  }

  lemma {:induction false} TameAppend(a: seq<Instr>, b: seq<Instr>, c: Cpu)
    ensures TameSeg(a + b, c) <==> TameSeg(a, c) && (Run(a, c).Fall? ==> TameSeg(b, Run(a, c).c))
    decreases |a|
  {
    hide Exec, Wild;
    if a == [] {
      assert a + b == b;
    } else {
      assert (a + b)[1..] == a[1..] + b;
      if Exec(a[0], c).Fall? {
        TameAppend(a[1..], b, Exec(a[0], c).c);
      }
    }
  }

  predicate NoSplit(seg: seq<Instr>) {
    forall k :: 0 <= k < |seg| ==> !seg[k].Split?
  }

  lemma {:induction false} NoSplitTame(seg: seq<Instr>, c: Cpu)
    requires NoSplit(seg)
    ensures TameSeg(seg, c)
    decreases |seg|
  {
    hide Exec;
    if seg != [] && Exec(seg[0], c).Fall? {
      NoSplitTame(seg[1..], Exec(seg[0], c).c);
    }
  }

  lemma {:induction false} SegmentTame(code: seq<Instr>, labels: Labels, pc: nat, seg: seq<Instr>, c: Cpu)
    requires pc + |seg| <= |code| && code[pc..pc + |seg|] == seg
    ensures Run(seg, c).Fall? ==> (Tame(code, labels, pc, c) <==> TameSeg(seg, c) && Tame(code, labels, pc + |seg|, Run(seg, c).c))
    ensures Run(seg, c).Ret? ==> (Tame(code, labels, pc, c) <==> TameSeg(seg, c))
    ensures Run(seg, c).Jump? && Run(seg, c).l in labels && pc + |seg| <= labels[Run(seg, c).l] <= |code| ==>
              (Tame(code, labels, pc, c) <==> TameSeg(seg, c) && Tame(code, labels, labels[Run(seg, c).l], Run(seg, c).c))
    decreases |seg|
  {
    hide Exec, Wild;
    if seg != [] {
      assert code[pc] == seg[0];
      assert code[pc + 1..pc + |seg|] == seg[1..];
      if Exec(seg[0], c).Fall? {
        SegmentTame(code, labels, pc + 1, seg[1..], Exec(seg[0], c).c);
      }
    }
  }

  // Patterns

  lemma {:induction false} PatternTame(n: nat, r: nat, lbl: nat, p: Pattern, vars: Vars, c: Cpu, o: Obj, t: Term, env: Objs, tenv: Env)
    requires PatternOk(p) && r < n && Get(c.reg, r) == o && Rep(c.heap, o, t) && VarsOk(n, vars, c.reg, env)
    ensures TameSeg(PatternCode(n, r, lbl, p).code, c) <==> Splits(p, t)
    decreases p, 1
  {
    match p
    case PConst(a) => NoSplitTame(PatternCode(n, r, lbl, p).code, c);
    case PVar(_) =>
    case PTag(q, s) => TagTame(n, r, lbl, p, vars, c, o, t, env, tenv);
    case PApp(ps) => AppTame(n, r, lbl, p, vars, c, o, t, env, tenv);
  }

  lemma {:induction false} TagTame(n: nat, r: nat, lbl: nat, p: Pattern, vars: Vars, c: Cpu, o: Obj, t: Term, env: Objs, tenv: Env)
    requires p.PTag? && PatternOk(p) && r < n && Get(c.reg, r) == o && Rep(c.heap, o, t) && VarsOk(n, vars, c.reg, env)
    ensures TameSeg(PatternCode(n, r, lbl, p).code, c) <==> Splits(p, t)
    decreases p, 0
  {
    hide PatternCode, TameSeg, Run;
    PatternIs(n, r, lbl, p);
    var f := PatternCode(n, r, lbl, p.p);
    var b := [Data(f.n, CombAtom(p.tag)), Tag(r, f.n), Fail(lbl)];
    PatternTame(n, r, lbl, p.p, vars, c, o, t, env, tenv);
    TameAppend(f.code, b, c);
    if Run(f.code, c).Fall? {
      NoSplitTame(b, Run(f.code, c).c);
    }
  }

  lemma SplitFirst(n: nat, m: nat, r: nat, lbl: nat, c: Cpu, o: Obj, t: Term)
    requires Get(c.reg, r) == o && Rep(c.heap, o, t) && m > 0
    ensures TameSeg([Split(n, n + m - 1, r), Fail(lbl)], c) <==> t.Node?
  {
    hide Exec;
    var i := Split(n, n + m - 1, r);
    assert [i, Fail(lbl)][1..] == [Fail(lbl)];
    if Exec(i, c).Fall? {
      NoSplitTame([Fail(lbl)], Exec(i, c).c);
    }
  }

  lemma {:induction false} AppTame(n: nat, r: nat, lbl: nat, p: Pattern, vars: Vars, c: Cpu, o: Obj, t: Term, env: Objs, tenv: Env)
    requires p.PApp? && PatternOk(p) && r < n && Get(c.reg, r) == o && Rep(c.heap, o, t) && VarsOk(n, vars, c.reg, env)
    ensures TameSeg(PatternCode(n, r, lbl, p).code, c) <==> Splits(p, t)
    decreases p, 0
  {
    hide PatternCode, PatternsCode, Run, TameSeg;
    var m := |p.ps|;
    var f := PatFrag([Split(n, n + m - 1, r), Fail(lbl)], n + m, map[]);
    var g := PatternsCode(n + m, n, lbl, p.ps);
    PatternIs(n, r, lbl, p);
    TameAppend(f.code, g.code, c);
    SplitFirst(n, m, r, lbl, c, o, t);
    if t.Node? {
      var c2 := SplitRun(n, r, lbl, m, o, vars, c, env);
      if |t.ts| == m {
        PatternsTame(n + m, n, lbl, p.ps, vars + f.vars, c2, c.heap[o.addr], t.ts, env, tenv);
      }
    }
  }

  lemma {:induction false} PatternsTame(n: nat, r: nat, lbl: nat, ps: seq<Pattern>, vars: Vars, c: Cpu, os: seq<Obj>, ts: seq<Term>, env: Objs, tenv: Env)
    requires PatternsOk(ps) && r + |ps| <= n && |ps| == |os| && Reps(c.heap, os, ts) && VarsOk(n, vars, c.reg, env)
    requires forall j :: 0 <= j < |os| ==> Get(c.reg, r + j) == os[j]
    ensures |ps| == |ts| && (TameSeg(PatternsCode(n, r, lbl, ps).code, c) <==> SplitsAll(ps, ts))
    decreases ps, 0
  {
    hide PatternCode, PatternsCode, Run, TameSeg, PatternOk, PatternsOk, Splits, Match;
    if ps == [] {
      NoneTame(n, r, lbl, c);
    } else {
      var f := PatternCode(n, r, lbl, ps[0]);
      var g := PatternsCode(f.n, r + 1, lbl, ps[1..]);
      PatternsParts(n, r, lbl, ps);
      assert Get(c.reg, r + 0) == os[0];
      PatternTame(n, r, lbl, ps[0], vars, c, os[0], ts[0], env, tenv);
      TameAppend(f.code, g.code, c);
      var c2 := PatternRun(n, r, lbl, ps[0], vars, c, os[0], ts[0], env, tenv);
      MatchAny(ps[0], ts[0], tenv, map[]);
      if Match(ps[0], ts[0], tenv).0 {
        RestRegs(f.n, n, r, c, c2, os);
        TailReps(c2.heap, os, ts);
        PatternsTame(f.n, r + 1, lbl, ps[1..], vars + f.vars, c2, os[1..], ts[1..], MatchObj(c.heap, ps[0], os[0], env), Match(ps[0], ts[0], tenv).1);
      }
    }
  }

  lemma NoneTame(n: nat, r: nat, lbl: nat, c: Cpu)
    ensures TameSeg(PatternsCode(n, r, lbl, []).code, c)
  {
  }

  lemma PatternsParts(n: nat, r: nat, lbl: nat, ps: seq<Pattern>)
    requires ps != [] && PatternsOk(ps)
    ensures PatternOk(ps[0]) && PatternsOk(ps[1..])
    ensures var f := PatternCode(n, r, lbl, ps[0]);
            PatternsCode(n, r, lbl, ps) == JoinPat(f, PatternsCode(f.n, r + 1, lbl, ps[1..]))
  {
    hide PatternCode;
  }

  lemma RestRegs(n1: nat, n: nat, r: nat, c: Cpu, c2: Cpu, os: seq<Obj>)
    requires os != [] && r + |os| <= n <= n1 && Keeps(c.reg, c2.reg, n) && forall j :: 0 <= j < |os| ==> Get(c.reg, r + j) == os[j]
    ensures forall j :: 0 <= j < |os[1..]| ==> Get(c2.reg, r + 1 + j) == os[1..][j]
  {
    forall j | 0 <= j < |os[1..]| ensures Get(c2.reg, r + 1 + j) == os[1..][j] {
      assert os[1..][j] == os[j + 1] == Get(c.reg, r + (j + 1));
    }
  }

  lemma TailReps(h: Heap, os: seq<Obj>, ts: seq<Term>)
    requires os != [] && Reps(h, os, ts)
    ensures Reps(h, os[1..], ts[1..])
  {
    hide Rep;
  }

  // Alternatives

  lemma HeadParts(lbl: nat, ps: seq<Pattern>)
    ensures ps == [] ==> HeadCode(6, lbl, ps).code == PatternsCode(6, 6, lbl, ps).code
    ensures ps != [] ==> HeadCode(6, lbl, ps).code == [Takex(6, 6 + |ps| - 1, 0, 5), Fail(lbl)] + PatternsCode(6 + |ps|, 6, lbl, ps).code
  {
    hide PatternsCode;
    var g := PatternsCode(6 + |ps|, 6, lbl, ps);
    if ps == [] {
      assert [] + g.code == g.code;
    } else {
      assert HeadCode(6, lbl, ps) == JoinPat(PatFrag([Takex(6, 6 + |ps| - 1, 0, 5), Fail(lbl)], 6 + |ps|, map[]), g);
    }
  }

  lemma HeadTame(lbl: nat, ps: seq<Pattern>, vars: Vars, c: Cpu, link: Link, f: Obj, args: seq<Obj>, ts: seq<Term>)
    requires PatternsOk(ps) && Entered(c, link, f, args) && Reps(c.heap, args, ts)
    ensures |args| == |ts|
    ensures TameSeg(HeadCode(6, lbl, ps).code, c) <==> (|ps| <= |ts| ==> SplitsAll(ps, ts[..|ps|]))
  {
    hide PatternsCode, HeadCode, Run, TameSeg, Entered, PatternsOk, Rep;
    var m := |ps|;
    HeadParts(lbl, ps);
    if m == 0 {
      NoneTame(6, 6, lbl, c);
    } else {
      var h := [Takex(6, 6 + m - 1, 0, 5), Fail(lbl)];
      var g := PatternsCode(6 + m, 6, lbl, ps);
      TameAppend(h, g.code, c);
      NoSplitTame(h, c);
      var c2 := TakexRun(6, m, lbl, vars, c, link, f, args);
      if m <= |args| {
        FirstReps(c2.heap, args, ts, m);
        PatternsTame(6 + m, 6, lbl, ps, vars + PatFrag(h, 6 + m, map[]).vars, c2, args[..m], ts[..m], map[], map[]);
      }
    }
  }

  lemma FirstReps(h: Heap, os: seq<Obj>, ts: seq<Term>, m: nat)
    requires Reps(h, os, ts) && m <= |os|
    ensures Reps(h, os[..m], ts[..m])
  {
    hide Rep;
  }

  lemma MatchTame(ds: set<Symbol>, lbl: nat, stale: Vars, m: Alt, c: Cpu, link: Link, f: Obj, args: seq<Obj>, ts: seq<Term>)
    requires PatternsOk(m.pats) && Entered(c, link, f, args) && Reps(c.heap, args, ts)
    ensures |args| == |ts|
    ensures TameSeg(MatchCode(ds, 6, lbl, stale, m), c) <==> (|m.pats| <= |ts| ==> SplitsAll(m.pats, ts[..|m.pats|]))
  {
    hide HeadCode, RootCode, RootReg, TameSeg, Entered, PatternsOk, Reps, SplitsAll, Run;
    var h := HeadCode(6, lbl, m.pats);
    var vars := stale + h.vars;
    var g := RootCode(ds, h.n, vars, LINK, |m.pats|, m.body);
    var rest := g.code + [Return(RootReg(ds, h.n, vars, LINK, |m.pats|, m.body))];
    HeadTame(lbl, m.pats, stale, c, link, f, args, ts);
    RootFails(ds, h.n, vars, LINK, |m.pats|, m.body);
    assert MatchCode(ds, 6, lbl, stale, m) == h.code + rest;
    TameAppend(h.code, rest, c);
    if Run(h.code, c).Fall? {
      NoSplitTame(rest, Run(h.code, c).c);
    }
  }

  /** The code of the alternatives is tame exactly when those that are tried split applications only. */
  lemma {:induction false} BlockTame(ds: set<Symbol>, code: seq<Instr>, labels: Labels, lbl: nat, stale: Vars, ms: seq<Alt>, at: nat, c: Cpu, link: Link, f: Obj, args: seq<Obj>, ts: seq<Term>)
    requires Entered(c, link, f, args) && Reps(c.heap, args, ts) && TargetOk(c.heap, link)
    requires BlockFits(ds, lbl, stale, ms, c.heap, link, args, ts)
    requires Placed(code, at, Flat(BlockCode(ds, lbl, stale, ms))) && LabelsAt(labels, EndLabels(lbl, at, BlockCode(ds, lbl, stale, ms)))
    requires forall c1: Cpu :: Entered(c1, link, f, args) && c1.heap == c.heap ==> Tame(code, labels, at + |Flat(BlockCode(ds, lbl, stale, ms))|, c1)
    ensures Tame(code, labels, at, c) <==> SplitsAlts(ms, ts)
    decreases |ms|
  {
    hide MatchCode, Run, RunFrom, Reps, MatchBody, Entered, MatchVars, Placed, LabelsAt, Matches, Fits, PatternsOk, BlockCode, Flat, EndLabels, Tame, TameSeg, SplitsAll, Taken;
    if ms == [] {
      EmptyBlock(ds, lbl, stale);
    } else {
      BlockShape(ds, code, labels, lbl, stale, ms, at);
      var mc := MatchCode(ds, 6, lbl, stale, ms[0]);
      RepsLength(c.heap, args, ts);
      MatchTame(ds, lbl, stale, ms[0], c, link, f, args, ts);
      if Taken(ms[0].pats, ts) {
        TakenShort(ms[0].pats, ts);
        var _ := MatchTaken(ds, lbl, stale, ms[0], c, link, f, args, ts);
        SegmentTamed(code, labels, at, mc, c);
      } else {
        var c2 := MatchNotTaken(ds, lbl, stale, ms[0], c, link, f, args, ts);
        SegmentTamed(code, labels, at, mc, c);
        BlockTame(ds, code, labels, lbl + 1, MatchVars(6, lbl, stale, ms[0]), ms[1..], at + |mc|, c2, link, f, args, ts);
      }
    }
  }

  lemma TakenShort(ps: seq<Pattern>, ts: seq<Term>)
    requires Taken(ps, ts)
    ensures |ps| <= |ts|
  {
  }

  lemma EmptyBlock(ds: set<Symbol>, lbl: nat, stale: Vars)
    ensures Flat(BlockCode(ds, lbl, stale, [])) == []
  {
  }

  lemma SegmentTamed(code: seq<Instr>, labels: Labels, at: nat, seg: seq<Instr>, c: Cpu)
    requires Placed(code, at, seg)
    ensures Run(seg, c).Ret? ==> (Tame(code, labels, at, c) <==> TameSeg(seg, c))
    ensures Run(seg, c).Jump? && Run(seg, c).l in labels && at + |seg| == labels[Run(seg, c).l] ==>
              (Tame(code, labels, at, c) <==> TameSeg(seg, c) && Tame(code, labels, at + |seg|, Run(seg, c).c))
    ensures Run(seg, c).Fall? ==> (Tame(code, labels, at, c) <==> TameSeg(seg, c) && Tame(code, labels, at + |seg|, Run(seg, c).c))
  {
    hide Run, Tame, TameSeg;
    SegmentTame(code, labels, at, seg, c);
  }

  lemma DefinitionTame(ds: set<Symbol>, pv: set<Name>, stale: Vars, ms: seq<Alt>, h: Heap, t: nat, link: Link, f: Obj, args: seq<Obj>, ts: seq<Term>)
    requires t < |h| && h[t] == LinkObjs(link) + [f] + args && Reps(h, args, ts) && TargetOk(h, link)
    requires AltsOk(ds, pv, ms) && stale.Keys <= pv
    ensures Tame(DefCode(ds, stale, ms), DefLabels(ds, stale, ms), 0, Start(h, t)) <==> SplitsAlts(ms, ts)
  {
    hide BlockCode, Flat, EndLabels, Run, RunFrom, Reps, Entered, BlockFits, Epilogue, Tame, TameSeg, SplitsAlts, AltsOk, DefCode, DefLabels, Placed, LabelsAt;
    var codes := BlockCode(ds, 1, stale, ms);
    var labels := DefLabels(ds, stale, ms);
    var code := DefCode(ds, stale, ms);
    DefPlaced(ds, stale, ms);
    FitsBlock(ds, pv, 1, stale, ms, h, link, args, ts);
    var c1 := PrologueRun(h, t, link, f, args);
    NoSplitTame(PROLOGUE, Start(h, t));
    SegmentTamed(code, labels, 0, PROLOGUE, Start(h, t));
    forall d: Cpu | Entered(d, link, f, args) && d.heap == c1.heap ensures Tame(code, labels, 2 + |Flat(codes)|, d) {
      EpilogueTame(code, labels, 2 + |Flat(codes)|, d, link, f, args);
    }
    BlockTame(ds, code, labels, 1, stale, ms, 2, c1, link, f, args, ts);
  }

  lemma EpilogueTame(code: seq<Instr>, labels: Labels, at: nat, c: Cpu, link: Link, f: Obj, args: seq<Obj>)
    requires Placed(code, at, Epilogue(6)) && Entered(c, link, f, args) && TargetOk(c.heap, link)
    ensures Tame(code, labels, at, c)
  {
    hide Run, Tame, TameSeg, Entered;
    var _ := EpilogueRun(c, link, f, args);
    NoSplitTame(Epilogue(6), c);
    SegmentTamed(code, labels, at, Epilogue(6), c);
  }

  /** The native code of a definition does one reduction as the interpreter does exactly when no array pattern
      is tried on what is no array; otherwise it is undefined, whereas the interpreter goes on with the next alternative. */
  lemma NativeReduction(ds: set<Symbol>, pv: set<Name>, stale: Vars, ms: seq<Alt>, h: Heap, t: nat, link: Link, f: Obj, args: seq<Obj>, ts: seq<Term>)
    requires t < |h| && h[t] == LinkObjs(link) + [f] + args && Reps(h, args, ts) && TargetOk(h, link) && NoOnes(h)
    requires AltsOk(ds, pv, ms) && stale.Keys <= pv
    ensures var code := DefCode(ds, stale, ms);
            var labels := DefLabels(ds, stale, ms);
            && NativeFrom(code, labels, 0, Start(h, t)) == (if SplitsAlts(ms, ts) then RunFrom(code, labels, 0, Start(h, t)) else Crashed)
            && RunFrom(code, labels, 0, Start(h, t)).Returned?
  {
    hide AltsOk, DefCode, DefLabels, Tame, RunFrom, NativeFrom, SplitsAlts, Reps, NoOnes, BlockFits, Select, Wrote, MatchBody, Taken;
    DefinitionTame(ds, pv, stale, ms, h, t, link, f, args, ts);
    NativeDefinition(ds, pv, stale, ms, h, t);
    FitsBlock(ds, pv, 1, stale, ms, h, link, args, ts);
    var _ := DefRun(ds, stale, ms, h, t, link, f, args, ts);
  }

  /** The definition [ (1 X) -> X | X -> X ]. */
  const FIRST: Alt := Alt([PApp([PConst(IntAtom(1)), PVar("X")])], Var("X"))
  const SECOND: Alt := Alt([PVar("X")], Var("X"))

  lemma NotSplit()
    ensures !SplitsAlts([FIRST, SECOND], [Leaf(IntAtom(1))])
    ensures Select([FIRST, SECOND], [Leaf(IntAtom(1))]) == Chosen(map["X" := Leaf(IntAtom(1))], Var("X"), 1)
  {
    var ts := [Leaf(IntAtom(1))];
    assert ts[..1] == ts;
    assert Matches([PVar("X")], ts, map[]) == (true, map["X" := Leaf(IntAtom(1))]) by {
      assert [PVar("X")][1..] == [] && ts[1..] == [];
    }
    var ms := [FIRST, SECOND];
    assert ms[1..] == [SECOND];
  }

  lemma DiffersOk(ds: set<Symbol>)
    ensures AltsOk(ds, {"X"}, [FIRST, SECOND])
  {
    var ps := [PConst(IntAtom(1)), PVar("X")];
    assert ps[1..] == [PVar("X")] && [PVar("X")][1..] == [] && [PApp(ps)][1..] == [];
    assert PatsVars([PVar("X")]) == {"X"};
    assert PatsVars(ps) == {"X"};
    assert PatsVars([PApp(ps)]) == {"X"};
    assert PatternsOk([PVar("X")]);
    assert PatternsOk(ps);
    assert PatternsOk([PApp(ps)]);
    assert AltOk(ds, {"X"}, FIRST);
    assert AltOk(ds, {"X"}, SECOND);
  }

  /** Applied to 1 its code takes the second alternative in the interpreter, and is undefined in the native routines. */
  lemma NativeDiffers(ds: set<Symbol>, h: Heap, t: nat, link: Link, f: Obj)
    requires t < |h| && h[t] == LinkObjs(link) + [f] + [At(IntAtom(1))] && TargetOk(h, link) && NoOnes(h)
    ensures var code := DefCode(ds, map[], [FIRST, SECOND]);
            var labels := DefLabels(ds, map[], [FIRST, SECOND]);
            NativeFrom(code, labels, 0, Start(h, t)) == Crashed && RunFrom(code, labels, 0, Start(h, t)).Returned?
  {
    hide AltsOk, SplitsAlts, NoOnes, TargetOk, NativeFrom, RunFrom, DefCode, DefLabels;
    var args, ts := [At(IntAtom(1))], [Leaf(IntAtom(1))];
    assert Rep(h, args[0], ts[0]);
    NotSplit();
    DiffersOk(ds);
    NativeReduction(ds, {"X"}, map[], [FIRST, SECOND], h, t, link, f, args, ts);
  }

  // No array of size one ever exists.

  lemma {:induction false} FramedRun(code: seq<Instr>, labels: Labels, pc: nat, c: Cpu)
    requires AllNeat(code) && Framed(c)
    ensures RunFrom(code, labels, pc, c).Returned? ==> NoOnes(RunFrom(code, labels, pc, c).h)
    decreases |code| - pc
  {
    hide Exec, Framed, Neat, NoOnes;
    if pc < |code| {
      FramedStep(code[pc], c);
      FramedHeap(code[pc], c);
      match Exec(code[pc], c)
      case Fall(d) => FramedRun(code, labels, pc + 1, d);
      case Jump(l, d) =>
        if l in labels && pc < labels[l] <= |code| {
          FramedRun(code, labels, labels[l], d);
        }
      case Ret(_, _) =>
      case Abort =>
    }
  }

  lemma FramedHeap(i: Instr, c: Cpu)
    requires Framed(c)
    ensures Exec(i, c).Ret? ==> NoOnes(Exec(i, c).c.heap)
  {
    hide Same, SetRange, GetRange;
  }

  /** Every round of the machine keeps the store free of arrays of size one. */
  lemma StepSizes(ds: set<Symbol>, P: Program, T: Table, h: Heap, t: Obj)
    requires Compiled(ds, P, T) && NoOnes(h)
    ensures Step(T, h, t).Go? ==> NoOnes(Step(T, h, t).h)
  {
    if t.Arr? && t.addr < |h| && |h[t.addr]| >= 5 {
      var tt := h[t.addr];
      if tt[4].At? && tt[4].atom.CombAtom? && tt[4].atom.sym in T && T[tt[4].atom.sym].CodeComb? {
        CodeSizes(ds, P, T, h, t.addr, tt[4].atom.sym);
      } else {
        hide Compiled, RunBytes;
        PlainSizes(T, h, t);
      }
    }
  }

  lemma PlainSizes(T: Table, h: Heap, t: Obj)
    requires t.Arr? && t.addr < |h| && |h[t.addr]| >= 5 && NoOnes(h)
    requires var c := h[t.addr][4]; c.At? && c.atom.CombAtom? && c.atom.sym in T ==> !T[c.atom.sym].CodeComb?
    ensures Step(T, h, t).Go? ==> NoOnes(Step(T, h, t).h)
  {
    hide RunBytes;
  }

  lemma CodeSizes(ds: set<Symbol>, P: Program, T: Table, h: Heap, t: nat, s: Symbol)
    requires Compiled(ds, P, T) && NoOnes(h) && t < |h| && |h[t]| >= 5 && h[t][4] == At(CombAtom(s)) && s in T && T[s].CodeComb?
    ensures Step(T, h, Arr(t)).Go? ==> NoOnes(Step(T, h, Arr(t)).h)
  {
    hide RunBytes, RunFrom, Assembled;
    assert s in P && CompiledAs(ds, P[s], T[s]);
    var ms := P[s].alts;
    var pv, stale :| Assembled(ds, pv, stale, ms, T[s]);
    AssembledRun(ds, pv, stale, ms, T[s], h, t);
  }

  lemma AssembledRun(ds: set<Symbol>, pv: set<Name>, stale: Vars, ms: seq<Alt>, c: Combinator, h: Heap, t: nat)
    requires Assembled(ds, pv, stale, ms, c) && NoOnes(h) && t < |h|
    ensures c.CodeComb?
    ensures var x := RunBytes(c.code, c.data, 0, Start(h, t)); x.Returned? ==> NoOnes(x.h)
  {
    hide RunBytes, RunFrom, AltsOk, DefCode, DefLabels, Encodable, Resolve, ByteLabels, EncodeAll, Consts, NoOnes;
    DefNeat(ds, pv, stale, ms);
    BytesRun(DefCode(ds, stale, ms), DefLabels(ds, stale, ms), 0, Start(h, t));
    FramedRun(DefCode(ds, stale, ms), DefLabels(ds, stale, ms), 0, Start(h, t));
  }

  lemma {:induction false} StepsSizes(ds: set<Symbol>, P: Program, T: Table, n: nat, h: Heap, t: Obj)
    requires Compiled(ds, P, T) && NoOnes(h)
    ensures Steps(T, n, h, t).Go? ==> NoOnes(Steps(T, n, h, t).h)
    decreases n
  {
    hide Compiled, Step, NoOnes;
    if n > 0 && !t.Null? {
      StepSizes(ds, P, T, h, t);
      if Step(T, h, t).Go? {
        StepsSizes(ds, P, T, n - 1, Step(T, h, t).h, Step(T, h, t).o);
      }
    }
  }
}
