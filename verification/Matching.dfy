/** Running the code of an alternative: its patterns select, and its body is built. */
module Matching {
  import opened Terms
  import opened Heaps
  import opened Syntax
  import opened Semantics
  import opened Bytecode
  import opened Emit
  import opened Build
  import opened Codegen

  /** Pattern matching on objects. */
  function MatchObj(h: Heap, p: Pattern, o: Obj, env: Objs): Objs {
    match p
    case PConst(_) => env
    case PVar(v) => env[v := o]
    case PTag(q, _) => MatchObj(h, q, o, env)
    case PApp(ps) =>
      if o.Arr? && o.addr < |h| && |h[o.addr]| == |ps| then MatchObjs(h, ps, h[o.addr], env) else env
  }

  function MatchObjs(h: Heap, ps: seq<Pattern>, os: seq<Obj>, env: Objs): Objs
    requires |ps| == |os|
  {
    if ps == [] then env else MatchObjs(h, ps[1..], os[1..], MatchObj(h, ps[0], os[0], env))
  }

  ghost predicate RepEnv(h: Heap, env: Objs, tenv: Env) {
    env.Keys == tenv.Keys && forall v :: v in env ==> Rep(h, env[v], tenv[v])
  }

  /** Objects bind as the terms they stand for. */
  lemma {:induction false} MatchRep(h: Heap, p: Pattern, o: Obj, t: Term, env: Objs, tenv: Env)
    requires Rep(h, o, t) && RepEnv(h, env, tenv) && Match(p, t, tenv).0
    ensures RepEnv(h, MatchObj(h, p, o, env), Match(p, t, tenv).1)
    decreases p, 1
  {
    match p
    case PConst(_) =>
    case PVar(_) =>
    case PTag(q, _) => MatchRep(h, q, o, t, env, tenv);
    case PApp(ps) => MatchesRep(h, ps, h[o.addr], t.ts, env, tenv);
  }

  lemma {:induction false} MatchesRep(h: Heap, ps: seq<Pattern>, os: seq<Obj>, ts: seq<Term>, env: Objs, tenv: Env)
    requires |ps| == |ts| && Reps(h, os, ts) && RepEnv(h, env, tenv) && Matches(ps, ts, tenv).0
    ensures RepEnv(h, MatchObjs(h, ps, os, env), Matches(ps, ts, tenv).1)
    decreases ps, 0
  {
    if ps != [] {
      MatchRep(h, ps[0], os[0], ts[0], env, tenv);
      MatchesRep(h, ps[1..], os[1..], ts[1..], MatchObj(h, ps[0], os[0], env), Match(ps[0], ts[0], tenv).1);
    }
  }

  /** Pattern code falls through with the variables bound, or goes to its label. */
  ghost predicate Matched(f: PatFrag, ok: bool, lbl: nat, n: nat, vars: Vars, c: Cpu, c1: Cpu, env: Objs) {
    && c1.heap == c.heap && Keeps(c.reg, c1.reg, n) && n <= f.n
    && Run(f.code, c) == (if ok then Fall(c1) else Jump(lbl, c1))
    && (ok ==> VarsOk(f.n, vars + f.vars, c1.reg, env))
  }

  lemma MatchedThen(f: PatFrag, g: PatFrag, ok: bool, lbl: nat, n: nat, vars: Vars, c: Cpu, c1: Cpu, c2: Cpu, env: Objs, env1: Objs)
    requires Matched(f, true, lbl, n, vars, c, c1, env) && Matched(g, ok, lbl, f.n, vars + f.vars, c1, c2, env1)
    ensures Matched(JoinPat(f, g), ok, lbl, n, vars, c, c2, env1)
  {
    hide Run;
    RunAppend(f.code, g.code, c);
    assert vars + f.vars + g.vars == vars + (f.vars + g.vars);
  }

  lemma MatchedFails(f: PatFrag, g: PatFrag, lbl: nat, n: nat, vars: Vars, c: Cpu, c1: Cpu, env: Objs)
    requires Matched(f, false, lbl, n, vars, c, c1, env) && f.n <= g.n
    ensures Matched(JoinPat(f, g), false, lbl, n, vars, c, c1, env)
  {
    hide Run;
    RunAppend(f.code, g.code, c);
  }

  /** A test instruction followed by FAIL. */
  lemma TestRun(i: Instr, lbl: nat, c: Cpu, c1: Cpu) returns (c2: Cpu)
    requires Exec(i, c) == Fall(c1)
    ensures Run([i, Fail(lbl)], c) == if c1.flag then Fall(c2) else Jump(lbl, c2)
    ensures c2 == c1.(flag := false)
  {
    c2 := c1.(flag := false);
    assert [i, Fail(lbl)][1..] == [Fail(lbl)];
    assert Run([Fail(lbl)], c1) == if c1.flag then Fall(c2) else Jump(lbl, c2) by {
      assert [Fail(lbl)][1..] == [];
    }
  }

  /** Compare register r with a constant in a fresh register. */
  lemma CheckRun(n: nat, r: nat, lbl: nat, a: Atom, i: Instr, ok: bool, vars: Vars, c: Cpu, env: Objs) returns (c1: Cpu)
    requires r < n && VarsOk(n, vars, c.reg, env)
    requires var d := c.(reg := c.reg[n := At(a)]); Exec(i, d) == Fall(d.(flag := ok))
    ensures Matched(PatFrag([Data(n, a), i, Fail(lbl)], n + 1, map[]), ok, lbl, n, vars, c, c1, env)
  {
    var d := c.(reg := c.reg[n := At(a)]);
    c1 := TestRun(i, lbl, d, d.(flag := ok));
    OneRun(Data(n, a), c, d);
    hide Run;
    RunAppend([Data(n, a)], [i, Fail(lbl)], c);
    assert [Data(n, a)] + [i, Fail(lbl)] == [Data(n, a), i, Fail(lbl)];
    assert vars + map[] == vars;
  }

  lemma SplitRun(n: nat, r: nat, lbl: nat, m: nat, o: Obj, vars: Vars, c: Cpu, env: Objs) returns (c1: Cpu)
    requires r < n && VarsOk(n, vars, c.reg, env) && m > 0
    requires Get(c.reg, r) == o && !o.Null? && (o.Arr? ==> o.addr < |c.heap|)
    ensures Matched(PatFrag([Split(n, n + m - 1, r), Fail(lbl)], n + m, map[]), o.Arr? && |c.heap[o.addr]| == m, lbl, n, vars, c, c1, env)
    ensures o.Arr? && |c.heap[o.addr]| == m ==> forall j :: 0 <= j < m ==> Get(c1.reg, n + j) == c.heap[o.addr][j]
  {
    var ok := o.Arr? && |c.heap[o.addr]| == m;
    var d := if ok then c.(reg := SetRange(c.reg, n, c.heap[o.addr]), flag := true) else c.(flag := false);
    c1 := TestRun(Split(n, n + m - 1, r), lbl, c, d);
    hide Run, SetRange;
    assert vars + map[] == vars;
    if ok {
      forall q: nat ensures Get(c1.reg, q) == if n <= q < n + m then c.heap[o.addr][q - n] else Get(c.reg, q) {
        SetRangeGet(c.reg, n, c.heap[o.addr], q);
      }
    }
  }

  lemma {:induction false} PatternRun(n: nat, r: nat, lbl: nat, p: Pattern, vars: Vars, c: Cpu, o: Obj, t: Term, env: Objs, tenv: Env) returns (c1: Cpu)
    requires PatternOk(p) && r < n && Get(c.reg, r) == o && Rep(c.heap, o, t) && VarsOk(n, vars, c.reg, env)
    ensures Matched(PatternCode(n, r, lbl, p), Match(p, t, tenv).0, lbl, n, vars, c, c1, MatchObj(c.heap, p, o, env))
    decreases p, 1
  {
    match p
    case PConst(a) =>
      c1 := CheckRun(n, r, lbl, a, Test(r, n), t == Leaf(a), vars, c, env);
    case PVar(v) =>
      c1 := c;
    case PTag(q, s) => c1 := TagRun(n, r, lbl, p, vars, c, o, t, env, tenv);
    case PApp(ps) => c1 := AppRun(n, r, lbl, p, vars, c, o, t, env, tenv);
  }

  lemma {:induction false} TagRun(n: nat, r: nat, lbl: nat, p: Pattern, vars: Vars, c: Cpu, o: Obj, t: Term, env: Objs, tenv: Env) returns (c1: Cpu)
    requires p.PTag? && PatternOk(p) && r < n && Get(c.reg, r) == o && Rep(c.heap, o, t) && VarsOk(n, vars, c.reg, env)
    ensures Matched(PatternCode(n, r, lbl, p), Match(p, t, tenv).0, lbl, n, vars, c, c1, MatchObj(c.heap, p, o, env))
    decreases p, 0
  {
    var f := PatternCode(n, r, lbl, p.p);
    var g := PatFrag([Data(f.n, CombAtom(p.tag)), Tag(r, f.n), Fail(lbl)], f.n + 1, map[]);
    var env1 := MatchObj(c.heap, p.p, o, env);
    assert PatternCode(n, r, lbl, p) == JoinPat(f, g);
    hide PatternCode, Run;
    var c2 := PatternRun(n, r, lbl, p.p, vars, c, o, t, env, tenv);
    if Match(p.p, t, tenv).0 {
      c1 := CheckRun(f.n, r, lbl, CombAtom(p.tag), Tag(r, f.n), TermSymbol(t) == p.tag, vars + f.vars, c2, env1);
      MatchedThen(f, g, TermSymbol(t) == p.tag, lbl, n, vars, c, c2, c1, env1, env1);
    } else {
      c1 := c2;
      MatchedFails(f, g, lbl, n, vars, c, c2, env1);
    }
  }

  lemma {:induction false} AppRun(n: nat, r: nat, lbl: nat, p: Pattern, vars: Vars, c: Cpu, o: Obj, t: Term, env: Objs, tenv: Env) returns (c1: Cpu)
    requires p.PApp? && PatternOk(p) && r < n && Get(c.reg, r) == o && Rep(c.heap, o, t) && VarsOk(n, vars, c.reg, env)
    ensures Matched(PatternCode(n, r, lbl, p), Match(p, t, tenv).0, lbl, n, vars, c, c1, MatchObj(c.heap, p, o, env))
    decreases p, 0
  {
    var m := |p.ps|;
    var f := PatFrag([Split(n, n + m - 1, r), Fail(lbl)], n + m, map[]);
    var g := PatternsCode(n + m, n, lbl, p.ps);
    assert PatternCode(n, r, lbl, p) == JoinPat(f, g);
    hide PatternCode, PatternsCode, Run;
    var c2 := SplitRun(n, r, lbl, m, o, vars, c, env);
    if t.Node? && |t.ts| == m {
      c1 := PatternsRun(n + m, n, lbl, p.ps, vars + f.vars, c2, c.heap[o.addr], t.ts, env, tenv);
      MatchedThen(f, g, Matches(p.ps, t.ts, tenv).0, lbl, n, vars, c, c2, c1, env, MatchObjs(c.heap, p.ps, c.heap[o.addr], env));
    } else {
      c1 := c2;
      PatternsGrow(n + m, n, lbl, p.ps);
      MatchedFails(f, g, lbl, n, vars, c, c2, env);
    }
  }

  lemma {:induction false} PatternsGrow(n: nat, r: nat, lbl: nat, ps: seq<Pattern>)
    ensures n <= PatternsCode(n, r, lbl, ps).n
    decreases ps, 0
  {
    if ps != [] {
      PatternGrows(n, r, lbl, ps[0]);
      PatternsGrow(PatternCode(n, r, lbl, ps[0]).n, r + 1, lbl, ps[1..]);
    }
  }

  lemma {:induction false} PatternGrows(n: nat, r: nat, lbl: nat, p: Pattern)
    ensures n <= PatternCode(n, r, lbl, p).n
    decreases p, 1
  {
    match p
    case PConst(_) =>
    case PVar(_) =>
    case PTag(q, _) => PatternGrows(n, r, lbl, q);
    case PApp(ps) => PatternsGrow(n + |ps|, n, lbl, ps);
  }

  lemma {:induction false} PatternsRun(n: nat, r: nat, lbl: nat, ps: seq<Pattern>, vars: Vars, c: Cpu, os: seq<Obj>, ts: seq<Term>, env: Objs, tenv: Env) returns (c1: Cpu)
    requires PatternsOk(ps) && r + |ps| <= n && |ps| == |os| && Reps(c.heap, os, ts) && VarsOk(n, vars, c.reg, env)
    requires forall j :: 0 <= j < |os| ==> Get(c.reg, r + j) == os[j]
    ensures Matched(PatternsCode(n, r, lbl, ps), Matches(ps, ts, tenv).0, lbl, n, vars, c, c1, MatchObjs(c.heap, ps, os, env))
    decreases ps, 0
  {
    if ps == [] {
      c1 := c;
      assert vars + map[] == vars;
    } else {
      c1 := PatternsStep(n, r, lbl, ps, vars, c, os, ts, env, tenv);
    }
  }

  lemma {:induction false} PatternsStep(n: nat, r: nat, lbl: nat, ps: seq<Pattern>, vars: Vars, c: Cpu, os: seq<Obj>, ts: seq<Term>, env: Objs, tenv: Env) returns (c1: Cpu)
    requires ps != [] && PatternsOk(ps) && r + |ps| <= n && |ps| == |os| && Reps(c.heap, os, ts) && VarsOk(n, vars, c.reg, env)
    requires forall j :: 0 <= j < |os| ==> Get(c.reg, r + j) == os[j]
    ensures Matched(PatternsCode(n, r, lbl, ps), Matches(ps, ts, tenv).0, lbl, n, vars, c, c1, MatchObjs(c.heap, ps, os, env))
    decreases ps, 0, 0
  {
    var f := PatternCode(n, r, lbl, ps[0]);
    var g := PatternsCode(f.n, r + 1, lbl, ps[1..]);
    var env1 := MatchObj(c.heap, ps[0], os[0], env);
    var tenv1 := Match(ps[0], ts[0], tenv).1;
    assert PatternsCode(n, r, lbl, ps) == JoinPat(f, g);
    assert PatternOk(ps[0]) && PatternsOk(ps[1..]);
    assert Get(c.reg, r + 0) == os[0];
    hide PatternCode, PatternsCode, Run, PatternOk, PatternsOk;
    var c2 := PatternRun(n, r, lbl, ps[0], vars, c, os[0], ts[0], env, tenv);
    if Match(ps[0], ts[0], tenv).0 {
      forall j | 0 <= j < |os[1..]| ensures Get(c2.reg, r + 1 + j) == os[1..][j] {
        assert os[1..][j] == os[j + 1];
      }
      assert Reps(c2.heap, os[1..], ts[1..]);
      c1 := PatternsRun(f.n, r + 1, lbl, ps[1..], vars + f.vars, c2, os[1..], ts[1..], env1, tenv1);
      MatchedThen(f, g, Matches(ps[1..], ts[1..], tenv1).0, lbl, n, vars, c, c2, c1, env1, MatchObjs(c.heap, ps[1..], os[1..], env1));
    } else {
      c1 := c2;
      PatternsGrow(f.n, r + 1, lbl, ps[1..]);
      MatchedFails(f, g, lbl, n, vars, c, c2, env1);
    }
  }

  // Alternatives

  /** Register 0 holds a thunk for args, and its link is in the link registers. */
  ghost predicate Entered(c: Cpu, link: Link, f: Obj, args: seq<Obj>) {
    var a := Get(c.reg, 0);
    && a.Arr? && a.addr < |c.heap| && c.heap[a.addr] == LinkObjs(link) + [f] + args
    && LinkOk(6, LINK, c.reg, link)
  }

  lemma TakexRun(n: nat, m: nat, lbl: nat, vars: Vars, c: Cpu, link: Link, f: Obj, args: seq<Obj>) returns (c1: Cpu)
    requires Entered(c, link, f, args) && n >= 6 && m > 0
    ensures Matched(PatFrag([Takex(n, n + m - 1, 0, 5), Fail(lbl)], n + m, map[]), m <= |args|, lbl, n, vars, c, c1, map[])
    ensures m <= |args| ==> forall j :: 0 <= j < m ==> Get(c1.reg, n + j) == args[j]
  {
    var frame := c.heap[Get(c.reg, 0).addr];
    var ok := m <= |args|;
    var d := if ok then c.(reg := SetRange(c.reg, n, frame[5..5 + m]), flag := true) else c.(flag := false);
    c1 := TestRun(Takex(n, n + m - 1, 0, 5), lbl, c, d);
    hide Run, SetRange;
    if ok {
      forall q: nat ensures Get(c1.reg, q) == if n <= q < n + m then args[q - n] else Get(c.reg, q) {
        SetRangeGet(c.reg, n, frame[5..5 + m], q);
      }
    }
  }

  /** Enough arguments, and their patterns match. */
  function Taken(ps: seq<Pattern>, ts: seq<Term>): bool {
    |ps| <= |ts| && Matches(ps, ts[..|ps|], map[]).0
  }

  lemma HeadRun(lbl: nat, ps: seq<Pattern>, vars: Vars, c: Cpu, link: Link, f: Obj, args: seq<Obj>, ts: seq<Term>) returns (c1: Cpu)
    requires PatternsOk(ps) && Entered(c, link, f, args) && Reps(c.heap, args, ts)
    ensures Matched(HeadCode(6, lbl, ps), Taken(ps, ts), lbl, 6, vars, c, c1,
                    if |ps| <= |args| then MatchObjs(c.heap, ps, args[..|ps|], map[]) else map[])
  {
    var m := |ps|;
    var g := PatternsCode(6 + m, 6, lbl, ps);
    if m == 0 {
      c1 := c;
    } else {
      var h := PatFrag([Takex(6, 6 + m - 1, 0, 5), Fail(lbl)], 6 + m, map[]);
      assert HeadCode(6, lbl, ps) == JoinPat(h, g);
      hide PatternsCode, Run;
      var c2 := TakexRun(6, m, lbl, vars, c, link, f, args);
      if m <= |args| {
        assert Reps(c2.heap, args[..m], ts[..m]);
        c1 := PatternsRun(6 + m, 6, lbl, ps, vars + h.vars, c2, args[..m], ts[..m], map[], map[]);
        MatchedThen(h, g, Matches(ps, ts[..m], map[]).0, lbl, 6, vars, c, c2, c1, map[], MatchObjs(c.heap, ps, args[..m], map[]));
      } else {
        c1 := c2;
        PatternsGrow(6 + m, 6, lbl, ps);
        MatchedFails(h, g, lbl, 6, vars, c, c2, map[]);
      }
    }
  }

  /** The conditions under which the code of an alternative is right: its arity fits the index
      operand, and the names of its body are its pattern variables or lets that are used. */
  ghost predicate MatchFits(ds: set<Symbol>, stale: Vars, lbl: nat, m: Alt, h: Heap, link: Link, args: seq<Obj>, ts: seq<Term>) {
    && PatternsOk(m.pats)
    && |m.pats| + 5 < INDEX_RANGE
    && (Taken(m.pats, ts) && |m.pats| <= |args| ==>
        Fits(ds, MatchVars(6, lbl, stale, m), m.body, MatchObjs(h, m.pats, args[..|m.pats|], map[]), |h|, link, args[|m.pats|..]))
  }

  /** What a taken alternative leaves: the arrays of its body, and its first continuation. */
  ghost function MatchBody(ds: set<Symbol>, m: Alt, h: Heap, link: Link, args: seq<Obj>): Body
    requires |m.pats| <= |args|
  {
    RootBody(ds, |h|, m.body, MatchObjs(h, m.pats, args[..|m.pats|], map[]), link, args[|m.pats|..])
  }

  lemma RepsLength(h: Heap, os: seq<Obj>, ts: seq<Term>)
    requires Reps(h, os, ts)
    ensures |os| == |ts|
  {
  }

  lemma MatchTaken(ds: set<Symbol>, lbl: nat, stale: Vars, m: Alt, c: Cpu, link: Link, f: Obj, args: seq<Obj>, ts: seq<Term>) returns (c1: Cpu)
    requires Entered(c, link, f, args) && Reps(c.heap, args, ts) && TargetOk(c.heap, link) && Taken(m.pats, ts)
    requires MatchFits(ds, stale, lbl, m, c.heap, link, args, ts)
    ensures var b := MatchBody(ds, m, c.heap, link, args);
            Run(MatchCode(ds, 6, lbl, stale, m), c) == Ret(b.k, c1) && c1.heap == Wrote(c.heap, link, b.write) + b.cells
  {
    hide HeadCode, RootCode, RootReg, RootBody, Run, Fits, PatternsOk, MatchObjs, Matches, Reps;
    RepsLength(c.heap, args, ts);
    var h := HeadCode(6, lbl, m.pats);
    var vars := stale + h.vars;
    var env := MatchObjs(c.heap, m.pats, args[..|m.pats|], map[]);
    var extra := args[|m.pats|..];
    var c2 := HeadRun(lbl, m.pats, stale, c, link, f, args, ts);
    assert FrameOk(c2.reg, c2.heap, Spurious(|m.pats|), extra);
    c1 := RootRun(ds, h.n, vars, LINK, |m.pats|, m.body, c2, env, link, extra);
    var g := RootCode(ds, h.n, vars, LINK, |m.pats|, m.body);
    var k := RootReg(ds, h.n, vars, LINK, |m.pats|, m.body);
    ReturnRun(h.code, g.code, k, c, c2, c1);
  }

  lemma ReturnRun(f: seq<Instr>, g: seq<Instr>, k: nat, c: Cpu, c2: Cpu, c1: Cpu)
    requires Run(f, c) == Fall(c2) && Run(g, c2) == Fall(c1)
    ensures Run(f + g + [Return(k)], c) == Ret(Get(c1.reg, k), c1)
  {
    RunAppend(f, g, c);
    RunAppend(f + g, [Return(k)], c);
  }

  lemma MatchNotTaken(ds: set<Symbol>, lbl: nat, stale: Vars, m: Alt, c: Cpu, link: Link, f: Obj, args: seq<Obj>, ts: seq<Term>) returns (c1: Cpu)
    requires Entered(c, link, f, args) && Reps(c.heap, args, ts) && !Taken(m.pats, ts) && PatternsOk(m.pats)
    ensures Run(MatchCode(ds, 6, lbl, stale, m), c) == Jump(lbl, c1) && Entered(c1, link, f, args) && c1.heap == c.heap
  {
    hide HeadCode, RootCode, RootReg, Run, PatternsOk, MatchObjs, Matches, Reps;
    var h := HeadCode(6, lbl, m.pats);
    c1 := HeadRun(lbl, m.pats, stale, c, link, f, args, ts);
    var vars := stale + h.vars;
    var rest := RootCode(ds, h.n, vars, LINK, |m.pats|, m.body).code + [Return(RootReg(ds, h.n, vars, LINK, |m.pats|, m.body))];
    RunAppend(h.code, rest, c);
    assert MatchCode(ds, 6, lbl, stale, m) == h.code + rest;
  }
}
