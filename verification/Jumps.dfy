/** Where emitted code can jump: every FAIL goes forward, to the end of its own alternative or block. */
module Jumps {
  import opened Terms
  import opened Syntax
  import opened Bytecode
  import opened Emit
  import opened Blocks

  /** Every FAIL of the code is to one label. */
  ghost predicate FailsTo(code: seq<Instr>, lbl: nat) {
    forall k :: 0 <= k < |code| && code[k].Fail? ==> code[k].l == lbl
  }

  /** Straight-line code: no instruction is a FAIL or a SPLIT. */
  ghost predicate Straight(code: seq<Instr>) {
    forall k :: 0 <= k < |code| ==> !code[k].Fail? && !code[k].Split?
  }

  lemma StraightJoin(a: seq<Instr>, b: seq<Instr>)
    requires Straight(a) && Straight(b)
    ensures Straight(a + b)
  {
  }

  lemma FailsJoin(a: seq<Instr>, b: seq<Instr>, lbl: nat)
    requires FailsTo(a, lbl) && FailsTo(b, lbl)
    ensures FailsTo(a + b, lbl)
  {
  }

  lemma {:induction false} TreeFails(n: nat, vars: Vars, e: Expr)
    ensures Straight(TreeCode(n, vars, e).code)
    decreases e, 1
  {
    if e.App? {
      hide TreeCode, AppsCode, SlotsCode, AppRegs;
      TreeCodeShape(n, vars, e);
      var f := AppsCode(n + 1, vars, e.es);
      AppsFails(n + 1, vars, e.es);
      SlotsFails(f.n, n, 0, vars, e.es, AppRegs(n + 1, vars, e.es));
    }
  }

  lemma TreeCodeShape(n: nat, vars: Vars, e: Expr)
    requires e.App?
    ensures var f := AppsCode(n + 1, vars, e.es);
            var g := SlotsCode(f.n, n, 0, vars, e.es, AppRegs(n + 1, vars, e.es));
            TreeCode(n, vars, e).code == f.code + g.code + [Array(n, f.n, g.n - 1)]
  {
    hide AppsCode, SlotsCode, AppRegs;
  }

  lemma {:induction false} AppsFails(n: nat, vars: Vars, es: seq<Expr>)
    ensures Straight(AppsCode(n, vars, es).code)
    decreases es, 0
  {
    hide TreeCode;
    if es != [] {
      if es[0].App? {
        var f := TreeCode(n, vars, es[0]);
        TreeFails(n, vars, es[0]);
        AppsFails(f.n, vars, es[1..]);
        StraightJoin(f.code, AppsCode(f.n, vars, es[1..]).code);
      } else {
        AppsFails(n, vars, es[1..]);
      }
    }
  }

  lemma {:induction false} SlotsFails(n: nat, t: nat, i: nat, vars: Vars, es: seq<Expr>, cs: seq<nat>)
    ensures Straight(SlotsCode(n, t, i, vars, es, cs).code)
    decreases es
  {
    if es != [] {
      var f := SlotCode(n, t, i, vars, es[0], cs);
      SlotsFails(f.n, t, i + 1, vars, es[1..], if es[0].App? && cs != [] then cs[1..] else cs);
    }
  }

  lemma RedexFails(n: nat, vars: Vars, l: LinkRegs, e: Expr)
    ensures Straight(RedexCode(n, vars, l, e).code)
  {
    hide AppsCode, SlotsCode, AppRegs;
    match e
    case Const(_) =>
    case Var(_) =>
    case Let(_, _, _) =>
    case App(es) =>
      var f := AppsCode(n + 1, vars, es);
      AppsFails(n + 1, vars, es);
      SlotsFails(LinkCode(f.n, l).n, n, 4, vars, es, AppRegs(n + 1, vars, es));
  }

  lemma {:induction false} RootFails(ds: set<Symbol>, n: nat, vars: Vars, l: LinkRegs, arity: nat, e: Expr)
    ensures Straight(RootCode(ds, n, vars, l, arity, e).code)
    decreases e
  {
    hide TreeCode, RedexCode, RootCode, RedexReg, RootReg;
    RootCodeShape(ds, n, vars, l, arity, e);
    if e.Let? {
      RootFails(ds, n, vars, l, arity, e.body);
      var f := RootCode(ds, n, vars, l, arity, e.body);
      var s := if e.x in f.rx then f.rx[e.x] else Slot(0, 0);
      RedexFails(f.n + 1, vars, LinkRegs(s.r, f.n, RootReg(ds, n, vars, l, arity, e.body), l.exc), e.rhs);
    } else if IsRedex(ds, e) {
      RedexFails(n, vars, l, e);
    } else {
      TreeFails(n, vars, e);
    }
  }

  lemma RootCodeShape(ds: set<Symbol>, n: nat, vars: Vars, l: LinkRegs, arity: nat, e: Expr)
    ensures e.Let? ==>
      var f := RootCode(ds, n, vars, l, arity, e.body);
      var s := if e.x in f.rx then f.rx[e.x] else Slot(0, 0);
      var l1 := LinkRegs(s.r, f.n, RootReg(ds, n, vars, l, arity, e.body), l.exc);
      RootCode(ds, n, vars, l, arity, e) == Join(Join(f, Frag([Data(f.n, IntAtom(s.i))], f.n + 1, map[])), RedexCode(f.n + 1, vars, l1, e.rhs))
    ensures e.Let? ==> RootReg(ds, n, vars, l, arity, e) == RedexReg(RootCode(ds, n, vars, l, arity, e.body).n + 1, e.rhs)
    ensures !e.Let? && IsRedex(ds, e) ==>
      var f := RedexCode(n, vars, l, e);
      var k := RedexReg(n, e);
      RootCode(ds, n, vars, l, arity, e) == Join(f, Frag([Concatx(k, k, 0, Spurious(arity))], f.n, map[])) && RootReg(ds, n, vars, l, arity, e) == k
    ensures !e.Let? && !IsRedex(ds, e) ==>
      var f := TreeCode(n, vars, e);
      RootCode(ds, n, vars, l, arity, e) == Join(f, Frag([Concatx(n, n, 0, Spurious(arity)), Set(l.rt, l.rti, n)], f.n, map[]))
      && RootReg(ds, n, vars, l, arity, e) == l.k
  {
    hide RedexCode, RedexReg, TreeCode, Join;
  }

  lemma {:induction false} PatternFails(n: nat, r: nat, lbl: nat, p: Pattern)
    ensures FailsTo(PatternCode(n, r, lbl, p).code, lbl)
    decreases p, 1
  {
    match p
    case PConst(_) =>
    case PVar(_) =>
    case PTag(q, _) => PatternFails(n, r, lbl, q);
    case PApp(ps) => PatternsFail(n + |ps|, n, lbl, ps);
  }

  lemma {:induction false} PatternsFail(n: nat, r: nat, lbl: nat, ps: seq<Pattern>)
    ensures FailsTo(PatternsCode(n, r, lbl, ps).code, lbl)
    decreases ps, 0
  {
    hide PatternCode;
    if ps != [] {
      var f := PatternCode(n, r, lbl, ps[0]);
      PatternFails(n, r, lbl, ps[0]);
      PatternsFail(f.n, r + 1, lbl, ps[1..]);
      FailsJoin(f.code, PatternsCode(f.n, r + 1, lbl, ps[1..]).code, lbl);
    }
  }

  lemma MatchFails(ds: set<Symbol>, n: nat, lbl: nat, stale: Vars, m: Alt)
    ensures FailsTo(MatchCode(ds, n, lbl, stale, m), lbl)
  {
    hide PatternsCode, RootCode, RootReg;
    var h := HeadCode(n, lbl, m.pats);
    PatternsFail(n + |m.pats|, n, lbl, m.pats);
    RootFails(ds, h.n, stale + h.vars, LINK, |m.pats|, m.body);
    assert FailsTo(h.code, lbl);
  }

  /** Every FAIL of the code at position at has its label behind it. */
  ghost predicate Forward(code: seq<Instr>, at: nat, labels: Labels) {
    forall k :: 0 <= k < |code| && code[k].Fail? ==> code[k].l in labels && at + k < labels[code[k].l]
  }

  lemma {:induction false} BlockForward(ds: set<Symbol>, lbl: nat, stale: Vars, ms: seq<Alt>, at: nat)
    ensures Forward(Flat(BlockCode(ds, lbl, stale, ms)), at, EndLabels(lbl, at, BlockCode(ds, lbl, stale, ms)))
    decreases |ms|
  {
    hide MatchCode, MatchVars, BlockCode, Flat, EndLabels;
    if ms == [] {
      NoBlock(ds, lbl, stale, at);
    } else {
      var mc := MatchCode(ds, 6, lbl, stale, ms[0]);
      var codes := BlockCode(ds, lbl + 1, MatchVars(6, lbl, stale, ms[0]), ms[1..]);
      BlockParts(ds, lbl, stale, ms, at);
      MatchFails(ds, 6, lbl, stale, ms[0]);
      BlockForward(ds, lbl + 1, MatchVars(6, lbl, stale, ms[0]), ms[1..], at + |mc|);
      ForwardJoin(mc, Flat(codes), lbl, at, EndLabels(lbl + 1, at + |mc|, codes));
    }
  }

  lemma NoBlock(ds: set<Symbol>, lbl: nat, stale: Vars, at: nat)
    ensures Flat(BlockCode(ds, lbl, stale, [])) == [] && EndLabels(lbl, at, BlockCode(ds, lbl, stale, [])) == map[]
  {
  }

  lemma BlockParts(ds: set<Symbol>, lbl: nat, stale: Vars, ms: seq<Alt>, at: nat)
    requires ms != []
    ensures var mc := MatchCode(ds, 6, lbl, stale, ms[0]);
            var codes := BlockCode(ds, lbl + 1, MatchVars(6, lbl, stale, ms[0]), ms[1..]);
            && BlockCode(ds, lbl, stale, ms) == [mc] + codes
            && Flat(BlockCode(ds, lbl, stale, ms)) == mc + Flat(codes)
            && EndLabels(lbl, at, BlockCode(ds, lbl, stale, ms)) == EndLabels(lbl + 1, at + |mc|, codes)[lbl := at + |mc|]
            && lbl !in EndLabels(lbl + 1, at + |mc|, codes)
  {
    hide MatchCode, MatchVars;
    var mc := MatchCode(ds, 6, lbl, stale, ms[0]);
    var codes := BlockCode(ds, lbl + 1, MatchVars(6, lbl, stale, ms[0]), ms[1..]);
    assert ([mc] + codes)[1..] == codes;
    EndLabelsAt(lbl + 1, at + |mc|, codes, lbl);
  }

  lemma ForwardJoin(mc: seq<Instr>, rest: seq<Instr>, lbl: nat, at: nat, labels: Labels)
    requires FailsTo(mc, lbl) && Forward(rest, at + |mc|, labels) && lbl !in labels
    ensures Forward(mc + rest, at, labels[lbl := at + |mc|])
  {
    forall k | 0 <= k < |mc| + |rest| && (mc + rest)[k].Fail?
      ensures (mc + rest)[k].l in labels[lbl := at + |mc|] && at + k < labels[lbl := at + |mc|][(mc + rest)[k].l]
    {
      if k >= |mc| {
        assert (mc + rest)[k] == rest[k - |mc|];
      }
    }
  }

  /** In the code of a definition every FAIL jumps forward, to an instruction of that code. */
  lemma DefForward(ds: set<Symbol>, stale: Vars, ms: seq<Alt>)
    ensures Forward(DefCode(ds, stale, ms), 0, DefLabels(ds, stale, ms))
    ensures forall l :: l in DefLabels(ds, stale, ms) <==> 0 <= l <= |ms|
    ensures forall l :: l in DefLabels(ds, stale, ms) ==> DefLabels(ds, stale, ms)[l] < |DefCode(ds, stale, ms)|
  {
    hide BlockCode, Flat, EndLabels;
    var codes := BlockCode(ds, 1, stale, ms);
    BlockSize(ds, 1, stale, ms);
    forall l ensures l in EndLabels(1, 2, codes) <==> 1 <= l < 1 + |codes| {
      if l >= 0 {
        EndLabelsAt(1, 2, codes, l);
      }
    }
    forall l | l in EndLabels(1, 2, codes) ensures EndLabels(1, 2, codes)[l] <= 2 + |Flat(codes)| {
      EndLabelsBound(1, 2, codes, l);
    }
    BlockForward(ds, 1, stale, ms, 2);
    DefJoin(Flat(codes), EndLabels(1, 2, codes));
  }

  lemma DefJoin(block: seq<Instr>, labels: Labels)
    requires Forward(block, 2, labels) && 0 !in labels
    ensures Forward(PROLOGUE + block + Epilogue(6), 0, labels[0 := 2 + |block|])
  {
    var code := PROLOGUE + block + Epilogue(6);
    var all := labels[0 := 2 + |block|];
    forall k | 0 <= k < |code| && code[k].Fail? ensures code[k].l in all && 0 + k < all[code[k].l] {
      if 2 <= k < 2 + |block| {
        assert code[k] == block[k - 2];
      }
    }
  }

  lemma {:induction false} BlockSize(ds: set<Symbol>, lbl: nat, stale: Vars, ms: seq<Alt>)
    ensures |BlockCode(ds, lbl, stale, ms)| == |ms|
    decreases |ms|
  {
    hide MatchCode, MatchVars;
    if ms != [] {
      BlockSize(ds, lbl + 1, MatchVars(6, lbl, stale, ms[0]), ms[1..]);
    }
  }

  lemma {:induction false} EndLabelsBound(lbl: nat, at: nat, codes: seq<seq<Instr>>, l: nat)
    requires l in EndLabels(lbl, at, codes)
    ensures EndLabels(lbl, at, codes)[l] <= at + |Flat(codes)|
    decreases |codes|
  {
    if l != lbl {
      EndLabelsBound(lbl + 1, at + |codes[0]|, codes[1..], l);
    }
  }
}
