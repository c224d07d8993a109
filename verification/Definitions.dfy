/** Slots, labels and code of whole definitions. */
module Definitions {
  import opened Terms
  import opened Syntax
  import opened Bytecode
  import opened Emit
  import opened Blocks
  import opened Encoding
  import opened LetNormal
  import opened Compile
  import opened Jumps
  import opened Shapes

  // Named redexes have slots.

  lemma {:induction false} TreeNames(n: nat, vars: Vars, e: Expr)
    requires Core(e) && e.App?
    ensures TreeCode(n, vars, e).rx.Keys == VarsOf(e) - vars.Keys
    decreases e, 1
  {
    hide TreeCode, AppsCode, SlotsCode, AppRegs, Cores, VarsOfAll;
    var f := AppsCode(n + 1, vars, e.es);
    var g := SlotsCode(f.n, n, 0, vars, e.es, AppRegs(n + 1, vars, e.es));
    TreeIs(n, vars, e);
    AppNames(n + 1, n, 0, f.n, vars, e.es, AppRegs(n + 1, vars, e.es));
    assert (f.rx + g.rx + map[]).Keys == f.rx.Keys + g.rx.Keys;
  }

  /** The elements that are applications, and the others. */
  lemma {:induction false} AppNames(n: nat, t: nat, i: nat, n1: nat, vars: Vars, es: seq<Expr>, cs: seq<nat>)
    requires Cores(es)
    ensures AppsCode(n, vars, es).rx.Keys + SlotsCode(n1, t, i, vars, es, cs).rx.Keys == VarsOfAll(es) - vars.Keys
    decreases es, 0
  {
    hide TreeCode, Core, AppsCode, SlotsCode, VarsOf, SlotCode;
    NamesStep(n, t, i, n1, vars, es, cs);
    if es != [] {
      var cs1 := if es[0].App? && cs != [] then cs[1..] else cs;
      var m := if es[0].App? then TreeCode(n, vars, es[0]).n else n;
      AppNames(m, t, i + 1, SlotCode(n1, t, i, vars, es[0], cs).n, vars, es[1..], cs1);
      if es[0].App? {
        TreeNames(n, vars, es[0]);
      }
      Without(VarsOf(es[0]), VarsOfAll(es[1..]), vars.Keys);
    }
  }

  lemma Without(a: set<Name>, b: set<Name>, c: set<Name>)
    ensures (a + b) - c == (a - c) + (b - c)
  {
  }

  lemma NamesStep(n: nat, t: nat, i: nat, n1: nat, vars: Vars, es: seq<Expr>, cs: seq<nat>)
    requires Cores(es)
    ensures es == [] ==> AppsCode(n, vars, es).rx.Keys == {} && SlotsCode(n1, t, i, vars, es, cs).rx.Keys == {}
    ensures es != [] ==>
      var cs1 := if es[0].App? && cs != [] then cs[1..] else cs;
      var rest := SlotsCode(SlotCode(n1, t, i, vars, es[0], cs).n, t, i + 1, vars, es[1..], cs1).rx.Keys;
      && Core(es[0]) && Cores(es[1..]) && VarsOfAll(es) == VarsOf(es[0]) + VarsOfAll(es[1..])
      && (es[0].App? ==>
            AppsCode(n, vars, es).rx.Keys == TreeCode(n, vars, es[0]).rx.Keys + AppsCode(TreeCode(n, vars, es[0]).n, vars, es[1..]).rx.Keys
            && SlotsCode(n1, t, i, vars, es, cs).rx.Keys == rest)
      && (!es[0].App? ==>
            AppsCode(n, vars, es) == AppsCode(n, vars, es[1..])
            && SlotsCode(n1, t, i, vars, es, cs).rx.Keys == (VarsOf(es[0]) - vars.Keys) + rest)
  {
    hide TreeCode;
  }

  lemma RedexNames(n: nat, vars: Vars, l: LinkRegs, e: Expr)
    requires Core(e) && (e.Var? ==> e.v in vars)
    ensures RedexCode(n, vars, l, e).rx.Keys == VarsOf(e) - vars.Keys
  {
    hide AppsCode, SlotsCode, AppRegs, Cores, VarsOfAll;
    if e.App? {
      var f := AppsCode(n + 1, vars, e.es);
      AppNames(n + 1, n, 4, f.n + 4, vars, e.es, AppRegs(n + 1, vars, e.es));
    }
  }

  /** A name that is used and has no register has a slot. */
  lemma {:induction false} RootNames(ds: set<Symbol>, n: nat, vars: Vars, l: LinkRegs, arity: nat, e: Expr, v: Name)
    requires CoreBody(e) && Count(v, e) > 0 && v !in vars && !e.Var? && RhsBound(vars, e)
    ensures v in RootCode(ds, n, vars, l, arity, e).rx
    decreases e
  {
    hide RootCode, RedexCode, TreeCode, IsRedex, Core, Count, VarsOf, RootReg, RedexReg;
    RootCodeShape(ds, n, vars, l, arity, e);
    if e.Let? {
      var f := RootCode(ds, n, vars, l, arity, e.body);
      var s := if e.x in f.rx then f.rx[e.x] else Slot(0, 0);
      LetCount(v, e);
      if Count(v, e.rhs) > 0 {
        RedexNames(f.n + 1, vars, LinkRegs(s.r, f.n, RootReg(ds, n, vars, l, arity, e.body), l.exc), e.rhs);
        CoreVars(v, e.rhs);
      } else {
        RootNames(ds, n, vars, l, arity, e.body, v);
      }
    } else {
      CoreVars(v, e);
      EndNames(ds, n, vars, l, e);
    }
  }

  lemma EndNames(ds: set<Symbol>, n: nat, vars: Vars, l: LinkRegs, e: Expr)
    requires Core(e) && !e.Let? && !e.Var?
    ensures RedexCode(n, vars, l, e).rx.Keys == VarsOf(e) - vars.Keys
    ensures !IsRedex(ds, e) ==> TreeCode(n, vars, e).rx.Keys == VarsOf(e) - vars.Keys
  {
    hide RedexCode;
    RedexNames(n, vars, l, e);
    if e.App? {
      TreeNames(n, vars, e);
    }
  }

  lemma CoreVars(v: Name, e: Expr)
    requires Core(e) && Count(v, e) > 0
    ensures v in VarsOf(e)
  {
    hide Count, VarsOf;
    CoreNoLet(e);
    CountVars(v, e);
  }

  lemma LetCount(v: Name, e: Expr)
    requires e.Let? && CoreBody(e)
    ensures Count(v, e) == Count(v, e.rhs) + Count(v, e.body) && Core(e.rhs) && CoreBody(e.body)
  {
  }

  /** No let names a variable, neither as its redex nor as its body. */
  predicate RhsBound(vars: Vars, e: Expr) {
    e.Let? ==> !e.rhs.Var? && !e.body.Var? && RhsBound(vars, e.body)
  }

  lemma {:induction false} BodyBound(ds: set<Symbol>, scope: set<Name>, vars: Vars, e: Expr)
    requires BodyOk(ds, scope, e)
    ensures RhsBound(vars, e)
    decreases e
  {
    if e.Let? {
      BodyBound(ds, scope + {e.x}, vars, e.body);
    }
  }

  /** In let-normal form every let is used, so that its slot is known when its redex is emitted. */
  lemma {:induction false} BodySlots(ds: set<Symbol>, scope: set<Name>, n: nat, vars: Vars, l: LinkRegs, arity: nat, e: Expr)
    requires BodyOk(ds, scope, e) && Lets(e) !! vars.Keys
    ensures SlotsUsed(ds, n, vars, l, arity, e)
    decreases e
  {
    hide RootCode, IsRedex, Core, Count, VarsOf, RedexTree, TreeOk;
    if e.Let? {
      BodyIsCore(ds, scope + {e.x}, e.body);
      BodyBound(ds, scope + {e.x}, vars, e.body);
      RootNames(ds, n, vars, l, arity, e.body, e.x);
      RedexIsCore(ds, e.rhs);
      BodySlots(ds, scope + {e.x}, n, vars, l, arity, e.body);
    }
  }

  // Labels

  lemma {:induction false} OffsetPrefix(a: seq<Instr>, b: seq<Instr>, k: nat)
    requires k <= |a|
    ensures Offset(a + b, k) == Offset(a, k)
    decreases k
  {
    if k > 0 {
      assert (a + b)[1..] == a[1..] + b;
      OffsetPrefix(a[1..], b, k - 1);
    }
  }

  /** Of the labels of a block, those not in rest are set to the offsets of their positions. */
  ghost predicate LabelsSet(labels: map<nat, nat>, code: seq<Instr>, all: Labels, rest: Labels) {
    forall l :: l in all ==> all[l] <= |code| && if l in rest then rest[l] == all[l] else l in labels && labels[l] == Offset(code, all[l])
  }

  /** Emitting a block: the code is complete with what comes from alternative i on. */
  ghost predicate BlockRest(ds: set<Symbol>, whole: seq<Instr>, code: seq<Instr>, lbl: nat, vars: Vars, ms: seq<Alt>) {
    code + Flat(BlockCode(ds, lbl, vars, ms)) == whole
  }

  lemma BlockStep(ds: set<Symbol>, whole: seq<Instr>, code: seq<Instr>, lbl: nat, vars: Vars, ms: seq<Alt>, i: nat, labels: map<nat, nat>, all: Labels)
    requires i < |ms| && BlockRest(ds, whole, code, lbl, vars, ms[i..])
    requires LabelsSet(labels, whole, all, EndLabels(lbl, |code|, BlockCode(ds, lbl, vars, ms[i..])))
    ensures var mc := MatchCode(ds, 6, lbl, vars, ms[i]);
            var vars1 := MatchVars(6, lbl, vars, ms[i]);
            var code1 := code + mc;
            && BlockRest(ds, whole, code1, lbl + 1, vars1, ms[i + 1..])
            && LabelsSet(labels[lbl := Offset(code1, |code1|)], whole, all, EndLabels(lbl + 1, |code1|, BlockCode(ds, lbl + 1, vars1, ms[i + 1..])))
  {
    hide MatchCode, MatchVars, BlockCode, Flat, EndLabels, Offset;
    var mc := MatchCode(ds, 6, lbl, vars, ms[i]);
    var vars1 := MatchVars(6, lbl, vars, ms[i]);
    var code1 := code + mc;
    assert ms[i..][0] == ms[i] && ms[i..][1..] == ms[i + 1..];
    BlockParts(ds, lbl, vars, ms[i..], |code|);
    var codes := BlockCode(ds, lbl + 1, vars1, ms[i + 1..]);
    assert code + (mc + Flat(codes)) == code1 + Flat(codes);
    OffsetPrefix(code1, Flat(codes), |code1|);
  }

  lemma BlockDone(ds: set<Symbol>, whole: seq<Instr>, code: seq<Instr>, lbl: nat, vars: Vars, ms: seq<Alt>, labels: map<nat, nat>, all: Labels)
    requires ms == [] && BlockRest(ds, whole, code, lbl, vars, ms)
    requires LabelsSet(labels, whole, all, EndLabels(lbl, |code|, BlockCode(ds, lbl, vars, ms)))
    ensures code == whole && LabelsSet(labels, whole, all, map[])
  {
    assert code + [] == code;
  }

  lemma BlockStarts(ds: set<Symbol>, code: seq<Instr>, lbl: nat, vars: Vars, ms: seq<Alt>, labels: map<nat, nat>)
    ensures var codes := BlockCode(ds, lbl, vars, ms);
            var whole := code + Flat(codes);
            BlockRest(ds, whole, code, lbl, vars, ms) && LabelsSet(labels, whole, EndLabels(lbl, |code|, codes), EndLabels(lbl, |code|, codes))
  {
    hide BlockCode, Flat, EndLabels;
    var codes := BlockCode(ds, lbl, vars, ms);
    forall l | l in EndLabels(lbl, |code|, codes) ensures EndLabels(lbl, |code|, codes)[l] <= |code + Flat(codes)| {
      EndLabelsBound(lbl, |code|, codes, l);
    }
  }

  /** The body of an alternative meets what the emitter of its root asks for. */
  lemma AltSlots(ds: set<Symbol>, pv: set<Name>, n: nat, lbl: nat, stale: Vars, m: Alt)
    requires AltOk(ds, pv, m) && stale.Keys <= pv
    ensures var h := HeadCode(n, lbl, m.pats);
            var vars := stale + h.vars;
            && CoreBody(m.body) && SlotsUsed(ds, h.n, vars, LINK, |m.pats|, m.body) && (m.body.Var? ==> m.body.v in vars)
            && MatchVars(n, lbl, stale, m) == vars && vars.Keys <= pv
  {
    hide BodyOk, HeadCode, Lets, PatsVars, SlotsUsed, PatternsOk;
    HeadNames(n, lbl, m.pats);
    var h := HeadCode(n, lbl, m.pats);
    BodyIsCore(ds, PatsVars(m.pats), m.body);
    RootVar(ds, PatsVars(m.pats), m.body);
    BodySlots(ds, PatsVars(m.pats), h.n, stale + h.vars, LINK, |m.pats|, m.body);
  }

  lemma HeadGlue(n: nat, lbl: nat, ps: seq<Pattern>, code: seq<Instr>, vars: Vars)
    ensures var k := |ps|;
            var p := PatternsCode(n + k, n, lbl, ps);
            var head := if k == 0 then code else code + [Takex(n, n + k - 1, 0, 5)] + [Fail(lbl)];
            var h := HeadCode(n, lbl, ps);
            h.n == p.n && vars + h.vars == vars + p.vars && code + h.code == head + p.code
  {
    hide PatternsCode;
    var k := |ps|;
    var p := PatternsCode(n + k, n, lbl, ps);
    var none: Vars := map[];
    assert none + p.vars == p.vars;
    if k > 0 {
      assert [Takex(n, n + k - 1, 0, 5), Fail(lbl)] == [Takex(n, n + k - 1, 0, 5)] + [Fail(lbl)];
    } else {
      assert [] + p.code == p.code;
    }
  }

  lemma MatchIs(ds: set<Symbol>, n: nat, lbl: nat, stale: Vars, m: Alt, code: seq<Instr>)
    ensures var h := HeadCode(n, lbl, m.pats);
            var f := RootCode(ds, h.n, stale + h.vars, LINK, |m.pats|, m.body);
            code + MatchCode(ds, n, lbl, stale, m) == code + h.code + f.code + [Return(RootReg(ds, h.n, stale + h.vars, LINK, |m.pats|, m.body))]
  {
    hide HeadCode, RootCode, RootReg;
  }

  /** Without patterns there are no registers for arguments. */
  lemma NoPatterns(n: nat, x: nat, lbl: nat, ps: seq<Pattern>)
    requires ps != [] ==> x == n
    ensures PatternsCode(n + |ps|, x, lbl, ps) == PatternsCode(n + |ps|, n, lbl, ps)
  {
  }

  /** Resolving only looks at the labels that occur. */
  lemma {:induction false} ResolveSame(code: seq<Instr>, labels: map<nat, nat>, labels1: map<nat, nat>)
    requires forall k :: 0 <= k < |code| && code[k].Fail? ==> code[k].l in labels && code[k].l in labels1 && labels[code[k].l] == labels1[code[k].l]
    ensures Resolve(code, labels) == Resolve(code, labels1)
    decreases |code|
  {
    if code != [] {
      assert code[0].Fail? ==> code[0].l in labels;
      forall k | 0 <= k < |code[1..]| && code[1..][k].Fail?
        ensures code[1..][k].l in labels && code[1..][k].l in labels1 && labels[code[1..][k].l] == labels1[code[1..][k].l]
      {
        assert code[1..][k] == code[k + 1];
      }
      ResolveSame(code[1..], labels, labels1);
    }
  }

  /** The labels that were set are the byte offsets of those of the definition. */
  lemma DefinitionDone(ds: set<Symbol>, stale: Vars, ms: seq<Alt>, block: seq<Instr>, labels: map<nat, nat>, prog: seq<Instr>)
    requires |ms| < WORD
    requires var codes := BlockCode(ds, 1, stale, ms);
             && block == PROLOGUE + Flat(codes)
             && 0 in labels && labels[0] == Offset(block, |block|)
             && exists labels0 :: labels == labels0[0 := Offset(block, |block|)] && LabelsSet(labels0, block, EndLabels(1, 2, codes), map[])
    requires prog == block + [Array(6, 2, 1)] + [Concatx(7, 6, 0, 4)] + [Set(1, 2, 7)] + [Return(3)]
    ensures prog == DefCode(ds, stale, ms)
    ensures forall k :: 0 <= k < |prog| && prog[k].Fail? ==> prog[k].l < WORD
    ensures var dl := DefLabels(ds, stale, ms);
            (forall l :: l in dl ==> dl[l] <= |prog|) && Resolve(prog, labels) == Resolve(prog, ByteLabels(prog, dl))
  {
    hide BlockCode, Flat, EndLabels, Offset, Resolve;
    var codes := BlockCode(ds, 1, stale, ms);
    var dl := DefLabels(ds, stale, ms);
    DefForward(ds, stale, ms);
    assert prog == block + Epilogue(6);
    var labels0 :| labels == labels0[0 := Offset(block, |block|)] && LabelsSet(labels0, block, EndLabels(1, 2, codes), map[]);
    forall l | l in dl ensures l in labels && labels[l] == Offset(prog, dl[l]) {
      if l == 0 {
        OffsetPrefix(block, Epilogue(6), |block|);
      } else {
        EndLabelsAt(1, 2, codes, 0);
        OffsetPrefix(block, Epilogue(6), dl[l]);
      }
    }
    ResolveSame(prog, labels, ByteLabels(prog, dl));
  }
}
