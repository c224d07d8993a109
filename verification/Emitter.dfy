/** The emitter: a visitor that keeps registers, a cursor and bindings while it appends code. */
module Emitter {
  import opened Terms
  import opened Syntax
  import opened Bytecode
  import opened Emit
  import opened Blocks
  import opened Encoding
  import opened LetNormal
  import opened Compile
  import opened Coders
  import opened Jumps
  import opened Shapes
  import opened Definitions

  class EmitCode {
    const coder: Coder
    /** The declared data combinators of the machine. */
    const ds: set<Symbol>
    var registerFrame: nat
    var registerRt: nat
    var registerRti: nat
    var registerK: nat
    var registerExc: nat
    var arity: nat
    var patternReg: nat
    var fail: nat
    var variables: Vars
    var redexes: Slots
    var cursor: Slot

    constructor (ds: set<Symbol>)
      ensures fresh(coder) && coder.Valid() && coder.prog == [] && coder.labelCounter == 0 && coder.registerCounter == 0 && coder.labels == map[]
      ensures variables == map[] && this.ds == ds
    {
      coder := new Coder();
      this.ds := ds;
      registerFrame, registerRt, registerRti, registerK, registerExc := 0, 0, 0, 0, 0;
      arity, patternReg, fail, variables, redexes, cursor := 0, 0, 0, map[], map[], Slot(0, 0);
    }

    // Patterns

    method VisitPatternConstant(a: Atom)
      requires coder.Valid()
      modifies coder`code, coder`data, coder`prog, coder`registerCounter
      ensures coder.Valid() && coder.registerCounter == old(coder.registerCounter) + 1
      ensures coder.prog == old(coder.prog) + [Data(old(coder.registerCounter), a), Test(patternReg, old(coder.registerCounter)), Fail(fail)]
    {
      var r := patternReg;
      var l := fail;
      var ri := coder.GenerateRegister();
      var d := coder.EmitData(a);
      coder.EmitOpData(ri, d, a);
      coder.EmitOpTest(r, ri);
      coder.EmitOpFail(l);
    }

    /** Registers n, .., n + m - 1 are new; the first and the last of them are returned. */
    method GenerateRegisters(m: nat) returns (x: nat, y: nat)
      modifies coder`registerCounter
      ensures coder.registerCounter == old(coder.registerCounter) + m
      ensures m == 0 ==> x == 0 && y == 0
      ensures m > 0 ==> x == old(coder.registerCounter) && y == x + m - 1
    {
      x, y := 0, 0;
      for n := 0 to m
        invariant coder.registerCounter == old(coder.registerCounter) + n
        invariant n == 0 ==> x == 0 && y == 0
        invariant n > 0 ==> x == old(coder.registerCounter) && y == x + n - 1
      {
        y := coder.GenerateRegister();
        if n == 0 {
          x := y;
        }
      }
    }

    method VisitPattern(p: Pattern)
      requires coder.Valid()
      modifies this`patternReg, this`variables, coder`code, coder`data, coder`prog, coder`registerCounter
      ensures coder.Valid()
      ensures var f := PatternCode(old(coder.registerCounter), old(patternReg), fail, p);
              coder.prog == old(coder.prog) + f.code && coder.registerCounter == f.n && variables == old(variables) + f.vars
      decreases p, 1
    {
      hide PatternCode, PatternsCode, EncodeAll, Consts;
      PatternShape(coder.registerCounter, patternReg, fail, p, coder.prog, variables);
      match p
      case PConst(a) => VisitPatternConstant(a);
      case PTag(q, t) =>
        var r := patternReg;
        var l := fail;
        VisitPattern(q);
        var d := coder.EmitData(CombAtom(t));
        var rt := coder.GenerateRegister();
        coder.EmitOpData(rt, d, CombAtom(t));
        coder.EmitOpTag(r, rt);
        coder.EmitOpFail(l);
      case PVar(v) =>
        var r := patternReg;
        variables := variables[v := r];
      case PApp(ps) =>
        var r := patternReg;
        var l := fail;
        var x, y := GenerateRegisters(|ps|);
        coder.EmitOpSplit(x, y, r);
        coder.EmitOpFail(l);
        if ps == [] {
          PatternsNone(coder.registerCounter, old(coder.registerCounter), fail, ps);
        } else {
          VisitPatterns(ps, x);
        }
    }

    /** The patterns are for registers x, x+1, .. */
    method VisitPatterns(ps: seq<Pattern>, x: nat)
      requires coder.Valid()
      modifies this`patternReg, this`variables, coder`code, coder`data, coder`prog, coder`registerCounter
      ensures coder.Valid()
      ensures var f := PatternsCode(old(coder.registerCounter), x, fail, ps);
              coder.prog == old(coder.prog) + f.code && coder.registerCounter == f.n && variables == old(variables) + f.vars
      decreases ps, 0
    {
      hide PatternCode, PatternsCode, JoinPat, Rest;
      ghost var whole := PatternsCode(coder.registerCounter, x, fail, ps);
      ghost var prog0, vars0 := coder.prog, variables;
      assert ps[0..] == ps;
      RestStart(prog0, vars0, whole);
      var n := x;
      for i := 0 to |ps|
        invariant coder.Valid() && n == x + i
        invariant Rest(prog0, vars0, whole, coder.prog, variables, PatternsCode(coder.registerCounter, n, fail, ps[i..]))
      {
        PatternsRest(coder.registerCounter, n, fail, ps, i);
        ghost var f := PatternCode(coder.registerCounter, n, fail, ps[i]);
        RestStep(prog0, vars0, whole, coder.prog, variables, f, PatternsCode(f.n, n + 1, fail, ps[i + 1..]));
        patternReg := n;
        VisitPattern(ps[i]);
        n := n + 1;
      }
      PatternsRest(coder.registerCounter, n, fail, ps, |ps|);
      RestDone(prog0, vars0, whole, coder.prog, variables, coder.registerCounter);
    }

    // Trees

    method VisitTreeConstant(a: Atom) returns (r: nat)
      requires coder.Valid()
      modifies coder`code, coder`data, coder`prog, coder`registerCounter
      ensures coder.Valid() && r == old(coder.registerCounter) && coder.registerCounter == r + 1
      ensures coder.prog == old(coder.prog) + [Data(r, a)]
    {
      r := coder.GenerateRegister();
      var d := coder.EmitData(a);
      coder.EmitOpData(r, d, a);
    }

    /** The code of a tree; a variable without a register is a named redex, to be stored at the cursor. */
    method VisitTree(e: Expr) returns (r: nat)
      requires coder.Valid() && Core(e)
      modifies this`redexes, this`cursor, coder`code, coder`data, coder`prog, coder`registerCounter
      ensures coder.Valid() && r == old(coder.registerCounter)
      ensures var f := if e.App? then TreeCode(r, variables, e) else LeafCode(r, old(cursor), variables, e);
              coder.prog == old(coder.prog) + f.code && coder.registerCounter == f.n && redexes == old(redexes) + f.rx
      decreases e, 1
    {
      hide TreeCode, AppsCode, SlotsCode, AppRegs, EncodeAll, Consts, Core, Cores;
      match e
      case Const(a) =>
        r := VisitTreeConstant(a);
        assert redexes + map[] == redexes;
      case Var(v) =>
        if v in variables {
          var q := variables[v];
          r := coder.GenerateRegister();
          coder.EmitOpMov(r, q);
          assert redexes + map[] == redexes;
        } else {
          redexes := redexes[v := cursor];
          r := coder.GenerateRegister();
          coder.EmitOpNil(r);
          assert old(redexes) + map[v := old(cursor)] == redexes;
        }
      case App(es) =>
        TreeGlue(coder.prog, redexes, coder.registerCounter, variables, e);
        r := coder.GenerateRegister();
        var children := VisitChildren(es, r, 0);
        AppRegsSize(r + 1, variables, es);
        var first, last := VisitElements(es, r, 0, children);
        coder.EmitOpArray(r, first, last);
      case Let(_, _, _) =>
        CoreNoLet(e);
        assert false;
    }

    /** First the elements that are applications; their registers are queued. */
    method VisitChildren(es: seq<Expr>, t: nat, i0: nat) returns (children: seq<nat>)
      requires coder.Valid() && Cores(es)
      modifies this`redexes, this`cursor, coder`code, coder`data, coder`prog, coder`registerCounter
      ensures coder.Valid()
      ensures var f := AppsCode(old(coder.registerCounter), variables, es);
              coder.prog == old(coder.prog) + f.code && coder.registerCounter == f.n && redexes == old(redexes) + f.rx
      ensures children == AppRegs(old(coder.registerCounter), variables, es)
      decreases es, 0
    {
      hide TreeCode, AppsCode, AppRegs, EncodeAll, Consts, Core, Cores, RestFrag, Join;
      ghost var whole := AppsCode(coder.registerCounter, variables, es);
      ghost var prog0, rx0, regs := coder.prog, redexes, AppRegs(coder.registerCounter, variables, es);
      assert es[0..] == es;
      RestFragStart(prog0, rx0, whole);
      children := [];
      for i := 0 to |es|
        invariant coder.Valid()
        invariant RestFrag(prog0, rx0, whole, coder.prog, redexes, AppsCode(coder.registerCounter, variables, es[i..]))
        invariant children + AppRegs(coder.registerCounter, variables, es[i..]) == regs
      {
        AppsRest(coder.registerCounter, variables, es, i);
        cursor := Slot(t, i0 + i);
        if es[i].App? {
          CoresAt(es, i);
          ghost var f := TreeCode(coder.registerCounter, variables, es[i]);
          RestFragStep(prog0, rx0, whole, coder.prog, redexes, f, AppsCode(f.n, variables, es[i + 1..]));
          var c := VisitTree(es[i]);
          children := children + [c];
        }
      }
      AppsRest(coder.registerCounter, variables, es, |es|);
      RestFragDone(prog0, rx0, whole, coder.prog, redexes, coder.registerCounter);
    }

    /** Then a register for every element, in order. */
    method VisitElements(es: seq<Expr>, t: nat, i0: nat, queue: seq<nat>) returns (first: nat, last: nat)
      requires coder.Valid() && Cores(es) && es != [] && |queue| == Apps(es)
      modifies this`redexes, this`cursor, coder`code, coder`data, coder`prog, coder`registerCounter
      ensures coder.Valid()
      ensures var f := SlotsCode(old(coder.registerCounter), t, i0, variables, es, queue);
              coder.prog == old(coder.prog) + f.code && coder.registerCounter == f.n && redexes == old(redexes) + f.rx
              && first == old(coder.registerCounter) && last + 1 == f.n
      decreases es, 0
    {
      hide TreeCode, LeafCode, SlotsCode, EncodeAll, Consts, Core, Cores, RestFrag, Join, Apps;
      ghost var whole := SlotsCode(coder.registerCounter, t, i0, variables, es, queue);
      ghost var prog0, rx0 := coder.prog, redexes;
      assert es[0..] == es;
      RestFragStart(prog0, rx0, whole);
      var children := queue;
      first, last := 0, 0;
      for i := 0 to |es|
        invariant coder.Valid() && coder.registerCounter == old(coder.registerCounter) + i
        invariant |children| == Apps(es[i..])
        invariant RestFrag(prog0, rx0, whole, coder.prog, redexes, SlotsCode(coder.registerCounter, t, i0 + i, variables, es[i..], children))
        invariant i > 0 ==> first == old(coder.registerCounter) && last + 1 == coder.registerCounter
      {
        SlotsRest(coder.registerCounter, t, i0, variables, es, i, children);
        cursor := Slot(t, i0 + i);
        var r;
        if es[i].App? {
          var c := children[0];
          ghost var f := Frag([Mov(coder.registerCounter, c)], coder.registerCounter + 1, map[]);
          RestFragStep(prog0, rx0, whole, coder.prog, redexes, f, SlotsCode(f.n, t, i0 + i + 1, variables, es[i + 1..], children[1..]));
          children := children[1..];
          r := coder.GenerateRegister();
          coder.EmitOpMov(r, c);
          assert redexes + map[] == redexes;
        } else {
          CoresAt(es, i);
          CoreNoLet(es[i]);
          ghost var f := LeafCode(coder.registerCounter, cursor, variables, es[i]);
          LeafSize(coder.registerCounter, cursor, variables, es[i]);
          RestFragStep(prog0, rx0, whole, coder.prog, redexes, f, SlotsCode(f.n, t, i0 + i + 1, variables, es[i + 1..], children));
          r := VisitTree(es[i]);
        }
        if i == 0 {
          first := r;
        }
        last := r;
      }
      SlotsRest(coder.registerCounter, t, i0, variables, es, |es|, children);
      RestFragDone(prog0, rx0, whole, coder.prog, redexes, coder.registerCounter);
    }

    // Redexes

    ghost function Link(): LinkRegs
      reads this
    {
      LinkRegs(registerRt, registerRti, registerK, registerExc)
    }

    /** The link of the new thunk is a copy of the current one. */
    method EmitLink() returns (rt: nat)
      requires coder.Valid()
      modifies coder`code, coder`data, coder`prog, coder`registerCounter
      ensures coder.Valid() && rt == old(coder.registerCounter) && coder.registerCounter == rt + 4
      ensures coder.prog == old(coder.prog) + [Mov(rt, registerRt)] + [Mov(rt + 1, registerRti)] + [Mov(rt + 2, registerK)] + [Mov(rt + 3, registerExc)]
    {
      hide EncodeAll, Consts;
      rt := coder.GenerateRegister();
      var rti := coder.GenerateRegister();
      var k := coder.GenerateRegister();
      var exc := coder.GenerateRegister();
      coder.EmitOpMov(rt, registerRt);
      coder.EmitOpMov(rti, registerRti);
      coder.EmitOpMov(k, registerK);
      coder.EmitOpMov(exc, registerExc);
    }

    method VisitRedexSmall(r: nat) returns (t: nat)
      requires coder.Valid()
      modifies this`registerK, coder`code, coder`data, coder`prog, coder`registerCounter
      ensures coder.Valid()
      ensures var f := SmallCode(old(coder.registerCounter), old(Link()), r);
              coder.prog == old(coder.prog) + f.code && coder.registerCounter == f.n
      ensures t == old(coder.registerCounter) + 5 && registerK == t
    {
      hide EncodeAll, Consts, SmallCode;
      SmallGlue(coder.prog, coder.registerCounter, Link(), r);
      var rt := EmitLink();
      var c := coder.GenerateRegister();
      coder.EmitOpMov(c, r);
      t := coder.GenerateRegister();
      coder.EmitOpArray(t, rt, c);
      registerK := t;
    }

    /** The code that sets up the thunk of a redex, which is the new continuation. */
    method VisitRedex(e: Expr) returns (t: nat)
      requires coder.Valid() && Core(e) && IsRedex(ds, e) && (e.Var? ==> e.v in variables)
      modifies this`redexes, this`cursor, this`registerK, coder`code, coder`data, coder`prog, coder`registerCounter
      ensures coder.Valid()
      ensures var f := RedexCode(old(coder.registerCounter), variables, old(Link()), e);
              coder.prog == old(coder.prog) + f.code && coder.registerCounter == f.n && redexes == old(redexes) + f.rx
      ensures t == RedexReg(old(coder.registerCounter), e) && registerK == t
    {
      hide EncodeAll, Consts, SmallCode, AppsCode, SlotsCode, AppRegs, Core, Cores, LeafCode, RedexCode;
      match e
      case Const(a) =>
        ConstRedexGlue(coder.prog, coder.registerCounter, variables, Link(), a);
        var d := coder.EmitData(a);
        var r := coder.GenerateRegister();
        coder.EmitOpData(r, d, a);
        t := VisitRedexSmall(r);
        assert redexes + map[] == redexes;
      case Var(v) =>
        VarRedexShape(coder.registerCounter, variables, Link(), v);
        var r := variables[v];
        t := VisitRedexSmall(r);
        assert redexes + map[] == redexes;
      case App(_) => t := VisitRedexApplication(e);
    }

    method VisitRedexApplication(e: Expr) returns (t: nat)
      requires coder.Valid() && Core(e) && e.App?
      modifies this`redexes, this`cursor, this`registerK, coder`code, coder`data, coder`prog, coder`registerCounter
      ensures coder.Valid()
      ensures var f := RedexCode(old(coder.registerCounter), variables, old(Link()), e);
              coder.prog == old(coder.prog) + f.code && coder.registerCounter == f.n && redexes == old(redexes) + f.rx
      ensures t == old(coder.registerCounter) && registerK == t
    {
      hide EncodeAll, Consts, AppsCode, SlotsCode, AppRegs, Core, Cores, RedexCode;
      RedexGlue(coder.prog, redexes, coder.registerCounter, variables, Link(), e);
      AppRegsSize(coder.registerCounter + 1, variables, e.es);
      t := coder.GenerateRegister();
      var children := VisitChildren(e.es, t, 4);
      var rt := EmitLink();
      var _, last := VisitElements(e.es, t, 4, children);
      coder.EmitOpArray(t, rt, last);
      registerK := t;
    }

    // Roots

    method VisitRootTree(e: Expr)
      requires coder.Valid() && Core(e) && !e.Let? && !IsRedex(ds, e) && registerFrame == 0
      modifies this`redexes, this`cursor, coder`code, coder`data, coder`prog, coder`registerCounter
      ensures coder.Valid()
      ensures var f := RootCode(ds, old(coder.registerCounter), variables, Link(), arity, e);
              coder.prog == old(coder.prog) + f.code && coder.registerCounter == f.n && redexes == old(redexes) + f.rx
      ensures registerK == RootReg(ds, old(coder.registerCounter), variables, old(Link()), arity, e)
    {
      hide EncodeAll, Consts, RootCode, RootReg, TreeCode, LeafCode, Core, IsRedex;
      ghost var n := coder.registerCounter;
      RootCodeShape(ds, n, variables, Link(), arity, e);
      LeafTree(ds, n, cursor, variables, e);
      EndGlue(coder.prog, redexes, TreeCode(n, variables, e), Concatx(n, n, 0, Spurious(arity)), Set(registerRt, registerRti, n));
      var c := VisitTree(e);
      coder.EmitOpConcatx(c, c, registerFrame, 5 + arity);
      coder.EmitOpSet(registerRt, registerRti, c);
    }

    method VisitRootRedex(e: Expr)
      requires coder.Valid() && Core(e) && !e.Let? && IsRedex(ds, e) && (e.Var? ==> e.v in variables) && registerFrame == 0
      modifies this`redexes, this`cursor, this`registerK, coder`code, coder`data, coder`prog, coder`registerCounter
      ensures coder.Valid()
      ensures var f := RootCode(ds, old(coder.registerCounter), variables, old(Link()), arity, e);
              coder.prog == old(coder.prog) + f.code && coder.registerCounter == f.n && redexes == old(redexes) + f.rx
      ensures registerK == RootReg(ds, old(coder.registerCounter), variables, old(Link()), arity, e)
    {
      hide EncodeAll, Consts, RootCode, RootReg, RedexCode, RedexReg, Core, IsRedex;
      ghost var n := coder.registerCounter;
      ghost var k := RedexReg(n, e);
      RootCodeShape(ds, n, variables, Link(), arity, e);
      EndGlue(coder.prog, redexes, RedexCode(n, variables, Link(), e), Concatx(k, k, 0, Spurious(arity)), Nil(0));
      var c := VisitRedex(e);
      coder.EmitOpConcatx(c, c, registerFrame, 5 + arity);
    }

    /** A root is a redex, a tree, or a let around one; the thunks are set up back to front. */
    method VisitRoot(e: Expr)
      requires coder.Valid() && CoreBody(e) && registerFrame == 0
      requires SlotsUsed(ds, coder.registerCounter, variables, Link(), arity, e) && (e.Var? ==> e.v in variables)
      modifies this`redexes, this`cursor, this`registerK, this`registerRt, this`registerRti, coder`code, coder`data, coder`prog, coder`registerCounter
      ensures coder.Valid()
      ensures var f := RootCode(ds, old(coder.registerCounter), variables, old(Link()), arity, e);
              coder.prog == old(coder.prog) + f.code && coder.registerCounter == f.n && redexes == old(redexes) + f.rx
      ensures registerK == RootReg(ds, old(coder.registerCounter), variables, old(Link()), arity, e)
      decreases e, 1
    {
      hide EncodeAll, Consts, RootCode, RootReg, RedexCode, RedexReg, Core, IsRedex;
      match e
      case Let(_, _, _) => VisitRootLet(e);
      case _ =>
        if IsRedex(ds, e) {
          VisitRootRedex(e);
        } else {
          VisitRootTree(e);
        }
    }

    method VisitRootLet(e: Expr)
      requires e.Let? && coder.Valid() && CoreBody(e) && registerFrame == 0
      requires SlotsUsed(ds, coder.registerCounter, variables, Link(), arity, e)
      modifies this`redexes, this`cursor, this`registerK, this`registerRt, this`registerRti, coder`code, coder`data, coder`prog, coder`registerCounter
      ensures coder.Valid()
      ensures var f := RootCode(ds, old(coder.registerCounter), variables, old(Link()), arity, e);
              coder.prog == old(coder.prog) + f.code && coder.registerCounter == f.n && redexes == old(redexes) + f.rx
      ensures registerK == RootReg(ds, old(coder.registerCounter), variables, old(Link()), arity, e)
      decreases e, 0
    {
      hide EncodeAll, Consts, RootCode, RootReg, RedexCode, RedexReg, Core, IsRedex, SlotsUsed, CoreBody;
      LetEmits(ds, coder.registerCounter, variables, Link(), arity, e, coder.prog, redexes);
      VisitRoot(e.body);
      var s := redexes[e.x];
      var d := coder.EmitData(IntAtom(s.i));
      var rti := coder.GenerateRegister();
      coder.EmitOpData(rti, d, IntAtom(s.i));
      registerRt := s.r;
      registerRti := rti;
      var _ := VisitRedex(e.rhs);
    }

    // Alternatives and definitions

    /** One alternative: arity check, patterns, body; its label is at its end. */
    method VisitMatch(m: Alt, ghost pv: set<Name>)
      requires coder.Valid() && registerFrame == 0 && Link() == LINK && AltOk(ds, pv, m) && variables.Keys <= pv
      modifies this, coder
      ensures coder.Valid() && registerFrame == 0
      ensures var n, lbl := old(coder.registerCounter), old(coder.labelCounter);
              && coder.prog == old(coder.prog) + MatchCode(ds, n, lbl, old(variables), m)
              && variables == MatchVars(n, lbl, old(variables), m) && variables.Keys <= pv
              && coder.labels == old(coder.labels)[lbl := Offset(coder.prog, |coder.prog|)]
              && coder.labelCounter == lbl + 1 && coder.registerCounter == n
    {
      hide EncodeAll, Consts, RootCode, RootReg, AltOk, SlotsUsed, CoreBody, MatchCode, MatchVars, HeadCode, Offset;
      ghost var n, stale := coder.registerCounter, variables;
      AltSlots(ds, pv, n, coder.labelCounter, stale, m);
      MatchIs(ds, n, coder.labelCounter, stale, m, coder.prog);
      var member := coder.registerCounter;
      var l := coder.GenerateLabel();
      fail := l;
      arity := |m.pats|;
      VisitHead(m.pats);
      VisitRoot(m.body);
      coder.EmitOpReturn(registerK);
      coder.EmitLabel(l);
      coder.RestoreRegister(member);
    }

    method VisitHead(ps: seq<Pattern>)
      requires coder.Valid() && registerFrame == 0 && arity == |ps|
      modifies this`patternReg, this`variables, coder`code, coder`data, coder`prog, coder`registerCounter
      ensures coder.Valid()
      ensures var h := HeadCode(old(coder.registerCounter), fail, ps);
              coder.prog == old(coder.prog) + h.code && coder.registerCounter == h.n && variables == old(variables) + h.vars
    {
      hide EncodeAll, Consts, PatternsCode, HeadCode;
      HeadGlue(coder.registerCounter, fail, ps, coder.prog, variables);
      ghost var n := coder.registerCounter;
      var x, y := GenerateRegisters(arity);
      if arity > 0 {
        coder.EmitOpTakex(x, y, registerFrame, 5);
        coder.EmitOpFail(fail);
      }
      NoPatterns(n, x, fail, ps);
      VisitPatterns(ps, x);
    }

    /** The link registers are the same for all alternatives. */
    method VisitBlock(ms: seq<Alt>, ghost pv: set<Name>)
      requires coder.Valid() && registerFrame == 0 && Link() == LINK && AltsOk(ds, pv, ms) && variables.Keys <= pv
      requires coder.registerCounter == 6
      modifies this, coder
      ensures coder.Valid() && variables.Keys <= pv && coder.registerCounter == 6
      ensures var lbl := old(coder.labelCounter);
              var codes := BlockCode(ds, lbl, old(variables), ms);
              && coder.prog == old(coder.prog) + Flat(codes)
              && LabelsSet(coder.labels, coder.prog, EndLabels(lbl, |old(coder.prog)|, codes), map[])
    {
      hide EncodeAll, Consts, AltOk, MatchCode, MatchVars, BlockCode, Flat, EndLabels, LabelsSet, BlockRest, Offset;
      ghost var prog0, lbl0, vars0 := coder.prog, coder.labelCounter, variables;
      ghost var whole := prog0 + Flat(BlockCode(ds, lbl0, vars0, ms));
      ghost var all := EndLabels(lbl0, |prog0|, BlockCode(ds, lbl0, vars0, ms));
      BlockStarts(ds, prog0, lbl0, vars0, ms, coder.labels);
      assert ms[0..] == ms;
      var rt, rti, k, exc := registerRt, registerRti, registerK, registerExc;
      for i := 0 to |ms|
        invariant coder.Valid() && registerFrame == 0 && variables.Keys <= pv && coder.registerCounter == 6
        invariant BlockRest(ds, whole, coder.prog, coder.labelCounter, variables, ms[i..])
        invariant LabelsSet(coder.labels, whole, all, EndLabels(coder.labelCounter, |coder.prog|, BlockCode(ds, coder.labelCounter, variables, ms[i..])))
      {
        BlockStep(ds, whole, coder.prog, coder.labelCounter, variables, ms, i, coder.labels, all);
        registerRt, registerRti, registerK, registerExc := rt, rti, k, exc;
        VisitMatch(ms[i], pv);
      }
      BlockDone(ds, whole, coder.prog, coder.labelCounter, variables, ms[|ms|..], coder.labels, all);
    }

    /** A definition: its bytes and data are those of its code, with labels resolved. */
    method VisitDefinition(ms: seq<Alt>, ghost pv: set<Name>) returns (code: seq<Byte>, data: seq<Atom>)
      requires coder.Valid() && coder.prog == [] && coder.labelCounter == 0 && coder.registerCounter == 0 && coder.labels == map[]
      requires AltsOk(ds, pv, ms) && variables.Keys <= pv && |ms| < WORD
      modifies this, coder
      ensures var prog := DefCode(ds, old(variables), ms);
              var labels := DefLabels(ds, old(variables), ms);
              && (forall l :: l in labels ==> labels[l] <= |prog|)
              && code == EncodeAll(Resolve(prog, ByteLabels(prog, labels)), 0) && data == Consts(prog)
      ensures coder.Valid() && coder.prog == [] && coder.labelCounter == 0 && coder.registerCounter == 0 && coder.labels == map[]
      ensures variables.Keys <= pv
    {
      hide EncodeAll, Consts, AltsOk, BlockCode, Flat, EndLabels, LabelsSet, Offset, Resolve, DefLabels, DefCode, ByteLabels;
      ghost var vars0 := variables;
      var l := EnterDefinition();
      VisitBlock(ms, pv);
      coder.EmitLabel(l);
      ghost var block, labels := coder.prog, coder.labels;
      LeaveDefinition();
      DefinitionDone(ds, vars0, ms, block, labels, coder.prog);
      coder.Relabel();
      code := coder.code;
      data := coder.data;
      ResolveAt(DefCode(ds, vars0, ms), labels);
      coder.Reset();
    }

    /** The thunk is in register 0; its first five elements go to the registers after that. */
    method EnterDefinition() returns (l: nat)
      requires coder.Valid() && coder.prog == [] && coder.labelCounter == 0 && coder.registerCounter == 0
      modifies this`registerFrame, this`registerRt, this`registerRti, this`registerK, this`registerExc, this`arity, this`fail
      modifies coder`code, coder`data, coder`prog, coder`registerCounter, coder`labelCounter
      ensures coder.Valid() && coder.prog == PROLOGUE && coder.labelCounter == 1 && coder.registerCounter == 6
      ensures l == 0 && registerFrame == 0 && Link() == LINK
    {
      hide EncodeAll, Consts;
      var frame := coder.GenerateRegister();
      l := coder.GenerateLabel();
      fail := l;
      var rt := coder.GenerateRegister();
      var rti := coder.GenerateRegister();
      var k := coder.GenerateRegister();
      var exc := coder.GenerateRegister();
      var c := coder.GenerateRegister();
      registerFrame, registerRt, registerRti, registerK, registerExc := frame, rt, rti, k, exc;
      arity := 0;
      coder.EmitOpTakex(rt, c, frame, 0);
      coder.EmitOpFail(l);
    }

    /** When no alternative matches, the application is its own result. */
    method LeaveDefinition()
      requires coder.Valid() && coder.registerCounter == 6
      modifies coder`code, coder`data, coder`prog, coder`registerCounter
      ensures coder.Valid() && coder.prog == old(coder.prog) + [Array(6, 2, 1)] + [Concatx(7, 6, 0, 4)] + [Set(1, 2, 7)] + [Return(3)]
    {
      hide EncodeAll, Consts;
      var em := coder.GenerateRegister();
      var r := coder.GenerateRegister();
      coder.EmitOpArray(em, 2, 1);
      coder.EmitOpConcatx(r, em, 0, 4);
      coder.EmitOpSet(1, 2, r);
      coder.EmitOpReturn(3);
    }
  }
}
