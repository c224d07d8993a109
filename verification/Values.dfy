/** Arrays as values: a tree whose variables are known represents its value, one with an empty cell represents none. */
module Values {
  import opened Terms
  import opened Heaps
  import opened Syntax
  import opened Semantics
  import opened Evaluation
  import opened Emit
  import opened Build
  import opened Matching
  import opened LetNormal
  import opened Filling

  /** The store holds the arrays from address n on, except those that were replaced. */
  ghost predicate Holds(h: Heap, n: nat, cells: Heap, dead: set<nat>) {
    n + |cells| <= |h| && forall a :: 0 <= a < |cells| && n + a !in dead ==> h[n + a] == cells[a]
  }

  lemma HoldsParts(h: Heap, n: nat, cells: Heap, cells1: Heap, dead: set<nat>)
    requires Holds(h, n, cells + cells1, dead)
    ensures Holds(h, n, cells, dead) && Holds(h, n + |cells|, cells1, dead)
  {
    forall a | 0 <= a < |cells| && n + a !in dead ensures h[n + a] == cells[a] {
      assert cells[a] == (cells + cells1)[a];
    }
    forall a | 0 <= a < |cells1| && n + |cells| + a !in dead ensures h[n + |cells| + a] == cells1[a] {
      assert cells1[a] == (cells + cells1)[|cells| + a];
    }
  }

  // Values

  lemma {:induction false} TreeValue(n: nat, P: Program, ds: set<Symbol>, h: Heap, m: nat, e: Expr, env: Objs, tenv: Env)
    requires TreeOk(ds, e) && VarsOf(e) <= env.Keys && RepEnv(h, env, tenv) && DataOk(P, ds)
    requires Holds(h, m, Tree(m, e, env).cells, {})
    ensures Eval(n, P, e, tenv).Val? && Rep(h, Tree(m, e, env).o, Eval(n, P, e, tenv).t)
    decreases e, 1
  {
    match e
    case Const(a) => ConstValue(n, P, ds, a, tenv);
    case Var(_) =>
    case App(es) => AppValue(n, P, ds, h, m, e, env, tenv);
  }

  lemma {:induction false} AppValue(n: nat, P: Program, ds: set<Symbol>, h: Heap, m: nat, e: Expr, env: Objs, tenv: Env)
    requires e.App? && TreeOk(ds, e) && VarsOf(e) <= env.Keys && RepEnv(h, env, tenv) && DataOk(P, ds)
    requires Holds(h, m, Tree(m, e, env).cells, {})
    ensures Eval(n, P, e, tenv).Val? && Rep(h, Tree(m, e, env).o, Eval(n, P, e, tenv).t)
    decreases e, 0
  {
    hide TreeOk, TreesOk, Tree, Trees, Direct, Eval, EvalArgs, EvalSpine, Apply, VarsOf, VarsOfAll, Rep, RepEnv, Holds;
    var es := e.es;
    AppParts(ds, m, e, env);
    var b := Trees(m, es[1..], env);
    TreeArray(h, m, e, env);
    var ts := TreesValue(n, P, ds, h, m, es[1..], env, tenv);
    SpineShape(n, P, e, tenv);
    EvalShape(n, P, e, tenv, []);
    PlainApply(n, P, ds, es[0].a, ts);
    NodeRep(h, Tree(m, e, env).o, At(es[0].a), Leaf(es[0].a), b.os, ts);
  }

  lemma AppParts(ds: set<Symbol>, m: nat, e: Expr, env: Objs)
    requires e.App? && TreeOk(ds, e)
    ensures |e.es| >= 2 && e.es[0].Const? && !IsRedex(ds, e.es[0]) && TreesOk(ds, e.es[1..])
    ensures VarsOf(e) == VarsOfAll(e.es[1..])
    ensures Core(e) && |Trees(m, e.es[1..], env).os| == |e.es| - 1
  {
    assert TreeOk(ds, e.es[0]);
    TreeIsCore(ds, e);
    assert VarsOf(e.es[0]) == {};
  }

  /** An application's array is the last one, after those of its arguments. */
  lemma TreeArray(h: Heap, m: nat, e: Expr, env: Objs)
    requires e.App? && e.es != [] && e.es[0].Const? && Holds(h, m, Tree(m, e, env).cells, {})
    ensures var b := Trees(m, e.es[1..], env);
            var o := Tree(m, e, env).o;
            o.Arr? && o.addr < |h| && h[o.addr] == [At(e.es[0].a)] + b.os && Holds(h, m, b.cells, {})
  {
    hide Trees, Direct, Holds;
    HeadTree(m, e.es, env);
    var b := Trees(m, e.es[1..], env);
    HoldsParts(h, m, b.cells, [Trees(m, e.es, env).os], {});
    LastHeld(h, m + |b.cells|, Trees(m, e.es, env).os);
  }

  lemma LastHeld(h: Heap, m: nat, os: seq<Obj>)
    requires Holds(h, m, [os], {})
    ensures m < |h| && h[m] == os
  {
    assert h[m + 0] == [os][0];
  }

  lemma HeadTree(m: nat, es: seq<Expr>, env: Objs)
    requires es != [] && !es[0].App?
    ensures Trees(m, es, env) == Builts(Trees(m, es[1..], env).cells, [LeafObj(es[0], env)] + Trees(m, es[1..], env).os, Trees(m, es[1..], env).holes)
  {
    var b := Trees(m, es[1..], env);
    assert [] + b.cells == b.cells;
    var none: Holes := map[];
    assert none + b.holes == b.holes;
  }

  lemma NodeRep(h: Heap, o: Obj, fo: Obj, f: Term, os: seq<Obj>, ts: seq<Term>)
    requires o.Arr? && o.addr < |h| && h[o.addr] == [fo] + os && Rep(h, fo, f) && Reps(h, os, ts) && ts != []
    ensures Rep(h, o, Normal(f, ts))
  {
    forall i | 0 <= i < |ts| + 1 ensures Rep(h, h[o.addr][i], ([f] + ts)[i]) {
      if i > 0 {
        assert Rep(h, os[i - 1], ts[i - 1]);
      }
    }
  }

  lemma {:induction false} TreesValue(n: nat, P: Program, ds: set<Symbol>, h: Heap, m: nat, es: seq<Expr>, env: Objs, tenv: Env) returns (ts: seq<Term>)
    requires TreesOk(ds, es) && VarsOfAll(es) <= env.Keys && RepEnv(h, env, tenv) && DataOk(P, ds)
    requires Holds(h, m, Trees(m, es, env).cells, {})
    ensures EvalArgs(n, P, es, tenv) == Vals(ts) && Reps(h, Trees(m, es, env).os, ts)
    decreases es, 0
  {
    hide TreeOk, Tree, Eval, EvalSpine, Apply, VarsOf, Rep, RepEnv, Holds, Trees;
    if es == [] {
      ts := [];
    } else {
      TreesStep(m, es, env, 0, 0);
      var b := Tree(m, es[0], env);
      var bs := Trees(m + |b.cells|, es[1..], env);
      HoldsParts(h, m, b.cells, bs.cells, {});
      TreeValue(n, P, ds, h, m, es[0], env, tenv);
      var ts1 := TreesValue(n, P, ds, h, m + |b.cells|, es[1..], env, tenv);
      ts := [Eval(n, P, es[0], tenv).t] + ts1;
    }
  }

  // Empty cells

  lemma ExtendHolesIn(n: nat, b: Built, extra: seq<Obj>)
    requires HolesIn(n, b.cells, b.holes) && (b.o.Arr? ==> Topped(n, b))
    ensures HolesIn(n, Extend(n, b, extra).cells, Extend(n, b, extra).holes)
  {
  }

  /** What waits for a named redex is an empty cell of the body's own arrays. */
  lemma {:induction false} BodyHoles(ds: set<Symbol>, n: nat, e: Expr, env: Objs, l: Link, extra: seq<Obj>)
    requires CoreBody(e)
    ensures var b := RootBody(ds, n, e, env, l, extra); HolesIn(n, b.cells, b.holes)
    decreases e
  {
    hide RootBody, Tree, Thunk, Core, IsRedex, LetBody, Count, HolesIn, Extend;
    BodyCounts("", e);
    RootShape(ds, n, e, env, l, extra);
    if e.Let? {
      BodyHoles(ds, n, e.body, env, l, extra);
      LetHoles(n, RootBody(ds, n, e.body, env, l, extra), e, env, l);
    } else if IsRedex(ds, e) {
      ThunkTop(n, e, env, l);
      ThunkHoles(n, e, env, l);
      ExtendHolesIn(n, Thunk(n, e, env, l), extra);
    } else {
      TreeInside(ds, n, e, env);
      TreeTopped(ds, n, e, env);
      TreeHoles(n, e, env);
      ExtendHolesIn(n, Tree(n, e, env), extra);
    }
  }

  lemma TreeTopped(ds: set<Symbol>, n: nat, e: Expr, env: Objs)
    requires !e.Let? && !IsRedex(ds, e)
    ensures Tree(n, e, env).o.Arr? ==> Topped(n, Tree(n, e, env))
  {
    hide Tree;
    TreeTop(n, e, env);
  }

  lemma ThunkHoles(n: nat, e: Expr, env: Objs, l: Link)
    ensures HolesIn(n, Thunk(n, e, env, l).cells, Thunk(n, e, env, l).holes)
  {
    hide Trees, Direct, HolesIn;
    ArrayHoles(n, Elements(e), env, LinkObjs(l));
  }

  lemma LetHoles(n: nat, b: Body, e: Expr, env: Objs, l: Link)
    requires e.Let? && HolesIn(n, b.cells, b.holes)
    ensures HolesIn(n, LetBody(n, b, e, env, l).cells, LetBody(n, b, e, env, l).holes)
  {
    hide Thunk, HolesIn;
    var (a, i) := if e.x in b.holes then b.holes[e.x] else (0, 0);
    var l1 := Link(Arr(a), At(IntAtom(i)), b.k, l.exc);
    var t := Thunk(n + |b.cells|, e.rhs, env, l1);
    ThunkHoles(n + |b.cells|, e.rhs, env, l1);
    HolesJoin(n, b.cells, b.holes, t.cells, t.holes);
  }

  /** The same elements, except that an empty one may have been replaced by something unfinished. */
  ghost predicate NearArray(h: Heap, os: seq<Obj>, os1: seq<Obj>) {
    |os1| == |os| && forall i :: 0 <= i < |os| ==> os1[i] == os[i] || Open(h, os1[i])
  }

  ghost predicate Near(h: Heap, n: nat, cells: Heap, dead: set<nat>) {
    n + |cells| <= |h| && forall a :: 0 <= a < |cells| && n + a !in dead ==> NearArray(h, cells[a], h[n + a])
  }

  lemma NearParts(h: Heap, n: nat, cells: Heap, cells1: Heap, dead: set<nat>)
    requires Near(h, n, cells + cells1, dead)
    ensures Near(h, n, cells, dead) && Near(h, n + |cells|, cells1, dead)
  {
    hide NearArray;
    forall a | 0 <= a < |cells| && n + a !in dead ensures NearArray(h, cells[a], h[n + a]) {
      assert cells[a] == (cells + cells1)[a];
    }
    forall a | 0 <= a < |cells1| && n + |cells| + a !in dead ensures NearArray(h, cells1[a], h[n + |cells| + a]) {
      assert cells1[a] == (cells + cells1)[|cells| + a];
    }
  }

  /** An array with an unfinished element is unfinished. */
  lemma NearOpen(h: Heap, n: nat, os: seq<Obj>, j: nat)
    requires Near(h, n, [os], {}) && j < |os| && Open(h, os[j])
    ensures Open(h, Arr(n))
  {
    hide Open;
    assert NearArray(h, [os][0], h[n + 0]);
    OpenStep(h, Arr(n), j);
  }

  lemma NullOpen(h: Heap)
    ensures Open(h, Null)
  {
    assert OpenBy(h, Null, []);
  }

  /** A tree with an unknown variable is unfinished. */
  lemma {:induction false} TreeOpen(h: Heap, n: nat, e: Expr, env: Objs, v: Name)
    requires e.App? && Count(v, e) > 0 && v !in env && Core(e) && Near(h, n, Tree(n, e, env).cells, {})
    ensures Open(h, Tree(n, e, env).o)
    decreases e, 1
  {
    hide Trees, Direct, Open, Near, Counts, Cores;
    var b := Trees(n, e.es, env);
    NearParts(h, n, b.cells, [b.os], {});
    assert Counts(v, e.es) > 0 && Cores(e.es);
    var j := ElementOpen(h, n, e.es, env, v);
    NearOpen(h, n + |b.cells|, b.os, j);
  }

  lemma {:induction false} ElementOpen(h: Heap, n: nat, es: seq<Expr>, env: Objs, v: Name) returns (j: nat)
    requires Counts(v, es) > 0 && v !in env && Cores(es) && Near(h, n, Trees(n, es, env).cells, {})
    ensures j < |es| && Open(h, Trees(n, es, env).os[j])
    decreases es, 0
  {
    hide Tree, Trees, Count, Counts, Core, Cores, Near, Open;
    CountsPositive(v, es);
    TreesStep(n, es, env, 0, 0);
    var b := Tree(n, es[0], env);
    var bs := Trees(n + |b.cells|, es[1..], env);
    NearParts(h, n, b.cells, bs.cells, {});
    if Count(v, es[0]) == 0 {
      j := ElementOpen(h, n + |b.cells|, es[1..], env, v);
      j := j + 1;
    } else if es[0].App? {
      TreeOpen(h, n, es[0], env, v);
      j := 0;
    } else {
      OneVar(n, env, 0, 0, v, Null);
      NullOpen(h);
      j := 0;
    }
  }

  lemma CountsPositive(v: Name, es: seq<Expr>)
    requires Counts(v, es) > 0 && Cores(es)
    ensures es != [] && Cores(es[1..]) && Core(es[0])
    ensures Count(v, es[0]) == 0 ==> Counts(v, es[1..]) > 0
    ensures Count(v, es[0]) > 0 && !es[0].App? ==> es[0] == Var(v)
  {
  }

  /** While a redex is pending, what the target cell received at once is unfinished. */
  lemma {:induction false} WriteOpen(ds: set<Symbol>, h: Heap, n: nat, e: Expr, env: Objs, l: Link, extra: seq<Obj>, v: Name)
    requires !e.Let? && Count(v, e) > 0 && v !in env && Core(e)
    requires var b := RootBody(ds, n, e, env, l, extra); Near(h, n, b.cells, b.dead) && !b.write.Null?
    ensures Open(h, RootBody(ds, n, e, env, l, extra).write)
  {
    hide RootBody, Tree, Count, Core, Near, Open;
    RootShape(ds, n, e, env, l, extra);
    assert !IsRedex(ds, e);
    OnceApp(ds, e, v);
    TreeTop(n, e, env);
    ArrayOpen(h, n, e, env, extra, v);
  }

  lemma OnceApp(ds: set<Symbol>, e: Expr, v: Name)
    requires !e.Let? && !IsRedex(ds, e) && Count(v, e) > 0
    ensures e.App?
  {
  }

  lemma {:induction false} ArrayOpen(h: Heap, n: nat, e: Expr, env: Objs, extra: seq<Obj>, v: Name)
    requires e.App? && Count(v, e) > 0 && v !in env && Core(e)
    requires var b := Tree(n, e, env); Topped(n, b) && Near(h, n, Extend(n, b, extra).cells, Replaced(b, extra))
    ensures Open(h, Extend(n, Tree(n, e, env), extra).o)
  {
    if extra == [] {
      TreeOpen(h, n, e, env, v);
    } else {
      CopyOpen(h, n, e, env, extra, v);
    }
  }

  lemma {:induction false} CopyOpen(h: Heap, n: nat, e: Expr, env: Objs, extra: seq<Obj>, v: Name)
    requires e.App? && Count(v, e) > 0 && v !in env && Core(e) && extra != []
    requires var b := Tree(n, e, env); Topped(n, b) && Near(h, n, Extend(n, b, extra).cells, Replaced(b, extra))
    ensures Open(h, Extend(n, Tree(n, e, env), extra).o)
  {
    hide Trees, Direct, Open, Near, Counts, Cores;
    var b := Trees(n, e.es, env);
    var a := n + |b.cells|;
    assert Counts(v, e.es) > 0 && Cores(e.es);
    assert b.cells + [b.os] + [b.os + extra] == b.cells + [b.os, b.os + extra];
    NearParts(h, n, b.cells, [b.os, b.os + extra], {a});
    assert [b.os, b.os + extra] == [b.os] + [b.os + extra];
    NearParts(h, a, [b.os], [b.os + extra], {a});
    NearWithout(h, n, b.cells, a);
    NearWithout(h, a + 1, [b.os + extra], a);
    var j := ElementOpen(h, n, e.es, env, v);
    NearOpen(h, a + 1, b.os + extra, j);
  }

  lemma NearWithout(h: Heap, n: nat, cells: Heap, a: nat)
    requires Near(h, n, cells, {a}) && !(n <= a < n + |cells|)
    ensures Near(h, n, cells, {})
  {
    hide NearArray;
    forall b | 0 <= b < |cells| ensures NearArray(h, cells[b], h[n + b]) {
      assert n + b !in {a};
    }
  }
}
