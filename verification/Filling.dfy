/** Filling the cell that waits for a named redex is the same as having known its value from the start. */
module Filling {
  import opened Terms
  import opened Heaps
  import opened Syntax
  import opened Emit
  import opened Build
  import opened LetNormal

  type Holes = map<Name, (nat, nat)>

  /** The arrays cells, allocated from address m on, with w written to one of their cells. */
  function Filled(m: nat, cells: Heap, at: (nat, nat), w: Obj): Heap {
    if m <= at.0 < m + |cells| && at.1 < |cells[at.0 - m]|
    then cells[at.0 - m := cells[at.0 - m][at.1 := w]] else cells
  }

  // An expression without the variable is built as before.

  lemma {:induction false} TreeWithout(n: nat, e: Expr, env: Objs, v: Name, w: Obj)
    requires Count(v, e) == 0
    ensures Tree(n, e, env[v := w]) == Tree(n, e, env) && v !in Tree(n, e, env).holes
    decreases e, 1
  {
    hide Tree, Count, Counts, ArrayOf;
    LeafWithout(n, e, env, v, w);
    if e.App? {
      TreeIsArray(n, e, env);
      TreeIsArray(n, e, env[v := w]);
      ArrayWithout(n, e.es, env, [], v, w);
    }
  }

  lemma {:induction false} ArrayWithout(n: nat, es: seq<Expr>, env: Objs, prefix: seq<Obj>, v: Name, w: Obj)
    requires Counts(v, es) == 0
    ensures ArrayOf(n, es, env[v := w], prefix) == ArrayOf(n, es, env, prefix) && v !in ArrayOf(n, es, env, prefix).holes
    decreases es, 1
  {
    hide Trees, Direct;
    TreesWithout(n, es, env, v, w);
    DirectWithout(es, env, n + |Trees(n, es, env).cells|, |prefix|, v, w);
  }

  lemma LeafWithout(n: nat, e: Expr, env: Objs, v: Name, w: Obj)
    requires Count(v, e) == 0
    ensures if e.App? then Counts(v, e.es) == 0 else Tree(n, e, env[v := w]) == Tree(n, e, env) && v !in Tree(n, e, env).holes
  {
  }

  lemma {:induction false} TreesWithout(n: nat, es: seq<Expr>, env: Objs, v: Name, w: Obj)
    requires Counts(v, es) == 0
    ensures Trees(n, es, env[v := w]) == Trees(n, es, env) && v !in Trees(n, es, env).holes
    decreases es, 0
  {
    hide Tree, Trees, Direct, DirectOne, Count, Counts, Cons;
    CountsNone(v, es);
    TreesNone(n, env);
    TreesNone(n, env[v := w]);
    if es != [] {
      TreeWithout(n, es[0], env, v, w);
      TreesWithout(n + |Tree(n, es[0], env).cells|, es[1..], env, v, w);
      TreesStep(n, es, env, 0, 0);
      TreesStep(n, es, env[v := w], 0, 0);
      ConsWithout(Tree(n, es[0], env), Trees(n + |Tree(n, es[0], env).cells|, es[1..], env), v);
    }
  }

  lemma CountsNone(v: Name, es: seq<Expr>)
    requires Counts(v, es) == 0
    ensures es != [] ==> Count(v, es[0]) == 0 && Counts(v, es[1..]) == 0
  {
  }

  lemma ConsWithout(b: Built, bs: Builts, v: Name)
    requires v !in b.holes && v !in bs.holes
    ensures v !in Cons(b, bs).holes
  {
  }

  lemma TreesNone(n: nat, env: Objs)
    ensures Trees(n, [], env) == Builts([], [], map[])
  {
  }

  lemma {:induction false} DirectWithout(es: seq<Expr>, env: Objs, a: nat, i: nat, v: Name, w: Obj)
    requires Counts(v, es) == 0
    ensures Direct(es, env[v := w], a, i) == Direct(es, env, a, i) && v !in Direct(es, env, a, i)
    decreases es
  {
    if es != [] {
      DirectWithout(es[1..], env, a, i + 1, v, w);
    }
  }

  // An expression with one occurrence has one empty cell for it.

  lemma NoneLeft(h: Holes)
    ensures map[] + h == h
  {
  }

  lemma WithoutRight(h: Holes, g: Holes, g1: Holes, v: Name)
    requires v !in h && g1 == g - {v}
    ensures h + g1 == (h + g) - {v}
  {
  }

  lemma WithoutLeft(h: Holes, h1: Holes, g: Holes, v: Name)
    requires v !in g && h1 == h - {v}
    ensures h1 + g == (h + g) - {v}
  {
  }

  lemma FilledLength(n: nat, b: Built, b1: Built, v: Name, w: Obj)
    requires FilledBuilt(n, b, b1, v, w)
    ensures |b1.cells| == |b.cells|
  {
  }

  lemma FilledRight(n: nat, cells: Heap, cells1: Heap, at: (nat, nat), w: Obj)
    requires n + |cells| <= at.0
    ensures cells + Filled(n + |cells|, cells1, at, w) == Filled(n, cells + cells1, at, w)
  {
  }

  lemma FilledLeft(n: nat, cells: Heap, cells1: Heap, at: (nat, nat), w: Obj)
    requires at.0 < n + |cells|
    ensures Filled(n, cells, at, w) + cells1 == Filled(n, cells + cells1, at, w)
  {
  }

  /** The place of a cell in arrays that start at n. */
  predicate Inside(n: nat, cells: Heap, at: (nat, nat)) {
    n <= at.0 < n + |cells| && at.1 < |cells[at.0 - n]|
  }

  lemma InsideRight(n: nat, cells: Heap, cells1: Heap, at: (nat, nat))
    requires Inside(n + |cells|, cells1, at)
    ensures Inside(n, cells + cells1, at)
  {
  }

  lemma InsideLeft(n: nat, cells: Heap, cells1: Heap, at: (nat, nat))
    requires Inside(n, cells, at)
    ensures Inside(n, cells + cells1, at)
  {
  }

  /** The cell for v is in the element trees: they are filled. */
  ghost predicate FilledInside(n: nat, b: Builts, b1: Builts, d: Holes, d1: Holes, v: Name, w: Obj) {
    && v !in d && v in b.holes && Inside(n, b.cells, b.holes[v])
    && b1.cells == Filled(n, b.cells, b.holes[v], w) && b1.holes == b.holes - {v}
    && b1.os == b.os && d1 == d
  }

  /** The cell for v is an element: it becomes w. */
  ghost predicate FilledDirect(b: Builts, b1: Builts, d: Holes, d1: Holes, a: nat, i: nat, v: Name, w: Obj) {
    && v in d && v !in b.holes && b1.cells == b.cells && b1.holes == b.holes && d1 == d - {v}
    && d[v].0 == a && i <= d[v].1 < i + |b.os| && b1.os == b.os[d[v].1 - i := w]
  }

  ghost predicate FilledOnce(n: nat, b: Builts, b1: Builts, d: Holes, d1: Holes, a: nat, i: nat, v: Name, w: Obj) {
    FilledInside(n, b, b1, d, d1, v, w) || FilledDirect(b, b1, d, d1, a, i, v, w)
  }

  function Cons(b: Built, bs: Builts): Builts {
    Builts(b.cells + bs.cells, [b.o] + bs.os, b.holes + bs.holes)
  }

  lemma ConsLater(n: nat, b: Built, d0: Holes, bs: Builts, bs1: Builts, d: Holes, d1: Holes, a: nat, i: nat, v: Name, w: Obj)
    requires FilledOnce(n + |b.cells|, bs, bs1, d, d1, a, i + 1, v, w) && v !in b.holes && v !in d0
    ensures FilledOnce(n, Cons(b, bs), Cons(b, bs1), d0 + d, d0 + d1, a, i, v, w)
  {
    hide Filled, Inside;
    if FilledInside(n + |b.cells|, bs, bs1, d, d1, v, w) {
      ConsInside(n, b, d0, bs, bs1, d, d1, v, w);
    } else {
      WithoutRight(d0, d, d1, v);
      assert [b.o] + bs1.os == ([b.o] + bs.os)[d[v].1 - i := w];
    }
  }

  lemma ConsInside(n: nat, b: Built, d0: Holes, bs: Builts, bs1: Builts, d: Holes, d1: Holes, v: Name, w: Obj)
    requires FilledInside(n + |b.cells|, bs, bs1, d, d1, v, w) && v !in b.holes && v !in d0
    ensures FilledInside(n, Cons(b, bs), Cons(b, bs1), d0 + d, d0 + d1, v, w)
  {
    var p := bs.holes[v];
    WithoutRight(b.holes, bs.holes, bs1.holes, v);
    InsideRight(n, b.cells, bs.cells, p);
    FilledRight(n, b.cells, bs.cells, p, w);
  }

  lemma ConsTree(n: nat, b: Built, b1: Built, bs: Builts, d: Holes, a: nat, i: nat, v: Name, w: Obj)
    requires FilledBuilt(n, b, b1, v, w) && v !in bs.holes && v !in d
    ensures FilledOnce(n, Cons(b, bs), Cons(b1, bs), d, d, a, i, v, w)
  {
    var p := b.holes[v];
    WithoutLeft(b.holes, b1.holes, bs.holes, v);
    InsideLeft(n, b.cells, bs.cells, p);
    FilledLeft(n, b.cells, bs.cells, p, w);
  }

  lemma ConsHere(n: nat, bs: Builts, d: Holes, a: nat, i: nat, v: Name, w: Obj)
    requires v !in bs.holes && v !in d
    ensures FilledOnce(n, Cons(Built([], Null, map[]), bs), Cons(Built([], w, map[]), bs), map[v := (a, i)] + d, d, a, i, v, w)
  {
    var none: Holes := map[];
    assert [w] + bs.os == ([Null] + bs.os)[0 := w];
    assert [] + bs.cells == bs.cells && none + bs.holes == bs.holes;
    WithoutLeft(map[v := (a, i)], none, d, v);
    assert none + d == d;
  }

  // Arrays

  /** An array after the cells of its elements. */
  function ArrayOf(n: nat, es: seq<Expr>, env: Objs, prefix: seq<Obj>): Built {
    var b := Trees(n, es, env);
    var a := n + |b.cells|;
    Built(b.cells + [prefix + b.os], Arr(a), b.holes + Direct(es, env, a, |prefix|))
  }

  /** b has one cell for v, and b1 is b with w in it. */
  ghost predicate FilledBuilt(n: nat, b: Built, b1: Built, v: Name, w: Obj) {
    && v in b.holes && Inside(n, b.cells, b.holes[v])
    && b1.cells == Filled(n, b.cells, b.holes[v], w) && b1.o == b.o && b1.holes == b.holes - {v}
  }

  lemma FilledArray(n: nat, b: Builts, b1: Builts, d: Holes, d1: Holes, prefix: seq<Obj>, v: Name, w: Obj)
    requires FilledOnce(n, b, b1, d, d1, n + |b.cells|, |prefix|, v, w)
    ensures |b1.cells| == |b.cells|
    ensures FilledBuilt(n, Built(b.cells + [prefix + b.os], Arr(n + |b.cells|), b.holes + d), Built(b1.cells + [prefix + b1.os], Arr(n + |b.cells|), b1.holes + d1), v, w)
  {
    if FilledInside(n, b, b1, d, d1, v, w) {
      ArrayInside(n, b, b1, d, prefix, v, w);
    } else {
      WithoutRight(b.holes, d, d1, v);
      assert prefix + b1.os == (prefix + b.os)[d[v].1 := w];
      var cells := b.cells + [prefix + b.os];
      assert Filled(n, cells, d[v], w) == b.cells + [prefix + b1.os];
    }
  }

  lemma ArrayInside(n: nat, b: Builts, b1: Builts, d: Holes, prefix: seq<Obj>, v: Name, w: Obj)
    requires FilledInside(n, b, b1, d, d, v, w)
    ensures |b1.cells| == |b.cells|
    ensures FilledBuilt(n, Built(b.cells + [prefix + b.os], Arr(n + |b.cells|), b.holes + d), Built(b1.cells + [prefix + b1.os], Arr(n + |b.cells|), b1.holes + d), v, w)
  {
    var p := b.holes[v];
    WithoutLeft(b.holes, b1.holes, d, v);
    InsideLeft(n, b.cells, [prefix + b.os], p);
    FilledLeft(n, b.cells, [prefix + b.os], p, w);
  }

  lemma {:induction false} ArrayFill(n: nat, es: seq<Expr>, env: Objs, prefix: seq<Obj>, v: Name, w: Obj)
    requires Counts(v, es) == 1 && v !in env && Cores(es)
    ensures FilledBuilt(n, ArrayOf(n, es, env, prefix), ArrayOf(n, es, env[v := w], prefix), v, w)
    decreases es, 1
  {
    hide Trees, Direct, FilledBuilt, FilledOnce, Counts, Cores;
    var b := Trees(n, es, env);
    var b1 := Trees(n, es, env[v := w]);
    var a := n + |b.cells|;
    TreesFill(n, es, env, a, |prefix|, v, w);
    FilledArray(n, b, b1, Direct(es, env, a, |prefix|), Direct(es, env[v := w], a, |prefix|), prefix, v, w);
  }

  lemma TreeIsArray(n: nat, e: Expr, env: Objs)
    requires e.App?
    ensures Tree(n, e, env) == ArrayOf(n, e.es, env, [])
  {
    hide Trees, Direct;
    assert [] + Trees(n, e.es, env).os == Trees(n, e.es, env).os;
  }

  lemma {:induction false} TreesFill(n: nat, es: seq<Expr>, env: Objs, a: nat, i: nat, v: Name, w: Obj)
    requires Counts(v, es) == 1 && v !in env && Cores(es)
    ensures FilledOnce(n, Trees(n, es, env), Trees(n, es, env[v := w]), Direct(es, env, a, i), Direct(es, env[v := w], a, i), a, i, v, w)
    decreases es, 0
  {
    hide FilledOnce, Trees, Tree, Direct, Counts, Cores;
    FirstOrLater(es, v);
    if Count(v, es[0]) == 0 {
      FillLater(n, es, env, a, i, v, w);
    } else if es[0].App? {
      FillTree(n, es, env, a, i, v, w);
    } else {
      FillHere(n, es, env, a, i, v, w);
    }
  }

  lemma FirstOrLater(es: seq<Expr>, v: Name)
    requires Counts(v, es) == 1 && Cores(es)
    ensures es != [] && Cores(es[1..]) && Core(es[0]) && (es[0].App? ==> Cores(es[0].es) && Count(v, es[0]) == Counts(v, es[0].es))
    ensures if Count(v, es[0]) == 0 then Counts(v, es[1..]) == 1 else Counts(v, es[1..]) == 0 && Count(v, es[0]) == 1
    ensures Count(v, es[0]) == 1 && !es[0].App? ==> es[0] == Var(v)
  {
  }

  lemma TreesStep(n: nat, es: seq<Expr>, env: Objs, a: nat, i: nat)
    requires es != []
    ensures Trees(n, es, env) == Cons(Tree(n, es[0], env), Trees(n + |Tree(n, es[0], env).cells|, es[1..], env))
    ensures Direct(es, env, a, i) == DirectOne(es[0], env, a, i) + Direct(es[1..], env, a, i + 1)
  {
  }

  lemma {:induction false} FillLater(n: nat, es: seq<Expr>, env: Objs, a: nat, i: nat, v: Name, w: Obj)
    requires es != [] && Counts(v, es[1..]) == 1 && v !in env && Count(v, es[0]) == 0 && Cores(es[1..])
    ensures FilledOnce(n, Trees(n, es, env), Trees(n, es, env[v := w]), Direct(es, env, a, i), Direct(es, env[v := w], a, i), a, i, v, w)
    decreases es, 0, 0
  {
    hide Tree, Trees, Direct, DirectOne, Count, Counts, Cores, FilledOnce, Cons;
    OneWithout(es[0], env, a, i, v, w);
    TreeWithout(n, es[0], env, v, w);
    TreesStep(n, es, env, a, i);
    TreesStep(n, es, env[v := w], a, i);
    var b := Tree(n, es[0], env);
    var m := n + |b.cells|;
    TreesFill(m, es[1..], env, a, i + 1, v, w);
    ConsLater(n, b, DirectOne(es[0], env, a, i), Trees(m, es[1..], env), Trees(m, es[1..], env[v := w]),
              Direct(es[1..], env, a, i + 1), Direct(es[1..], env[v := w], a, i + 1), a, i, v, w);
  }

  lemma OneWithout(e: Expr, env: Objs, a: nat, i: nat, v: Name, w: Obj)
    requires Count(v, e) == 0
    ensures DirectOne(e, env[v := w], a, i) == DirectOne(e, env, a, i) && v !in DirectOne(e, env, a, i)
  {
  }

  lemma OneApp(e: Expr, env: Objs, a: nat, i: nat)
    requires e.App?
    ensures DirectOne(e, env, a, i) == map[]
  {
  }

  lemma OneVar(n: nat, env: Objs, a: nat, i: nat, v: Name, w: Obj)
    requires v !in env
    ensures Tree(n, Var(v), env) == Built([], Null, map[]) && Tree(n, Var(v), env[v := w]) == Built([], w, map[])
    ensures DirectOne(Var(v), env, a, i) == map[v := (a, i)] && DirectOne(Var(v), env[v := w], a, i) == map[]
  {
  }

  lemma {:induction false} FillTree(n: nat, es: seq<Expr>, env: Objs, a: nat, i: nat, v: Name, w: Obj)
    requires es != [] && Counts(v, es[1..]) == 0 && v !in env && es[0].App? && Counts(v, es[0].es) == 1 && Cores(es[0].es)
    ensures FilledOnce(n, Trees(n, es, env), Trees(n, es, env[v := w]), Direct(es, env, a, i), Direct(es, env[v := w], a, i), a, i, v, w)
    decreases es, 0, 0
  {
    hide Tree, Trees, Direct, DirectOne, Count, Counts, Cores, Cons, ArrayOf, FilledBuilt, FilledOnce;
    TreeIsArray(n, es[0], env);
    TreeIsArray(n, es[0], env[v := w]);
    ArrayFill(n, es[0].es, env, [], v, w);
    var b := Tree(n, es[0], env);
    var b1 := Tree(n, es[0], env[v := w]);
    var m := n + |b.cells|;
    OneApp(es[0], env, a, i);
    OneApp(es[0], env[v := w], a, i);
    FilledLength(n, b, b1, v, w);
    TreesWithout(m, es[1..], env, v, w);
    DirectWithout(es[1..], env, a, i + 1, v, w);
    TreesStep(n, es, env, a, i);
    TreesStep(n, es, env[v := w], a, i);
    NoneLeft(Direct(es[1..], env, a, i + 1));
    ConsTree(n, b, b1, Trees(m, es[1..], env), Direct(es[1..], env, a, i + 1), a, i, v, w);
  }

  lemma {:induction false} FillHere(n: nat, es: seq<Expr>, env: Objs, a: nat, i: nat, v: Name, w: Obj)
    requires es != [] && es[0] == Var(v) && Counts(v, es[1..]) == 0 && v !in env
    ensures FilledOnce(n, Trees(n, es, env), Trees(n, es, env[v := w]), Direct(es, env, a, i), Direct(es, env[v := w], a, i), a, i, v, w)
  {
    hide Tree, Trees, Direct, DirectOne, Count, Counts, Cons, FilledOnce;
    OneVar(n, env, a, i, v, w);
    TreesWithout(n, es[1..], env, v, w);
    DirectWithout(es[1..], env, a, i + 1, v, w);
    TreesStep(n, es, env, a, i);
    TreesStep(n, es, env[v := w], a, i);
    var d := Direct(es[1..], env, a, i + 1);
    NoneLeft(d);
    ConsHere(n, Trees(n, es[1..], env), d, a, i, v, w);
  }

  // Bodies

  /** Outside the arrays that were replaced, the two have the same contents. */
  ghost predicate SameLive(n: nat, cells: Heap, cells1: Heap, dead: set<nat>) {
    |cells| == |cells1| && forall a :: 0 <= a < |cells| && n + a !in dead ==> cells[a] == cells1[a]
  }

  ghost predicate FilledBody(n: nat, b: Body, b1: Body, v: Name, w: Obj) {
    && v in b.holes && Inside(n, b.cells, b.holes[v]) && b.holes[v].0 !in b.dead
    && SameLive(n, Filled(n, b.cells, b.holes[v], w), b1.cells, b.dead)
    && b1 == Body(b1.cells, b.k, b.holes - {v}, b.write, b.dead)
  }

  lemma ThunkIsArray(n: nat, e: Expr, env: Objs, l: Link)
    ensures Thunk(n, e, env, l) == ArrayOf(n, Elements(e), env, LinkObjs(l))
  {
    hide Trees, Direct;
  }

  lemma ElementsCount(v: Name, e: Expr)
    requires Core(e)
    ensures Counts(v, Elements(e)) == Count(v, e) && Cores(Elements(e))
  {
    if !e.App? {
      assert [e][1..] == [];
    }
  }

  lemma ThunkWithout(n: nat, e: Expr, env: Objs, l: Link, v: Name, w: Obj)
    requires Count(v, e) == 0 && Core(e)
    ensures Thunk(n, e, env[v := w], l) == Thunk(n, e, env, l) && v !in Thunk(n, e, env, l).holes
  {
    hide Thunk, ArrayOf, Count, Counts, Core, Cores, Elements;
    ElementsCount(v, e);
    ThunkIsArray(n, e, env, l);
    ThunkIsArray(n, e, env[v := w], l);
    ArrayWithout(n, Elements(e), env, LinkObjs(l), v, w);
  }

  lemma ThunkFill(n: nat, e: Expr, env: Objs, l: Link, v: Name, w: Obj)
    requires Count(v, e) == 1 && Core(e) && v !in env
    ensures FilledBuilt(n, Thunk(n, e, env, l), Thunk(n, e, env[v := w], l), v, w)
    ensures Topped(n, Thunk(n, e, env, l))
  {
    hide Thunk, Count, Counts, Core, Cores, Elements, FilledBuilt, Trees, Direct;
    ElementsCount(v, e);
    ThunkIsArray(n, e, env, l);
    ThunkIsArray(n, e, env[v := w], l);
    ArrayFill(n, Elements(e), env, LinkObjs(l), v, w);
  }

  /** The object is the last array. */
  ghost predicate Topped(n: nat, b: Built) {
    b.cells != [] && b.o == Arr(n + |b.cells| - 1)
  }

  /** A copy with the left-over arguments; the array it replaces is dead. */
  lemma ExtendFill(n: nat, b: Built, b1: Built, extra: seq<Obj>, k: Obj, write: Obj, v: Name, w: Obj)
    requires FilledBuilt(n, b, b1, v, w) && Topped(n, b)
    ensures b1.cells != [] && b1.o == b.o && |b1.cells| == |b.cells|
    ensures Extend(n, b1, extra).o == Extend(n, b, extra).o && Replaced(b1, extra) == Replaced(b, extra)
    ensures FilledBody(n, Body(Extend(n, b, extra).cells, k, Extend(n, b, extra).holes, write, Replaced(b, extra)),
                       Body(Extend(n, b1, extra).cells, k, Extend(n, b1, extra).holes, write, Replaced(b1, extra)), v, w)
  {
    if extra != [] {
      var t := Extend(n, b, extra);
      var t1 := Extend(n, b1, extra);
      var top := b.cells[|b.cells| - 1];
      var top1 := b1.cells[|b.cells| - 1];
      var a := n + |b.cells|;
      assert t1.holes == t.holes - {v};
      if b.holes[v].0 == b.o.addr {
        assert top1 + extra == (top + extra)[b.holes[v].1 := w];
        assert t.holes[v] == (a, b.holes[v].1);
      } else {
        assert top1 == top;
        assert t.holes[v] == b.holes[v];
      }
    }
  }

  /** What RootBody does for a let. */
  function LetBody(n: nat, b: Body, e: Expr, env: Objs, l: Link): Body
    requires e.Let?
  {
    var (a, i) := if e.x in b.holes then b.holes[e.x] else (0, 0);
    var t := Thunk(n + |b.cells|, e.rhs, env, Link(Arr(a), At(IntAtom(i)), b.k, l.exc));
    Body(b.cells + t.cells, t.o, b.holes + t.holes, b.write, b.dead)
  }

  lemma RootShape(ds: set<Symbol>, n: nat, e: Expr, env: Objs, l: Link, extra: seq<Obj>)
    ensures e.Let? ==> RootBody(ds, n, e, env, l, extra) == LetBody(n, RootBody(ds, n, e.body, env, l, extra), e, env, l)
    ensures !e.Let? && IsRedex(ds, e) ==>
      var b := Thunk(n, e, env, l);
      var t := Extend(n, b, extra);
      RootBody(ds, n, e, env, l, extra) == Body(t.cells, t.o, t.holes, Null, Replaced(b, extra))
    ensures !e.Let? && !IsRedex(ds, e) ==>
      var b := Tree(n, e, env);
      (b.o.Arr? ==> n <= b.o.addr < n + |b.cells|) ==>
      var t := Extend(n, b, extra);
      RootBody(ds, n, e, env, l, extra) == Body(t.cells, l.k, t.holes, t.o, Replaced(b, extra))
  {
    hide Thunk, Tree, Extend;
  }

  lemma BodyCounts(v: Name, e: Expr)
    requires CoreBody(e)
    ensures e.Let? ==> Count(v, e) == Count(v, e.rhs) + Count(v, e.body) && Core(e.rhs) && CoreBody(e.body)
    ensures !e.Let? ==> Core(e) && (e.App? ==> e.es != [])
  {
  }

  lemma {:induction false} RootWithout(ds: set<Symbol>, n: nat, e: Expr, env: Objs, l: Link, extra: seq<Obj>, v: Name, w: Obj)
    requires Count(v, e) == 0 && CoreBody(e)
    ensures RootBody(ds, n, e, env[v := w], l, extra) == RootBody(ds, n, e, env, l, extra) && v !in RootBody(ds, n, e, env, l, extra).holes
    decreases e
  {
    hide RootBody, Tree, Thunk, Count, Core, CoreBody, IsRedex, Extend, LetBody, Replaced;
    BodyCounts(v, e);
    TreeTop(n, e, env);
    RootShape(ds, n, e, env, l, extra);
    RootShape(ds, n, e, env[v := w], l, extra);
    if e.Let? {
      RootWithout(ds, n, e.body, env, l, extra, v, w);
      LetWithout(n, RootBody(ds, n, e.body, env, l, extra), e, env, l, v, w);
    } else if IsRedex(ds, e) {
      ThunkWithout(n, e, env, l, v, w);
      ThunkTop(n, e, env, l);
      ExtendHoles(n, Thunk(n, e, env, l), extra, v);
    } else {
      TreeWithout(n, e, env, v, w);
      TreeInside(ds, n, e, env);
      ExtendHoles(n, Tree(n, e, env), extra, v);
    }
  }

  lemma TreeTop(n: nat, e: Expr, env: Objs)
    ensures e.App? ==> Topped(n, Tree(n, e, env))
    ensures var b := Tree(n, e, env); b.o.Arr? && e.App? ==> n <= b.o.addr < n + |b.cells|
    ensures !e.App? ==> Tree(n, e, env) == Built([], LeafObj(e, env), map[])
  {
  }

  lemma TreeInside(ds: set<Symbol>, n: nat, e: Expr, env: Objs)
    requires !e.Let? && !IsRedex(ds, e)
    ensures var b := Tree(n, e, env); b.o.Arr? ==> n <= b.o.addr < n + |b.cells|
  {
    hide Tree;
    TreeTop(n, e, env);
  }

  lemma ExtendHoles(n: nat, b: Built, extra: seq<Obj>, v: Name)
    requires b.o.Arr? ==> n <= b.o.addr < n + |b.cells|
    requires v !in b.holes
    ensures v !in Extend(n, b, extra).holes
  {
  }

  lemma LetWithout(n: nat, b: Body, e: Expr, env: Objs, l: Link, v: Name, w: Obj)
    requires e.Let? && Count(v, e.rhs) == 0 && Core(e.rhs) && v !in b.holes
    ensures LetBody(n, b, e, env[v := w], l) == LetBody(n, b, e, env, l) && v !in LetBody(n, b, e, env, l).holes
  {
    hide Thunk, Count, Core;
    var (a, i) := if e.x in b.holes then b.holes[e.x] else (0, 0);
    ThunkWithout(n + |b.cells|, e.rhs, env, Link(Arr(a), At(IntAtom(i)), b.k, l.exc), v, w);
  }

  /** A body with one occurrence of v, built without knowing v and then filled, is the body built with v. */
  lemma {:induction false} RootFill(ds: set<Symbol>, n: nat, e: Expr, env: Objs, l: Link, extra: seq<Obj>, v: Name, w: Obj)
    requires Count(v, e) == 1 && CoreBody(e) && v !in env && LetsAvoid(e, v)
    ensures FilledBody(n, RootBody(ds, n, e, env, l, extra), RootBody(ds, n, e, env[v := w], l, extra), v, w)
    decreases e
  {
    hide RootBody, Tree, Thunk, Count, Core, CoreBody, IsRedex, Extend, LetBody, Replaced, FilledBody, FilledBuilt;
    BodyCounts(v, e);
    RootShape(ds, n, e, env, l, extra);
    RootShape(ds, n, e, env[v := w], l, extra);
    if e.Let? {
      var b := RootBody(ds, n, e.body, env, l, extra);
      if Count(v, e.rhs) == 0 {
        RootFill(ds, n, e.body, env, l, extra, v, w);
        LetFillBody(n, b, RootBody(ds, n, e.body, env[v := w], l, extra), e, env, l, v, w);
      } else {
        RootWithout(ds, n, e.body, env, l, extra, v, w);
        DeadInside(ds, n, e.body, env, l, extra);
        LetFillThunk(n, b, e, env, l, v, w);
      }
    } else if IsRedex(ds, e) {
      ThunkFill(n, e, env, l, v, w);
      ExtendFill(n, Thunk(n, e, env, l), Thunk(n, e, env[v := w], l), extra, Extend(n, Thunk(n, e, env, l), extra).o, Null, v, w);
    } else {
      OnceIsApp(ds, e, v);
      TreeTop(n, e, env);
      TreeTop(n, e, env[v := w]);
      TreeFill(n, e, env, v, w);
      ExtendFill(n, Tree(n, e, env), Tree(n, e, env[v := w]), extra, l.k, Extend(n, Tree(n, e, env), extra).o, v, w);
    }
  }

  /** No let binds v. */
  predicate LetsAvoid(e: Expr, v: Name) {
    e.Let? ==> e.x != v && LetsAvoid(e.body, v)
  }

  lemma OnceIsApp(ds: set<Symbol>, e: Expr, v: Name)
    requires !e.Let? && !IsRedex(ds, e) && Count(v, e) == 1
    ensures e.App?
  {
  }

  lemma TreeFill(n: nat, e: Expr, env: Objs, v: Name, w: Obj)
    requires e.App? && Count(v, e) == 1 && Core(e) && v !in env
    ensures FilledBuilt(n, Tree(n, e, env), Tree(n, e, env[v := w]), v, w)
  {
    hide Tree, ArrayOf, FilledBuilt;
    TreeIsArray(n, e, env);
    TreeIsArray(n, e, env[v := w]);
    ArrayFill(n, e.es, env, [], v, w);
  }

  /** Replaced arrays are among the first ones. */
  lemma {:induction false} DeadInside(ds: set<Symbol>, n: nat, e: Expr, env: Objs, l: Link, extra: seq<Obj>)
    requires CoreBody(e)
    ensures var b := RootBody(ds, n, e, env, l, extra); forall a :: a in b.dead ==> n <= a < n + |b.cells|
    decreases e
  {
    hide RootBody, Tree, Thunk, Core, IsRedex, LetBody, Count;
    BodyCounts("", e);
    RootShape(ds, n, e, env, l, extra);
    TreeTop(n, e, env);
    if e.Let? {
      DeadInside(ds, n, e.body, env, l, extra);
      LetDead(n, RootBody(ds, n, e.body, env, l, extra), e, env, l);
    } else if IsRedex(ds, e) {
      ThunkTop(n, e, env, l);
    } else {
      TreeInside(ds, n, e, env);
    }
  }

  lemma LetDead(n: nat, b: Body, e: Expr, env: Objs, l: Link)
    requires e.Let?
    ensures LetBody(n, b, e, env, l).dead == b.dead && |LetBody(n, b, e, env, l).cells| >= |b.cells|
  {
    hide Thunk;
  }

  lemma ThunkTop(n: nat, e: Expr, env: Objs, l: Link)
    ensures Topped(n, Thunk(n, e, env, l))
  {
    hide Trees, Direct;
  }

  lemma LetFillBody(n: nat, b: Body, b1: Body, e: Expr, env: Objs, l: Link, v: Name, w: Obj)
    requires e.Let? && e.x != v && Count(v, e.rhs) == 0 && Core(e.rhs) && FilledBody(n, b, b1, v, w)
    ensures FilledBody(n, LetBody(n, b, e, env, l), LetBody(n, b1, e, env[v := w], l), v, w)
  {
    hide Thunk, Count, Core;
    var (a, i) := if e.x in b.holes then b.holes[e.x] else (0, 0);
    var l1 := Link(Arr(a), At(IntAtom(i)), b.k, l.exc);
    ThunkWithout(n + |b.cells|, e.rhs, env, l1, v, w);
    var t := Thunk(n + |b.cells|, e.rhs, env, l1);
    WithoutLeft(b.holes, b1.holes, t.holes, v);
    FilledLeft(n, b.cells, t.cells, b.holes[v], w);
  }

  lemma LetFillThunk(n: nat, b: Body, e: Expr, env: Objs, l: Link, v: Name, w: Obj)
    requires e.Let? && Count(v, e.rhs) == 1 && Core(e.rhs) && v !in env && v !in b.holes
    requires forall a :: a in b.dead ==> n <= a < n + |b.cells|
    ensures FilledBody(n, LetBody(n, b, e, env, l), LetBody(n, b, e, env[v := w], l), v, w)
  {
    hide Thunk, Count, Core;
    var (a, i) := if e.x in b.holes then b.holes[e.x] else (0, 0);
    var l1 := Link(Arr(a), At(IntAtom(i)), b.k, l.exc);
    ThunkFill(n + |b.cells|, e.rhs, env, l1, v, w);
    var t := Thunk(n + |b.cells|, e.rhs, env, l1);
    var t1 := Thunk(n + |b.cells|, e.rhs, env[v := w], l1);
    WithoutRight(b.holes, t.holes, t1.holes, v);
    FilledRight(n, b.cells, t.cells, t.holes[v], w);
  }
}
