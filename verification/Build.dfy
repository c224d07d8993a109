/** The arrays a body allocates: a description of its thunks and trees without registers. */
module Build {
  import opened Terms
  import opened Heaps
  import opened Syntax
  import opened Bytecode
  import opened Emit

  type Objs = map<Name, Obj>

  /** New arrays, the resulting object, and the empty cells that wait for named redexes. */
  datatype Built = Built(cells: Heap, o: Obj, holes: map<Name, (nat, nat)>)

  datatype Builts = Builts(cells: Heap, os: seq<Obj>, holes: map<Name, (nat, nat)>)

  function LeafObj(e: Expr, env: Objs): Obj {
    match e
    case Const(a) => At(a)
    case Var(v) => if v in env then env[v] else Null
    case _ => Null
  }

  function DirectOne(e: Expr, env: Objs, a: nat, i: nat): map<Name, (nat, nat)> {
    if e.Var? && e.v !in env then map[e.v := (a, i)] else map[]
  }

  /** The cells i, i+1, .. of array a that stay empty. */
  function Direct(es: seq<Expr>, env: Objs, a: nat, i: nat): map<Name, (nat, nat)>
    decreases es
  {
    if es == [] then map[] else DirectOne(es[0], env, a, i) + Direct(es[1..], env, a, i + 1)
  }

  /** The tree e, built in a store that has n arrays. */
  function Tree(n: nat, e: Expr, env: Objs): Built
    decreases e, 1
  {
    if e.App? then
      var b := Trees(n, e.es, env);
      var a := n + |b.cells|;
      Built(b.cells + [b.os], Arr(a), b.holes + Direct(e.es, env, a, 0))
    else Built([], LeafObj(e, env), map[])
  }

  function Trees(n: nat, es: seq<Expr>, env: Objs): (b: Builts)
    ensures |b.os| == |es|
    decreases es, 0
  {
    if es == [] then Builts([], [], map[])
    else
      var b := Tree(n, es[0], env);
      var bs := Trees(n + |b.cells|, es[1..], env);
      Builts(b.cells + bs.cells, [b.o] + bs.os, b.holes + bs.holes)
  }

  /** The empty cells of a tree lie in its own arrays. */
  ghost predicate HolesIn(n: nat, cells: Heap, holes: map<Name, (nat, nat)>) {
    forall v :: v in holes ==>
      n <= holes[v].0 < n + |cells| && holes[v].1 < |cells[holes[v].0 - n]| && cells[holes[v].0 - n][holes[v].1] == Null
  }

  lemma {:induction false} DirectIn(es: seq<Expr>, env: Objs, a: nat, i: nat, os: seq<Obj>, j: nat)
    requires j + |es| <= |os|
    requires forall q :: 0 <= q < |es| && es[q].Var? && es[q].v !in env ==> os[j + q] == Null
    ensures forall v :: v in Direct(es, env, a, i) ==>
      Direct(es, env, a, i)[v].0 == a && i <= Direct(es, env, a, i)[v].1 < i + |es| && os[j + Direct(es, env, a, i)[v].1 - i] == Null
    decreases es
  {
    if es != [] {
      assert forall q :: 0 <= q < |es[1..]| && es[1..][q].Var? && es[1..][q].v !in env ==> os[j + 1 + q] == Null by {
        forall q | 0 <= q < |es[1..]| && es[1..][q].Var? && es[1..][q].v !in env ensures os[j + 1 + q] == Null {
          assert es[1..][q] == es[q + 1];
        }
      }
      DirectIn(es[1..], env, a, i + 1, os, j + 1);
      assert es[0].Var? && es[0].v !in env ==> os[j + 0] == Null;
    }
  }

  lemma {:induction false} LeafSlots(n: nat, es: seq<Expr>, env: Objs)
    ensures forall q :: 0 <= q < |es| && !es[q].App? ==> Trees(n, es, env).os[q] == LeafObj(es[q], env)
    decreases es
  {
    if es != [] {
      LeafSlots(n + |Tree(n, es[0], env).cells|, es[1..], env);
    }
  }

  lemma HolesJoin(n: nat, cells: Heap, holes: map<Name, (nat, nat)>, cells1: Heap, holes1: map<Name, (nat, nat)>)
    requires HolesIn(n, cells, holes) && HolesIn(n + |cells|, cells1, holes1)
    ensures HolesIn(n, cells + cells1, holes + holes1)
  {
  }

  lemma {:induction false} TreesHoles(n: nat, es: seq<Expr>, env: Objs)
    ensures HolesIn(n, Trees(n, es, env).cells, Trees(n, es, env).holes)
    decreases es, 0
  {
    hide Tree, Trees;
    TreesShape(n, es, env);
    if es != [] {
      var b := Tree(n, es[0], env);
      var bs := Trees(n + |b.cells|, es[1..], env);
      TreeHoles(n, es[0], env);
      TreesHoles(n + |b.cells|, es[1..], env);
      HolesJoin(n, b.cells, b.holes, bs.cells, bs.holes);
    }
  }

  lemma TreesShape(n: nat, es: seq<Expr>, env: Objs)
    ensures es == [] ==> Trees(n, es, env) == Builts([], [], map[])
    ensures es != [] ==>
      var b := Tree(n, es[0], env);
      var bs := Trees(n + |b.cells|, es[1..], env);
      Trees(n, es, env) == Builts(b.cells + bs.cells, [b.o] + bs.os, b.holes + bs.holes)
  {
  }

  lemma {:induction false} TreeHoles(n: nat, e: Expr, env: Objs)
    ensures HolesIn(n, Tree(n, e, env).cells, Tree(n, e, env).holes)
    decreases e, 1
  {
    if e.App? {
      ArrayHoles(n, e.es, env, []);
      assert [] + Trees(n, e.es, env).os == Trees(n, e.es, env).os;
    }
  }

  /** An array of elements, after a prefix, with the cells of its elements. */
  lemma {:induction false} ArrayHoles(n: nat, es: seq<Expr>, env: Objs, prefix: seq<Obj>)
    ensures var b := Trees(n, es, env);
            HolesIn(n, b.cells + [prefix + b.os], b.holes + Direct(es, env, n + |b.cells|, |prefix|))
    decreases es, 1
  {
    hide Tree, Trees, Direct;
    var b := Trees(n, es, env);
    TreesHoles(n, es, env);
    LeafSlots(n, es, env);
    var os := prefix + b.os;
    DirectIn(es, env, n + |b.cells|, |prefix|, os, |prefix|);
    assert HolesIn(n + |b.cells|, [os], Direct(es, env, n + |b.cells|, |prefix|));
    HolesJoin(n, b.cells, b.holes, [os], Direct(es, env, n + |b.cells|, |prefix|));
  }

  /** The link of a thunk: target array, index in it, continuation, handler. */
  datatype Link = Link(rt: Obj, rti: Obj, k: Obj, exc: Obj)

  function LinkObjs(l: Link): seq<Obj> {
    [l.rt, l.rti, l.k, l.exc]
  }

  /** The elements of the application a redex is. */
  function Elements(e: Expr): seq<Expr> {
    if e.App? then e.es else [e]
  }

  function Thunk(n: nat, e: Expr, env: Objs, l: Link): Built {
    var b := Trees(n, Elements(e), env);
    var a := n + |b.cells|;
    Built(b.cells + [LinkObjs(l) + b.os], Arr(a), b.holes + Direct(Elements(e), env, a, 4))
  }

  /** An array made longer by the left-over arguments is a copy. */
  function Extend(n: nat, b: Built, extra: seq<Obj>): Built
    requires b.o.Arr? ==> n <= b.o.addr < n + |b.cells|
  {
    if extra == [] then b
    else if !b.o.Arr? then Built(b.cells + [[b.o] + extra], Arr(n + |b.cells|), b.holes)
    else
      var a := n + |b.cells|;
      Built(b.cells + [b.cells[b.o.addr - n] + extra], Arr(a), map v | v in b.holes :: if b.holes[v].0 == b.o.addr then (a, b.holes[v].1) else b.holes[v])
  }

  /** A body: new arrays, first continuation, empty cells, what its target cell receives at once,
      and the array that a longer copy replaced. */
  datatype Body = Body(cells: Heap, k: Obj, holes: map<Name, (nat, nat)>, write: Obj, dead: set<nat>)

  function Replaced(b: Built, extra: seq<Obj>): set<nat> {
    if extra == [] || !b.o.Arr? then {} else {b.o.addr}
  }

  function RootBody(ds: set<Symbol>, n: nat, e: Expr, env: Objs, l: Link, extra: seq<Obj>): Body
    decreases e
  {
    if e.Let? then
      var b := RootBody(ds, n, e.body, env, l, extra);
      var (a, i) := if e.x in b.holes then b.holes[e.x] else (0, 0);
      var t := Thunk(n + |b.cells|, e.rhs, env, Link(Arr(a), At(IntAtom(i)), b.k, l.exc));
      Body(b.cells + t.cells, t.o, b.holes + t.holes, b.write, b.dead)
    else if IsRedex(ds, e) then
      var b := Thunk(n, e, env, l);
      var t := Extend(n, b, extra);
      Body(t.cells, t.o, t.holes, Null, Replaced(b, extra))
    else
      var b := Tree(n, e, env);
      var t := Extend(n, b, extra);
      Body(t.cells, l.k, t.holes, t.o, Replaced(b, extra))
  }
}
