/** Reference counting with a deferred destructor: the array destructor of src/runtime.hpp puts the elements
    of a dying array on a stack, and only the outermost destructor empties that stack. */
module Destruction {
  import opened Common

  /** A shared pointer: null, or to an object. */
  datatype Ref = Nil | To(a: nat)

  /** An object of the heap with its reference count; an object without elements stands for any leaf. */
  datatype Cell = Dead | Live(elems: seq<Ref>, count: nat)

  type Cells = seq<Cell>

  predicate Alive(cells: Cells, a: nat) {
    a < |cells| && cells[a].Live?
  }

  function Count(cells: Cells, a: nat): nat {
    if Alive(cells, a) then cells[a].count else 0
  }

  function Refs(cell: Cell, a: nat): nat {
    if cell.Live? then multiset(cell.elems)[To(a)] else 0
  }

  /** The references to a held by the arrays alive. */
  function Incoming(cells: Cells, a: nat): nat {
    if cells == [] then 0 else Refs(cells[0], a) + Incoming(cells[1..], a)
  }

  /** The references held in all arrays alive. */
  function Total(cells: Cells): nat {
    if cells == [] then 0 else (if cells[0].Live? then |cells[0].elems| else 0) + Total(cells[1..])
  }

  /** All references to a: from arrays, from the destructor's stack, from the rest of the program. */
  function Holds(cells: Cells, stack: seq<Ref>, roots: multiset<nat>, a: nat): nat {
    Incoming(cells, a) + multiset(stack)[To(a)] + roots[a]
  }

  /** Every count is the number of references; nothing refers to a dead object. */
  ghost predicate Counted(cells: Cells, stack: seq<Ref>, roots: multiset<nat>) {
    forall a: nat :: Count(cells, a) == Holds(cells, stack, roots, a)
  }

  ghost predicate Positive(cells: Cells) {
    forall a: nat :: Alive(cells, a) ==> cells[a].count > 0
  }

  function With(roots: multiset<nat>, r: Ref): multiset<nat> {
    if r.To? then roots + multiset{r.a} else roots
  }

  function Less(cells: Cells, a: nat): Cells
    requires Alive(cells, a) && cells[a].count > 0
  {
    cells[a := cells[a].(count := cells[a].count - 1)]
  }

  function More(cells: Cells, r: Ref): Cells
    requires r.To? ==> Alive(cells, r.a)
  {
    if r.To? then cells[r.a := cells[r.a].(count := cells[r.a].count + 1)] else cells
  }

  function Put(cells: Cells, a: nat, i: nat, r: Ref): Cells
    requires Alive(cells, a) && i < |cells[a].elems| && (r.To? ==> Alive(cells, r.a))
  {
    var c := More(cells, r);
    c[a := c[a].(elems := c[a].elems[i := r])]
  }

  /** The heap c has the objects of c0 with their elements, except that element i of a is r. */
  ghost predicate Written(c0: Cells, a: nat, i: nat, r: Ref, c: Cells) {
    && |c| == |c0|
    && (forall b: nat :: Alive(c, b) == Alive(c0, b))
    && (forall b: nat :: b != a && Alive(c0, b) ==> c[b].elems == c0[b].elems)
    && Alive(c0, a) && |c[a].elems| == |c0[a].elems| && i < |c[a].elems| && c[a].elems[i] == r
    && (forall j :: 0 <= j < |c[a].elems| && j != i ==> c[a].elems[j] == c0[a].elems[j])
  }

  lemma PutWritten(cells: Cells, a: nat, i: nat, r: Ref)
    requires Alive(cells, a) && i < |cells[a].elems| && (r.To? ==> Alive(cells, r.a))
    ensures Written(cells, a, i, r, Put(cells, a, i, r))
  {
    var c := Put(cells, a, i, r);
    assert Alive(c, a);
    forall b: nat
      ensures Alive(c, b) == Alive(cells, b)
      ensures b != a && Alive(cells, b) ==> c[b].elems == cells[b].elems
    {
    }
  }

  // Sums over the heap

  lemma {:induction false} IncomingUpdate(cells: Cells, x: nat, c: Cell, a: nat)
    requires x < |cells|
    ensures Incoming(cells[x := c], a) + Refs(cells[x], a) == Incoming(cells, a) + Refs(c, a)
  {
    if x > 0 {
      assert cells[x := c][1..] == cells[1..][x - 1 := c];
      IncomingUpdate(cells[1..], x - 1, c, a);
    }
  }

  lemma {:induction false} TotalUpdate(cells: Cells, x: nat)
    requires Alive(cells, x)
    ensures Total(cells[x := Dead]) + |cells[x].elems| == Total(cells)
  {
    if x > 0 {
      assert cells[x := Dead][1..] == cells[1..][x - 1 := Dead];
      TotalUpdate(cells[1..], x - 1);
    }
  }

  lemma {:induction false} TotalLess(cells: Cells, x: nat)
    requires Alive(cells, x) && cells[x].count > 0
    ensures Total(Less(cells, x)) == Total(cells)
  {
    if x > 0 {
      assert Less(cells, x)[1..] == Less(cells[1..], x - 1);
      TotalLess(cells[1..], x - 1);
    }
  }

  lemma {:induction false} IncomingAt(cells: Cells, x: nat, a: nat)
    requires x < |cells|
    ensures Refs(cells[x], a) <= Incoming(cells, a)
  {
    if x > 0 {
      IncomingAt(cells[1..], x - 1, a);
    }
  }

  lemma {:induction false} IncomingFrom(cells: Cells, a: nat) returns (x: nat)
    requires Incoming(cells, a) > 0
    ensures Alive(cells, x) && To(a) in cells[x].elems
  {
    if Refs(cells[0], a) > 0 {
      x := 0;
    } else {
      x := IncomingFrom(cells[1..], a);
      x := x + 1;
    }
  }

  lemma CountedLess(cells: Cells, stack: seq<Ref>, roots: multiset<nat>, a: nat)
    requires Counted(cells, stack, roots + multiset{a}) 
    ensures Alive(cells, a) && cells[a].count > 0 && Counted(Less(cells, a), stack, roots)
  {
    assert Count(cells, a) == Holds(cells, stack, roots + multiset{a}, a);
    forall b: nat
      ensures Count(Less(cells, a), b) == Holds(Less(cells, a), stack, roots, b)
    {
      assert Count(cells, b) == Holds(cells, stack, roots + multiset{a}, b);
      IncomingUpdate(cells, a, Less(cells, a)[a], b);
    }
  }

  lemma CountedFree(cells: Cells, stack: seq<Ref>, roots: multiset<nat>, a: nat)
    requires Counted(cells, stack, roots) && Alive(cells, a) && cells[a].count == 0
    ensures Counted(cells[a := Dead], stack + cells[a].elems, roots)
  {
    var after, rest := cells[a := Dead], stack + cells[a].elems;
    forall b: nat
      ensures Count(after, b) == Holds(after, rest, roots, b)
    {
      assert Count(cells, b) == Holds(cells, stack, roots, b);
      IncomingUpdate(cells, a, Dead, b);
    }
  }

  // Which objects must stay

  /** Every object of the set is alive, and a root or referred to from the set. */
  ghost predicate Supported(cells: Cells, roots: multiset<nat>, s: set<nat>) {
    forall a :: a in s ==> Alive(cells, a) && (roots[a] > 0 || exists x :: x in s && Alive(cells, x) && To(a) in cells[x].elems)
  }

  /** No supported object is freed. */
  ghost predicate Keeps(cells: Cells, roots: multiset<nat>, after: Cells) {
    forall s: set<nat>, a :: Supported(cells, roots, s) && a in s ==> Alive(after, a)
  }

  /** What is still alive has its elements. */
  ghost predicate Shrunk(cells: Cells, after: Cells) {
    && |after| == |cells|
    && forall a: nat :: Alive(after, a) ==> Alive(cells, a) && after[a].elems == cells[a].elems
  }

  lemma SupportedAfter(cells: Cells, roots: multiset<nat>, after: Cells, s: set<nat>)
    requires Keeps(cells, roots, after) && Shrunk(cells, after) && Supported(cells, roots, s)
    ensures Supported(after, roots, s)
  {
    forall a | a in s
      ensures Alive(after, a) && (roots[a] > 0 || exists x :: x in s && Alive(after, x) && To(a) in after[x].elems)
    {
      assert Alive(after, a);
      if roots[a] == 0 {
        var x :| x in s && Alive(cells, x) && To(a) in cells[x].elems;
        assert Alive(after, x);
      }
    }
  }

  lemma KeepsFree(cells: Cells, stack: seq<Ref>, roots: multiset<nat>, a: nat)
    requires Counted(cells, stack, roots) && Alive(cells, a) && cells[a].count == 0
    ensures Keeps(cells, roots, cells[a := Dead])
  {
    forall s: set<nat>, b | Supported(cells, roots, s) && b in s
      ensures Alive(cells[a := Dead], b)
    {
      if a in s {
        assert Count(cells, a) == Holds(cells, stack, roots, a);
        var x :| x in s && Alive(cells, x) && To(a) in cells[x].elems;
        IncomingAt(cells, x, a);
        assert false;
      }
    }
  }

  lemma KeepsTrans(c0: Cells, roots: multiset<nat>, c1: Cells, c2: Cells)
    requires Keeps(c0, roots, c1) && Shrunk(c0, c1) && Keeps(c1, roots, c2)
    ensures Keeps(c0, roots, c2)
  {
    forall s: set<nat>, a | Supported(c0, roots, s) && a in s
      ensures Alive(c2, a)
    {
      SupportedAfter(c0, roots, c1, s);
    }
  }

  // Reachability

  /** p follows references between objects alive. */
  ghost predicate Path(cells: Cells, p: seq<nat>) {
    && p != []
    && (forall i :: 0 <= i < |p| ==> Alive(cells, p[i]))
    && (forall i :: 0 <= i < |p| - 1 ==> To(p[i + 1]) in cells[p[i]].elems)
  }

  ghost predicate Reachable(cells: Cells, roots: multiset<nat>, a: nat) {
    exists p :: Path(cells, p) && roots[p[0]] > 0 && p[|p| - 1] == a
  }

  /** a can be reached from an object that reaches itself. */
  ghost predicate OnCycle(cells: Cells, p: seq<nat>) {
    Path(cells, p) && exists i :: 0 < i < |p| && p[i] == p[0]
  }

  ghost predicate FromCycle(cells: Cells, a: nat) {
    exists p :: OnCycle(cells, p) && p[|p| - 1] == a
  }

  ghost predicate Acyclic(cells: Cells) {
    forall p :: !OnCycle(cells, p)
  }

  /** Walking references backwards from an object alive ends at a root or closes a cycle. */
  lemma {:induction false} WalkBack(cells: Cells, roots: multiset<nat>, p: seq<nat>)
    requires Counted(cells, [], roots) && Positive(cells) && Path(cells, p) && Distinct(p)
    ensures Reachable(cells, roots, p[|p| - 1]) || FromCycle(cells, p[|p| - 1])
    decreases |cells| - |p|
  {
    Pigeonhole(p, |cells|);
    if roots[p[0]] == 0 {
      assert Count(cells, p[0]) == Holds(cells, [], roots, p[0]);
      var x := IncomingFrom(cells, p[0]);
      var q := [x] + p;
      assert Path(cells, q);
      if x in p {
        var i :| 0 <= i < |p| && p[i] == x;
        assert q[i + 1] == q[0];
        assert OnCycle(cells, q);
      } else {
        Pigeonhole(q, |cells|);
        WalkBack(cells, roots, q);
      }
    }
  }

  lemma PathSupported(cells: Cells, roots: multiset<nat>, p: seq<nat>)
    requires Path(cells, p) && (roots[p[0]] > 0 || OnCycle(cells, p))
    ensures Supported(cells, roots, set a | a in p)
  {
    var s := set a | a in p;
    forall a | a in s
      ensures Alive(cells, a) && (roots[a] > 0 || exists x :: x in s && Alive(cells, x) && To(a) in cells[x].elems)
    {
      var i :| 0 <= i < |p| && p[i] == a;
      if i > 0 {
        assert p[i - 1] in s && To(p[i - 1 + 1]) in cells[p[i - 1]].elems;
      } else if roots[p[0]] == 0 {
        var j :| 0 < j < |p| && p[j] == p[0];
        assert p[j - 1] in s && To(p[j - 1 + 1]) in cells[p[j - 1]].elems;
      }
    }
  }

  /** Objects the counting cannot free: reachable from the roots, or from a cycle. */
  ghost predicate Stuck(cells: Cells, roots: multiset<nat>, a: nat) {
    Reachable(cells, roots, a) || FromCycle(cells, a)
  }

  lemma PathBefore(cells: Cells, after: Cells, p: seq<nat>)
    requires Shrunk(cells, after) && Path(after, p)
    ensures Path(cells, p)
  {
  }

  /** Once the counts have settled, the objects alive are exactly those. */
  lemma SettledExact(cells: Cells, roots: multiset<nat>, after: Cells, a: nat)
    requires Counted(after, [], roots) && Positive(after) && Shrunk(cells, after) && Keeps(cells, roots, after)
    ensures Alive(after, a) <==> Stuck(cells, roots, a)
  {
    if Alive(after, a) {
      WalkBack(after, roots, [a]);
      if Reachable(after, roots, a) {
        var p :| Path(after, p) && roots[p[0]] > 0 && p[|p| - 1] == a;
        PathBefore(cells, after, p);
      } else {
        var p :| OnCycle(after, p) && p[|p| - 1] == a;
        PathBefore(cells, after, p);
        assert OnCycle(cells, p);
      }
    }
    if Stuck(cells, roots, a) {
      var p :| Path(cells, p) && (roots[p[0]] > 0 || OnCycle(cells, p)) && p[|p| - 1] == a;
      PathSupported(cells, roots, p);
      assert a in set b | b in p;
    }
  }

  /** What is freed is exactly what cannot be reached any more, but for cycles; the rest has its elements. */
  ghost predicate Exact(cells: Cells, roots: multiset<nat>, after: Cells) {
    Shrunk(cells, after) && forall a: nat :: Alive(after, a) <==> Stuck(cells, roots, a)
  }

  lemma Released(cells: Cells, r: Ref, roots: multiset<nat>, after: Cells)
    requires Counted(cells, [], With(roots, r)) && Positive(cells)
    requires r.Nil? ==> after == cells
    requires r.To? ==> Alive(cells, r.a) && cells[r.a].count > 0
    requires r.To? && cells[r.a].count > 1 ==> after == Less(cells, r.a)
    requires r.To? && cells[r.a].count == 1 ==> Counted(after, [], roots) && Positive(after) && Shrunk(cells, after) && Keeps(cells, roots, after)
    ensures Counted(after, [], roots) && Positive(after) && Exact(cells, roots, after)
  {
    if r.To? {
      CountedLess(cells, [], roots, r.a);
      KeepsLess(cells, roots, r.a);
    }
    forall a: nat
      ensures Alive(after, a) <==> Stuck(cells, roots, a)
    {
      SettledExact(cells, roots, after, a);
    }
  }

  /** Without cycles nothing leaks: what stays is what the roots reach. */
  lemma AcyclicStuck(cells: Cells, roots: multiset<nat>, a: nat)
    requires Acyclic(cells)
    ensures Stuck(cells, roots, a) <==> Reachable(cells, roots, a)
  {
  }

  class Memory {
    var cells: Cells
    /** The stack of references whose release was put off. */
    var stack: seq<Ref>
    var deferring: bool

    constructor ()
      ensures cells == [] && stack == [] && !deferring
    {
      cells, stack, deferring := [], [], false;
    }

    /** Let go of one reference: the destructor of a shared pointer. The roots are what the program holds after it.
        The call never nests more than a fixed number of calls, whatever the heap: that is what the stack is for. */
    method Release(r: Ref, ghost roots: multiset<nat>)
      requires r.To? ==> Alive(cells, r.a) && cells[r.a].count > 0
      requires r.To? && cells[r.a].count == 1 ==> Counted(cells, stack, With(roots, r)) && Positive(cells)
      requires !deferring ==> stack == []
      modifies this
      ensures deferring == old(deferring) && (!deferring ==> stack == [])
      ensures r.Nil? ==> cells == old(cells) && stack == old(stack)
      ensures r.To? && old(cells[r.a].count) > 1 ==> cells == Less(old(cells), r.a) && stack == old(stack)
      ensures r.To? && old(cells[r.a].count) == 1 && deferring ==>
                cells == old(cells)[r.a := Dead] && stack == old(stack) + old(cells[r.a].elems)
      ensures r.To? && old(cells[r.a].count) == 1 && !deferring ==>
                Counted(cells, stack, roots) && Positive(cells) && Shrunk(old(cells), cells) && Keeps(old(cells), roots, cells)
      ensures !deferring && old(Counted(cells, stack, With(roots, r)) && Positive(cells)) ==>
                Counted(cells, stack, roots) && Positive(cells) && Exact(old(cells), roots, cells)
      decreases if r.Nil? || cells[r.a].count > 1 then 0 else if deferring then 3 else 6
    {
      if r.To? {
        ghost var before := cells;
        var c := cells[r.a];
        cells := cells[r.a := c.(count := c.count - 1)];
        if c.count == 1 {
          CountedLess(before, stack, roots, r.a);
          KeepsLess(before, roots, r.a);
          Destroy(r.a, roots);
          if !deferring {
            KeepsTrans(before, roots, Less(before, r.a), cells);
          }
        }
      }
      if !deferring && old(Counted(cells, stack, With(roots, r)) && Positive(cells)) {
        Released(old(cells), r, roots, cells);
      }
    }

    /** A new array holding copies of the given references; its creator holds the array. */
    method Create(elems: seq<Ref>, ghost roots: multiset<nat>) returns (a: nat)
      requires Counted(cells, stack, roots) && Positive(cells) && forall r :: r in elems && r.To? ==> Alive(cells, r.a)
      modifies this`cells
      ensures a == |old(cells)| && Alive(cells, a) && cells[a].elems == elems
      ensures Counted(cells, stack, roots + multiset{a}) && Positive(cells) && Shrunk(old(cells), cells[..a])
      ensures forall b: nat :: Alive(old(cells), b) ==> Alive(cells, b)
    {
      ghost var c0 := cells;
      LentStart(c0, elems);
      for i := 0 to |elems|
        invariant Lent(c0, cells, elems[..i])
      {
        LentMore(c0, cells, elems, i);
        cells := More(cells, elems[i]);
      }
      a := |cells|;
      CountedCreate(c0, cells, stack, roots, elems);
      cells := cells + [Live(elems, 1)];
    }

    /** Overwrite an element: the new reference is counted before the old one is let go. */
    method Set(a: nat, i: nat, r: Ref, ghost roots: multiset<nat>)
      requires !deferring && stack == [] && Counted(cells, [], roots) && Positive(cells)
      requires Alive(cells, a) && i < |cells[a].elems| && (r.To? ==> Alive(cells, r.a))
      modifies this
      ensures !deferring && stack == [] && Counted(cells, [], roots) && Positive(cells)
      ensures exists c :: Written(old(cells), a, i, r, c) && Exact(c, roots, cells)
      ensures |cells| == |old(cells)|
      ensures Alive(cells, a) ==>
                && |cells[a].elems| == old(|cells[a].elems|) && cells[a].elems[i] == r
                && forall j :: 0 <= j < |cells[a].elems| && j != i ==> cells[a].elems[j] == old(cells[a].elems[j])
      ensures forall b: nat :: b != a && Alive(cells, b) ==> Alive(old(cells), b) && cells[b].elems == old(cells)[b].elems
    {
      hide Counted, Keeps, Path, Stuck;
      ghost var c0 := cells;
      cells := More(cells, r);
      var was := cells[a].elems[i];
      cells := cells[a := cells[a].(elems := cells[a].elems[i := r])];
      CountedSet(c0, roots, a, i, r);
      PutWritten(c0, a, i, r);
      Release(was, roots);
    }

    /** The destructor of an array. */
    method Destroy(a: nat, ghost roots: multiset<nat>)
      requires Alive(cells, a) && cells[a].count == 0 && Counted(cells, stack, roots)
      requires forall b: nat :: b != a && Alive(cells, b) ==> cells[b].count > 0
      requires !deferring ==> stack == []
      modifies this
      ensures deferring == old(deferring)
      ensures deferring ==> cells == old(cells)[a := Dead] && stack == old(stack) + old(cells[a].elems)
      ensures !deferring ==> stack == [] && Counted(cells, stack, roots) && Positive(cells) && Shrunk(old(cells), cells) && Keeps(old(cells), roots, cells)
      decreases if deferring then 2 else 5
    {
      CountedFree(cells, stack, roots, a);
      if deferring {
        Defer(a, roots);
      } else {
        KeepsFree(cells, stack, roots, a);
        deferring := true;
        Defer(a, roots);
        while stack != []
          invariant deferring && Counted(cells, stack, roots) && Positive(cells)
          invariant Shrunk(old(cells), cells) && Keeps(old(cells), roots, cells)
          decreases Total(cells) + |stack|
        {
          Pop(roots, old(cells));
        }
        deferring := false;
      }
    }

    /** Put the elements on the stack, then delete the array that held them. */
    method Defer(a: nat, ghost roots: multiset<nat>)
      requires Alive(cells, a) && cells[a].count == 0 && Counted(cells, stack, roots) && deferring
      modifies this
      ensures deferring
      ensures cells == old(cells)[a := Dead] && stack == old(stack) + old(cells[a].elems)
      decreases 1
    {
      hide Counted, Lent, Less, More, Positive, Keeps, Shrunk;
      ghost var c0, s0 := cells, stack;
      var elems := cells[a].elems;
      ElementsAlive(c0, s0, roots, a);
      LentStart(c0, elems);
      for i := 0 to |elems|
        invariant deferring && stack == s0 + elems[..i]
        invariant Lent(c0, cells, elems[..i])
      {
        LentMore(c0, cells, elems, i);
        cells := More(cells, elems[i]);
        stack := stack + [elems[i]];
      }
      assert elems[..|elems|] == elems;
      LentBack(c0, cells, a, elems);
      var i := |elems|;
      while i > 0
        invariant 0 <= i <= |elems| && deferring && stack == s0 + elems
        invariant |cells| == |c0| && Alive(cells, a) && cells[a].elems == elems[..i]
        invariant Lent(c0, cells[a := c0[a]], elems[..i])
        decreases i
      {
        i := i - 1;
        ghost var c1 := cells;
        cells := cells[a := cells[a].(elems := elems[..i])];
        LentLess(c0, c1, cells, a, elems, i);
        Release(elems[i], roots);
      }
      LentNone(c0, cells, a, elems);
      cells := cells[a := Dead];
    }

    /** Take one reference off the stack and let it go: one reference fewer in all. */
    method Pop(ghost roots: multiset<nat>, ghost was: Cells)
      requires stack != [] && deferring && Counted(cells, stack, roots) && Positive(cells)
      requires Shrunk(was, cells) && Keeps(was, roots, cells)
      modifies this
      ensures deferring && Counted(cells, stack, roots) && Positive(cells)
      ensures Shrunk(was, cells) && Keeps(was, roots, cells)
      ensures Total(cells) + |stack| == old(Total(cells) + |stack|) - 1
      decreases 4
    {
      var r := stack[|stack| - 1];
      ghost var c0, rest := cells, stack[..|stack| - 1];
      assert stack == rest + [r];
      CountedTop(c0, rest, r, roots);
      stack := stack[..|stack| - 1];
      Release(r, roots);
      if r.To? {
        CountedLess(c0, rest, roots, r.a);
        TotalLess(c0, r.a);
        if c0[r.a].count == 1 {
          CountedFree(Less(c0, r.a), rest, roots, r.a);
          KeepsFree(Less(c0, r.a), rest, roots, r.a);
          TotalUpdate(Less(c0, r.a), r.a);
          assert Less(c0, r.a)[r.a := Dead] == cells;
        }
        KeepsLess(c0, roots, r.a);
        KeepsTrans(c0, roots, Less(c0, r.a), cells);
        KeepsTrans(was, roots, c0, cells);
      }
    }
  }

  lemma CountedMore(cells: Cells, roots: multiset<nat>, r: Ref)
    requires Counted(cells, [], roots) && Positive(cells) && (r.To? ==> Alive(cells, r.a))
    ensures Counted(More(cells, r), [], With(roots, r)) && Positive(More(cells, r)) && Shrunk(cells, More(cells, r))
  {
    forall b: nat
      ensures Count(More(cells, r), b) == Holds(More(cells, r), [], With(roots, r), b)
    {
      assert Count(cells, b) == Holds(cells, [], roots, b);
      if r.To? {
        IncomingUpdate(cells, r.a, More(cells, r)[r.a], b);
      }
    }
  }

  lemma SwapAt(cells: Cells, roots: multiset<nat>, a: nat, i: nat, r: Ref, b: nat)
    requires Alive(cells, a) && i < |cells[a].elems| && Count(cells, b) == Holds(cells, [], With(roots, r), b)
    ensures var c2 := cells[a := cells[a].(elems := cells[a].elems[i := r])];
            Count(c2, b) == Holds(c2, [], With(roots, cells[a].elems[i]), b)
  {
    hide Incoming;
    var c2 := cells[a := cells[a].(elems := cells[a].elems[i := r])];
    ElementSet(cells[a].elems, i, r);
    IncomingUpdate(cells, a, c2[a], b);
  }

  lemma CountedSwap(cells: Cells, roots: multiset<nat>, a: nat, i: nat, r: Ref)
    requires Alive(cells, a) && i < |cells[a].elems| && Counted(cells, [], With(roots, r)) && Positive(cells)
    ensures var c2 := cells[a := cells[a].(elems := cells[a].elems[i := r])];
            var was := cells[a].elems[i];
            Counted(c2, [], With(roots, was)) && Positive(c2) && (was.To? ==> Alive(c2, was.a))
  {
    hide Holds, With;
    var c2 := cells[a := cells[a].(elems := cells[a].elems[i := r])];
    var was := cells[a].elems[i];
    forall b: nat
      ensures Count(c2, b) == Holds(c2, [], With(roots, was), b)
    {
      assert Count(cells, b) == Holds(cells, [], With(roots, r), b);
      SwapAt(cells, roots, a, i, r, b);
    }
    if was.To? {
      assert Count(c2, was.a) == Holds(c2, [], With(roots, was), was.a);
      HoldsRoot(c2, roots, was);
    }
  }

  lemma HoldsRoot(cells: Cells, roots: multiset<nat>, r: Ref)
    requires r.To?
    ensures Holds(cells, [], With(roots, r), r.a) > 0
  {
  }

  lemma CountedSet(cells: Cells, roots: multiset<nat>, a: nat, i: nat, r: Ref)
    requires Counted(cells, [], roots) && Positive(cells) && Alive(cells, a) && i < |cells[a].elems| && (r.To? ==> Alive(cells, r.a))
    ensures var was := cells[a].elems[i];
            && Counted(Put(cells, a, i, r), [], With(roots, was)) && Positive(Put(cells, a, i, r))
            && (was.To? ==> Alive(Put(cells, a, i, r), was.a))
  {
    hide Counted, Positive;
    CountedMore(cells, roots, r);
    CountedSwap(More(cells, r), roots, a, i, r);
  }

  lemma ElementSet(rs: seq<Ref>, i: nat, r: Ref)
    requires i < |rs|
    ensures multiset(rs[i := r]) + multiset{rs[i]} == multiset(rs) + multiset{r}
  {
  }

  lemma {:induction false} IncomingAppend(cells: Cells, c: Cell, a: nat)
    ensures Incoming(cells + [c], a) == Incoming(cells, a) + Refs(c, a)
  {
    if cells != [] {
      assert (cells + [c])[1..] == cells[1..] + [c];
      IncomingAppend(cells[1..], c, a);
    }
  }

  lemma {:induction false} IncomingSame(cells: Cells, after: Cells, a: nat)
    requires |cells| == |after|
    requires forall b: nat :: Alive(after, b) == Alive(cells, b)
    requires forall b: nat :: Alive(cells, b) ==> Alive(after, b) && after[b].elems == cells[b].elems
    ensures Incoming(after, a) == Incoming(cells, a)
  {
    if cells != [] {
      assert Alive(after, 0) == Alive(cells, 0);
      forall b: nat
        ensures Alive(after[1..], b) == Alive(cells[1..], b)
        ensures Alive(cells[1..], b) ==> after[1..][b].elems == cells[1..][b].elems
      {
        assert Alive(after, b + 1) == Alive(cells, b + 1);
      }
      IncomingSame(cells[1..], after[1..], a);
    }
  }

  lemma CountedCreate(c0: Cells, c1: Cells, stack: seq<Ref>, roots: multiset<nat>, elems: seq<Ref>)
    requires Counted(c0, stack, roots) && Positive(c0) && Lent(c0, c1, elems[..|elems|])
    requires forall r :: r in elems && r.To? ==> Alive(c0, r.a)
    ensures var c2 := c1 + [Live(elems, 1)];
            Counted(c2, stack, roots + multiset{|c1|}) && Positive(c2)
  {
    assert elems[..|elems|] == elems;
    var c2 := c1 + [Live(elems, 1)];
    forall b: nat
      ensures Count(c2, b) == Holds(c2, stack, roots + multiset{|c1|}, b)
      ensures Alive(c2, b) ==> c2[b].count > 0
    {
      assert Count(c0, b) == Holds(c0, stack, roots, b);
      IncomingAppend(c1, Live(elems, 1), b);
      IncomingSame(c0, c1, b);
      assert Alive(c1, b) == Alive(c0, b);
      if !Alive(c0, b) {
        assert To(b) !in elems;
      }
    }
  }

  lemma KeepsLess(cells: Cells, roots: multiset<nat>, a: nat)
    requires Alive(cells, a) && cells[a].count > 0
    ensures Keeps(cells, roots, Less(cells, a)) && Shrunk(cells, Less(cells, a))
  {
  }

  lemma CountedTop(cells: Cells, rest: seq<Ref>, r: Ref, roots: multiset<nat>)
    requires Counted(cells, rest + [r], roots)
    ensures Counted(cells, rest, With(roots, r))
    ensures r.To? ==> Alive(cells, r.a) && cells[r.a].count > 0
  {
    forall a: nat
      ensures Count(cells, a) == Holds(cells, rest, With(roots, r), a)
    {
      assert Count(cells, a) == Holds(cells, rest + [r], roots, a);
    }
    if r.To? {
      assert Count(cells, r.a) == Holds(cells, rest, With(roots, r), r.a);
    }
  }

  lemma ElementsAlive(cells: Cells, stack: seq<Ref>, roots: multiset<nat>, a: nat)
    requires Alive(cells, a) && cells[a].count == 0 && Counted(cells, stack, roots)
    ensures forall r :: r in cells[a].elems && r.To? ==> r.a != a && Alive(cells, r.a) && cells[r.a].count > 0
  {
    forall r | r in cells[a].elems && r.To?
      ensures r.a != a && Alive(cells, r.a) && cells[r.a].count > 0
    {
      IncomingAt(cells, a, r.a);
      assert Count(cells, r.a) == Holds(cells, stack, roots, r.a);
    }
  }

  /** Each object has as many references more as rs has to it. */
  ghost predicate Lent(c0: Cells, c1: Cells, rs: seq<Ref>) {
    && |c1| == |c0|
    && (forall b: nat :: Alive(c1, b) == Alive(c0, b))
    && (forall b: nat :: Alive(c0, b) ==> c1[b] == Live(c0[b].elems, c0[b].count + multiset(rs)[To(b)]))
  }

  lemma LentMore(c0: Cells, c1: Cells, rs: seq<Ref>, i: nat)
    requires i < |rs| && Lent(c0, c1, rs[..i]) && (rs[i].To? ==> Alive(c0, rs[i].a))
    ensures rs[i].To? ==> Alive(c1, rs[i].a)
    ensures Lent(c0, More(c1, rs[i]), rs[..i + 1])
  {
    assert rs[..i + 1] == rs[..i] + [rs[i]];
    if rs[i].To? {
      assert Alive(c1, rs[i].a);
    }
  }

  lemma LentLess(c0: Cells, c1: Cells, c2: Cells, a: nat, rs: seq<Ref>, i: nat)
    requires Alive(c1, a) && |c0| == |c1| && i < |rs| && Lent(c0, c1[a := c0[a]], rs[..i + 1])
    requires rs[i].To? ==> rs[i].a != a && Alive(c0, rs[i].a) && c0[rs[i].a].count > 0
    requires c2 == c1[a := c1[a].(elems := rs[..i])]
    ensures rs[i].To? ==> Alive(c2, rs[i].a) && c2[rs[i].a].count > 1
                          && Lent(c0, Less(c2, rs[i].a)[a := c0[a]], rs[..i]) && Less(c2, rs[i].a)[a] == c2[a]
                          && |Less(c2, rs[i].a)| == |c2|
    ensures rs[i].Nil? ==> Lent(c0, c2[a := c0[a]], rs[..i])
  {
    assert rs[..i + 1] == rs[..i] + [rs[i]];
    if rs[i].To? {
      assert Alive(c1[a := c0[a]], rs[i].a);
    }
  }

  lemma LentStart(c0: Cells, rs: seq<Ref>)
    ensures Lent(c0, c0, rs[..0])
  {
  }

  lemma LentBack(c0: Cells, c1: Cells, a: nat, rs: seq<Ref>)
    requires Lent(c0, c1, rs) && Alive(c0, a) && To(a) !in rs
    ensures |c1| == |c0| && Alive(c1, a) && c1[a].elems == c0[a].elems && Lent(c0, c1[a := c0[a]], rs) && rs[..|rs|] == rs
  {
    assert Alive(c1, a);
  }

  lemma LentNone(c0: Cells, c1: Cells, a: nat, rs: seq<Ref>)
    requires a < |c1| == |c0| && Lent(c0, c1[a := c0[a]], rs[..0])
    ensures c1[a := Dead] == c0[a := Dead]
  {
    var c2 := c1[a := c0[a]];
    forall b: nat | b < |c0| && b != a
      ensures c1[b] == c0[b]
    {
      assert Alive(c2, b) == Alive(c0, b);
    }
  }
}
