/** The store of arrays, and when an object in it represents a finished term. */
module Heaps {
  import opened Terms

  /** A machine object: the null pointer, an atom, or a pointer to an array. */
  datatype Obj = Null | At(atom: Atom) | Arr(addr: nat)

  /** Array number a is at index a; arrays are only ever added. */
  type Heap = seq<seq<Obj>>

  function SetCell(h: Heap, a: nat, i: nat, o: Obj): Heap
    requires a < |h| && i < |h[a]|
  {
    h[a := h[a][i := o]]
  }

  /** The object o stands for the term t. */
  ghost predicate Rep(h: Heap, o: Obj, t: Term)
    decreases t
  {
    match t
    case Leaf(a) => o == At(a)
    case Node(ts) =>
      && o.Arr? && o.addr < |h|
      && |h[o.addr]| == |ts| > 0
      && forall i :: 0 <= i < |ts| ==> Rep(h, h[o.addr][i], ts[i])
  }

  ghost predicate Reps(h: Heap, os: seq<Obj>, ts: seq<Term>) {
    && |os| == |ts|
    && forall i :: 0 <= i < |ts| ==> Rep(h, os[i], ts[i])
  }

  /** Following the indices p from o ends in a cell that is still empty. */
  ghost predicate OpenBy(h: Heap, o: Obj, p: seq<nat>)
    decreases |p|
  {
    if p == [] then o == Null
    else o.Arr? && o.addr < |h| && p[0] < |h[o.addr]| && OpenBy(h, h[o.addr][p[0]], p[1..])
  }

  /** The object is unfinished: an empty cell can be reached from it. */
  ghost predicate Open(h: Heap, o: Obj) {
    exists p: seq<nat> :: OpenBy(h, o, p)
  }

  /** h1 grew out of h, and of the arrays of h only cell i of array a changed. */
  ghost predicate Frame(h: Heap, h1: Heap, a: nat, i: nat) {
    && |h| <= |h1|
    && a < |h| && i < |h[a]|
    && |h1[a]| == |h[a]|
    && (forall j :: 0 <= j < |h[a]| && j != i ==> h1[a][j] == h[a][j])
    && (forall b :: 0 <= b < |h| && b != a ==> h1[b] == h[b])
  }

  lemma OpenStep(h: Heap, o: Obj, j: nat)
    requires o.Arr? && o.addr < |h| && j < |h[o.addr]| && Open(h, h[o.addr][j])
    ensures Open(h, o)
  {
    var p :| OpenBy(h, h[o.addr][j], p);
    assert ([j] + p)[1..] == p;
    assert OpenBy(h, o, [j] + p);
  }

  /** Nothing unfinished represents a term. */
  lemma {:induction false} OpenIsNoTerm(h: Heap, o: Obj, t: Term, p: seq<nat>)
    requires Rep(h, o, t)
    ensures !OpenBy(h, o, p)
    decreases |p|
  {
    if p != [] && OpenBy(h, o, p) {
      OpenIsNoTerm(h, h[o.addr][p[0]], t.ts[p[0]], p[1..]);
    }
  }

  /** Writing to an unfinished cell leaves every represented term as it was. */
  lemma {:induction false} RepFrame(h: Heap, h1: Heap, a: nat, i: nat, o: Obj, t: Term)
    requires Frame(h, h1, a, i) && Open(h, h[a][i]) && Rep(h, o, t)
    ensures Rep(h1, o, t)
    decreases t
  {
    match t
    case Leaf(_) =>
    case Node(ts) =>
      forall j | 0 <= j < |ts| ensures o.addr < |h1| && |h1[o.addr]| == |ts| && Rep(h1, h1[o.addr][j], ts[j]) {
        if o.addr == a && j == i {
          var p :| OpenBy(h, h[a][i], p);
          OpenIsNoTerm(h, h[a][i], ts[j], p);
          assert false;
        } else {
          RepFrame(h, h1, a, i, h[o.addr][j], ts[j]);
        }
      }
  }

  lemma RepsFrame(h: Heap, h1: Heap, a: nat, i: nat, os: seq<Obj>, ts: seq<Term>)
    requires Frame(h, h1, a, i) && Open(h, h[a][i]) && Reps(h, os, ts)
    ensures Reps(h1, os, ts)
  {
    forall j | 0 <= j < |ts| ensures Rep(h1, os[j], ts[j]) {
      RepFrame(h, h1, a, i, os[j], ts[j]);
    }
  }

  lemma {:induction false} RepGrow(h: Heap, h1: Heap, o: Obj, t: Term)
    requires h <= h1 && Rep(h, o, t)
    ensures Rep(h1, o, t)
    decreases t
  {
    match t
    case Leaf(_) =>
    case Node(ts) =>
      forall j | 0 <= j < |ts| ensures Rep(h1, h1[o.addr][j], ts[j]) {
        RepGrow(h, h1, h[o.addr][j], ts[j]);
      }
  }

  lemma RepsGrow(h: Heap, h1: Heap, os: seq<Obj>, ts: seq<Term>)
    requires h <= h1 && Reps(h, os, ts)
    ensures Reps(h1, os, ts)
  {
    forall j | 0 <= j < |ts| ensures Rep(h1, os[j], ts[j]) {
      RepGrow(h, h1, os[j], ts[j]);
    }
  }

  /** What was unfinished stays so while every array of h keeps its contents. */
  lemma {:induction false} OpenGrow(h: Heap, h1: Heap, o: Obj, p: seq<nat>)
    requires |h| <= |h1| && (forall b :: 0 <= b < |h| ==> h1[b] == h[b])
    requires OpenBy(h, o, p)
    ensures OpenBy(h1, o, p)
    decreases |p|
  {
    if p != [] {
      OpenGrow(h, h1, h[o.addr][p[0]], p[1..]);
    }
  }

  lemma OpenKept(h: Heap, h1: Heap, o: Obj)
    requires |h| <= |h1| && (forall b :: 0 <= b < |h| ==> h1[b] == h[b])
    requires Open(h, o)
    ensures Open(h1, o)
  {
    var p :| OpenBy(h, o, p);
    OpenGrow(h, h1, o, p);
  }
}
