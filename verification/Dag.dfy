/** The serializer of src/serialize.hpp: a term as a list of records that refer to each other by number, and back. */
module Dag {
  import opened Common
  import opened Terms

  /** Objects are known by their address, so that parts can be shared. */
  datatype Entity = Literal(a: Atom) | Array(elems: seq<nat>) | Opaque

  type Store = seq<Entity>

  ghost predicate Wf(objs: Store) {
    forall a, i :: 0 <= a < |objs| && objs[a].Array? && 0 <= i < |objs[a].elems| ==> objs[a].elems[i] < |objs|
  }

  datatype Serial = Atomic(id: nat, a: Atom) | Composed(id: nat, refs: seq<nat>)

  /** What is rebuilt; Nothing is the null pointer of a number not yet known. */
  datatype Tree = Nothing | Tip(a: Atom) | Fork(ts: seq<Tree>)

  /** The object stands for the finite term t, and has no array of size one. */
  ghost predicate Denotes(objs: Store, o: nat, t: Tree)
    decreases t
  {
    && o < |objs|
    && match t
       case Nothing => false
       case Tip(a) => objs[o] == Literal(a)
       case Fork(ts) =>
         && objs[o].Array? && |objs[o].elems| == |ts| != 1
         && forall i :: 0 <= i < |ts| ==> Denotes(objs, objs[o].elems[i], ts[i])
  }

  /** b is o or a part of it. */
  ghost predicate Below(objs: Store, o: nat, t: Tree, b: nat)
    requires Denotes(objs, o, t)
    decreases t
  {
    b == o || (t.Fork? && exists i :: 0 <= i < |t.ts| && Below(objs, objs[o].elems[i], t.ts[i], b))
  }

  // The order of the visit

  function Elems(objs: Store, o: nat): seq<nat>
    requires o < |objs|
  {
    if objs[o].Array? then objs[o].elems else []
  }

  ghost function Unseen(objs: Store, seen: seq<nat>): set<nat> {
    set a | 0 <= a < |objs| && a !in seen
  }

  ghost predicate Inside(objs: Store, s: seq<nat>) {
    forall i :: 0 <= i < |s| ==> s[i] < |objs|
  }

  /** The objects in the order they are first taken from the stack. */
  ghost function Walk(objs: Store, work: seq<nat>, seen: seq<nat>): seq<nat>
    requires Wf(objs) && Inside(objs, work)
    decreases |Unseen(objs, seen)|, |work|
  {
    if work == [] then seen
    else
      var o, rest := work[|work| - 1], work[..|work| - 1];
      if o in seen then Walk(objs, rest, seen)
      else
        assert Unseen(objs, seen + [o]) == Unseen(objs, seen) - {o};
        Walk(objs, rest + Elems(objs, o), seen + [o])
  }

  function Literals(objs: Store, s: seq<nat>): seq<nat>
    requires forall i :: 0 <= i < |s| ==> s[i] < |objs|
  {
    if s == [] then []
    else
      var n := |s| - 1;
      Literals(objs, s[..n]) + if objs[s[n]].Array? then [] else [s[n]]
  }

  function Arrays(objs: Store, s: seq<nat>): seq<nat>
    requires forall i :: 0 <= i < |s| ==> s[i] < |objs|
  {
    if s == [] then []
    else
      var n := |s| - 1;
      Arrays(objs, s[..n]) + if objs[s[n]].Array? then [s[n]] else []
  }

  function Reverse(s: seq<nat>): (r: seq<nat>)
    ensures |r| == |s|
  {
    if s == [] then [] else [s[|s| - 1]] + Reverse(s[..|s| - 1])
  }

  ghost function Emission(objs: Store, w: seq<nat>): seq<nat>
    requires Inside(objs, w)
  {
    Reverse(Literals(objs, w)) + Reverse(Arrays(objs, w))
  }

  /** The order in which the parts of root are numbered. */
  ghost function Numbering(objs: Store, root: nat): seq<nat>
    requires Wf(objs) && root < |objs|
  {
    WalkInside(objs, [root], []);
    Emission(objs, Walk(objs, [root], []))
  }

  // The records

  function Index(s: seq<nat>, e: nat): (i: nat)
    ensures e in s ==> i < |s| && s[i] == e
  {
    if s == [] then 0 else if s[0] == e then 0 else if e in s then 1 + Index(s[1..], e) else 0
  }

  /** The number the i-th record has for e: that of an earlier record, and 0 by default. */
  function Number(order: seq<nat>, i: nat, e: nat): nat
    requires i <= |order|
  {
    if e in order[..i] then Index(order[..i], e) else 0
  }

  function Record(objs: Store, order: seq<nat>, i: nat): Serial
    requires i < |order| && order[i] < |objs| && !objs[order[i]].Opaque?
  {
    match objs[order[i]]
    case Literal(a) => Atomic(i, a)
    case Array(es) => Composed(i, seq(|es|, k requires 0 <= k < |es| => Number(order, i, es[k])))
  }

  ghost predicate Serializable(objs: Store, order: seq<nat>) {
    forall i :: 0 <= i < |order| ==> order[i] < |objs| && !objs[order[i]].Opaque?
  }

  ghost function Records(objs: Store, order: seq<nat>): seq<Serial>
    requires Serializable(objs, order)
  {
    seq(|order|, i requires 0 <= i < |order| => Record(objs, order, i))
  }

  // Rebuilding

  function Lookup(m: map<nat, Tree>, n: nat): Tree {
    if n in m then m[n] else Nothing
  }

  /** An array of one element is that element. */
  function MakeArray(ts: seq<Tree>): Tree {
    if |ts| == 1 then ts[0] else Fork(ts)
  }

  function Rebuilt(m: map<nat, Tree>, d: Serial): Tree {
    match d
    case Atomic(_, a) => Tip(a)
    case Composed(_, refs) => MakeArray(seq(|refs|, k requires 0 <= k < |refs| => Lookup(m, refs[k])))
  }

  function RebuildAll(dag: seq<Serial>): map<nat, Tree> {
    if dag == [] then map[]
    else
      var m := RebuildAll(dag[..|dag| - 1]);
      m[dag[|dag| - 1].id := Rebuilt(m, dag[|dag| - 1])]
  }

  function Rebuild(dag: seq<Serial>): Tree
    requires dag != []
  {
    Lookup(RebuildAll(dag), |dag| - 1)
  }

  // Facts about the visit

  lemma {:induction false} WalkInside(objs: Store, work: seq<nat>, seen: seq<nat>)
    requires Wf(objs) && Inside(objs, work) && Inside(objs, seen)
    ensures Inside(objs, Walk(objs, work, seen))
    decreases |Unseen(objs, seen)|, |work|
  {
    if work != [] {
      var o, rest := work[|work| - 1], work[..|work| - 1];
      if o in seen {
        WalkInside(objs, rest, seen);
      } else {
        assert Unseen(objs, seen + [o]) == Unseen(objs, seen) - {o};
        WalkInside(objs, rest + Elems(objs, o), seen + [o]);
      }
    }
  }

  /** Every element of an object seen is seen or waiting. */
  ghost predicate Pending(objs: Store, work: seq<nat>, seen: seq<nat>)
    requires Inside(objs, seen)
  {
    forall i, k :: 0 <= i < |seen| && 0 <= k < |Elems(objs, seen[i])| ==> Elems(objs, seen[i])[k] in seen || Elems(objs, seen[i])[k] in work
  }

  lemma {:induction false} WalkClosed(objs: Store, work: seq<nat>, seen: seq<nat>)
    requires Wf(objs) && Inside(objs, work) && Inside(objs, seen) && Distinct(seen) && Pending(objs, work, seen)
    ensures var w := Walk(objs, work, seen);
            Inside(objs, w) && Distinct(w) && Pending(objs, [], w) && seen <= w
    ensures forall o :: o in work ==> o in Walk(objs, work, seen)
    decreases |Unseen(objs, seen)|, |work|
  {
    if work != [] {
      var o, rest := work[|work| - 1], work[..|work| - 1];
      assert work == rest + [o];
      if o in seen {
        WalkClosed(objs, rest, seen);
      } else {
        assert Unseen(objs, seen + [o]) == Unseen(objs, seen) - {o};
        PendingMore(objs, rest, o, seen);
        WalkClosed(objs, rest + Elems(objs, o), seen + [o]);
      }
    }
  }

  lemma PendingMore(objs: Store, rest: seq<nat>, o: nat, seen: seq<nat>)
    requires Inside(objs, seen) && o < |objs| && Pending(objs, rest + [o], seen)
    ensures Pending(objs, rest + Elems(objs, o), seen + [o])
  {
    var s := seen + [o];
    forall i, k | 0 <= i < |s| && 0 <= k < |Elems(objs, s[i])|
      ensures Elems(objs, s[i])[k] in s || Elems(objs, s[i])[k] in rest + Elems(objs, o)
    {
      if i < |seen| {
        assert Elems(objs, seen[i])[k] in seen || Elems(objs, seen[i])[k] in rest + [o];
      }
    }
  }

  /** All objects visited are parts of the root. */
  ghost predicate AllBelow(objs: Store, root: nat, t: Tree, s: seq<nat>)
    requires Denotes(objs, root, t)
  {
    forall i :: 0 <= i < |s| ==> Below(objs, root, t, s[i])
  }

  lemma {:induction false} BelowElems(objs: Store, root: nat, t: Tree, o: nat, k: nat)
    requires Denotes(objs, root, t) && Below(objs, root, t, o)
    requires o < |objs| && k < |Elems(objs, o)|
    ensures Below(objs, root, t, Elems(objs, o)[k])
    decreases t
  {
    if o == root {
      assert Below(objs, objs[o].elems[k], t.ts[k], objs[o].elems[k]);
    } else {
      var i :| 0 <= i < |t.ts| && Below(objs, objs[root].elems[i], t.ts[i], o);
      BelowElems(objs, objs[root].elems[i], t.ts[i], o, k);
    }
  }

  lemma {:induction false} WalkBelow(objs: Store, root: nat, t: Tree, work: seq<nat>, seen: seq<nat>)
    requires Wf(objs) && Inside(objs, work) && Inside(objs, seen) && Denotes(objs, root, t)
    requires AllBelow(objs, root, t, work) && AllBelow(objs, root, t, seen)
    ensures AllBelow(objs, root, t, Walk(objs, work, seen))
    decreases |Unseen(objs, seen)|, |work|
  {
    if work != [] {
      var o, rest := work[|work| - 1], work[..|work| - 1];
      if o in seen {
        WalkBelow(objs, root, t, rest, seen);
      } else {
        assert Unseen(objs, seen + [o]) == Unseen(objs, seen) - {o};
        forall k | 0 <= k < |Elems(objs, o)|
          ensures Below(objs, root, t, Elems(objs, o)[k])
        {
          BelowElems(objs, root, t, o, k);
        }
        WalkBelow(objs, root, t, rest + Elems(objs, o), seen + [o]);
      }
    }
  }

  /** A part of a term denotes a term itself. */
  lemma {:induction false} BelowDenotes(objs: Store, root: nat, t: Tree, b: nat) returns (u: Tree)
    requires Denotes(objs, root, t) && Below(objs, root, t, b)
    ensures Denotes(objs, b, u) && (b != root ==> u < t) && (b == root ==> u == t)
    decreases t
  {
    if b == root {
      u := t;
    } else {
      var i :| 0 <= i < |t.ts| && Below(objs, objs[root].elems[i], t.ts[i], b);
      u := BelowDenotes(objs, objs[root].elems[i], t.ts[i], b);
    }
  }

  // Facts about the numbering

  lemma {:induction false} ReverseAt(s: seq<nat>)
    ensures forall i :: 0 <= i < |s| ==> Reverse(s)[i] == s[|s| - 1 - i]
    decreases |s|
  {
    if s != [] {
      ReverseAt(s[..|s| - 1]);
    }
  }

  lemma ReverseIn(s: seq<nat>)
    ensures forall e :: e in Reverse(s) <==> e in s
    ensures Distinct(s) ==> Distinct(Reverse(s))
  {
    ReverseAt(s);
    forall e | e in s
      ensures e in Reverse(s)
    {
      var i :| 0 <= i < |s| && s[i] == e;
      assert Reverse(s)[|s| - 1 - i] == e;
    }
  }

  lemma {:induction false} KindsIn(objs: Store, s: seq<nat>)
    requires Inside(objs, s)
    ensures forall e :: e in Literals(objs, s) <==> e in s && !objs[e].Array?
    ensures forall e :: e in Arrays(objs, s) <==> e in s && objs[e].Array?
    ensures Distinct(s) ==> Distinct(Literals(objs, s)) && Distinct(Arrays(objs, s))
    decreases |s|
  {
    if s != [] {
      var n := |s| - 1;
      assert s == s[..n] + [s[n]];
      KindsIn(objs, s[..n]);
    }
  }

  lemma {:induction false} ArraysFirst(objs: Store, s: seq<nat>)
    requires Inside(objs, s) && s != [] && objs[s[0]].Array?
    ensures Arrays(objs, s) != [] && Arrays(objs, s)[0] == s[0]
    decreases |s|
  {
    var n := |s| - 1;
    if n > 0 {
      ArraysFirst(objs, s[..n]);
    } else {
      assert Arrays(objs, s[..n]) == [];
    }
  }

  /** Two lists without repetitions, of different kinds, one after the other. */
  lemma JoinedFacts(objs: Store, l: seq<nat>, a: seq<nat>)
    requires Distinct(l) && Distinct(a)
    requires (forall e :: e in l ==> e < |objs| && !objs[e].Array?) && (forall e :: e in a ==> e < |objs| && objs[e].Array?)
    ensures Distinct(l + a) && (forall e :: e in l + a <==> e in l || e in a)
    ensures forall i :: 0 <= i < |l + a| ==> (l + a)[i] < |objs| && (objs[(l + a)[i]].Array? <==> |l| <= i)
  {
    var order := l + a;
    forall i | 0 <= i < |order|
      ensures order[i] < |objs| && (objs[order[i]].Array? <==> |l| <= i)
    {
      if i < |l| {
        assert order[i] == l[i] && l[i] in l;
      } else {
        assert order[i] == a[i - |l|] && a[i - |l|] in a;
      }
    }
    forall i, j | 0 <= i < j < |order|
      ensures order[i] != order[j]
    {
      if j < |l| {
        assert l[i] != l[j];
      } else if i >= |l| {
        assert a[i - |l|] != a[j - |l|];
      }
    }
  }

  /** Literals are numbered first; every object visited is numbered once. */
  lemma EmissionFacts(objs: Store, w: seq<nat>) returns (n: nat)
    requires Inside(objs, w) && Distinct(w)
    ensures var order := Emission(objs, w);
            && Distinct(order) && (forall e :: e in order <==> e in w) && n <= |order|
            && (forall i :: 0 <= i < |order| ==> order[i] < |objs| && (objs[order[i]].Array? <==> n <= i))
            && (w != [] && objs[w[0]].Array? ==> order != [] && order[|order| - 1] == w[0])
  {
    hide Literals, Arrays, Reverse, Distinct;
    var l, a := Literals(objs, w), Arrays(objs, w);
    KindsIn(objs, w);
    ReverseIn(l);
    ReverseIn(a);
    n := |l|;
    JoinedFacts(objs, Reverse(l), Reverse(a));
    if w != [] && objs[w[0]].Array? {
      ArraysFirst(objs, w);
      ReverseAt(a);
    }
  }

  /** All that the round trip needs to know about the order. */
  ghost predicate Ordered(objs: Store, order: seq<nat>, n: nat) {
    && Distinct(order) && n <= |order|
    && (forall i :: 0 <= i < |order| ==> order[i] < |objs| && !objs[order[i]].Opaque? && (objs[order[i]].Array? <==> n <= i))
    && (forall i, k :: 0 <= i < |order| && 0 <= k < |Elems(objs, order[i])| ==> Elems(objs, order[i])[k] in order)
  }

  lemma NumberingFacts(objs: Store, root: nat, t: Tree) returns (n: nat)
    requires Wf(objs) && Denotes(objs, root, t)
    ensures var order := Numbering(objs, root);
            && Ordered(objs, order, n) && order != [] && order[|order| - 1] == root
            && forall i :: 0 <= i < |order| ==> Below(objs, root, t, order[i])
  {
    hide Walk, Emission, Below;
    var w := Walk(objs, [root], []);
    WalkInside(objs, [root], []);
    WalkClosed(objs, [root], []);
    BelowRoot(objs, root, t);
    WalkBelow(objs, root, t, [root], []);
    n := EmissionFacts(objs, w);
    var order := Emission(objs, w);
    RootFirst(objs, root);
    assert w[0] in order;
    assert order[|order| - 1] in w;
    forall i | 0 <= i < |order|
      ensures Below(objs, root, t, order[i]) && !objs[order[i]].Opaque?
    {
      assert order[i] in w;
      var u := BelowDenotes(objs, root, t, order[i]);
    }
    forall i, k | 0 <= i < |order| && 0 <= k < |Elems(objs, order[i])|
      ensures Elems(objs, order[i])[k] in order
    {
      assert order[i] in w;
      var j :| 0 <= j < |w| && w[j] == order[i];
      assert Elems(objs, w[j])[k] in w;
    }
  }

  lemma BelowRoot(objs: Store, root: nat, t: Tree)
    requires Denotes(objs, root, t)
    ensures AllBelow(objs, root, t, [root])
  {
  }

  /** An object not seen, on top of the stack. */
  lemma WalkStep(objs: Store, work: seq<nat>, rest: seq<nat>, seen: seq<nat>, o: nat)
    requires Wf(objs) && Inside(objs, work) && o < |objs| && work == rest + [o] && o !in seen
    ensures Inside(objs, rest + Elems(objs, o)) && Walk(objs, work, seen) == Walk(objs, rest + Elems(objs, o), seen + [o])
  {
    assert work[..|work| - 1] == rest;
  }

  lemma RootFirst(objs: Store, root: nat)
    requires Wf(objs) && root < |objs|
    ensures var w := Walk(objs, [root], []); w != [] && w[0] == root && (!objs[root].Array? ==> w == [root])
  {
    hide Walk, Unseen, Pending;
    var none: seq<nat>, work := [], Elems(objs, root);
    WalkStep(objs, [root], none, none, root);
    assert none + work == work && none + [root] == [root];
    RootPending(objs, root);
    WalkClosed(objs, work, [root]);
    if !objs[root].Array? {
      WalkNone(objs, [root]);
    }
  }

  lemma WalkSeen(objs: Store, work: seq<nat>, rest: seq<nat>, seen: seq<nat>, o: nat)
    requires Wf(objs) && Inside(objs, work) && work == rest + [o] && o in seen
    ensures Inside(objs, rest) && Walk(objs, work, seen) == Walk(objs, rest, seen)
  {
    assert work[..|work| - 1] == rest;
    assert forall i :: 0 <= i < |rest| ==> rest[i] == work[i];
  }

  lemma RootPending(objs: Store, root: nat)
    requires root < |objs|
    ensures Pending(objs, Elems(objs, root), [root])
  {
  }

  lemma WalkNone(objs: Store, seen: seq<nat>)
    requires Wf(objs)
    ensures Walk(objs, [], seen) == seen
  {
  }

  // The values rebuilt

  ghost function Known(objs: Store, order: seq<nat>, i: nat): map<nat, Tree>
    requires Serializable(objs, order) && i <= |order|
  {
    RebuildAll(Records(objs, order)[..i])
  }

  /** The value rebuilt from record i. */
  ghost function Val(objs: Store, order: seq<nat>, i: nat): Tree
    requires Serializable(objs, order) && i < |order|
  {
    Rebuilt(Known(objs, order, i), Record(objs, order, i))
  }

  lemma KnownStep(objs: Store, order: seq<nat>, i: nat)
    requires Serializable(objs, order) && i < |order|
    ensures Known(objs, order, i + 1) == Known(objs, order, i)[i := Val(objs, order, i)]
  {
    var rs := Records(objs, order);
    assert rs[..i + 1][..i] == rs[..i];
  }

  lemma {:induction false} KnownAt(objs: Store, order: seq<nat>, i: nat, j: nat)
    requires Serializable(objs, order) && i <= |order|
    ensures Lookup(Known(objs, order, i), j) == if j < i then Val(objs, order, j) else Nothing
    decreases i
  {
    if i > 0 {
      KnownStep(objs, order, i - 1);
      KnownAt(objs, order, i - 1, j);
    }
  }

  /** What the number of an element leads to. */
  ghost function Found(objs: Store, order: seq<nat>, i: nat, e: nat): Tree
    requires Serializable(objs, order) && i < |order|
  {
    var j := Number(order, i, e);
    if j < i then Val(objs, order, j) else Nothing
  }

  lemma ValShape(objs: Store, order: seq<nat>, i: nat)
    requires Serializable(objs, order) && i < |order|
    ensures var o := objs[order[i]];
            && (o.Literal? ==> Val(objs, order, i) == Tip(o.a))
            && (o.Array? ==> Val(objs, order, i) == MakeArray(seq(|o.elems|, k requires 0 <= k < |o.elems| => Found(objs, order, i, o.elems[k]))))
  {
    hide Known, Number;
    var o := objs[order[i]];
    if o.Array? {
      forall k | 0 <= k < |o.elems|
        ensures Lookup(Known(objs, order, i), Number(order, i, o.elems[k])) == Found(objs, order, i, o.elems[k])
      {
        KnownAt(objs, order, i, Number(order, i, o.elems[k]));
      }
      var refs := Record(objs, order, i).refs;
      assert seq(|refs|, k requires 0 <= k < |refs| => Lookup(Known(objs, order, i), refs[k]))
          == seq(|o.elems|, k requires 0 <= k < |o.elems| => Found(objs, order, i, o.elems[k]));
    }
  }

  // When the round trip succeeds

  /** Each element of record i has a number by then; or it is the empty array, and so is the first record. */
  ghost predicate Ready(objs: Store, order: seq<nat>, i: nat)
    requires Wf(objs) && Inside(objs, order) && i < |order|
  {
    forall k :: 0 <= k < |Elems(objs, order[i])| ==>
      var e := Elems(objs, order[i])[k];
      e in order[..i] || (objs[e] == Array([]) && objs[order[0]] == Array([]))
  }

  ghost predicate InOrder(objs: Store, order: seq<nat>)
    requires Wf(objs) && Inside(objs, order)
  {
    forall i :: 0 <= i < |order| ==> Ready(objs, order, i)
  }

  lemma {:induction false} ReadyVal(objs: Store, order: seq<nat>, n: nat, i: nat, t: Tree)
    requires Wf(objs) && Ordered(objs, order, n) && InOrder(objs, order) && i < |order| && Denotes(objs, order[i], t)
    ensures Val(objs, order, i) == t
    decreases i
  {
    hide Val, Number, Records, MakeArray;
    ValShape(objs, order, i);
    if t.Fork? {
      var es := objs[order[i]].elems;
      assert Ready(objs, order, i);
      forall k | 0 <= k < |es|
        ensures Found(objs, order, i, es[k]) == t.ts[k]
      {
        NumberOf(order, i, es[k]);
        if es[k] in order[..i] {
          ReadyVal(objs, order, n, Number(order, i, es[k]), t.ts[k]);
        } else {
          assert Elems(objs, order[i]) == es && objs[order[0]] == Array([]) && i > 0;
          assert t.ts[k] == Fork([]);
          ReadyVal(objs, order, n, 0, t.ts[k]);
        }
      }
      MakeFork(seq(|es|, k requires 0 <= k < |es| => Found(objs, order, i, es[k])), t.ts);
    }
  }

  lemma MakeFork(us: seq<Tree>, ts: seq<Tree>)
    requires |us| == |ts| != 1
    ensures MakeArray(us) == Fork(us)
    ensures (forall k :: 0 <= k < |us| ==> us[k] == ts[k]) ==> MakeArray(us) == Fork(ts)
  {
    if forall k :: 0 <= k < |us| ==> us[k] == ts[k] {
      assert us == ts;
    }
  }

  lemma NumberOf(order: seq<nat>, i: nat, e: nat)
    requires i <= |order|
    ensures e in order[..i] ==> Number(order, i, e) < i && order[Number(order, i, e)] == e
    ensures e !in order[..i] ==> Number(order, i, e) == 0
  {
  }

  /** d is record i: that of a literal holds it, and that of an array has for each element, in order, the number of an
      earlier record of it, or 0 when there is none. */
  ghost predicate Tells(objs: Store, order: seq<nat>, i: nat, d: Serial)
    requires i < |order|
  {
    && order[i] < |objs| && d.id == i
    && (objs[order[i]].Literal? ==> d == Atomic(i, objs[order[i]].a))
    && (objs[order[i]].Array? ==>
          && d.Composed? && |d.refs| == |objs[order[i]].elems|
          && forall k :: 0 <= k < |d.refs| ==>
               var e := objs[order[i]].elems[k];
               if e in order[..i] then d.refs[k] < i && order[d.refs[k]] == e else d.refs[k] == 0)
  }

  lemma RecordTells(objs: Store, order: seq<nat>, i: nat)
    requires i < |order| && order[i] < |objs| && !objs[order[i]].Opaque?
    ensures Tells(objs, order, i, Record(objs, order, i))
  {
    if objs[order[i]].Array? {
      forall k | 0 <= k < |objs[order[i]].elems|
        ensures var e, n := objs[order[i]].elems[k], Record(objs, order, i).refs[k];
                if e in order[..i] then n < i && order[n] == e else n == 0
      {
        NumberOf(order, i, objs[order[i]].elems[k]);
      }
    }
  }

  ghost predicate NoOnes(objs: Store, order: seq<nat>) {
    forall i :: 0 <= i < |order| ==> order[i] < |objs| && |Elems(objs, order[i])| != 1
  }

  /** If record i was rebuilt well then each of its elements was found. */
  lemma ElementsFound(objs: Store, order: seq<nat>, n: nat, i: nat, ts: seq<Tree>, k: nat)
    requires Wf(objs) && Ordered(objs, order, n) && i < |order| && Denotes(objs, order[i], Fork(ts)) && k < |ts|
    requires Val(objs, order, i) == Fork(ts)
    ensures Found(objs, order, i, objs[order[i]].elems[k]) == ts[k]
  {
    hide Val, Found;
    ValShape(objs, order, i);
    var es := objs[order[i]].elems;
    var us := seq(|es|, k requires 0 <= k < |es| => Found(objs, order, i, es[k]));
    MakeFork(us, ts);
    assert us[k] == ts[k];
  }

  /** A wrong number 0 is right by chance only: for the empty array, when the first record is empty. */
  lemma ByChance(objs: Store, order: seq<nat>, n: nat, i: nat, e: nat, t: Tree)
    requires Wf(objs) && Ordered(objs, order, n) && NoOnes(objs, order) && i < |order| && objs[order[i]].Array?
    requires e in order && e !in order[..i] && Denotes(objs, e, t) && Found(objs, order, i, e) == t
    ensures objs[e] == Array([]) && objs[order[0]] == Array([])
  {
    NumberOf(order, i, e);
    var j :| 0 <= j < |order| && order[j] == e;
    assert j >= i;
    assert objs[e].Array? && t.Fork? && Val(objs, order, 0) == t;
    hide Val;
    FirstVal(objs, order);
    assert objs[order[0]].Array?;
    NothingDenoted(objs, e, t);
  }

  lemma NothingDenoted(objs: Store, e: nat, t: Tree)
    requires Denotes(objs, e, t) && t.Fork?
    ensures Nothing !in t.ts
  {
    forall k | 0 <= k < |t.ts|
      ensures t.ts[k] != Nothing
    {
      assert Denotes(objs, objs[e].elems[k], t.ts[k]);
    }
  }

  lemma FirstVal(objs: Store, order: seq<nat>)
    requires Serializable(objs, order) && NoOnes(objs, order) && order != []
    ensures var o := objs[order[0]];
            && (o.Literal? ==> Val(objs, order, 0) == Tip(o.a))
            && (o.Array? ==> Val(objs, order, 0).Fork? && |Val(objs, order, 0).ts| == |o.elems|
                             && (o.elems != [] ==> Nothing in Val(objs, order, 0).ts))
  {
    hide Val;
    ValShape(objs, order, 0);
    var o := objs[order[0]];
    if o.Array? {
      assert |Elems(objs, order[0])| != 1;
      assert o.elems != [] ==> Val(objs, order, 0).ts[0] == Nothing;
    }
  }

  lemma {:induction false} ValReady(objs: Store, order: seq<nat>, n: nat, i: nat, t: Tree, j: nat)
    requires Wf(objs) && Ordered(objs, order, n) && NoOnes(objs, order) && i < |order| && Denotes(objs, order[i], t)
    requires Val(objs, order, i) == t && j < |order| && Below(objs, order[i], t, order[j])
    ensures Ready(objs, order, j)
    decreases t
  {
    hide Val, Found;
    if order[j] == order[i] {
      forall k | 0 <= k < |Elems(objs, order[i])|
        ensures Elems(objs, order[i])[k] in order[..i] || (objs[Elems(objs, order[i])[k]] == Array([]) && objs[order[0]] == Array([]))
      {
        ChildReady(objs, order, n, i, t.ts, k);
      }
    } else {
      var k :| 0 <= k < |t.ts| && Below(objs, objs[order[i]].elems[k], t.ts[k], order[j]);
      ChildReady(objs, order, n, i, t.ts, k);
      var e := objs[order[i]].elems[k];
      if e in order[..i] {
        var m := ChildVal(objs, order, n, i, t.ts, k);
        ValReady(objs, order, n, m, t.ts[k], j);
      } else {
        assert t.ts[k] == Fork([]);
      }
    }
  }

  lemma ChildReady(objs: Store, order: seq<nat>, n: nat, i: nat, ts: seq<Tree>, k: nat)
    requires Wf(objs) && Ordered(objs, order, n) && NoOnes(objs, order) && i < |order| && Denotes(objs, order[i], Fork(ts))
    requires Val(objs, order, i) == Fork(ts) && k < |ts|
    ensures var e := objs[order[i]].elems[k]; e in order[..i] || (objs[e] == Array([]) && objs[order[0]] == Array([]))
  {
    hide Val, Found;
    var e := objs[order[i]].elems[k];
    ElementsFound(objs, order, n, i, ts, k);
    assert Elems(objs, order[i])[k] == e;
    assert Denotes(objs, e, ts[k]);
    if e !in order[..i] {
      ByChance(objs, order, n, i, e, ts[k]);
    }
  }

  lemma ChildVal(objs: Store, order: seq<nat>, n: nat, i: nat, ts: seq<Tree>, k: nat) returns (m: nat)
    requires Wf(objs) && Ordered(objs, order, n) && i < |order| && Denotes(objs, order[i], Fork(ts))
    requires Val(objs, order, i) == Fork(ts) && k < |ts| && objs[order[i]].elems[k] in order[..i]
    ensures m < i && order[m] == objs[order[i]].elems[k] && Val(objs, order, m) == ts[k]
  {
    hide Val;
    ElementsFound(objs, order, n, i, ts, k);
    m := Number(order, i, objs[order[i]].elems[k]);
    NumberOf(order, i, objs[order[i]].elems[k]);
  }

  /** The round trip, exactly: the term comes back if and only if every array is numbered before the arrays that hold it,
      but for empty arrays when the first record is the empty array. */
  lemma RoundTrip(objs: Store, root: nat, t: Tree)
    requires Wf(objs) && Denotes(objs, root, t)
    ensures var order := Numbering(objs, root);
            && order != [] && Inside(objs, order) && Serializable(objs, order)
            && (Rebuild(Records(objs, order)) == t <==> InOrder(objs, order))
  {
    hide Val, Found, Numbering, Below, Ready;
    var order := Numbering(objs, root);
    var n := NumberingFacts(objs, root, t);
    OnesBelow(objs, root, t, order);
    var last := |order| - 1;
    KnownAt(objs, order, |order|, last);
    RebuildIs(objs, order);
    if InOrder(objs, order) {
      ReadyVal(objs, order, n, last, t);
    }
    if Val(objs, order, last) == t {
      forall j | 0 <= j < |order|
        ensures Ready(objs, order, j)
      {
        ValReady(objs, order, n, last, t, j);
      }
    }
  }

  lemma RebuildIs(objs: Store, order: seq<nat>)
    requires Serializable(objs, order) && order != []
    ensures Rebuild(Records(objs, order)) == Lookup(Known(objs, order, |order|), |order| - 1)
  {
    assert Records(objs, order)[..|order|] == Records(objs, order);
  }

  lemma OnesBelow(objs: Store, root: nat, t: Tree, order: seq<nat>)
    requires Denotes(objs, root, t) && Inside(objs, order) && AllBelow(objs, root, t, order)
    ensures NoOnes(objs, order)
  {
    forall i | 0 <= i < |order|
      ensures |Elems(objs, order[i])| != 1
    {
      var u := BelowDenotes(objs, root, t, order[i]);
    }
  }

  // Arrays that are not shared

  /** No array is an element of two arrays of the term. */
  ghost predicate Unshared(objs: Store, root: nat, t: Tree)
    requires Denotes(objs, root, t)
  {
    forall a, b, e ::
      (0 <= a < |objs| && 0 <= b < |objs| && Below(objs, root, t, a) && Below(objs, root, t, b)
       && e in Elems(objs, a) && e in Elems(objs, b) && e < |objs| && objs[e].Array?)
      ==> a == b
  }

  /** Apart from the root, what is seen was an element of something seen before. */
  ghost predicate Parented(objs: Store, root: nat, seen: seq<nat>)
    requires Inside(objs, seen)
  {
    forall i :: 0 <= i < |seen| && seen[i] != root ==> exists j :: 0 <= j < i && seen[i] in Elems(objs, seen[j])
  }

  ghost predicate Hanging(objs: Store, root: nat, work: seq<nat>, seen: seq<nat>)
    requires Inside(objs, seen)
  {
    forall o :: o in work && o != root ==> exists j :: 0 <= j < |seen| && o in Elems(objs, seen[j])
  }

  lemma {:induction false} WalkParented(objs: Store, root: nat, work: seq<nat>, seen: seq<nat>)
    requires Wf(objs) && Inside(objs, work) && Inside(objs, seen)
    requires Parented(objs, root, seen) && Hanging(objs, root, work, seen)
    ensures var w := Walk(objs, work, seen); Inside(objs, w) && Parented(objs, root, w)
    decreases |Unseen(objs, seen)|, |work|
  {
    hide Walk, Unseen, Parented, Hanging, Elems;
    if work == [] {
      WalkNone(objs, seen);
    } else {
      var o, rest := work[|work| - 1], work[..|work| - 1];
      assert work == rest + [o];
      if o in seen {
        WalkSeen(objs, work, rest, seen, o);
        HangingRest(objs, root, work, rest, o, seen);
        WalkParented(objs, root, rest, seen);
      } else {
        UnseenLess(objs, seen, o);
        WalkStep(objs, work, rest, seen, o);
        ParentedMore(objs, root, work, rest, o, seen);
        WalkParented(objs, root, rest + Elems(objs, o), seen + [o]);
      }
    }
  }

  lemma HangingRest(objs: Store, root: nat, work: seq<nat>, rest: seq<nat>, o: nat, seen: seq<nat>)
    requires Inside(objs, seen) && work == rest + [o] && Hanging(objs, root, work, seen)
    ensures Hanging(objs, root, rest, seen)
  {
    assert forall x :: x in rest ==> x in work;
  }

  lemma ParentedMore(objs: Store, root: nat, work: seq<nat>, rest: seq<nat>, o: nat, seen: seq<nat>)
    requires Wf(objs) && Inside(objs, work) && Inside(objs, seen) && work == rest + [o] && o < |objs|
    requires Parented(objs, root, seen) && Hanging(objs, root, work, seen)
    ensures Parented(objs, root, seen + [o]) && Hanging(objs, root, rest + Elems(objs, o), seen + [o])
  {
    var s := seen + [o];
    forall i | 0 <= i < |s| && s[i] != root
      ensures exists j :: 0 <= j < i && s[i] in Elems(objs, s[j])
    {
      if i < |seen| {
        var j :| 0 <= j < i && seen[i] in Elems(objs, seen[j]);
        assert s[j] == seen[j];
      } else {
        assert o in work;
        var j :| 0 <= j < |seen| && o in Elems(objs, seen[j]);
        assert s[j] == seen[j];
      }
    }
    forall x | x in rest + Elems(objs, o) && x != root
      ensures exists j :: 0 <= j < |s| && x in Elems(objs, s[j])
    {
      if x in rest {
        assert x in work;
        var j :| 0 <= j < |seen| && x in Elems(objs, seen[j]);
        assert s[j] == seen[j];
      } else {
        assert s[|seen|] == o;
      }
    }
  }

  lemma {:induction false} ArraysKeepOrder(objs: Store, s: seq<nat>, i: nat, j: nat) returns (p: nat, q: nat)
    requires Inside(objs, s) && i < j < |s| && objs[s[i]].Array? && objs[s[j]].Array?
    ensures p < q < |Arrays(objs, s)| && Arrays(objs, s)[p] == s[i] && Arrays(objs, s)[q] == s[j]
    decreases |s|
  {
    var n := |s| - 1;
    if j < n {
      p, q := ArraysKeepOrder(objs, s[..n], i, j);
    } else {
      KindsIn(objs, s[..n]);
      assert s[i] == s[..n][i];
      assert s[i] in Arrays(objs, s[..n]);
      p :| 0 <= p < |Arrays(objs, s[..n])| && Arrays(objs, s[..n])[p] == s[i];
      q := |Arrays(objs, s[..n])|;
    }
  }

  /** The later an array is visited, the earlier it is numbered. */
  lemma VisitedLater(objs: Store, w: seq<nat>, i: nat, j: nat) returns (p: nat, q: nat)
    requires Inside(objs, w) && i < j < |w| && objs[w[i]].Array? && objs[w[j]].Array?
    ensures p < q < |Emission(objs, w)| && Emission(objs, w)[p] == w[j] && Emission(objs, w)[q] == w[i]
  {
    var x, y := ArraysKeepOrder(objs, w, i, j);
    var a := Arrays(objs, w);
    ReverseAt(a);
    var k := |Literals(objs, w)|;
    p, q := k + |a| - 1 - y, k + |a| - 1 - x;
    assert Reverse(a)[|a| - 1 - y] == w[j] && Reverse(a)[|a| - 1 - x] == w[i];
  }

  lemma {:induction false} DenotesOne(objs: Store, o: nat, t: Tree, u: Tree)
    requires Denotes(objs, o, t) && Denotes(objs, o, u)
    ensures t == u
    decreases t
  {
    if t.Fork? {
      forall i | 0 <= i < |t.ts|
        ensures t.ts[i] == u.ts[i]
      {
        DenotesOne(objs, objs[o].elems[i], t.ts[i], u.ts[i]);
      }
      assert t.ts == u.ts;
    }
  }

  lemma RootNotElement(objs: Store, root: nat, t: Tree, a: nat)
    requires Denotes(objs, root, t) && Below(objs, root, t, a) && a < |objs|
    ensures root !in Elems(objs, a)
  {
    if root in Elems(objs, a) {
      var u := BelowDenotes(objs, root, t, a);
      var k :| 0 <= k < |objs[a].elems| && objs[a].elems[k] == root;
      DenotesOne(objs, root, t, u.ts[k]);
    }
  }

  // The visit, recursively

  /** The objects seen, after a visit to o: o first, then what its elements add, from the last element to the first. */
  ghost function Visited(objs: Store, o: nat, t: Tree, seen: seq<nat>): seq<nat>
    requires Denotes(objs, o, t)
    decreases t, 0
  {
    if o in seen then seen
    else if t.Fork? then VisitedAll(objs, objs[o].elems, t.ts, seen + [o])
    else seen + [o]
  }

  ghost function VisitedAll(objs: Store, es: seq<nat>, ts: seq<Tree>, seen: seq<nat>): seq<nat>
    requires |es| == |ts| && forall i :: 0 <= i < |ts| ==> Denotes(objs, es[i], ts[i])
    decreases ts, 1
  {
    if ts == [] then seen
    else
      var n := |ts| - 1;
      VisitedAll(objs, es[..n], ts[..n], Visited(objs, es[n], ts[n], seen))
  }

  /** The stack makes that visit. */
  lemma {:induction false} WalkVisits(objs: Store, work: seq<nat>, o: nat, t: Tree, seen: seq<nat>)
    requires Wf(objs) && Inside(objs, work) && Denotes(objs, o, t)
    ensures Inside(objs, work + [o]) && Walk(objs, work + [o], seen) == Walk(objs, work, Visited(objs, o, t, seen))
    decreases t, 0
  {
    hide Walk;
    if o in seen {
      WalkSeen(objs, work + [o], work, seen, o);
    } else {
      WalkStep(objs, work + [o], work, seen, o);
      if t.Fork? {
        WalkVisitsAll(objs, work, objs[o].elems, t.ts, seen + [o]);
      } else {
        assert work + Elems(objs, o) == work;
      }
    }
  }

  lemma {:induction false} WalkVisitsAll(objs: Store, work: seq<nat>, es: seq<nat>, ts: seq<Tree>, seen: seq<nat>)
    requires Wf(objs) && Inside(objs, work) && |es| == |ts| && forall i :: 0 <= i < |ts| ==> Denotes(objs, es[i], ts[i])
    ensures Inside(objs, work + es) && Walk(objs, work + es, seen) == Walk(objs, work, VisitedAll(objs, es, ts, seen))
    decreases ts, 1
  {
    hide Walk;
    if ts == [] {
      assert work + es == work;
    } else {
      var n := |ts| - 1;
      var seen1 := Visited(objs, es[n], ts[n], seen);
      WalkVisitsAll(objs, work, es[..n], ts[..n], seen1);
      WalkVisits(objs, work + es[..n], es[n], ts[n], seen);
      assert work + es == work + es[..n] + [es[n]];
    }
  }

  lemma {:induction false} LiteralsKeepOrder(objs: Store, s: seq<nat>, i: nat, j: nat) returns (p: nat, q: nat)
    requires Inside(objs, s) && i < j < |s| && !objs[s[i]].Array? && !objs[s[j]].Array?
    ensures p < q < |Literals(objs, s)| && Literals(objs, s)[p] == s[i] && Literals(objs, s)[q] == s[j]
    decreases |s|
  {
    var n := |s| - 1;
    if j < n {
      p, q := LiteralsKeepOrder(objs, s[..n], i, j);
    } else {
      KindsIn(objs, s[..n]);
      assert s[i] == s[..n][i];
      assert s[i] in Literals(objs, s[..n]);
      p :| 0 <= p < |Literals(objs, s[..n])| && Literals(objs, s[..n])[p] == s[i];
      q := |Literals(objs, s[..n])|;
    }
  }

  lemma LiteralLater(objs: Store, w: seq<nat>, i: nat, j: nat) returns (p: nat, q: nat)
    requires Inside(objs, w) && i < j < |w| && !objs[w[i]].Array? && !objs[w[j]].Array?
    ensures p < q < |Emission(objs, w)| && Emission(objs, w)[p] == w[j] && Emission(objs, w)[q] == w[i]
  {
    var x, y := LiteralsKeepOrder(objs, w, i, j);
    var l := Literals(objs, w);
    ReverseAt(l);
    p, q := |l| - 1 - y, |l| - 1 - x;
    assert Reverse(l)[p] == w[j] && Reverse(l)[q] == w[i];
  }

  /** What is numbered is what is visited; of two literals, and of two arrays, the one visited later is numbered first. */
  lemma NumberingVisits(objs: Store, root: nat, t: Tree)
    requires Wf(objs) && Denotes(objs, root, t)
    ensures var order, w := Numbering(objs, root), Visited(objs, root, t, []);
            && Inside(objs, w) && Distinct(w) && (forall e :: e in order <==> e in w)
            && forall i, j :: 0 <= i < j < |w| && (objs[w[i]].Array? <==> objs[w[j]].Array?) ==>
                 exists p, q :: 0 <= p < q < |order| && order[p] == w[j] && order[q] == w[i]
  {
    hide Walk, Emission, Visited, Denotes;
    var none: seq<nat> := [];
    var w := Visited(objs, root, t, []);
    RootInside(objs, root, t);
    WalkVisits(objs, none, root, t, []);
    assert none + [root] == [root];
    WalkNone(objs, w);
    WalkInside(objs, [root], []);
    PendingNone(objs, [root]);
    WalkClosed(objs, [root], []);
    var n := EmissionFacts(objs, w);
    var order := Numbering(objs, root);
    forall i, j | 0 <= i < j < |w| && (objs[w[i]].Array? <==> objs[w[j]].Array?)
      ensures exists p, q :: 0 <= p < q < |order| && order[p] == w[j] && order[q] == w[i]
    {
      if objs[w[i]].Array? {
        var p, q := VisitedLater(objs, w, i, j);
      } else {
        var p, q := LiteralLater(objs, w, i, j);
      }
    }
  }

  lemma RootInside(objs: Store, root: nat, t: Tree)
    requires Denotes(objs, root, t)
    ensures root < |objs|
  {
  }

  /** The one array that holds e was seen before e. */
  lemma ParentFirst(objs: Store, root: nat, t: Tree, w: seq<nat>, a: nat, e: nat) returns (x: nat, y: nat)
    requires Denotes(objs, root, t) && Unshared(objs, root, t) && Inside(objs, w) && Parented(objs, root, w) && AllBelow(objs, root, t, w)
    requires Below(objs, root, t, a)
    requires e in w && e < |objs| && objs[e].Array? && e != root && a < |objs| && e in Elems(objs, a)
    ensures x < y < |w| && w[x] == a && w[y] == e
  {
    hide Unshared, Parented, Elems, Below, Denotes;
    y :| 0 <= y < |w| && w[y] == e;
    x := ParentedAt(objs, root, w, y);
    UnsharedAt(objs, root, t, w[x], a, e);
  }

  lemma ParentedAt(objs: Store, root: nat, w: seq<nat>, y: nat) returns (x: nat)
    requires Inside(objs, w) && Parented(objs, root, w) && y < |w| && w[y] != root
    ensures x < y && w[y] in Elems(objs, w[x])
  {
    hide Elems;
    x :| 0 <= x < y && w[y] in Elems(objs, w[x]);
  }

  lemma UnsharedAt(objs: Store, root: nat, t: Tree, a: nat, b: nat, e: nat)
    requires Denotes(objs, root, t) && Unshared(objs, root, t) && Below(objs, root, t, a) && Below(objs, root, t, b)
    requires a < |objs| && b < |objs| && e < |objs| && objs[e].Array? && e in Elems(objs, a) && e in Elems(objs, b)
    ensures a == b
  {
    hide Elems, Below, Denotes;
  }

  lemma SamePlace(s: seq<nat>, p: nat, q: nat)
    requires Distinct(s) && p < |s| && q < |s| && s[p] == s[q]
    ensures p == q
  {
  }

  lemma UnsharedReady(objs: Store, root: nat, t: Tree, w: seq<nat>, n: nat, i: nat, e: nat)
    requires Wf(objs) && Denotes(objs, root, t) && Unshared(objs, root, t) && Inside(objs, w) && Distinct(w) && Parented(objs, root, w)
    requires var order := Emission(objs, w);
             Ordered(objs, order, n) && AllBelow(objs, root, t, order) && i < |order| && e in Elems(objs, order[i]) && e in order
    requires (forall x :: x in Emission(objs, w) <==> x in w) && AllBelow(objs, root, t, w)
    ensures e in Emission(objs, w)[..i]
  {
    hide Emission, Below, Denotes, Unshared, Parented, Wf;
    var order := Emission(objs, w);
    var j :| 0 <= j < |order| && order[j] == e;
    if objs[e].Array? {
      RootNotElement(objs, root, t, order[i]);
      var x, y := ParentFirst(objs, root, t, w, order[i], e);
      var p, q := VisitedLater(objs, w, x, y);
      SamePlace(order, p, j);
      SamePlace(order, q, i);
    }
    assert order[..i][j] == e;
  }

  /** When no array is shared the round trip succeeds; literals may be shared. */
  lemma UnsharedRoundTrip(objs: Store, root: nat, t: Tree)
    requires Wf(objs) && Denotes(objs, root, t) && Unshared(objs, root, t)
    ensures var order := Numbering(objs, root);
            && order != [] && Inside(objs, order) && Serializable(objs, order)
            && Rebuild(Records(objs, order)) == t
            && (forall i, e :: 0 <= i < |order| && e in Elems(objs, order[i]) ==> e in order[..i])
  {
    hide Walk, Emission, Below, Rebuild, Records, Parented;
    var order := Numbering(objs, root);
    var n := NumberingFacts(objs, root, t);
    var w := Walk(objs, [root], []);
    WalkInside(objs, [root], []);
    PendingNone(objs, [root]);
    WalkClosed(objs, [root], []);
    ParentedNone(objs, root);
    WalkParented(objs, root, [root], []);
    BelowRoot(objs, root, t);
    NoneBelow(objs, root, t);
    WalkBelow(objs, root, t, [root], []);
    var m := EmissionFacts(objs, w);
    forall i, e | 0 <= i < |order| && e in Elems(objs, order[i])
      ensures e in order[..i]
    {
      ElemIn(objs, order, n, i, e);
      UnsharedReady(objs, root, t, w, n, i, e);
    }
    RoundTrip(objs, root, t);
  }

  lemma ElemIn(objs: Store, order: seq<nat>, n: nat, i: nat, e: nat)
    requires Ordered(objs, order, n) && i < |order| && e in Elems(objs, order[i])
    ensures e in order
  {
  }

  lemma NoneBelow(objs: Store, root: nat, t: Tree)
    requires Denotes(objs, root, t)
    ensures AllBelow(objs, root, t, [])
  {
  }

  lemma PendingNone(objs: Store, work: seq<nat>)
    ensures Pending(objs, work, [])
  {
  }

  lemma ParentedNone(objs: Store, root: nat)
    ensures Parented(objs, root, []) && Hanging(objs, root, [root], [])
  {
  }

  // The loops

  method Visit(objs: Store, root: nat) returns (work1: seq<nat>, work2: seq<nat>)
    requires Wf(objs) && root < |objs|
    ensures Numbering(objs, root) == Reverse(work1) + Reverse(work2)
  {
    hide Numbering, Literals, Arrays, Walk, Unseen;
    var work0 := [root];
    ghost var seen: seq<nat> := [];
    var visited: set<nat> := {};
    work1, work2 := [], [];
    KindsNone(objs);
    while work0 != []
      invariant Inside(objs, work0) && Inside(objs, seen) && (forall o :: o in visited <==> o in seen)
      invariant work1 == Literals(objs, seen) && work2 == Arrays(objs, seen)
      invariant Walk(objs, work0, seen) == Walk(objs, [root], [])
      decreases |Unseen(objs, seen)|, |work0|
    {
      var o := work0[|work0| - 1];
      ghost var before := work0;
      work0 := work0[..|work0| - 1];
      assert before == work0 + [o];
      if o in visited {
        WalkSeen(objs, before, work0, seen, o);
      } else {
        UnseenLess(objs, seen, o);
        KindsStep(objs, seen, o);
        WalkStep(objs, before, work0, seen, o);
        visited := visited + {o};
        if objs[o].Array? {
          work2 := work2 + [o];
          work0 := PushAll(work0, objs[o].elems);
        } else {
          work1 := work1 + [o];
          assert work0 + Elems(objs, o) == work0;
        }
        seen := seen + [o];
      }
    }
    WalkNone(objs, seen);
    NumberingIs(objs, root, seen);
  }

  method PushAll(work: seq<nat>, es: seq<nat>) returns (work1: seq<nat>)
    ensures work1 == work + es
  {
    work1 := work;
    for i := 0 to |es|
      invariant work1 == work + es[..i]
    {
      work1 := work1 + [es[i]];
    }
  }

  lemma KindsNone(objs: Store)
    ensures Literals(objs, []) == [] == Arrays(objs, [])
  {
  }

  lemma UnseenLess(objs: Store, seen: seq<nat>, o: nat)
    requires o < |objs| && o !in seen
    ensures |Unseen(objs, seen + [o])| < |Unseen(objs, seen)|
  {
    assert Unseen(objs, seen + [o]) == Unseen(objs, seen) - {o};
  }

  lemma NumberingIs(objs: Store, root: nat, w: seq<nat>)
    requires Wf(objs) && root < |objs| && Inside(objs, w) && w == Walk(objs, [root], [])
    ensures Numbering(objs, root) == Reverse(Literals(objs, w)) + Reverse(Arrays(objs, w))
  {
  }

  /** Literals first, then arrays, last visited first; an opaque object cannot be written. */
  method ToDag(objs: Store, root: nat) returns (r: Option<seq<Serial>>)
    requires Wf(objs) && root < |objs|
    ensures r.None? <==> !Serializable(objs, Numbering(objs, root))
    ensures r.Some? ==> r.value == Records(objs, Numbering(objs, root))
    ensures r.Some? ==>
              var order := Numbering(objs, root);
              |r.value| == |order| && forall i :: 0 <= i < |order| ==> Tells(objs, order, i, r.value[i])
  {
    hide Numbering, Number, Record, Distinct, Reverse, Tells;
    var work1, work2 := Visit(objs, root);
    ghost var order := Numbering(objs, root);
    var from: map<nat, nat>, dag: seq<Serial> := map[], [];
    ghost var w1, w2 := work1, work2;
    NumberingDistinct(objs, root);
    while work1 != []
      invariant work1 <= w1 && order == Reverse(w1) + Reverse(w2)
      invariant Emitted(objs, order, dag, from) && |dag| == |w1| - |work1|
      decreases |work1|
    {
      var o := work1[|work1| - 1];
      ReverseTop(w1, work1, Reverse(w2));
      work1 := work1[..|work1| - 1];
      if objs[o].Opaque? {
        return None;
      }
      dag, from := Emit(objs, o, dag, from, order);
    }
    while work2 != []
      invariant work2 <= w2 && order == Reverse(w1) + Reverse(w2)
      invariant Emitted(objs, order, dag, from) && |dag| == |w1| + |w2| - |work2|
      decreases |work2|
    {
      var o := work2[|work2| - 1];
      ReverseTop(w2, work2, []);
      assert order[|dag|] == Reverse(w2)[|w2| - |work2|];
      work2 := work2[..|work2| - 1];
      if objs[o].Opaque? {
        return None;
      }
      dag, from := Emit(objs, o, dag, from, order);
    }
    r := Some(dag);
    assert dag == Records(objs, order);
    forall i | 0 <= i < |order|
      ensures Tells(objs, order, i, dag[i])
    {
      RecordTells(objs, order, i);
    }
  }

  /** The records so far, and the numbers given so far. */
  ghost predicate Emitted(objs: Store, order: seq<nat>, dag: seq<Serial>, from: map<nat, nat>) {
    && |dag| <= |order| && Inside(objs, order) && Distinct(order)
    && (forall i :: 0 <= i < |dag| ==> !objs[order[i]].Opaque? && dag[i] == Record(objs, order, i))
    && (forall e :: (if e in from then from[e] else 0) == Number(order, |dag|, e))
  }

  method Emit(objs: Store, o: nat, dag: seq<Serial>, from: map<nat, nat>, ghost order: seq<nat>) returns (dag1: seq<Serial>, from1: map<nat, nat>)
    requires Wf(objs) && Emitted(objs, order, dag, from) && |dag| < |order| && o == order[|dag|] && !objs[o].Opaque?
    ensures Emitted(objs, order, dag1, from1) && |dag1| == |dag| + 1
  {
    var sz := |dag|;
    var s;
    if objs[o].Literal? {
      s := Atomic(sz, objs[o].a);
    } else {
      var ss: seq<nat> := [];
      var oo := objs[o].elems;
      for i := 0 to |oo|
        invariant |ss| == i && forall k :: 0 <= k < i ==> ss[k] == Number(order, sz, oo[k])
      {
        ss := ss + [if oo[i] in from then from[oo[i]] else 0];
      }
      s := Composed(sz, ss);
      assert ss == seq(|oo|, k requires 0 <= k < |oo| => Number(order, sz, oo[k]));
    }
    dag1, from1 := dag + [s], from[o := sz];
    forall e
      ensures (if e in from1 then from1[e] else 0) == Number(order, sz + 1, e)
    {
      NumberStep(order, sz, e);
    }
  }

  lemma NumberStep(order: seq<nat>, i: nat, e: nat)
    requires Distinct(order) && i < |order|
    ensures Number(order, i + 1, e) == if e == order[i] then i else Number(order, i, e)
  {
    NumberOf(order, i, e);
    NumberOf(order, i + 1, e);
    assert order[..i + 1] == order[..i] + [order[i]];
  }

  lemma NumberingDistinct(objs: Store, root: nat)
    requires Wf(objs) && root < |objs|
    ensures var order := Numbering(objs, root); Distinct(order) && Inside(objs, order) && Emitted(objs, order, [], map[])
  {
    hide Walk, Emission;
    WalkInside(objs, [root], []);
    PendingNone(objs, [root]);
    WalkClosed(objs, [root], []);
    var n := EmissionFacts(objs, Walk(objs, [root], []));
  }

  lemma KindsStep(objs: Store, seen: seq<nat>, o: nat)
    requires Inside(objs, seen) && o < |objs|
    ensures Literals(objs, seen + [o]) == Literals(objs, seen) + if objs[o].Array? then [] else [o]
    ensures Arrays(objs, seen + [o]) == Arrays(objs, seen) + if objs[o].Array? then [o] else []
  {
    assert (seen + [o])[..|seen|] == seen;
  }

  lemma ReverseTop(w: seq<nat>, work: seq<nat>, rest: seq<nat>)
    requires work <= w && work != []
    ensures (Reverse(w) + rest)[|w| - |work|] == work[|work| - 1]
    ensures Reverse(w)[|w| - |work|] == work[|work| - 1]
  {
    ReverseAt(w);
  }

  /** A record is rebuilt from those before it: an array from its parts in order, where null stands for an unknown number,
      and no array is made for one part. */
  lemma RebuildMore(dag: seq<Serial>, d: Serial)
    ensures var m, m1 := RebuildAll(dag), RebuildAll(dag + [d]);
            && (forall n: nat :: n in m1 <==> n in m || n == d.id)
            && (forall n: nat :: n in m && n != d.id ==> m1[n] == m[n])
            && (d.Atomic? ==> m1[d.id] == Tip(d.a))
            && (d.Composed? && |d.refs| == 1 ==> m1[d.id] == if d.refs[0] in m then m[d.refs[0]] else Nothing)
            && (d.Composed? && |d.refs| != 1 ==>
                  && m1[d.id].Fork? && |m1[d.id].ts| == |d.refs|
                  && forall k :: 0 <= k < |d.refs| ==> m1[d.id].ts[k] == if d.refs[k] in m then m[d.refs[k]] else Nothing)
  {
    assert (dag + [d])[..|dag + [d]| - 1] == dag;
  }

  method FromDag(dag: seq<Serial>) returns (t: Tree)
    requires dag != []
    ensures t == Rebuild(dag)
  {
    var m: map<nat, Tree> := map[];
    for i := 0 to |dag|
      invariant m == RebuildAll(dag[..i])
    {
      var d := dag[i];
      assert dag[..i + 1][..i] == dag[..i];
      match d {
        case Atomic(id, a) => m := m[id := Tip(a)];
        case Composed(id, refs) =>
          var oo: seq<Tree> := [];
          for k := 0 to |refs|
            invariant |oo| == k && forall j :: 0 <= j < k ==> oo[j] == Lookup(m, refs[j])
          {
            oo := oo + [Lookup(m, refs[k])];
          }
          assert oo == seq(|refs|, k requires 0 <= k < |refs| => Lookup(m, refs[k]));
          m := m[id := MakeArray(oo)];
      }
    }
    assert dag[..|dag|] == dag;
    t := Lookup(m, |dag| - 1);
  }

  // A shared array that does not survive

  /** The pair at 2 is shared by 0 and 1; 1 is numbered before it, and refers to record 0 instead. */
  const SHARED: Store := [Array([1, 2]), Array([2, 3]), Array([3, 3]), Literal(IntAtom(7))]

  const SEVEN := Tip(IntAtom(7))
  const PAIR := Fork([SEVEN, SEVEN])
  const SHARING := Fork([Fork([PAIR, SEVEN]), PAIR])

  lemma SharedLost()
    ensures Wf(SHARED) && Denotes(SHARED, 0, SHARING) && Numbering(SHARED, 0) == [3, 1, 2, 0]
    ensures Serializable(SHARED, [3, 1, 2, 0]) && Rebuild(Records(SHARED, [3, 1, 2, 0])) != SHARING
  {
    hide Rebuild, Records, Walk, Numbering, Denotes;
    SharedDenotes();
    SharedOrder();
    RoundTrip(SHARED, 0, SHARING);
    SharedUnready();
  }

  lemma SharedUnready()
    ensures Wf(SHARED) && Inside(SHARED, [3, 1, 2, 0]) && !InOrder(SHARED, [3, 1, 2, 0])
  {
    var order: seq<nat> := [3, 1, 2, 0];
    assert order[..1] == [3];
    assert Elems(SHARED, order[1])[0] == 2;
    assert !Ready(SHARED, order, 1);
  }

  lemma SharedDenotes()
    ensures Denotes(SHARED, 0, SHARING)
  {
    assert Denotes(SHARED, 3, SEVEN);
    assert Denotes(SHARED, 2, PAIR);
    assert Denotes(SHARED, 1, Fork([PAIR, SEVEN]));
  }

  lemma SharedOrder()
    ensures Wf(SHARED) && Numbering(SHARED, 0) == [3, 1, 2, 0]
  {
    hide Walk, Numbering, Literals, Arrays, Reverse;
    var none: seq<nat> := [];
    WalkStep(SHARED, [0], none, none, 0);
    assert none + [1, 2] == [1, 2] && none + [0] == [0];
    WalkStep(SHARED, [1, 2], [1], [0], 2);
    assert [1] + [3, 3] == [1, 3, 3] && [0] + [2] == [0, 2];
    WalkStep(SHARED, [1, 3, 3], [1, 3], [0, 2], 3);
    assert [1, 3] + Elems(SHARED, 3) == [1, 3] && [0, 2] + [3] == [0, 2, 3];
    SharedRest();
    NumberingIs(SHARED, 0, [0, 2, 3, 1]);
    SharedKinds();
  }

  lemma SharedRest()
    ensures Wf(SHARED) && Walk(SHARED, [1, 3], [0, 2, 3]) == [0, 2, 3, 1]
  {
    hide Walk;
    var none: seq<nat> := [];
    assert [1, 3] == [1] + [3] && [1] == none + [1] && [2, 3] == [2] + [3] && [2] == none + [2];
    WalkSeen(SHARED, [1, 3], [1], [0, 2, 3], 3);
    WalkStep(SHARED, [1], none, [0, 2, 3], 1);
    assert none + [2, 3] == [2, 3] && [0, 2, 3] + [1] == [0, 2, 3, 1];
    WalkSeen(SHARED, [2, 3], [2], [0, 2, 3, 1], 3);
    WalkSeen(SHARED, [2], none, [0, 2, 3, 1], 2);
    WalkNone(SHARED, [0, 2, 3, 1]);
  }

  lemma SharedKinds()
    ensures Literals(SHARED, [0, 2, 3, 1]) == [3] && Arrays(SHARED, [0, 2, 3, 1]) == [0, 2, 1]
    ensures Reverse([3]) + Reverse([0, 2, 1]) == [3, 1, 2, 0]
  {
    hide Literals, Arrays, Reverse;
    KindsNone(SHARED);
    var none: seq<nat> := [];
    assert none + [0] == [0] && [0] + [2] == [0, 2] && [0, 2] + [3] == [0, 2, 3] && [0, 2, 3] + [1] == [0, 2, 3, 1];
    KindsStep(SHARED, none, 0);
    KindsStep(SHARED, [0], 2);
    KindsStep(SHARED, [0, 2], 3);
    KindsStep(SHARED, [0, 2, 3], 1);
    SharedReverse();
  }

  lemma SharedReverse()
    ensures Reverse([3]) + Reverse([0, 2, 1]) == [3, 1, 2, 0]
  {
    hide Reverse;
    ReverseAt([3]);
    ReverseAt([0, 2, 1]);
    assert Reverse([3]) == [3] && Reverse([0, 2, 1]) == [1, 2, 0];
  }
}