/** The combinators a term needs: those that occur in it, and those their code refers to, over and over. */
module Dependencies {
  import opened Common

  /** Objects by address; definitions may refer to each other in cycles. */
  datatype Entity = Plain | Data | Array(elems: seq<nat>) | Bytecode(data: seq<nat>)

  type Store = seq<Entity>

  ghost predicate Wf(objs: Store) {
    && (forall a, i :: 0 <= a < |objs| && objs[a].Array? && 0 <= i < |objs[a].elems| ==> objs[a].elems[i] < |objs|)
    && (forall a, i :: 0 <= a < |objs| && objs[a].Bytecode? && 0 <= i < |objs[a].data| ==> objs[a].data[i] < |objs|)
  }

  predicate Wanted(objs: Store, a: nat) {
    a < |objs| && (objs[a].Data? || objs[a].Bytecode?)
  }

  /** The references that are followed: into arrays first, and then from code to combinators. */
  predicate Edge(objs: Store, code: bool, a: nat, b: nat) {
    a < |objs| && if code then objs[a].Bytecode? && b in objs[a].data && Wanted(objs, b) else objs[a].Array? && b in objs[a].elems
  }

  ghost predicate Path(objs: Store, code: bool, p: seq<nat>) {
    p != [] && forall i :: 0 <= i < |p| - 1 ==> Edge(objs, code, p[i], p[i + 1])
  }

  ghost predicate Reach(objs: Store, code: bool, from: set<nat>, b: nat) {
    exists p :: Path(objs, code, p) && p[0] in from && p[|p| - 1] == b
  }

  /** The combinators occurring in o. */
  ghost function Occurring(objs: Store, o: nat): set<nat> {
    set a | 0 <= a < |objs| && Wanted(objs, a) && Reach(objs, false, {o}, a)
  }

  ghost predicate Needed(objs: Store, o: nat, b: nat) {
    Reach(objs, true, Occurring(objs, o), b)
  }

  // Worklists

  /** Everything found can be reached, and everything that can be reached is found or lies behind what is waiting. */
  ghost predicate Exploring(objs: Store, code: bool, from: set<nat>, visited: set<nat>, work: seq<nat>) {
    && (forall a :: a in visited || a in work ==> Reach(objs, code, from, a))
    && (forall a :: a in from ==> a in visited || a in work)
    && (forall a, b :: a in visited && Edge(objs, code, a, b) ==> b in visited || b in work)
  }

  lemma ReachStep(objs: Store, code: bool, from: set<nat>, a: nat, b: nat)
    requires Reach(objs, code, from, a) && Edge(objs, code, a, b)
    ensures Reach(objs, code, from, b)
  {
    var p :| Path(objs, code, p) && p[0] in from && p[|p| - 1] == a;
    var q := p + [b];
    forall i | 0 <= i < |q| - 1
      ensures Edge(objs, code, q[i], q[i + 1])
    {
      assert q[i] == p[i];
    }
    assert Path(objs, code, q);
  }

  lemma ExploreNone(objs: Store, code: bool, from: set<nat>, work: seq<nat>)
    requires forall a :: a in from <==> a in work
    ensures Exploring(objs, code, from, {}, work)
  {
    forall a | a in work
      ensures Reach(objs, code, from, a)
    {
      assert Path(objs, code, [a]);
    }
  }

  lemma ExploreSeen(objs: Store, code: bool, from: set<nat>, visited: set<nat>, work: seq<nat>, o: nat)
    requires Exploring(objs, code, from, visited, work + [o]) && o in visited
    ensures Exploring(objs, code, from, visited, work)
  {
    forall a | a in work
      ensures Reach(objs, code, from, a)
    {
      assert a in work + [o];
    }
    forall a, b | a in visited && Edge(objs, code, a, b)
      ensures b in visited || b in work
    {
      assert b in visited || b in work + [o];
    }
  }

  lemma ExploreNew(objs: Store, code: bool, from: set<nat>, visited: set<nat>, work: seq<nat>, o: nat, next: seq<nat>)
    requires Exploring(objs, code, from, visited, work + [o])
    requires forall b :: b in next <==> Edge(objs, code, o, b)
    ensures Exploring(objs, code, from, visited + {o}, work + next)
  {
    assert o in work + [o];
    forall a | a in visited + {o} || a in work + next
      ensures Reach(objs, code, from, a)
    {
      if a in next {
        ReachStep(objs, code, from, o, a);
      } else {
        assert a in visited || a in work + [o];
      }
    }
    forall a, b | a in visited + {o} && Edge(objs, code, a, b)
      ensures b in visited + {o} || b in work + next
    {
      if a in visited {
        assert b in visited || b in work + [o];
      }
    }
    forall a | a in from
      ensures a in visited + {o} || a in work + next
    {
      assert a in visited || a in work + [o];
    }
  }

  lemma {:induction false} ExploreAll(objs: Store, code: bool, from: set<nat>, visited: set<nat>, p: seq<nat>)
    requires Exploring(objs, code, from, visited, []) && Path(objs, code, p) && p[0] in from
    ensures p[|p| - 1] in visited
    decreases |p|
  {
    if |p| > 1 {
      var q := p[..|p| - 1];
      ExploreAll(objs, code, from, visited, q);
      assert Edge(objs, code, p[|p| - 2], p[|p| - 2 + 1]);
    }
  }

  lemma Explored(objs: Store, code: bool, from: set<nat>, visited: set<nat>)
    requires Exploring(objs, code, from, visited, [])
    ensures forall a :: a in visited <==> Reach(objs, code, from, a)
  {
    forall a | Reach(objs, code, from, a)
      ensures a in visited
    {
      var p :| Path(objs, code, p) && p[0] in from && p[|p| - 1] == a;
      ExploreAll(objs, code, from, visited, p);
    }
  }

  ghost function Unseen(objs: Store, visited: set<nat>): set<nat> {
    set a | 0 <= a < |objs| && a !in visited
  }

  lemma UnseenLess(objs: Store, visited: set<nat>, o: nat)
    requires o < |objs| && o !in visited
    ensures |Unseen(objs, visited + {o})| < |Unseen(objs, visited)|
  {
    assert Unseen(objs, visited + {o}) == Unseen(objs, visited) - {o};
  }

  ghost predicate Inside(objs: Store, s: seq<nat>) {
    forall i :: 0 <= i < |s| ==> s[i] < |objs|
  }

  // The two loops

  method Collect(objs: Store, o: nat) returns (found: seq<nat>)
    requires Wf(objs) && o < |objs|
    ensures Inside(objs, found) && forall a :: a in found <==> a in Occurring(objs, o)
  {
    var work0: seq<nat> := [o];
    var visited: set<nat> := {};
    found := [];
    ExploreNone(objs, false, {o}, work0);
    while work0 != []
      invariant Inside(objs, work0) && Inside(objs, found) && (forall a :: a in visited ==> a < |objs|)
      invariant Exploring(objs, false, {o}, visited, work0)
      invariant forall a :: a in found <==> a in visited && Wanted(objs, a)
      decreases |Unseen(objs, visited)|, |work0|
    {
      var x, rest := work0[|work0| - 1], work0[..|work0| - 1];
      assert work0 == rest + [x];
      if x in visited {
        ExploreSeen(objs, false, {o}, visited, rest, x);
        work0 := rest;
      } else {
        UnseenLess(objs, visited, x);
        var next := if objs[x].Array? then objs[x].elems else [];
        ExploreNew(objs, false, {o}, visited, rest, x, next);
        visited := visited + {x};
        if objs[x].Data? || objs[x].Bytecode? {
          found := found + [x];
        }
        work0 := PushAll(objs, rest, next, false);
      }
    }
    Explored(objs, false, {o}, visited);
  }

  /** Push the objects one by one; only combinators, when they come from code. */
  method PushAll(objs: Store, work: seq<nat>, os: seq<nat>, wanted: bool) returns (work1: seq<nat>)
    requires Inside(objs, work) && Inside(objs, os)
    ensures Inside(objs, work1)
    ensures work1 == work + (if wanted then OnlyWanted(objs, os) else os)
  {
    hide Inside, OnlyWanted;
    PushNone(objs, work);
    work1 := work;
    for i := 0 to |os|
      invariant Inside(objs, work1)
      invariant work1 == work + (if wanted then OnlyWanted(objs, os[..i]) else os[..i])
    {
      PushNext(objs, work, os, i);
      PushInside(objs, work1, os, i);
      if !wanted || objs[os[i]].Data? || objs[os[i]].Bytecode? {
        work1 := work1 + [os[i]];
      }
    }
    assert os[..|os|] == os;
  }

  lemma PushNone(objs: Store, work: seq<nat>)
    ensures OnlyWanted(objs, []) == [] && work + [] == work
  {
  }

  lemma PushNext(objs: Store, work: seq<nat>, os: seq<nat>, i: nat)
    requires i < |os|
    ensures work + os[..i + 1] == work + os[..i] + [os[i]]
    ensures work + OnlyWanted(objs, os[..i + 1]) ==
              if Wanted(objs, os[i]) then work + OnlyWanted(objs, os[..i]) + [os[i]] else work + OnlyWanted(objs, os[..i])
  {
    assert os[..i + 1] == os[..i] + [os[i]];
    WantedMore(objs, os[..i], os[i]);
  }

  lemma PushInside(objs: Store, work: seq<nat>, os: seq<nat>, i: nat)
    requires Inside(objs, work) && Inside(objs, os) && i < |os|
    ensures os[i] < |objs| && Inside(objs, work + [os[i]])
  {
  }

  function OnlyWanted(objs: Store, os: seq<nat>): seq<nat> {
    if os == [] then []
    else OnlyWanted(objs, os[..|os| - 1]) + if Wanted(objs, os[|os| - 1]) then [os[|os| - 1]] else []
  }

  lemma CodeEdges(objs: Store, x: nat)
    requires Wf(objs) && x < |objs|
    ensures objs[x].Bytecode? ==> Inside(objs, objs[x].data)
    ensures var next := if objs[x].Bytecode? then OnlyWanted(objs, objs[x].data) else [];
            forall b :: b in next <==> Edge(objs, true, x, b)
  {
    if objs[x].Bytecode? {
      WantedIn(objs, objs[x].data);
    }
  }

  lemma WantedMore(objs: Store, os: seq<nat>, o: nat)
    ensures OnlyWanted(objs, os + [o]) == OnlyWanted(objs, os) + if Wanted(objs, o) then [o] else []
  {
    assert (os + [o])[..|os|] == os;
  }

  lemma {:induction false} WantedIn(objs: Store, os: seq<nat>)
    ensures forall a :: a in OnlyWanted(objs, os) <==> a in os && Wanted(objs, a)
    decreases |os|
  {
    if os != [] {
      WantedIn(objs, os[..|os| - 1]);
      assert os == os[..|os| - 1] + [os[|os| - 1]];
    }
  }

  /** Every combinator that is needed, once each, also when definitions are cyclic. */
  method Dependencies(objs: Store, o: nat) returns (oo: seq<nat>)
    requires Wf(objs) && o < |objs|
    ensures Distinct(oo) && forall b :: b in oo <==> Needed(objs, o, b)
    ensures forall b: nat :: b in oo <==>
              b < |objs| && (objs[b].Data? || objs[b].Bytecode?) && forall s: set<nat> :: Closed(objs, o, s) ==> b in s
  {
    hide Wf, Exploring, OnlyWanted, Occurring, Reach, Wanted, Edge, Closed;
    var work1 := Collect(objs, o);
    ghost var from := Occurring(objs, o);
    var visited: set<nat> := {};
    oo := [];
    ExploreNone(objs, true, from, work1);
    while work1 != []
      invariant Inside(objs, work1) && Distinct(oo)
      invariant Exploring(objs, true, from, visited, work1)
      invariant forall a :: a in oo <==> a in visited
      decreases |Unseen(objs, visited)|, |work1|
    {
      var x, rest := work1[|work1| - 1], work1[..|work1| - 1];
      assert work1 == rest + [x];
      if x in visited {
        ExploreSeen(objs, true, from, visited, rest, x);
        work1 := rest;
      } else {
        UnseenLess(objs, visited, x);
        CodeEdges(objs, x);
        ghost var next := if objs[x].Bytecode? then OnlyWanted(objs, objs[x].data) else [];
        ExploreNew(objs, true, from, visited, rest, x, next);
        visited := visited + {x};
        oo := oo + [x];
        if objs[x].Bytecode? {
          work1 := PushAll(objs, rest, objs[x].data, true);
        } else {
          work1 := rest;
          assert rest + next == rest;
        }
      }
    }
    Explored(objs, true, from, visited);
    forall b: nat
      ensures b in oo <==> b < |objs| && (objs[b].Data? || objs[b].Bytecode?) && forall s: set<nat> :: Closed(objs, o, s) ==> b in s
    {
      NeededExactly(objs, o, b);
    }
  }

  /** The set has o, the elements of its arrays, and the combinators that its code refers to. */
  ghost predicate Closed(objs: Store, o: nat, s: set<nat>) {
    && o in s
    && (forall a, b :: a in s && a < |objs| && objs[a].Array? && b in objs[a].elems ==> b in s)
    && (forall a, b :: a in s && a < |objs| && objs[a].Bytecode? && b in objs[a].data && b < |objs| && (objs[b].Data? || objs[b].Bytecode?)
          ==> b in s)
  }

  lemma {:induction false} ArraysIn(objs: Store, o: nat, s: set<nat>, p: seq<nat>)
    requires Closed(objs, o, s) && Path(objs, false, p) && p[0] == o
    ensures p[|p| - 1] in s
    decreases |p|
  {
    if |p| > 1 {
      var q := p[..|p| - 1];
      ArraysIn(objs, o, s, q);
      assert Edge(objs, false, p[|p| - 2], p[|p| - 2 + 1]);
    }
  }

  lemma OccurringIn(objs: Store, o: nat, s: set<nat>)
    requires Closed(objs, o, s)
    ensures Occurring(objs, o) <= s
  {
    forall a | a in Occurring(objs, o)
      ensures a in s
    {
      var p :| Path(objs, false, p) && p[0] in {o} && p[|p| - 1] == a;
      ArraysIn(objs, o, s, p);
    }
  }

  /** The objects behind o. */
  ghost function Behind(objs: Store, o: nat): set<nat> {
    set a | 0 <= a < |objs| && (Reach(objs, false, {o}, a) || Needed(objs, o, a))
  }

  lemma NeededWanted(objs: Store, o: nat, b: nat)
    requires Needed(objs, o, b)
    ensures Wanted(objs, b)
  {
    var p :| Path(objs, true, p) && p[0] in Occurring(objs, o) && p[|p| - 1] == b;
    if |p| > 1 {
      assert Edge(objs, true, p[|p| - 2], p[|p| - 2 + 1]);
    }
  }

  lemma BehindClosed(objs: Store, o: nat)
    requires Wf(objs) && o < |objs|
    ensures Closed(objs, o, Behind(objs, o))
  {
    hide Reach;
    var s := Behind(objs, o);
    ReachStart(objs, o);
    forall a, b | a in s && objs[a].Array? && b in objs[a].elems
      ensures b in s
    {
      if Needed(objs, o, a) {
        NeededWanted(objs, o, a);
      }
      ReachStep(objs, false, {o}, a, b);
    }
    forall a, b | a in s && objs[a].Bytecode? && b in objs[a].data && Wanted(objs, b)
      ensures b in s
    {
      NeededClosed(objs, o, a, b);
    }
  }

  lemma ReachStart(objs: Store, o: nat)
    ensures Reach(objs, false, {o}, o)
  {
    assert Path(objs, false, [o]);
  }

  /** What is needed are the combinators in every set with o, with the elements of its arrays, and with the combinators its
      code refers to. */
  lemma NeededExactly(objs: Store, o: nat, b: nat)
    requires Wf(objs) && o < |objs|
    ensures Needed(objs, o, b) <==> b < |objs| && (objs[b].Data? || objs[b].Bytecode?) && forall s: set<nat> :: Closed(objs, o, s) ==> b in s
  {
    hide Reach, Closed, Needed;
    if Needed(objs, o, b) {
      NeededWanted(objs, o, b);
      forall s: set<nat> | Closed(objs, o, s)
        ensures b in s
      {
        OccurringIn(objs, o, s);
        CodeClosed(objs, o, s);
        NeededLeast(objs, o, s, b);
      }
    }
    if b < |objs| && (objs[b].Data? || objs[b].Bytecode?) && forall s: set<nat> :: Closed(objs, o, s) ==> b in s {
      BehindClosed(objs, o);
      assert b in Behind(objs, o);
      NeededClosed(objs, o, b, b);
    }
  }

  lemma CodeClosed(objs: Store, o: nat, s: set<nat>)
    requires Closed(objs, o, s)
    ensures forall a, c :: a in s && Edge(objs, true, a, c) ==> c in s
  {
  }

  // What the result means

  /** The result holds the combinators of the term, and with a code object all combinators its code refers to. */
  lemma NeededClosed(objs: Store, o: nat, b: nat, c: nat)
    ensures b in Occurring(objs, o) ==> Needed(objs, o, b)
    ensures Needed(objs, o, b) && Edge(objs, true, b, c) ==> Needed(objs, o, c)
  {
    if b in Occurring(objs, o) {
      assert Path(objs, true, [b]);
    }
    if Needed(objs, o, b) && Edge(objs, true, b, c) {
      ReachStep(objs, true, Occurring(objs, o), b, c);
    }
  }

  /** And it is the smallest set with these properties. */
  lemma NeededLeast(objs: Store, o: nat, s: set<nat>, b: nat)
    requires Occurring(objs, o) <= s && forall a, c :: a in s && Edge(objs, true, a, c) ==> c in s
    requires Needed(objs, o, b)
    ensures b in s
  {
    var p :| Path(objs, true, p) && p[0] in Occurring(objs, o) && p[|p| - 1] == b;
    var i := 0;
    while i < |p| - 1
      invariant 0 <= i < |p| && p[i] in s
    {
      assert Edge(objs, true, p[i], p[i + 1]);
      i := i + 1;
    }
  }
}
