/** TEST compares objects by structure: it finds out whether two objects stand for the same term. */
module Equality {
  import opened Common
  import opened Terms
  import opened Heaps
  import opened Bytecode

  function Height(t: Term): nat {
    if t.Leaf? then 0 else 1 + Heights(t.ts)
  }

  function Heights(ts: seq<Term>): nat {
    if ts == [] then 0
    else
      var a, b := Height(ts[0]), Heights(ts[1..]);
      if a < b then b else a
  }

  lemma {:induction false} HeightAt(ts: seq<Term>, i: nat)
    requires i < |ts|
    ensures Height(ts[i]) <= Heights(ts)
    decreases i
  {
    if i > 0 {
      HeightAt(ts[1..], i - 1);
    }
  }

  lemma {:induction false} RepOnce(h: Heap, o: Obj, t: Term, u: Term)
    requires Rep(h, o, t) && Rep(h, o, u)
    ensures t == u
    decreases t
  {
    if t.Node? && u.Node? {
      forall i | 0 <= i < |t.ts|
        ensures t.ts[i] == u.ts[i]
      {
        RepOnce(h, h[o.addr][i], t.ts[i], u.ts[i]);
      }
      assert t.ts == u.ts;
    }
  }

  /** The arrays of the path stand for terms higher than n. */
  ghost predicate Higher(h: Heap, path: seq<nat>, n: nat) {
    forall i :: 0 <= i < |path| ==> path[i] < |h| && exists t: Term :: Rep(h, Arr(path[i]), t) && Height(t) > n
  }

  lemma NotOnPath(h: Heap, path: seq<nat>, o: Obj, t: Term)
    requires Rep(h, o, t) && o.Arr? && Higher(h, path, Height(t))
    ensures o.addr !in path
  {
    hide Rep;
    if o.addr in path {
      var i :| 0 <= i < |path| && path[i] == o.addr;
      var u: Term :| Rep(h, Arr(path[i]), u) && Height(u) > Height(t);
      RepOnce(h, o, t, u);
      assert false;
    }
  }

  lemma HigherNext(h: Heap, path: seq<nat>, o: Obj, t: Term, i: nat)
    requires Rep(h, o, t) && t.Node? && i < |t.ts| && Higher(h, path, Height(t))
    ensures Higher(h, path + [o.addr], Height(t.ts[i]))
  {
    hide Rep;
    HeightAt(t.ts, i);
    RepArr(h, o, t);
    var path1 := path + [o.addr];
    forall k | 0 <= k < |path1|
      ensures path1[k] < |h| && exists u: Term :: Rep(h, Arr(path1[k]), u) && Height(u) > Height(t.ts[i])
    {
      if k < |path| {
        var u: Term :| Rep(h, Arr(path[k]), u) && Height(u) > Height(t);
      } else {
        assert Rep(h, Arr(path1[k]), t);
      }
    }
  }

  lemma RepArr(h: Heap, o: Obj, t: Term)
    requires Rep(h, o, t) && t.Node?
    ensures o == Arr(o.addr) && o.addr < |h|
  {
  }

  /** No path through a term visits an array twice, so the depth is enough. */
  lemma {:induction false} SameTerms(h: Heap, x: Obj, y: Obj, t: Term, u: Term, depth: nat, path: seq<nat>)
    requires Rep(h, x, t) && Rep(h, y, u)
    requires Distinct(path) && Higher(h, path, Height(t)) && |path| + depth >= |h|
    ensures Same(h, x, y, depth) <==> t == u
    decreases t
  {
    hide Higher, Height;
    if x.Arr? && y.Arr? {
      var path1 := path + [x.addr];
      NotOnPath(h, path, x, t);
      PathInside(h, path, x, t);
      Pigeonhole(path1, |h|);
      if |t.ts| == |u.ts| {
        forall i | 0 <= i < |t.ts|
          ensures Same(h, h[x.addr][i], h[y.addr][i], depth - 1) <==> t.ts[i] == u.ts[i]
        {
          HigherNext(h, path, x, t, i);
          SameTerms(h, h[x.addr][i], h[y.addr][i], t.ts[i], u.ts[i], depth - 1, path1);
        }
        assert t == u <==> forall i :: 0 <= i < |t.ts| ==> t.ts[i] == u.ts[i];
      }
    }
  }

  lemma PathInside(h: Heap, path: seq<nat>, o: Obj, t: Term)
    requires Rep(h, o, t) && o.Arr? && Higher(h, path, Height(t))
    ensures forall i :: 0 <= i < |path + [o.addr]| ==> (path + [o.addr])[i] < |h|
  {
  }

  /** After TEST the flag says whether both registers hold the same term. */
  lemma TestExactly(c: Cpu, x: nat, y: nat, t: Term, u: Term)
    requires Rep(c.heap, Get(c.reg, x), t) && Rep(c.heap, Get(c.reg, y), u)
    ensures Exec(Test(x, y), c) == Fall(c.(flag := t == u))
  {
    hide Same;
    SameTerms(c.heap, Get(c.reg, x), Get(c.reg, y), t, u, |c.heap|, []);
  }
}
