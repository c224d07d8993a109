/** The thunks that a run can still come to: a set that every round keeps closed. */
module Pending {
  import opened Terms
  import opened Heaps
  import opened Syntax
  import opened Semantics
  import opened Bytecode
  import opened Emit
  import opened Build
  import opened Codegen
  import opened Matching
  import opened Blocks
  import opened LetNormal
  import opened Filling
  import opened Values
  import opened Machine
  import opened Compile
  import opened Chain

  predicate Within(o: Obj, s: set<nat>) {
    o.Null? || (o.Arr? && o.addr in s)
  }

  /** Of the n arrays there are, the target is not in the link of a thunk of s. */
  predicate TargetApart(rt: Obj, rti: Obj, s: set<nat>, n: nat) {
    rt.Arr? ==> rt.addr < n && (rt.addr in s ==> rti.At? && rti.atom.IntAtom? && rti.atom.i >= 4)
  }

  /** The continuation and the handler of a thunk are in s, and running it changes the link of no thunk of s. */
  predicate PendingAt(h: Heap, s: set<nat>, u: nat) {
    u < |h| && |h[u]| >= 4 && Within(h[u][2], s) && Within(h[u][3], s) && TargetApart(h[u][0], h[u][1], s, |h|)
  }

  /** The set s has, with a thunk, all that can be reduced after it. */
  predicate Pend(h: Heap, s: set<nat>) {
    forall u :: u in s ==> PendingAt(h, s, u)
  }

  /** The thunks of s keep their links. */
  predicate LinksKept(h: Heap, h1: Heap, s: set<nat>) {
    |h| <= |h1| && forall u :: u in s && u < |h| && |h[u]| >= 4 ==> |h1[u]| >= 4 && h1[u][..4] == h[u][..4]
  }

  lemma FrameLinks(h: Heap, h1: Heap, a: nat, i: nat, s: set<nat>)
    requires Frame(h, h1, a, i) && (a in s ==> i >= 4)
    ensures LinksKept(h, h1, s)
  {
  }

  lemma GrowLinks(h: Heap, h1: Heap, s: set<nat>)
    requires h <= h1
    ensures LinksKept(h, h1, s)
  {
  }

  lemma LinkCells(h: Heap, h1: Heap, s: set<nat>, u: nat)
    requires LinksKept(h, h1, s) && u in s && u < |h| && |h[u]| >= 4
    ensures |h1[u]| >= 4 && forall i :: 0 <= i < 4 ==> h1[u][i] == h[u][i]
  {
    forall i | 0 <= i < 4 ensures |h1[u]| >= 4 && h1[u][i] == h[u][i] {
      assert h1[u][..4][i] == h[u][..4][i];
    }
  }

  /** New thunks may join. */
  lemma PendGrow(h: Heap, h1: Heap, s: set<nat>, s1: set<nat>)
    requires Pend(h, s) && LinksKept(h, h1, s) && s <= s1
    requires forall u :: u in s1 && u !in s ==> |h| <= u && PendingAt(h1, s1, u)
    ensures Pend(h1, s1)
  {
    hide LinksKept, Pend;
    forall u | u in s1 ensures PendingAt(h1, s1, u) {
      if u in s {
        PendingKept(h, h1, s, s1, u);
      }
    }
    PendAll(h1, s1);
  }

  lemma PendAll(h: Heap, s: set<nat>)
    requires forall u :: u in s ==> PendingAt(h, s, u)
    ensures Pend(h, s)
  {
  }

  lemma PendOne(h: Heap, s: set<nat>, u: nat)
    requires Pend(h, s) && u in s
    ensures PendingAt(h, s, u)
  {
  }

  lemma PendingKept(h: Heap, h1: Heap, s: set<nat>, s1: set<nat>, u: nat)
    requires Pend(h, s) && u in s && LinksKept(h, h1, s) && s <= s1
    requires forall v :: v in s1 && v !in s ==> |h| <= v
    ensures PendingAt(h1, s1, u)
  {
    hide Pend;
    PendOne(h, s, u);
    LinkCells(h, h1, s, u);
  }

  /** After a round: only new thunks have joined, and the next thunk is in the set. */
  ghost predicate PendNext(h: Heap, s: set<nat>, x: Next, s1: set<nat>) {
    x.Go? ==> Pend(x.h, s1) && Within(x.o, s1) && s <= s1 && |h| <= |x.h| && forall u :: u in s1 ==> u in s || |h| <= u < |x.h|
  }

  /** The link of a thunk of s, and the target it has. */
  lemma PendLink(h: Heap, s: set<nat>, t: nat, link: Link, f: Obj, args: seq<Obj>)
    requires Pend(h, s) && t in s && ThunkAt(h, t, link, f, args)
    ensures Within(link.k, s) && Within(link.exc, s) && TargetApart(link.rt, link.rti, s, |h|)
  {
    hide Pend;
    PendOne(h, s, t);
  }

  lemma StoredPend(h: Heap, h1: Heap, s: set<nat>, link: Link)
    requires Pend(h, s) && Within(link.k, s) && TargetApart(link.rt, link.rti, s, |h|)
    requires TargetOk(h, link) && Frame(h, h1, link.rt.addr, link.rti.atom.i)
    ensures PendNext(h, s, Go(h1, link.k), s)
  {
    hide Pend, Frame;
    FrameLinks(h, h1, link.rt.addr, link.rti.atom.i, s);
    FrameGrows(h, h1, link.rt.addr, link.rti.atom.i);
    PendGrow(h, h1, s, s);
    PendIn(h, s);
  }

  lemma FrameGrows(h: Heap, h1: Heap, a: nat, i: nat)
    requires Frame(h, h1, a, i)
    ensures |h| <= |h1|
  {
  }

  lemma PendIn(h: Heap, s: set<nat>)
    requires Pend(h, s)
    ensures forall u :: u in s ==> u < |h|
  {
    forall u | u in s ensures u < |h| {
      PendOne(h, s, u);
    }
  }

  /** The round ends with a new array that has a link of pending thunks. */
  lemma AddedPend(h: Heap, s: set<nat>, link: Link, os: seq<Obj>)
    requires Pend(h, s) && Within(link.k, s) && Within(link.exc, s) && TargetApart(link.rt, link.rti, s, |h|)
    ensures PendNext(h, s, Go(h + [LinkObjs(link) + os], Arr(|h|)), s + {|h|})
  {
    hide Pend;
    var h1 := h + [LinkObjs(link) + os];
    PendIn(h, s);
    GrowLinks(h, h1, s);
    PendGrow(h, h1, s, s + {|h|});
  }

  lemma CopiedPend(h: Heap, s: set<nat>, e: nat, os: seq<Obj>)
    requires Pend(h, s) && e in s
    ensures e < |h| && PendNext(h, s, Go(h + [h[e] + os], Arr(|h|)), s + {|h|})
  {
    hide Pend;
    PendOne(h, s, e);
    var he := h[e];
    var link := Link(he[0], he[1], he[2], he[3]);
    assert he + os == LinkObjs(link) + (he[4..] + os);
    AddedPend(h, s, link, he[4..] + os);
  }

  // The rounds

  lemma NormalPend(h: Heap, s: set<nat>, link: Link, f: Obj, args: seq<Obj>)
    requires Pend(h, s) && Within(link.k, s) && TargetApart(link.rt, link.rti, s, |h|) && TargetOk(h, link)
    ensures PendNext(h, s, ReduceNormal(h, link, f, args), s)
  {
    hide Pend, PendNext;
    var (h1, o) := NormalObj(h, f, args);
    assert h <= h1;
    StoredPend(h, SetCell(h1, link.rt.addr, link.rti.atom.i, o), s, link);
  }

  lemma ArrayPend(h: Heap, s: set<nat>, link: Link, a: nat, args: seq<Obj>)
    requires a < |h| && Pend(h, s) && Within(link.k, s) && Within(link.exc, s) && TargetApart(link.rt, link.rti, s, |h|)
    ensures PendNext(h, s, ReduceArray(h, link, a, args), s + {|h|})
  {
    hide Pend, PendNext;
    assert LinkObjs(link) + h[a] + args == LinkObjs(link) + (h[a] + args);
    AddedPend(h, s, link, h[a] + args);
  }

  lemma ThrowPend(h: Heap, s: set<nat>, link: Link, f: Obj, args: seq<Obj>) returns (s1: set<nat>)
    requires Pend(h, s) && Within(link.k, s) && Within(link.exc, s) && TargetApart(link.rt, link.rti, s, |h|) && TargetOk(h, link)
    ensures PendNext(h, s, ReduceThrow(h, link, f, args), s1)
  {
    hide Pend, PendNext;
    s1 := s;
    if args == [] {
      StoredPend(h, SetCell(h, link.rt.addr, link.rti.atom.i, f), s, link);
    } else if link.exc.Arr? {
      s1 := s + {|h|};
      CopiedPend(h, s, link.exc.addr, args);
      PendOne(h, s, link.exc.addr);
    } else {
      NoPend(h, s, s1);
    }
  }

  lemma NoPend(h: Heap, s: set<nat>, s1: set<nat>)
    ensures PendNext(h, s, Panic, s1)
  {
  }

  lemma HandlePend(h: Heap, s: set<nat>, link: Link, f: Obj, args: seq<Obj>) returns (s1: set<nat>)
    requires Pend(h, s) && Within(link.k, s) && Within(link.exc, s) && TargetApart(link.rt, link.rti, s, |h|) && TargetOk(h, link)
    ensures PendNext(h, s, ReduceHandle(h, link, f, args), s1)
  {
    hide Pend, PendNext, ReduceNormal;
    if |args| < 2 {
      s1 := s;
      HandlePart(h, link, f, args);
      NormalPend(h, s, link, f, args);
    } else {
      s1 := s + {|h|} + {|h| + 1};
      var h1 := h + [LinkObjs(link) + [args[0], NONE_OBJ]];
      var link1 := link.(exc := Arr(|h|));
      AddedPend(h, s, link, [args[0], NONE_OBJ]);
      PendParts(h, s, Go(h1, Arr(|h|)), s + {|h|});
      PendIn(h, s);
      AddedPend(h1, s + {|h|}, link1, [args[1], NONE_OBJ] + args[2..]);
      assert LinkObjs(link1) + ([args[1], NONE_OBJ] + args[2..]) == LinkObjs(link1) + [args[1], NONE_OBJ] + args[2..];
      PendTwice(h, s, Go(h1, Arr(|h|)), s + {|h|}, ReduceHandle(h, link, f, args), s1);
    }
  }

  lemma PendParts(h: Heap, s: set<nat>, x: Next, s1: set<nat>)
    requires PendNext(h, s, x, s1) && x.Go?
    ensures Pend(x.h, s1) && Within(x.o, s1) && s <= s1 && |h| <= |x.h| && forall u :: u in s1 ==> u in s || |h| <= u < |x.h|
  {
  }

  lemma PendTwice(h: Heap, s: set<nat>, x: Next, s1: set<nat>, x2: Next, s2: set<nat>)
    requires PendNext(h, s, x, s1) && x.Go? && PendNext(x.h, s1, x2, s2)
    ensures PendNext(h, s, x2, s2)
  {
    hide Pend;
  }

  // Bodies

  /** A thunk of a body: the rest of it is among its thunks s or is that of the reduced thunk. */
  ghost predicate BodyThunk(n: nat, m: nat, c: seq<Obj>, l: Link, s: set<nat>) {
    && |c| >= 4 && c[3] == l.exc && (c[2] == l.k || (c[2].Arr? && c[2].addr in s))
    && ((c[0] == l.rt && c[1] == l.rti)
        || (c[0].Arr? && n <= c[0].addr < m && (c[0].addr in s ==> c[1].At? && c[1].atom.IntAtom? && c[1].atom.i >= 4)))
  }

  /** The thunks s of a body set up at n. No empty cell is in the link of one. */
  ghost predicate BodyThunks(n: nat, b: Body, l: Link, s: set<nat>) {
    && (b.k == l.k || (b.k.Arr? && b.k.addr in s))
    && (forall u :: u in s ==> n <= u < n + |b.cells| && BodyThunk(n, n + |b.cells|, b.cells[u - n], l, s))
    && (forall v :: v in b.holes && b.holes[v].0 in s ==> b.holes[v].1 >= 4)
  }

  lemma {:induction false} BodyPending(ds: set<Symbol>, scope: set<Name>, n: nat, e: Expr, env: Objs, l: Link, extra: seq<Obj>) returns (s: set<nat>)
    requires BodyOk(ds, scope, e) && env.Keys <= scope
    ensures BodyThunks(n, RootBody(ds, n, e, env, l, extra), l, s)
    decreases e
  {
    hide RootBody, Tree, Thunk, IsRedex, RedexTree, TreeOk, Count, VarsOf, Extend, BodyThunks, FilledBody, LetBody;
    RootShape(ds, n, e, env, l, extra);
    if e.Let? {
      var b := RootBody(ds, n, e.body, env, l, extra);
      LetsFresh(ds, scope + {e.x}, e.body, e.x);
      BodyIsCore(ds, scope + {e.x}, e.body);
      RootFill(ds, n, e.body, env, l, extra, e.x, Null);
      FilledHole(n, b, RootBody(ds, n, e.body, env[e.x := Null], l, extra), e.x, Null);
      BodyHoles(ds, n, e.body, env, l, extra);
      s := BodyPending(ds, scope + {e.x}, n, e.body, env, l, extra);
      s := LetPending(n, b, e, env, l, s);
    } else if IsRedex(ds, e) {
      s := RedexPending(n, e, env, l, extra);
    } else {
      s := {};
      TreeInside(ds, n, e, env);
      NothingPending(n, RootBody(ds, n, e, env, l, extra), l);
    }
  }

  lemma NothingPending(n: nat, b: Body, l: Link)
    requires b.k == l.k
    ensures BodyThunks(n, b, l, {})
  {
  }

  /** The thunk of an application is its last array; its empty cells come after the link. */
  lemma ThunkParts(n: nat, e: Expr, env: Objs, l: Link)
    ensures var t := Thunk(n, e, env, l);
            && Topped(n, t) && |t.cells[|t.cells| - 1]| >= 4 && t.cells[|t.cells| - 1][..4] == LinkObjs(l) && HolesIn(n, t.cells, t.holes)
            && forall v :: v in t.holes && t.holes[v].0 == t.o.addr ==> t.holes[v].1 >= 4
  {
    hide Trees, Direct, HolesIn;
    ThunkHoles(n, e, env, l);
    var es := Elements(e);
    var b := Trees(n, es, env);
    TreesHoles(n, es, env);
    HolesBelow(n, b.cells, b.holes);
    LeafSlots(n, es, env);
    var a := n + |b.cells|;
    DirectIn(es, env, a, 4, LinkObjs(l) + b.os, 4);
    assert (LinkObjs(l) + b.os)[..4] == LinkObjs(l);
  }

  lemma HolesBelow(n: nat, cells: Heap, holes: map<Name, (nat, nat)>)
    requires HolesIn(n, cells, holes)
    ensures forall v :: v in holes ==> n <= holes[v].0 < n + |cells|
  {
  }

  lemma RedexPending(n: nat, e: Expr, env: Objs, l: Link, extra: seq<Obj>) returns (s: set<nat>)
    ensures var b := Thunk(n, e, env, l);
            (b.o.Arr? ==> n <= b.o.addr < n + |b.cells|) &&
            var t := Extend(n, b, extra);
            BodyThunks(n, Body(t.cells, t.o, t.holes, Null, Replaced(b, extra)), l, s)
  {
    hide Thunk;
    ThunkParts(n, e, env, l);
    var b := Thunk(n, e, env, l);
    var t := Extend(n, b, extra);
    s := {t.o.addr};
    HolesBelow(n, b.cells, b.holes);
    LinkPrefix(b.cells[|b.cells| - 1], l);
  }

  lemma LinkPrefix(c: seq<Obj>, l: Link)
    requires |c| >= 4 && c[..4] == LinkObjs(l)
    ensures c[0] == l.rt && c[1] == l.rti && c[2] == l.k && c[3] == l.exc
  {
    assert c[..4][0] == l.rt && c[..4][1] == l.rti && c[..4][2] == l.k && c[..4][3] == l.exc;
  }

  lemma BodyThunkMore(n: nat, m: nat, m1: nat, c: seq<Obj>, l: Link, s: set<nat>)
    requires BodyThunk(n, m, c, l, s) && m <= m1
    ensures BodyThunk(n, m1 + 1, c, l, s + {m1})
  {
  }

  lemma LetPending(n: nat, b: Body, e: Expr, env: Objs, l: Link, s: set<nat>) returns (s1: set<nat>)
    requires e.Let? && BodyThunks(n, b, l, s) && HolesIn(n, b.cells, b.holes) && e.x in b.holes
    ensures BodyThunks(n, LetBody(n, b, e, env, l), l, s1)
  {
    hide Thunk, HolesIn, BodyThunk;
    var (a, i) := b.holes[e.x];
    var l1 := Link(Arr(a), At(IntAtom(i)), b.k, l.exc);
    var m := n + |b.cells|;
    var t := Thunk(m, e.rhs, env, l1);
    ThunkParts(m, e.rhs, env, l1);
    HolesBelow(n, b.cells, b.holes);
    HolesBelow(m, t.cells, t.holes);
    var top := t.cells[|t.cells| - 1];
    LinkPrefix(top, l1);
    s1 := s + {t.o.addr};
    var cells := b.cells + t.cells;
    assert cells[t.o.addr - n] == top;
    LetThunk(n, m, n + |cells|, b, top, l, l1, s, t.o.addr);
    forall u | u in s1 ensures n <= u < n + |cells| && BodyThunk(n, n + |cells|, cells[u - n], l, s1) {
      if u in s {
        BodyThunkMore(n, m, t.o.addr, b.cells[u - n], l, s);
        assert cells[u - n] == b.cells[u - n];
      }
    }
  }

  /** The thunk of a let writes to a cell of the rest of the body. */
  lemma LetThunk(n: nat, m: nat, m1: nat, b: Body, c: seq<Obj>, l: Link, l1: Link, s: set<nat>, u: nat)
    requires BodyThunks(n, b, l, s) && m == n + |b.cells| <= u < m1 && l1.k == b.k && l1.exc == l.exc
    requires l1.rt.Arr? && n <= l1.rt.addr < m && l1.rti.At? && l1.rti.atom.IntAtom? && (l1.rt.addr in s ==> l1.rti.atom.i >= 4)
    requires |c| >= 4 && c[0] == l1.rt && c[1] == l1.rti && c[2] == l1.k && c[3] == l1.exc
    ensures BodyThunk(n, m1, c, l, s + {u})
  {
  }

  /** A body that is set up adds its thunks to those of the store. */
  lemma BodyPend(h: Heap, h1: Heap, s: set<nat>, link: Link, b: Body, sb: set<nat>)
    requires Pend(h, s) && Within(link.k, s) && Within(link.exc, s) && TargetApart(link.rt, link.rti, s, |h|) && TargetOk(h, link)
    requires BodyThunks(|h|, b, link, sb) && h1 == Wrote(h, link, b.write) + b.cells
    ensures PendNext(h, s, Go(h1, b.k), s + sb)
  {
    hide Pend, BodyThunk;
    var s1 := s + sb;
    WroteFrame(h, h1, link, b.write, b.cells);
    FrameLinks(h, h1, link.rt.addr, link.rti.atom.i, s);
    PendIn(h, s);
    forall u | u in s1 && u !in s ensures |h| <= u && PendingAt(h1, s1, u) {
      assert h1[u] == b.cells[u - |h|];
      BodyPendAt(h, h1, s, link, sb, u);
    }
    PendGrow(h, h1, s, s1);
  }

  lemma WroteFrame(h: Heap, h1: Heap, link: Link, w: Obj, cells: Heap)
    requires TargetOk(h, link) && h1 == Wrote(h, link, w) + cells
    ensures Frame(h, h1, link.rt.addr, link.rti.atom.i) && |h1| == |h| + |cells| && h1[|h|..] == cells
  {
  }

  lemma BodyPendAt(h: Heap, h1: Heap, s: set<nat>, link: Link, sb: set<nat>, u: nat)
    requires Within(link.k, s) && Within(link.exc, s) && TargetApart(link.rt, link.rti, s, |h|) && TargetOk(h, link)
    requires |h| <= u < |h1| && BodyThunk(|h|, |h1|, h1[u], link, sb)
    requires (forall v :: v in s ==> v < |h|) && (forall v :: v in sb ==> |h| <= v)
    ensures PendingAt(h1, s + sb, u)
  {
  }

  // A round of a compiled combinator

  lemma CodePend(P: Program, ds: set<Symbol>, T: Table, h: Heap, s: set<nat>, t: nat, link: Link, f: Obj, args: seq<Obj>, c: Symbol, ts: seq<Term>) returns (s1: set<nat>)
    requires Compiled(ds, P, T) && Linked(h, link) && ThunkAt(h, t, link, f, args) && f == At(CombAtom(c)) && Reps(h, args, ts)
    requires c in T && T[c].CodeComb?
    requires Pend(h, s) && Within(link.k, s) && Within(link.exc, s) && TargetApart(link.rt, link.rti, s, |h|)
    ensures PendNext(h, s, Step(T, h, Arr(t)), s1)
  {
    hide Step, Linked, Reps, Pend, PendNext, Assembled, Select, Within, TargetApart, ThunkAt;
    assert c in P && CompiledAs(ds, P[c], T[c]);
    assert P[c].CodeDef?;
    var ms := P[c].alts;
    var pv, stale :| Assembled(ds, pv, stale, ms, T[c]);
    LinkedTarget(h, link);
    if Select(ms, ts).NoAlt? {
      s1 := s;
      var h1 := NoAltStep(ds, pv, stale, T, h, t, link, f, args, c, ts, ms);
      StoredPend(h, h1, s, link);
    } else {
      var m, b := TakenStep(ds, pv, stale, T, h, t, link, f, args, c, ts, ms);
      var env := MatchObjs(h, m.pats, args[..|m.pats|], map[]);
      var sb := BodyPending(ds, env.Keys, |h|, m.body, env, link, args[|m.pats|..]);
      s1 := s + sb;
      BodyPend(h, Wrote(h, link, b.write) + b.cells, s, link, b, sb);
    }
  }

  lemma NoAltStep(ds: set<Symbol>, pv: set<Name>, stale: Vars, T: Table, h: Heap, t: nat, link: Link, f: Obj, args: seq<Obj>, c: Symbol, ts: seq<Term>, ms: seq<Alt>) returns (h1: Heap)
    requires c in T && Assembled(ds, pv, stale, ms, T[c]) && Select(ms, ts).NoAlt?
    requires Linked(h, link) && TargetOk(h, link) && ThunkAt(h, t, link, f, args) && f == At(CombAtom(c)) && Reps(h, args, ts)
    ensures Step(T, h, Arr(t)) == Go(h1, link.k) && Frame(h, h1, link.rt.addr, link.rti.atom.i)
  {
    hide Step, Assembled, Select, DefCode, DefLabels, RunFrom, BlockFits, Reps, AltsOk, Linked;
    AssembledFits(ds, pv, stale, ms, T[c], h, link, args, ts);
    var _ := DefRun(ds, stale, ms, h, t, link, f, args, ts);
    CodeStep(ds, pv, stale, T, h, t, link, f, args, c, ms);
    var (h0, o) := NormalObj(h + [[]], f, args);
    assert h <= h0;
    h1 := SetCell(h0, link.rt.addr, link.rti.atom.i, o);
  }

  lemma TakenStep(ds: set<Symbol>, pv: set<Name>, stale: Vars, T: Table, h: Heap, t: nat, link: Link, f: Obj, args: seq<Obj>, c: Symbol, ts: seq<Term>, ms: seq<Alt>) returns (m: Alt, b: Body)
    requires c in T && Assembled(ds, pv, stale, ms, T[c]) && Select(ms, ts).Chosen?
    requires Linked(h, link) && TargetOk(h, link) && ThunkAt(h, t, link, f, args) && f == At(CombAtom(c)) && Reps(h, args, ts)
    ensures Step(T, h, Arr(t)) == Go(Wrote(h, link, b.write) + b.cells, b.k) && |m.pats| <= |args|
    ensures var env := MatchObjs(h, m.pats, args[..|m.pats|], map[]);
            b == RootBody(ds, |h|, m.body, env, link, args[|m.pats|..]) && BodyOk(ds, env.Keys, m.body)
  {
    hide Step, Assembled, Select, DefCode, DefLabels, RunFrom, BlockFits, Reps, AltsOk, Taken, MatchObjs, Wrote, Linked, RootBody, BodyOk;
    AssembledFits(ds, pv, stale, ms, T[c], h, link, args, ts);
    m := DefRun(ds, stale, ms, h, t, link, f, args, ts);
    CodeStep(ds, pv, stale, T, h, t, link, f, args, c, ms);
    TakenEnv(h, m.pats, args, ts);
    TakenArity(m.pats, ts);
    b := MatchBody(ds, m, h, link, args);
    TakenOk(ds, pv, ms, m);
  }

  /** Every round of a thunk that applies a term to terms keeps the set closed. */
  lemma PendStep(P: Program, ds: set<Symbol>, T: Table, h: Heap, s: set<nat>, t: nat) returns (s1: set<nat>)
    requires Compiled(ds, P, T) && Pend(h, s) && t in s && Started(h, Arr(t))
    ensures PendNext(h, s, Step(T, h, Arr(t)), s1)
  {
    hide Step, Linked, Reps, Pend, PendNext, Compiled, ReduceNormal, ReduceArray, ReduceThrow, ReduceHandle;
    var link, f, args, ft, ts :| StartedAs(h, Arr(t), link, f, args, ft, ts);
    LinkedTarget(h, link);
    PendLink(h, s, t, link, f, args);
    StepShape(T, h, t, link, f, args);
    if f.Arr? {
      s1 := s + {|h|};
      ArrayPend(h, s, link, f.addr, args);
    } else if !f.atom.CombAtom? {
      s1 := s;
      NormalPend(h, s, link, f, args);
    } else {
      s1 := CombPend(P, ds, T, h, s, t, link, f, args, f.atom.sym, ts);
    }
  }

  lemma CombPend(P: Program, ds: set<Symbol>, T: Table, h: Heap, s: set<nat>, t: nat, link: Link, f: Obj, args: seq<Obj>, c: Symbol, ts: seq<Term>) returns (s1: set<nat>)
    requires Compiled(ds, P, T) && Linked(h, link) && ThunkAt(h, t, link, f, args) && f == At(CombAtom(c)) && Reps(h, args, ts)
    requires Pend(h, s) && Within(link.k, s) && Within(link.exc, s) && TargetApart(link.rt, link.rti, s, |h|)
    ensures PendNext(h, s, Step(T, h, Arr(t)), s1)
  {
    hide Step, Linked, Reps, Pend, PendNext, Compiled, ReduceNormal, ReduceThrow, ReduceHandle, Within, TargetApart, ThunkAt;
    LinkedTarget(h, link);
    StepShape(T, h, t, link, f, args);
    s1 := s;
    if c !in T || T[c].ResultComb? {
      StopPend(T, h, s, t, link, f, args, c);
    } else {
      match T[c]
      case DataComb => NormalPend(h, s, link, f, args);
      case ThrowComb => s1 := ThrowPend(h, s, link, f, args);
      case HandleComb => s1 := HandlePend(h, s, link, f, args);
      case CodeComb(_, _) => s1 := CodePend(P, ds, T, h, s, t, link, f, args, c, ts);
    }
  }

  lemma StopPend(T: Table, h: Heap, s: set<nat>, t: nat, link: Link, f: Obj, args: seq<Obj>, c: Symbol)
    requires ThunkAt(h, t, link, f, args) && f == At(CombAtom(c)) && Undeclared(T, c)
    ensures PendNext(h, s, Step(T, h, Arr(t)), s)
  {
    UndeclaredStops(T, h, Arr(t), c);
  }
}
