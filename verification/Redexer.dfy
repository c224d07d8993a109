/** The pass that names redexes, as the source runs it: with a root flag, a counter and a stack. */
module Redexer {
  import opened Terms
  import opened Syntax
  import opened Emit
  import opened Reredex

  lemma InnersRest(ds: set<Symbol>, t: nat, es: seq<Expr>, i: nat)
    requires i <= |es|
    ensures i == |es| ==> Inners(ds, t, es[i..]) == Passes([], t, [])
    ensures i < |es| ==>
      var p := Inner(ds, t, es[i]);
      var q := Inners(ds, p.t, es[i + 1..]);
      Inners(ds, t, es[i..]) == Passes([p.e] + q.es, q.t, p.rs + q.rs)
  {
    hide Inner;
    if i < |es| {
      assert es[i..][1..] == es[i + 1..];
    }
  }

  /** What was done of a list of arguments, and what is left to do, make up the whole. */
  ghost predicate Remaining(es: seq<Expr>, rs: seq<Named>, rs0: seq<Named>, whole: Passes, rest: Passes) {
    es + rest.es == whole.es && rs + rest.rs == rs0 + whole.rs && rest.t == whole.t
  }

  lemma RemainingStep(es: seq<Expr>, rs: seq<Named>, rs0: seq<Named>, whole: Passes, p: Pass, q: Passes)
    requires Remaining(es, rs, rs0, whole, Passes([p.e] + q.es, q.t, p.rs + q.rs))
    ensures Remaining(es + [p.e], rs + p.rs, rs0, whole, q)
  {
    assert es + ([p.e] + q.es) == es + [p.e] + q.es;
    assert rs + (p.rs + q.rs) == rs + p.rs + q.rs;
  }

  lemma {:induction false} WrapSnoc(rs: seq<Named>, r: Named, e: Expr)
    ensures Wrap(rs + [r], e) == Wrap(rs, Let(r.x, r.rhs, e))
    decreases |rs|
  {
    if rs == [] {
      assert [] + [r] == [r] && [r][1..] == [];
    } else {
      assert (rs + [r])[1..] == rs[1..] + [r];
      WrapSnoc(rs[1..], r, e);
    }
  }

  class RewriteRedex {
    /** The declared data combinators of the machine. */
    const ds: set<Symbol>
    var root: bool
    var tick: nat
    var redexes: seq<Named>

    constructor (ds: set<Symbol>)
      ensures this.ds == ds
    {
      this.ds := ds;
      root, tick, redexes := true, 0, [];
    }

    method Reset()
      modifies this
      ensures root && tick == 0 && redexes == []
    {
      root, tick, redexes := true, 0, [];
    }

    method FreshVariable() returns (v: Name)
      modifies this`tick
      ensures v == RedexName(old(tick)) && tick == old(tick) + 1
    {
      v := RedexName(tick);
      tick := tick + 1;
    }

    method Push(v: Name, e: Expr)
      modifies this`redexes
      ensures redexes == old(redexes) + [Named(v, e)]
    {
      redexes := redexes + [Named(v, e)];
    }

    method Pop() returns (r: Named)
      requires redexes != []
      modifies this`redexes
      ensures old(redexes) == redexes + [r]
    {
      var n := |redexes| - 1;
      r := redexes[n];
      redexes := redexes[..n];
    }

    /** At the root of a body, or inside it. */
    method Rewrite(e: Expr) returns (r: Expr)
      requires root ==> tick == 0 && redexes == []
      modifies this
      ensures var p := if old(root) then Root(ds, e) else Inner(ds, old(tick), e);
              r == p.e && tick == p.t && redexes == old(redexes) + p.rs
      ensures !old(root) ==> !root
      decreases e, 1
    {
      match e
      case Const(_) => r := RewriteConst(e);
      case Var(_) => r := e;
      case App(_) => r := RewriteApplication(e);
      case Let(_, _, _) => r := e;
    }

    method RewriteConst(e: Expr) returns (r: Expr)
      requires e.Const?
      modifies this
      ensures var p := if old(root) then Pass(e, old(tick), []) else Inner(ds, old(tick), e);
              r == p.e && tick == p.t && redexes == old(redexes) + p.rs && root == old(root)
    {
      if !root && IsRedex(ds, e) {
        var v := FreshVariable();
        Push(v, e);
        r := Var(v);
      } else {
        r := e;
      }
    }

    method RewriteApplication(e: Expr) returns (r: Expr)
      requires e.App? && (root ==> tick == 0 && redexes == [])
      modifies this
      ensures var p := if old(root) then Root(ds, e) else Inner(ds, old(tick), e);
              r == p.e && tick == p.t && redexes == old(redexes) + p.rs
      ensures !root
      decreases e, 0
    {
      var aa := e.es;
      if aa != [] && IsRedex(ds, aa[0]) && !aa[0].App? {
        var wasRoot := root;
        root := false;
        var aa0 := Rewrites(aa[1..]);
        r := App([aa[0]] + aa0);
        if !wasRoot {
          var v := FreshVariable();
          Push(v, r);
          r := Var(v);
        }
      } else {
        root := false;
        var aa0 := Rewrites(aa);
        r := App(aa0);
      }
    }

    /** Arguments, from left to right. */
    method Rewrites(es: seq<Expr>) returns (rs: seq<Expr>)
      requires !root
      modifies this
      ensures var p := Inners(ds, old(tick), es);
              rs == p.es && tick == p.t && redexes == old(redexes) + p.rs && !root
      decreases es, 0
    {
      hide Inner, Inners, Remaining;
      ghost var whole := Inners(ds, tick, es);
      ghost var redexes0 := redexes;
      rs := [];
      assert es[0..] == es;
      RemainingStart(redexes, whole);
      for i := 0 to |es|
        invariant !root
        invariant Remaining(rs, redexes, redexes0, whole, Inners(ds, tick, es[i..]))
      {
        InnersRest(ds, tick, es, i);
        ghost var p := Inner(ds, tick, es[i]);
        RemainingStep(rs, redexes, redexes0, whole, p, Inners(ds, p.t, es[i + 1..]));
        var r := Rewrite(es[i]);
        rs := rs + [r];
      }
      InnersRest(ds, tick, es, |es|);
      RemainingDone(rs, redexes, redexes0, whole, tick);
    }

    /** The body of an alternative, with its redexes as lets around it: the last one named is innermost. */
    method RewriteMatch(m: Alt) returns (m1: Alt)
      modifies this
      ensures m1 == Alt(m.pats, Redexed(ds, m.body))
    {
      Reset();
      ghost var p := Root(ds, m.body);
      assert [] + p.rs == p.rs;
      var e0 := Rewrite(m.body);
      ghost var whole := Wrap(redexes, e0);
      while redexes != []
        invariant Wrap(redexes, e0) == whole
        decreases |redexes|
      {
        var t := Pop();
        WrapSnoc(redexes, t, e0);
        e0 := Let(t.x, t.rhs, e0);
      }
      m1 := Alt(m.pats, e0);
    }

    method RewriteBlock(ms: seq<Alt>) returns (ms1: seq<Alt>)
      modifies this
      ensures ms1 == RedexedAlts(ds, ms)
    {
      hide Redexed;
      ms1 := [];
      assert ms[0..] == ms && [] + RedexedAlts(ds, ms) == RedexedAlts(ds, ms);
      for i := 0 to |ms|
        invariant ms1 + RedexedAlts(ds, ms[i..]) == RedexedAlts(ds, ms)
      {
        assert ms[i..][1..] == ms[i + 1..];
        var m1 := RewriteMatch(ms[i]);
        ms1 := ms1 + [m1];
      }
      assert ms1 + [] == ms1;
    }
  }

  lemma RemainingStart(rs: seq<Named>, whole: Passes)
    ensures Remaining([], rs, rs, whole, whole)
  {
    assert [] + whole.es == whole.es;
  }

  lemma RemainingDone(es: seq<Expr>, rs: seq<Named>, rs0: seq<Named>, whole: Passes, t: nat)
    requires Remaining(es, rs, rs0, whole, Passes([], t, []))
    ensures es == whole.es && rs == rs0 + whole.rs && t == whole.t
  {
    assert es + [] == es && rs + [] == rs;
  }
}
