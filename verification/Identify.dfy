/** Name resolution: every variable bound in a unit gets a name of its own, every occurrence the name of its binder. */
module Identify {
  import opened Common
  import opened Decimals

  type Name = string

  /** Syntax trees before desugaring. Node stands for every construct whose parts are rewritten in order. */
  datatype Ast =
    | Var(x: Name)
    | Comb(n: Name)
    | Literal(text: string)
    | Node(kind: string, es: seq<Ast>)
    | Tag(e: Ast, t: Ast)
    | Match(mm: seq<Ast>, g: Ast, e: Ast)
    | Let(lhs: seq<Ast>, rhs: Ast, body: Ast)

  /** Tags occur in patterns only; patterns hold no bodies. */
  predicate Proper(a: Ast) {
    match a
    case Var(_) => true
    case Comb(_) => true
    case Literal(_) => true
    case Node(_, es) => forall i :: 0 <= i < |es| ==> Proper(es[i])
    case Tag(_, _) => false
    case Match(mm, g, e) => (forall i :: 0 <= i < |mm| ==> ProperPat(mm[i])) && Proper(g) && Proper(e)
    case Let(lhs, rhs, body) => (forall i :: 0 <= i < |lhs| ==> ProperPat(lhs[i])) && Proper(rhs) && Proper(body)
  }

  predicate ProperPat(p: Ast) {
    match p
    case Var(_) => true
    case Comb(_) => true
    case Literal(_) => true
    case Node(_, es) => forall i :: 0 <= i < |es| ==> ProperPat(es[i])
    case Tag(e, t) => ProperPat(e) && Proper(t)
    case Match(_, _, _) => false
    case Let(_, _, _) => false
  }

  // Scopes

  type Table = map<Name, Name>

  /** The scopes, from the outermost to the innermost. */
  type Scopes = seq<Table>

  function Outer(scopes: Scopes): Scopes {
    if scopes == [] then [] else scopes[..|scopes| - 1]
  }

  /** The empty name when there is no declaration. */
  function Get(scopes: Scopes, x: Name): Name {
    if scopes == [] then ""
    else if x in scopes[|scopes| - 1] then scopes[|scopes| - 1][x]
    else Get(scopes[..|scopes| - 1], x)
  }

  /** Table i declares x as v, and no table further in declares x. */
  ghost predicate VisibleAt(scopes: Scopes, x: Name, v: Name, i: nat) {
    && i < |scopes| && x in scopes[i] && scopes[i][x] == v
    && forall j :: i < j < |scopes| ==> x !in scopes[j]
  }

  /** The innermost declaration of x is v. */
  ghost predicate Visible(scopes: Scopes, x: Name, v: Name) {
    exists i :: 0 <= i < |scopes| && VisibleAt(scopes, x, v, i)
  }

  ghost predicate Undeclared(scopes: Scopes, x: Name) {
    forall i :: 0 <= i < |scopes| ==> x !in scopes[i]
  }

  lemma VisibleOuter(scopes: Scopes, x: Name, v: Name)
    requires scopes != [] && x !in scopes[|scopes| - 1]
    ensures Visible(scopes, x, v) <==> Visible(scopes[..|scopes| - 1], x, v)
    ensures Undeclared(scopes, x) <==> Undeclared(scopes[..|scopes| - 1], x)
  {
    var h := scopes[..|scopes| - 1];
    if Visible(scopes, x, v) {
      var i :| 0 <= i < |scopes| && VisibleAt(scopes, x, v, i);
      assert VisibleAt(h, x, v, i);
    }
    if Visible(h, x, v) {
      var i :| 0 <= i < |h| && VisibleAt(h, x, v, i);
      assert VisibleAt(scopes, x, v, i);
    }
    if Undeclared(h, x) {
      forall i | 0 <= i < |scopes|
        ensures x !in scopes[i]
      {
        assert i < |h| ==> scopes[i] == h[i];
      }
    }
  }

  /** A lookup gives the innermost declaration, and the empty name when there is none. */
  lemma {:induction false} GetExactly(scopes: Scopes, x: Name, v: Name)
    ensures v != "" ==> (Get(scopes, x) == v <==> Visible(scopes, x, v))
    ensures Get(scopes, x) == "" <==> Undeclared(scopes, x) || Visible(scopes, x, "")
    decreases |scopes|
  {
    hide Visible, Undeclared;
    if scopes == [] {
      NothingVisible(x, v);
    } else if x in scopes[|scopes| - 1] {
      LastVisible(scopes, x, v);
      LastVisible(scopes, x, "");
    } else {
      GetExactly(scopes[..|scopes| - 1], x, v);
      VisibleOuter(scopes, x, v);
      VisibleOuter(scopes, x, "");
    }
  }

  lemma NothingVisible(x: Name, v: Name)
    ensures !Visible([], x, v) && Undeclared([], x)
  {
  }

  lemma LastVisible(scopes: Scopes, x: Name, v: Name)
    requires scopes != [] && x in scopes[|scopes| - 1]
    ensures Visible(scopes, x, v) <==> scopes[|scopes| - 1][x] == v
    ensures !Undeclared(scopes, x)
  {
    if scopes[|scopes| - 1][x] == v {
      assert VisibleAt(scopes, x, v, |scopes| - 1);
    }
  }

  predicate CanDeclare(scopes: Scopes, k: Name) {
    scopes != [] && k !in scopes[|scopes| - 1]
  }

  function Declare(scopes: Scopes, k: Name, v: Name): Scopes
    requires scopes != []
  {
    scopes[|scopes| - 1 := scopes[|scopes| - 1][k := v]]
  }

  function FreshName(n: nat): Name {
    "V_" + Decimal(n)
  }

  // The pass

  datatype State = State(declaring: bool, scopes: Scopes, counter: nat)

  datatype Result = Ok(a: Ast, st: State) | Error

  datatype Results = Oks(es: seq<Ast>, st: State) | Errors

  function Rewrite(a: Ast, st: State): Result
    decreases a
  {
    match a
    case Var(x) =>
      if st.declaring then
        if CanDeclare(st.scopes, x)
        then Ok(Var(FreshName(st.counter)), st.(scopes := Declare(st.scopes, x, FreshName(st.counter)), counter := st.counter + 1))
        else Error
      else if Get(st.scopes, x) == "" then Error else Ok(Var(Get(st.scopes, x)), st)
    case Comb(n) =>
      if Get(st.scopes, n) == "" then Error else Ok(Comb(Get(st.scopes, n)), st)
    case Literal(_) => Ok(a, st)
    case Node(kind, es) =>
      var r := Rewrites(es, st);
      if r.Errors? then Error else Ok(Node(kind, r.es), r.st)
    case Tag(e, t) =>
      var r := Rewrite(e, st.(declaring := true));
      if r.Error? then Error else
      var r1 := Rewrite(t, r.st.(declaring := false));
      if r1.Error? then Error else Ok(Tag(r.a, r1.a), r1.st.(declaring := true))
    case Match(mm, g, e) =>
      var r := Rewrites(mm, st.(declaring := true, scopes := st.scopes + [map[]]));
      if r.Errors? then Error else
      var r1 := Rewrite(g, r.st.(declaring := false));
      if r1.Error? then Error else
      var r2 := Rewrite(e, r1.st.(declaring := false));
      if r2.Error? then Error else Ok(Match(r.es, r1.a, r2.a), r2.st.(scopes := Outer(r2.st.scopes)))
    case Let(lhs, rhs, body) =>
      var r := Rewrite(rhs, st.(declaring := false));
      if r.Error? then Error else
      var r1 := Rewrites(lhs, r.st.(declaring := true, scopes := r.st.scopes + [map[]]));
      if r1.Errors? then Error else
      var r2 := Rewrite(body, r1.st.(declaring := false));
      if r2.Error? then Error else Ok(Let(r1.es, r.a, r2.a), r2.st.(scopes := Outer(r2.st.scopes)))
  }

  function Rewrites(es: seq<Ast>, st: State): Results
    decreases es
  {
    if es == [] then Oks([], st)
    else
      var r := Rewrite(es[0], st);
      if r.Error? then Errors else
      var r1 := Rewrites(es[1..], r.st);
      if r1.Errors? then Errors else Oks([r.a] + r1.es, r1.st)
  }

  // The binding structure

  /** A bound occurrence is the level of its binder; a free one is its name. */
  datatype Ix = Bound(i: nat) | Free(x: Name) | Unbound

  datatype Form =
    | FUse(ix: Ix)
    | FComb(ix: Ix)
    | FBinder(i: nat)
    | FLiteral(text: string)
    | FNode(kind: string, fs: seq<Form>)
    | FTag(e: Form, t: Form)
    | FMatch(mm: seq<Form>, g: Form, e: Form)
    | FLet(lhs: seq<Form>, rhs: Form, body: Form)

  /** Names that are not bound: declared outside the unit, or standing for themselves. */
  datatype Globals = Declared(scopes: Scopes) | Themselves

  /** The innermost binder of x. */
  function Last(env: seq<Name>, x: Name): (i: nat)
    requires x in env
    ensures i < |env| && env[i] == x && forall j :: i < j < |env| ==> env[j] != x
  {
    if env[|env| - 1] == x then |env| - 1 else Last(env[..|env| - 1], x)
  }

  ghost function Resolve(env: seq<Name>, g: Globals, x: Name): Ix {
    if x in env then Bound(Last(env, x))
    else match g
         case Themselves => Free(x)
         case Declared(scopes) =>
           if exists v: Name :: v != "" && Visible(scopes, x, v)
           then var v: Name :| v != "" && Visible(scopes, x, v); Free(v)
           else Unbound
  }

  lemma ResolveGet(env: seq<Name>, g: Scopes, x: Name)
    requires x !in env
    ensures Resolve(env, Declared(g), x) == if Get(g, x) == "" then Unbound else Free(Get(g, x))
  {
    hide Get, Visible, Undeclared;
    GetExactly(g, x, Get(g, x));
    if Get(g, x) == "" {
      forall v: Name | v != ""
        ensures !Visible(g, x, v)
      {
        GetExactly(g, x, v);
      }
    } else {
      forall v: Name | v != "" && Visible(g, x, v)
        ensures v == Get(g, x)
      {
        GetExactly(g, x, v);
      }
    }
  }

  datatype Use = Use(f: Form) | NoUse
  datatype Uses = Uses(fs: seq<Form>) | NoUses
  datatype Pat = Pat(f: Form, env: seq<Name>) | NoPat
  datatype Pats = Pats(fs: seq<Form>, env: seq<Name>) | NoPats

  /** The binding structure of an expression, if its names are bound and no list of patterns binds a name twice. */
  ghost function UseForm(a: Ast, env: seq<Name>, g: Globals): Use
    decreases a
  {
    match a
    case Var(x) => if Resolve(env, g, x).Unbound? then NoUse else Use(FUse(Resolve(env, g, x)))
    case Comb(n) => if Resolve(env, g, n).Unbound? then NoUse else Use(FComb(Resolve(env, g, n)))
    case Literal(t) => Use(FLiteral(t))
    case Node(k, es) => var u := UseForms(es, env, g); if u.NoUses? then NoUse else Use(FNode(k, u.fs))
    case Tag(_, _) => NoUse
    case Match(mm, gd, e) =>
      var ps := PatForms(mm, env, |env|, g);
      if ps.NoPats? then NoUse else
      var u, v := UseForm(gd, ps.env, g), UseForm(e, ps.env, g);
      if u.NoUse? || v.NoUse? then NoUse else Use(FMatch(ps.fs, u.f, v.f))
    case Let(lhs, rhs, body) =>
      var u := UseForm(rhs, env, g);
      if u.NoUse? then NoUse else
      var ps := PatForms(lhs, env, |env|, g);
      if ps.NoPats? then NoUse else
      var v := UseForm(body, ps.env, g);
      if v.NoUse? then NoUse else Use(FLet(ps.fs, u.f, v.f))
  }

  ghost function UseForms(es: seq<Ast>, env: seq<Name>, g: Globals): Uses
    decreases es
  {
    if es == [] then Uses([])
    else
      var u, v := UseForm(es[0], env, g), UseForms(es[1..], env, g);
      if u.NoUse? || v.NoUses? then NoUses else Uses([u.f] + v.fs)
  }

  /** A pattern adds its variables to the names bound; those from mark on are of the same list of patterns. */
  ghost function PatForm(p: Ast, env: seq<Name>, mark: nat, g: Globals): Pat
    decreases p
  {
    match p
    case Var(x) => if mark <= |env| && x !in env[mark..] then Pat(FBinder(|env|), env + [x]) else NoPat
    case Comb(n) => if Resolve(env, g, n).Unbound? then NoPat else Pat(FComb(Resolve(env, g, n)), env)
    case Literal(t) => Pat(FLiteral(t), env)
    case Node(k, es) => var ps := PatForms(es, env, mark, g); if ps.NoPats? then NoPat else Pat(FNode(k, ps.fs), ps.env)
    case Tag(e, t) =>
      var q := PatForm(e, env, mark, g);
      if q.NoPat? then NoPat else
      var u := UseForm(t, q.env, g);
      if u.NoUse? then NoPat else Pat(FTag(q.f, u.f), q.env)
    case Match(_, _, _) => NoPat
    case Let(_, _, _) => NoPat
  }

  ghost function PatForms(es: seq<Ast>, env: seq<Name>, mark: nat, g: Globals): Pats
    decreases es
  {
    if es == [] then Pats([], env)
    else
      var p := PatForm(es[0], env, mark, g);
      if p.NoPat? then NoPats else
      var ps := PatForms(es[1..], p.env, mark, g);
      if ps.NoPats? then NoPats else Pats([p.f] + ps.fs, ps.env)
  }

  /** The variables bound in a, in the order they are visited. */
  function Binders(a: Ast, pattern: bool): seq<Name>
    decreases a
  {
    match a
    case Var(x) => if pattern then [x] else []
    case Comb(_) => []
    case Literal(_) => []
    case Node(_, es) => AllBinders(es, pattern)
    case Tag(e, t) => Binders(e, pattern) + Binders(t, false)
    case Match(mm, g, e) => AllBinders(mm, true) + Binders(g, false) + Binders(e, false)
    case Let(lhs, rhs, body) => Binders(rhs, false) + AllBinders(lhs, true) + Binders(body, false)
  }

  function AllBinders(es: seq<Ast>, pattern: bool): seq<Name>
    decreases es
  {
    if es == [] then [] else Binders(es[0], pattern) + AllBinders(es[1..], pattern)
  }

  function FreshNames(c: nat, d: nat): seq<Name>
    requires c <= d
  {
    seq(d - c, i requires 0 <= i < d - c => FreshName(c + i))
  }

  lemma FreshDiffer(i: nat, j: nat)
    requires FreshName(i) == FreshName(j)
    ensures i == j
  {
    assert FreshName(i)[2..] == Decimal(i) && FreshName(j)[2..] == Decimal(j);
    DecimalInjective(i, j);
  }

  lemma FreshSplit(c: nat, d: nat, e: nat)
    requires c <= d <= e
    ensures FreshNames(c, d) + FreshNames(d, e) == FreshNames(c, e)
  {
  }

  // What the pass keeps

  /** No name declared outside looks like a fresh one. */
  ghost predicate Apart(g: Scopes) {
    forall x, n :: !Visible(g, x, FreshName(n))
  }

  lemma ApartGet(g: Scopes, x: Name, n: nat)
    requires Apart(g)
    ensures Get(g, x) != FreshName(n)
  {
    hide Get, Visible;
    GetExactly(g, x, FreshName(n));
    FreshChars(n);
  }

  predicate Used(v: Name, counter: nat) {
    exists n: nat :: n < counter && v == FreshName(n)
  }

  /** The scopes lead from the names bound to their new names, and else to the names declared outside. */
  ghost predicate Linked(scopes: Scopes, counter: nat, env: seq<Name>, news: seq<Name>, g: Scopes) {
    && |news| == |env|
    && Distinct(news)
    && (forall i :: 0 <= i < |news| ==> Used(news[i], counter))
    && (forall x :: Get(scopes, x) == if x in env then news[Last(env, x)] else Get(g, x))
  }

  ghost predicate Top(scopes: Scopes, env: seq<Name>, mark: nat) {
    && scopes != [] && mark <= |env|
    && forall x :: x in scopes[|scopes| - 1] <==> x in env[mark..]
  }

  /** An expression is rejected exactly when it has no binding structure; else its structure is kept. */
  ghost predicate UseKept(a: Ast, st: State, env: seq<Name>, news: seq<Name>, g: Scopes, r: Result) {
    var f := UseForm(a, env, Declared(g));
    && (r.Error? <==> f.NoUse?)
    && (r.Ok? ==>
          && r.st == State(false, st.scopes, r.st.counter) && st.counter <= r.st.counter
          && UseForm(r.a, news, Themselves) == f && Proper(r.a)
          && Binders(r.a, false) == FreshNames(st.counter, r.st.counter))
  }

  ghost predicate UsesKept(es: seq<Ast>, st: State, env: seq<Name>, news: seq<Name>, g: Scopes, r: Results) {
    var f := UseForms(es, env, Declared(g));
    && (r.Errors? <==> f.NoUses?)
    && (r.Oks? ==>
          && r.st == State(false, st.scopes, r.st.counter) && st.counter <= r.st.counter
          && UseForms(r.es, news, Themselves) == f && (forall i :: 0 <= i < |r.es| ==> Proper(r.es[i]))
          && AllBinders(r.es, false) == FreshNames(st.counter, r.st.counter))
  }

  ghost predicate Grown(st: State, st1: State, env1: seq<Name>, fresh1: seq<Name>, mark: nat, g: Scopes) {
    && st1.declaring && st.counter <= st1.counter
    && st1.scopes != [] && Outer(st1.scopes) == Outer(st.scopes)
    && Linked(st1.scopes, st1.counter, env1, fresh1, g) && Top(st1.scopes, env1, mark)
  }

  ghost predicate PatKept(p: Ast, st: State, env: seq<Name>, news: seq<Name>, mark: nat, g: Scopes, r: Result) {
    var f := PatForm(p, env, mark, Declared(g));
    && (r.Error? <==> f.NoPat?)
    && (r.Ok? ==>
          var f1 := PatForm(r.a, news, mark, Themselves);
          && f1.Pat? && f1.f == f.f && Grown(st, r.st, f.env, f1.env, mark, g)
          && ProperPat(r.a) && Binders(r.a, true) == FreshNames(st.counter, r.st.counter))
  }

  ghost predicate PatsKept(es: seq<Ast>, st: State, env: seq<Name>, news: seq<Name>, mark: nat, g: Scopes, r: Results) {
    var f := PatForms(es, env, mark, Declared(g));
    && (r.Errors? <==> f.NoPats?)
    && (r.Oks? ==>
          var f1 := PatForms(r.es, news, mark, Themselves);
          && f1.Pats? && f1.fs == f.fs && Grown(st, r.st, f.env, f1.env, mark, g)
          && (forall i :: 0 <= i < |r.es| ==> ProperPat(r.es[i])) && AllBinders(r.es, true) == FreshNames(st.counter, r.st.counter))
  }

  lemma NameKept(st: State, env: seq<Name>, news: seq<Name>, g: Scopes, x: Name)
    requires Linked(st.scopes, st.counter, env, news, g) && Apart(g)
    ensures Get(st.scopes, x) == "" <==> Resolve(env, Declared(g), x).Unbound?
    ensures Get(st.scopes, x) != "" ==> Resolve(news, Themselves, Get(st.scopes, x)) == Resolve(env, Declared(g), x)
  {
    hide Visible, Undeclared;
    var y := Get(st.scopes, x);
    if x in env {
      var i := Last(env, x);
      assert Used(news[i], st.counter);
      assert y in news;
      assert Last(news, y) == i;
    } else {
      ResolveGet(env, g, x);
      forall i | 0 <= i < |news|
        ensures news[i] != y
      {
        assert Used(news[i], st.counter);
        var n: nat :| n < st.counter && news[i] == FreshName(n);
        ApartGet(g, x, n);
      }
    }
  }

  lemma VariableDeclared(st: State, env: seq<Name>, news: seq<Name>, mark: nat, g: Scopes, x: Name)
    requires st.declaring && Linked(st.scopes, st.counter, env, news, g) && Top(st.scopes, env, mark)
    ensures PatKept(Var(x), st, env, news, mark, g, Rewrite(Var(x), st))
  {
    hide Linked, Top;
    LinkedSize(st, env, news, mark, g);
    if x !in env[mark..] {
      var v := FreshName(st.counter);
      var st1 := st.(scopes := Declare(st.scopes, x, v), counter := st.counter + 1);
      FreshNew(news, st.counter);
      LinkedMore(st, env, news, g, x);
      TopMore(st.scopes, env, mark, x, v);
      assert v !in news[mark..];
      assert FreshNames(st.counter, st.counter + 1) == [v];
    }
  }

  lemma LinkedSize(st: State, env: seq<Name>, news: seq<Name>, mark: nat, g: Scopes)
    requires Linked(st.scopes, st.counter, env, news, g) && Top(st.scopes, env, mark)
    ensures mark <= |env| == |news| && st.scopes != []
    ensures forall x :: x in st.scopes[|st.scopes| - 1] <==> x in env[mark..]
    ensures forall i :: 0 <= i < |news| ==> Used(news[i], st.counter)
  {
  }

  lemma FreshNew(names: seq<Name>, counter: nat)
    requires forall i :: 0 <= i < |names| ==> Used(names[i], counter)
    ensures FreshName(counter) !in names
    ensures forall i :: 0 <= i < |names| ==> Used(names[i], counter + 1)
    ensures Used(FreshName(counter), counter + 1)
  {
    forall i | 0 <= i < |names|
      ensures names[i] != FreshName(counter) && Used(names[i], counter + 1)
    {
      assert Used(names[i], counter);
      var n: nat :| n < counter && names[i] == FreshName(n);
      if names[i] == FreshName(counter) {
        FreshDiffer(n, counter);
      }
    }
  }

  lemma LinkedMore(st: State, env: seq<Name>, news: seq<Name>, g: Scopes, x: Name)
    requires Linked(st.scopes, st.counter, env, news, g) && st.scopes != []
    ensures Linked(Declare(st.scopes, x, FreshName(st.counter)), st.counter + 1, env + [x], news + [FreshName(st.counter)], g)
  {
    FreshNew(news, st.counter);
    var v := FreshName(st.counter);
    var sc := Declare(st.scopes, x, v);
    assert sc[..|sc| - 1] == st.scopes[..|st.scopes| - 1];
    forall y
      ensures Get(sc, y) == if y in env + [x] then (news + [v])[Last(env + [x], y)] else Get(g, y)
    {
      if y != x {
        assert Get(sc, y) == Get(st.scopes, y);
        if y in env {
          assert Last(env + [x], y) == Last(env, y);
        }
      }
    }
  }

  lemma TopMore(scopes: Scopes, env: seq<Name>, mark: nat, x: Name, v: Name)
    requires Top(scopes, env, mark)
    ensures Top(Declare(scopes, x, v), env + [x], mark)
  {
    assert (env + [x])[mark..] == env[mark..] + [x];
  }

  lemma LinkedLater(scopes: Scopes, c: nat, d: nat, env: seq<Name>, news: seq<Name>, g: Scopes)
    requires Linked(scopes, c, env, news, g) && c <= d
    ensures Linked(scopes, d, env, news, g)
  {
    forall i | 0 <= i < |news|
      ensures Used(news[i], d)
    {
      assert Used(news[i], c);
      var n: nat :| n < c && news[i] == FreshName(n);
    }
  }

  lemma LinkedEnter(scopes: Scopes, c: nat, env: seq<Name>, news: seq<Name>, g: Scopes)
    requires Linked(scopes, c, env, news, g)
    ensures Linked(scopes + [map[]], c, env, news, g) && Top(scopes + [map[]], env, |env|) && Outer(scopes + [map[]]) == scopes
  {
    var sc := scopes + [map[]];
    assert sc[..|sc| - 1] == scopes;
    forall x
      ensures Get(sc, x) == Get(scopes, x)
    {
    }
  }

  lemma {:induction false} UseKeeps(a: Ast, st: State, env: seq<Name>, news: seq<Name>, g: Scopes)
    requires Proper(a) && !st.declaring && Apart(g) && Linked(st.scopes, st.counter, env, news, g)
    ensures UseKept(a, st, env, news, g, Rewrite(a, st))
    decreases a
  {
    match a
    case Var(x) => NameKept(st, env, news, g, x);
    case Comb(n) => NameKept(st, env, news, g, n);
    case Literal(_) =>
    case Node(_, es) => UsesKeep(es, st, env, news, g);
    case Match(mm, gd, e) => MatchKeeps(mm, gd, e, st, env, news, g);
    case Let(lhs, rhs, body) => LetKeeps(lhs, rhs, body, st, env, news, g);
  }

  lemma {:induction false} UsesKeep(es: seq<Ast>, st: State, env: seq<Name>, news: seq<Name>, g: Scopes)
    requires (forall i :: 0 <= i < |es| ==> Proper(es[i])) && !st.declaring && Apart(g) && Linked(st.scopes, st.counter, env, news, g)
    ensures UsesKept(es, st, env, news, g, Rewrites(es, st))
    decreases es
  {
    if es != [] {
      UseKeeps(es[0], st, env, news, g);
      var r := Rewrite(es[0], st);
      if r.Ok? {
        LinkedLater(st.scopes, st.counter, r.st.counter, env, news, g);
        UsesKeep(es[1..], r.st, env, news, g);
        var r1 := Rewrites(es[1..], r.st);
        if r1.Oks? {
          FreshSplit(st.counter, r.st.counter, r1.st.counter);
          assert ([r.a] + r1.es)[1..] == r1.es;
        }
      }
    }
  }

  lemma {:induction false} MatchKeeps(mm: seq<Ast>, gd: Ast, e: Ast, st: State, env: seq<Name>, news: seq<Name>, g: Scopes)
    requires Proper(Match(mm, gd, e)) && !st.declaring && Apart(g) && Linked(st.scopes, st.counter, env, news, g)
    ensures UseKept(Match(mm, gd, e), st, env, news, g, Rewrite(Match(mm, gd, e), st))
    decreases Match(mm, gd, e), 0
  {
    LinkedEnter(st.scopes, st.counter, env, news, g);
    var st0 := st.(declaring := true, scopes := st.scopes + [map[]]);
    PatsKeep(mm, st0, env, news, |env|, g);
    var r := Rewrites(mm, st0);
    if r.Oks? {
      var env1, fresh1 := PatForms(mm, env, |env|, Declared(g)).env, PatForms(r.es, news, |env|, Themselves).env;
      UseKeeps(gd, r.st.(declaring := false), env1, fresh1, g);
      var r1 := Rewrite(gd, r.st.(declaring := false));
      if r1.Ok? {
        LinkedLater(r.st.scopes, r.st.counter, r1.st.counter, env1, fresh1, g);
        UseKeeps(e, r1.st.(declaring := false), env1, fresh1, g);
        var r2 := Rewrite(e, r1.st.(declaring := false));
        if r2.Ok? {
          FreshSplit(st.counter, r.st.counter, r1.st.counter);
          FreshSplit(st.counter, r1.st.counter, r2.st.counter);
        }
      }
    }
  }

  lemma {:induction false} LetKeeps(lhs: seq<Ast>, rhs: Ast, body: Ast, st: State, env: seq<Name>, news: seq<Name>, g: Scopes)
    requires Proper(Let(lhs, rhs, body)) && !st.declaring && Apart(g) && Linked(st.scopes, st.counter, env, news, g)
    ensures UseKept(Let(lhs, rhs, body), st, env, news, g, Rewrite(Let(lhs, rhs, body), st))
    decreases Let(lhs, rhs, body), 0
  {
    UseKeeps(rhs, st.(declaring := false), env, news, g);
    var r := Rewrite(rhs, st.(declaring := false));
    if r.Ok? {
      LinkedLater(st.scopes, st.counter, r.st.counter, env, news, g);
      LinkedEnter(r.st.scopes, r.st.counter, env, news, g);
      var st0 := r.st.(declaring := true, scopes := r.st.scopes + [map[]]);
      PatsKeep(lhs, st0, env, news, |env|, g);
      var r1 := Rewrites(lhs, st0);
      if r1.Oks? {
        var env1, fresh1 := PatForms(lhs, env, |env|, Declared(g)).env, PatForms(r1.es, news, |env|, Themselves).env;
        UseKeeps(body, r1.st.(declaring := false), env1, fresh1, g);
        var r2 := Rewrite(body, r1.st.(declaring := false));
        if r2.Ok? {
          FreshSplit(st.counter, r.st.counter, r1.st.counter);
          FreshSplit(st.counter, r1.st.counter, r2.st.counter);
        }
      }
    }
  }

  lemma {:induction false} PatKeeps(p: Ast, st: State, env: seq<Name>, news: seq<Name>, mark: nat, g: Scopes)
    requires ProperPat(p) && st.declaring && Apart(g) && Linked(st.scopes, st.counter, env, news, g) && Top(st.scopes, env, mark)
    ensures PatKept(p, st, env, news, mark, g, Rewrite(p, st))
    decreases p
  {
    match p
    case Var(x) => VariableDeclared(st, env, news, mark, g, x);
    case Comb(n) => NameKept(st, env, news, g, n);
    case Literal(_) =>
    case Node(_, es) => PatsKeep(es, st, env, news, mark, g);
    case Tag(e, t) =>
      PatKeeps(e, st, env, news, mark, g);
      var r := Rewrite(e, st.(declaring := true));
      if r.Ok? {
        var env1, fresh1 := PatForm(e, env, mark, Declared(g)).env, PatForm(r.a, news, mark, Themselves).env;
        UseKeeps(t, r.st.(declaring := false), env1, fresh1, g);
        var r1 := Rewrite(t, r.st.(declaring := false));
        if r1.Ok? {
          LinkedLater(r.st.scopes, r.st.counter, r1.st.counter, env1, fresh1, g);
          FreshSplit(st.counter, r.st.counter, r1.st.counter);
        }
      }
  }

  lemma {:induction false} PatsKeep(es: seq<Ast>, st: State, env: seq<Name>, news: seq<Name>, mark: nat, g: Scopes)
    requires (forall i :: 0 <= i < |es| ==> ProperPat(es[i])) && st.declaring && Apart(g)
    requires Linked(st.scopes, st.counter, env, news, g) && Top(st.scopes, env, mark)
    ensures PatsKept(es, st, env, news, mark, g, Rewrites(es, st))
    decreases es
  {
    if es != [] {
      PatKeeps(es[0], st, env, news, mark, g);
      var r := Rewrite(es[0], st);
      if r.Ok? {
        var env1, fresh1 := PatForm(es[0], env, mark, Declared(g)).env, PatForm(r.a, news, mark, Themselves).env;
        PatsKeep(es[1..], r.st, env1, fresh1, mark, g);
        var r1 := Rewrites(es[1..], r.st);
        if r1.Oks? {
          FreshSplit(st.counter, r.st.counter, r1.st.counter);
          assert ([r.a] + r1.es)[1..] == r1.es;
        }
      }
    } else {
      assert FreshNames(st.counter, st.counter) == [];
    }
  }

  /** A unit is accepted exactly when every name is bound and no list of patterns binds a name twice. The result has the
      same binding structure, and its binders are named V_0, V_1, and so on in the order they are visited. */
  lemma UnitKept(a: Ast, g: Scopes)
    requires Proper(a) && Apart(g)
    ensures var r := Rewrite(a, State(false, g + [map[]], 0));
            && (r.Error? <==> UseForm(a, [], Declared(g)).NoUse?)
            && (r.Ok? ==>
                  && UseForm(r.a, [], Themselves) == UseForm(a, [], Declared(g))
                  && Binders(r.a, false) == FreshNames(0, r.st.counter) && Distinct(Binders(r.a, false))
                  && |Binders(r.a, false)| == r.st.counter
                  && forall i :: 0 <= i < r.st.counter ==> Binders(r.a, false)[i] == "V_" + Decimal(i))
  {
    hide Rewrite, UseForm, Binders, FreshNames, Apart, Linked;
    var st := State(false, g + [map[]], 0);
    NoneLinked(g);
    UseKeeps(a, st, [], [], g);
    var r := Rewrite(a, st);
    if r.Ok? {
      FreshNamed(r.st.counter);
    }
  }

  lemma NoneLinked(g: Scopes)
    ensures Linked(g + [map[]], 0, [], [], g)
  {
    LinkedEnter(g, 0, [], [], g);
  }

  lemma FreshNamed(d: nat)
    ensures var names := FreshNames(0, d);
            && |names| == d && Distinct(names)
            && forall i :: 0 <= i < d ==> names[i] == "V_" + Decimal(i)
  {
    hide Decimal;
    forall i | 0 <= i < d
      ensures FreshNames(0, d)[i] == "V_" + Decimal(i)
    {
      assert FreshNames(0, d)[i] == FreshName(0 + i);
    }
    forall i, j | 0 <= i < j < d
      ensures FreshNames(0, d)[i] != FreshNames(0, d)[j]
    {
      if FreshName(i) == FreshName(j) {
        FreshDiffer(i, j);
      }
    }
  }

  // Names that can be declared

  function PathName(nn: seq<Name>): Name {
    if nn == [] then ""
    else if |nn| == 1 then nn[0]
    else PathName(nn[..|nn| - 1]) + "::" + nn[|nn| - 1]
  }

  function Qualified(nn: seq<Name>, n: Name): Name {
    if PathName(nn) == "" then n else PathName(nn) + "::" + n
  }

  predicate IsUpper(c: char) {
    'A' <= c <= 'Z'
  }

  /** Combinators and operators are not written with an upper-case letter in front, whatever their namespace. */
  ghost predicate Declarable(s: Name) {
    exists nn: seq<Name>, n: Name :: s == Qualified(nn, n) && n != [] && !IsUpper(n[0])
  }

  /** Whatever a scope outside a unit leads to is the name of a declared combinator. */
  ghost predicate DeclaredScopes(g: Scopes) {
    forall i, k :: 0 <= i < |g| && k in g[i] ==> Declarable(g[i][k])
  }

  lemma FreshChars(n: nat)
    ensures FreshName(n) != [] && FreshName(n)[0] == 'V' && ':' !in FreshName(n)
  {
    DecimalDigits(n);
    var v := FreshName(n);
    forall k | 0 <= k < |v|
      ensures v[k] != ':'
    {
      assert v[k] == if k < 2 then "V_"[k] else Decimal(n)[k - 2];
    }
  }

  lemma QualifiedChars(nn: seq<Name>, n: Name)
    ensures Qualified(nn, n) == n || ':' in Qualified(nn, n)
  {
    if PathName(nn) != "" {
      assert Qualified(nn, n)[|PathName(nn)|] == ':';
    }
  }

  lemma FreshUndeclarable(n: nat)
    ensures !Declarable(FreshName(n))
  {
    FreshChars(n);
    forall nn: seq<Name>, m: Name | FreshName(n) == Qualified(nn, m) && m != []
      ensures IsUpper(m[0])
    {
      QualifiedChars(nn, m);
    }
  }

  /** No declared name looks like a fresh one. */
  lemma DeclaredApart(g: Scopes)
    requires DeclaredScopes(g)
    ensures Apart(g)
  {
    hide Declarable;
    forall x, n
      ensures !Visible(g, x, FreshName(n))
    {
      FreshUndeclarable(n);
    }
  }

  /** Every unit, then, whatever is declared outside it. */
  lemma UnitIdentified(a: Ast, g: Scopes)
    requires Proper(a) && DeclaredScopes(g)
    ensures var r := Rewrite(a, State(false, g + [map[]], 0));
            && (r.Error? <==> UseForm(a, [], Declared(g)).NoUse?)
            && (r.Ok? ==>
                  && UseForm(r.a, [], Themselves) == UseForm(a, [], Declared(g))
                  && Binders(r.a, false) == FreshNames(0, r.st.counter) && Distinct(Binders(r.a, false))
                  && |Binders(r.a, false)| == r.st.counter
                  && forall i :: 0 <= i < r.st.counter ==> Binders(r.a, false)[i] == "V_" + Decimal(i))
  {
    DeclaredApart(g);
    UnitKept(a, g);
  }

  // The pass as it runs

  class RewriteIdentify {
    var declaring: bool
    var scopes: Scopes
    var counter: nat

    ghost function Now(): State
      reads this
    {
      State(declaring, scopes, counter)
    }

    constructor (env: Scopes)
      ensures Now() == State(false, env + [map[]], 0)
    {
      declaring, scopes, counter := false, env + [map[]], 0;
    }

    method FreshVariable() returns (v: Name)
      modifies this`counter
      ensures v == FreshName(old(counter)) && counter == old(counter) + 1
    {
      v := FreshName(counter);
      counter := counter + 1;
    }

    /** None stands for the error raised. */
    method RewriteVariable(x: Name) returns (r: Option<Ast>)
      modifies this
      ensures r.None? <==> Rewrite(Var(x), old(Now())).Error?
      ensures r.Some? ==> Ok(r.value, Now()) == Rewrite(Var(x), old(Now()))
    {
      if declaring {
        var fv := FreshVariable();
        if scopes == [] || x in scopes[|scopes| - 1] {
          return None;
        }
        scopes := scopes[|scopes| - 1 := scopes[|scopes| - 1][x := fv]];
        r := Some(Var(fv));
      } else {
        var v := Get(scopes, x);
        r := if v == "" then None else Some(Var(v));
      }
    }

    method RewriteMatch(mm: seq<Ast>, g: Ast, e: Ast) returns (r: Option<Ast>)
      modifies this
      ensures r.None? <==> Rewrite(Match(mm, g, e), old(Now())).Error?
      ensures r.Some? ==> Ok(r.value, Now()) == Rewrite(Match(mm, g, e), old(Now()))
      decreases Match(mm, g, e), 0
    {
      hide Rewrite, Rewrites, Get, Declare;
      MatchSteps(mm, g, e, Now());
      scopes := scopes + [map[]];
      declaring := true;
      var mm0 := RewriteEach(mm);
      if mm0.None? { return None; }
      declaring := false;
      var g0 := RewriteAst(g);
      if g0.None? { return None; }
      declaring := false;
      var e0 := RewriteAst(e);
      if e0.None? { return None; }
      scopes := Outer(scopes);
      r := Some(Match(mm0.value, g0.value, e0.value));
    }

    method RewriteLet(lhs: seq<Ast>, rhs: Ast, body: Ast) returns (r: Option<Ast>)
      modifies this
      ensures r.None? <==> Rewrite(Let(lhs, rhs, body), old(Now())).Error?
      ensures r.Some? ==> Ok(r.value, Now()) == Rewrite(Let(lhs, rhs, body), old(Now()))
      decreases Let(lhs, rhs, body), 0
    {
      hide Rewrite, Rewrites, Get, Declare;
      LetSteps(lhs, rhs, body, Now());
      declaring := false;
      var rhs0 := RewriteAst(rhs);
      if rhs0.None? { return None; }
      scopes := scopes + [map[]];
      declaring := true;
      var lhs0 := RewriteEach(lhs);
      if lhs0.None? { return None; }
      declaring := false;
      var body0 := RewriteAst(body);
      if body0.None? { return None; }
      scopes := Outer(scopes);
      r := Some(Let(lhs0.value, rhs0.value, body0.value));
    }

    method RewriteTag(e: Ast, t: Ast) returns (r: Option<Ast>)
      modifies this
      ensures r.None? <==> Rewrite(Tag(e, t), old(Now())).Error?
      ensures r.Some? ==> Ok(r.value, Now()) == Rewrite(Tag(e, t), old(Now()))
      decreases Tag(e, t), 0
    {
      declaring := true;
      var e0 := RewriteAst(e);
      if e0.None? { return None; }
      declaring := false;
      var t0 := RewriteAst(t);
      if t0.None? { return None; }
      declaring := true;
      r := Some(Tag(e0.value, t0.value));
    }

    method RewriteAst(a: Ast) returns (r: Option<Ast>)
      modifies this
      ensures r.None? <==> Rewrite(a, old(Now())).Error?
      ensures r.Some? ==> Ok(r.value, Now()) == Rewrite(a, old(Now()))
      decreases a, 1
    {
      match a {
        case Var(x) =>
          r := RewriteVariable(x);
        case Comb(n) =>
          var v := Get(scopes, n);
          r := if v == "" then None else Some(Comb(v));
        case Literal(_) =>
          r := Some(a);
        case Node(kind, es) =>
          var es0 := RewriteEach(es);
          r := if es0.None? then None else Some(Node(kind, es0.value));
        case Tag(e, t) =>
          r := RewriteTag(e, t);
        case Match(mm, g, e) =>
          r := RewriteMatch(mm, g, e);
        case Let(lhs, rhs, body) =>
          r := RewriteLet(lhs, rhs, body);
      }
    }

    method RewriteEach(es: seq<Ast>) returns (r: Option<seq<Ast>>)
      modifies this
      ensures r.None? <==> Rewrites(es, old(Now())).Errors?
      ensures r.Some? ==> Oks(r.value, Now()) == Rewrites(es, old(Now()))
      decreases es, 0
    {
      var done: seq<Ast> := [];
      for i := 0 to |es|
        invariant Rewrites(es, old(Now())) == Joined(done, Rewrites(es[i..], Now()))
      {
        assert es[i..][1..] == es[i + 1..];
        ghost var st := Now();
        var e := RewriteAst(es[i]);
        if e.None? { return None; }
        assert Joined(done, Rewrites(es[i..], st)) == Joined(done + [e.value], Rewrites(es[i + 1..], Now())) by {
          var r1 := Rewrites(es[i + 1..], Now());
          if r1.Oks? {
            assert done + ([e.value] + r1.es) == done + [e.value] + r1.es;
          }
        }
        done := done + [e.value];
      }
      assert es[|es|..] == [];
      r := Some(done);
    }
  }

  lemma MatchSteps(mm: seq<Ast>, g: Ast, e: Ast, st: State)
    ensures Rewrite(Match(mm, g, e), st) ==
      var r := Rewrites(mm, st.(declaring := true, scopes := st.scopes + [map[]]));
      if r.Errors? then Error else
      var r1 := Rewrite(g, r.st.(declaring := false));
      if r1.Error? then Error else
      var r2 := Rewrite(e, r1.st.(declaring := false));
      if r2.Error? then Error else Ok(Match(r.es, r1.a, r2.a), r2.st.(scopes := Outer(r2.st.scopes)))
  {
  }

  lemma LetSteps(lhs: seq<Ast>, rhs: Ast, body: Ast, st: State)
    ensures Rewrite(Let(lhs, rhs, body), st) ==
      var r := Rewrite(rhs, st.(declaring := false));
      if r.Error? then Error else
      var r1 := Rewrites(lhs, r.st.(declaring := true, scopes := r.st.scopes + [map[]]));
      if r1.Errors? then Error else
      var r2 := Rewrite(body, r1.st.(declaring := false));
      if r2.Error? then Error else Ok(Let(r1.es, r.a, r2.a), r2.st.(scopes := Outer(r2.st.scopes)))
  {
  }

  function Joined(es: seq<Ast>, r: Results): Results {
    if r.Errors? then Errors else Oks(es + r.es, r.st)
  }
}