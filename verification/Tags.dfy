/** Tags in patterns: what the code tests, and what the comment on its opcode says. */
module Tags {
  import opened Terms
  import opened Syntax
  import opened Semantics
  import opened Heaps
  import opened Bytecode

  /** A tag is an array's, a literal's or a combinator's own, by the name of its symbol. */
  lemma TagNames(q: Pattern, s: Symbol, t: Term, env: Env)
    ensures Match(PTag(q, s), t, env).1 == Match(q, t, env).1
    ensures Match(PTag(q, s), t, env).0 <==>
              && Match(q, t, env).0
              && (|| (t.Node? && HasName(s, "System::array"))
                  || (t.Leaf? && t.a.IntAtom? && HasName(s, "System::int"))
                  || (t.Leaf? && t.a.CharAtom? && HasName(s, "System::char"))
                  || (t.Leaf? && t.a.TextAtom? && HasName(s, "System::text"))
                  || t == Leaf(CombAtom(s)))
  {
    hide SystemNames, HasName;
    SymbolNames();
    NamedAll(s);
  }

  /** The names of the kinds of objects belong to their symbols only. */
  lemma NamedAll(s: Symbol)
    ensures HasName(s, "System::int") ==> s == SYMBOL_INT
    ensures HasName(s, "System::char") ==> s == SYMBOL_CHAR
    ensures HasName(s, "System::text") ==> s == SYMBOL_TEXT
    ensures HasName(s, "System::array") ==> s == SYMBOL_ARRAY
  {
    hide SystemNames, HasName;
    SymbolNames();
    if HasName(s, "System::int") {
      NamedOnce(s, SYMBOL_INT, "System::int");
    }
    if HasName(s, "System::char") {
      NamedOnce(s, SYMBOL_CHAR, "System::char");
    }
    if HasName(s, "System::text") {
      NamedOnce(s, SYMBOL_TEXT, "System::text");
    }
    if HasName(s, "System::array") {
      NamedOnce(s, SYMBOL_ARRAY, "System::array");
    }
  }

  /** The instruction sets the flag exactly for those objects when y holds the combinator s. */
  lemma TagRun(c: Cpu, x: nat, y: nat, s: Symbol)
    requires !Get(c.reg, x).Null? && Get(c.reg, y) == At(CombAtom(s))
    ensures Exec(Tag(x, y), c).Fall?
    ensures var o, c1 := Get(c.reg, x), Exec(Tag(x, y), c).c;
            && c1 == c.(flag := c1.flag)
            && (c1.flag <==>
                  || (o.Arr? && HasName(s, "System::array"))
                  || (o.At? && o.atom.IntAtom? && HasName(s, "System::int"))
                  || (o.At? && o.atom.CharAtom? && HasName(s, "System::char"))
                  || (o.At? && o.atom.TextAtom? && HasName(s, "System::text"))
                  || o == At(CombAtom(s)))
  {
    hide SystemNames, HasName;
    SymbolNames();
    NamedAll(s);
  }

  predicate HeadIs(t: Term, s: Symbol) {
    t.Node? && t.ts != [] && TermSymbol(t.ts[0]) == s
  }

  /** Matching as the comment on the opcode has it: the symbol of a term, or that of its first element. */
  function MatchDoc(p: Pattern, t: Term, env: Env): (r: (bool, Env)) {
    match p
    case PConst(a) => (t == Leaf(a), env)
    case PVar(v) => (true, env[v := t])
    case PTag(q, s) =>
      var (ok, env1) := MatchDoc(q, t, env);
      (ok && (TermSymbol(t) == s || HeadIs(t, s)), env1)
    case PApp(ps) =>
      if t.Node? && |t.ts| == |ps| then MatchesDoc(ps, t.ts, env) else (false, env)
  }

  function MatchesDoc(ps: seq<Pattern>, ts: seq<Term>, env: Env): (bool, Env)
    requires |ps| == |ts|
  {
    if ps == [] then (true, env)
    else
      var (ok, env1) := MatchDoc(ps[0], ts[0], env);
      if ok then MatchesDoc(ps[1..], ts[1..], env1) else (false, env1)
  }

  /** Somewhere a tag other than that of arrays meets an application with that head. */
  predicate TagHit(p: Pattern, t: Term) {
    match p
    case PConst(_) => false
    case PVar(_) => false
    case PTag(q, s) => TagHit(q, t) || (s != SYMBOL_ARRAY && HeadIs(t, s))
    case PApp(ps) => t.Node? && |t.ts| == |ps| && TagHits(ps, t.ts)
  }

  predicate TagHits(ps: seq<Pattern>, ts: seq<Term>)
    requires |ps| == |ts|
  {
    ps != [] && (TagHit(ps[0], ts[0]) || TagHits(ps[1..], ts[1..]))
  }

  /** A pattern matches exactly what it matches by the comment without such a tag, with the same variables. */
  lemma {:induction false} DocExactly(p: Pattern, t: Term, env: Env)
    ensures Match(p, t, env).0 <==> MatchDoc(p, t, env).0 && !TagHit(p, t)
    ensures Match(p, t, env).0 ==> Match(p, t, env) == MatchDoc(p, t, env)
    decreases p, 1
  {
    match p
    case PConst(_) =>
    case PVar(_) =>
    case PTag(q, _) => DocExactly(q, t, env);
    case PApp(ps) =>
      if t.Node? && |t.ts| == |ps| {
        DocsExactly(ps, t.ts, env);
      }
  }

  lemma {:induction false} DocsExactly(ps: seq<Pattern>, ts: seq<Term>, env: Env)
    requires |ps| == |ts|
    ensures Matches(ps, ts, env).0 <==> MatchesDoc(ps, ts, env).0 && !TagHits(ps, ts)
    ensures Matches(ps, ts, env).0 ==> Matches(ps, ts, env) == MatchesDoc(ps, ts, env)
    decreases ps, 0
  {
    if ps != [] {
      DocExactly(ps[0], ts[0], env);
      if MatchDoc(ps[0], ts[0], env).0 {
        DocsExactly(ps[1..], ts[1..], Match(ps[0], ts[0], env).1);
      }
    }
  }

  /** A tag is never matched by an application, unless it is the tag of arrays. */
  lemma TagNever(q: Pattern, s: Symbol, t: Term, env: Env)
    requires t.Node? && s != SYMBOL_ARRAY
    ensures !Match(PTag(q, s), t, env).0
  {
  }
}
