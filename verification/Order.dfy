/** The order of objects, and the tables of symbols and data that rely on it. */
module Order {
  import opened Common
  import opened Terms

  /** What is behind a combinator: nothing yet, a constructor, or some code. */
  datatype Meaning = Stub | Data | Code(version: nat)

  datatype Thing =
    | IntThing(i: int)
    | CharThing(c: char)
    | TextThing(s: string)
    | CombThing(sym: Symbol, meaning: Meaning)
    | ArrayThing(os: seq<Thing>)

  /** The term an object stands for: combinators by their symbol. */
  function Erase(o: Thing): Term {
    match o
    case IntThing(i) => Leaf(IntAtom(i))
    case CharThing(c) => Leaf(CharAtom(c))
    case TextThing(s) => Leaf(TextAtom(s))
    case CombThing(sym, _) => Leaf(CombAtom(sym))
    case ArrayThing(os) => Node(EraseAll(os))
  }

  function EraseAll(os: seq<Thing>): (ts: seq<Term>)
    ensures |ts| == |os|
  {
    if os == [] then [] else [Erase(os[0])] + EraseAll(os[1..])
  }

  /** The position of the kinds of objects in the enumeration of tags. */
  function Kind(o: Thing): nat {
    match o
    case IntThing(_) => 0
    case CharThing(_) => 3
    case TextThing(_) => 4
    case CombThing(_, _) => 6
    case ArrayThing(_) => 7
  }

  function CompareInt(a: int, b: int): int {
    if a < b then -1 else if b < a then 1 else 0
  }

  /** A character as the source stores it: one UTF-16 code unit, or two beyond the basic plane. */
  function Units(c: char): seq<nat> {
    var n := c as int;
    if n < 0x10000 then [n] else [0xD800 + (n - 0x10000) / 0x400, 0xDC00 + (n - 0x10000) % 0x400]
  }

  function CodeUnits(s: string): seq<nat> {
    if s == [] then [] else Units(s[0]) + CodeUnits(s[1..])
  }

  function CompareUnits(s: seq<nat>, t: seq<nat>): int {
    if s == [] then if t == [] then 0 else -1
    else if t == [] then 1
    else if s[0] < t[0] then -1
    else if t[0] < s[0] then 1
    else CompareUnits(s[1..], t[1..])
  }

  /** Texts are compared by their code units. */
  function CompareText(s: string, t: string): int {
    CompareUnits(CodeUnits(s), CodeUnits(t))
  }

  function Compare(a: Thing, b: Thing): int
    decreases a
  {
    if Kind(a) < Kind(b) then -1
    else if Kind(b) < Kind(a) then 1
    else
      match a
      case IntThing(i) => CompareInt(i, b.i)
      case CharThing(c) => CompareInt(c as int, b.c as int)
      case TextThing(s) => CompareText(s, b.s)
      case CombThing(sym, _) => CompareInt(sym, b.sym)
      case ArrayThing(os) =>
        if |os| < |b.os| then -1 else if |b.os| < |os| then 1 else CompareAll(os, b.os)
  }

  function CompareAll(xs: seq<Thing>, ys: seq<Thing>): int
    requires |xs| == |ys|
    decreases xs
  {
    if xs == [] then 0
    else
      var c := Compare(xs[0], ys[0]);
      if c < 0 then -1 else if c > 0 then 1 else CompareAll(xs[1..], ys[1..])
  }

  // A total order

  lemma {:induction false} UnitsZero(s: seq<nat>, t: seq<nat>)
    ensures -1 <= CompareUnits(s, t) <= 1
    ensures CompareUnits(s, t) == 0 <==> s == t
    ensures CompareUnits(t, s) == -CompareUnits(s, t)
    decreases |s|
  {
    if s != [] && t != [] {
      UnitsZero(s[1..], t[1..]);
      assert s == [s[0]] + s[1..] && t == [t[0]] + t[1..];
    }
  }

  lemma {:induction false} UnitsTransitive(s: seq<nat>, t: seq<nat>, u: seq<nat>)
    requires CompareUnits(s, t) <= 0 && CompareUnits(t, u) <= 0
    ensures CompareUnits(s, u) == if CompareUnits(s, t) < 0 || CompareUnits(t, u) < 0 then -1 else 0
    decreases |s|
  {
    if s != [] && t != [] && u != [] && s[0] == t[0] && t[0] == u[0] {
      UnitsTransitive(s[1..], t[1..], u[1..]);
    }
  }

  /** No character's code units begin those of another one. */
  lemma UnitsApart(c: char, d: char, s: seq<nat>, t: seq<nat>)
    requires Units(c) + s == Units(d) + t
    ensures c == d && s == t
  {
    var l, r := Units(c) + s, Units(d) + t;
    assert l[0] == Units(c)[0] && r[0] == Units(d)[0];
    SurrogateFirst(c);
    SurrogateFirst(d);
    if |Units(c)| == 2 {
      assert l[1] == Units(c)[1] && r[1] == Units(d)[1];
      PairOnce(c, d);
    } else {
      assert c as int == d as int;
    }
    assert s == l[|Units(c)|..] && t == r[|Units(c)|..];
  }

  lemma SurrogateFirst(c: char)
    ensures |Units(c)| == 2 <==> 0xD800 <= Units(c)[0] < 0xE000
    ensures |Units(c)| == if c as int < 0x10000 then 1 else 2
  {
  }

  lemma PairOnce(c: char, d: char)
    requires c as int >= 0x10000 && d as int >= 0x10000 && Units(c) == Units(d)
    ensures c == d
  {
    var m, n := c as int - 0x10000, d as int - 0x10000;
    assert Units(c)[0] == Units(d)[0] && Units(c)[1] == Units(d)[1];
    assert m == (m / 0x400) * 0x400 + m % 0x400 && n == (n / 0x400) * 0x400 + n % 0x400;
  }

  lemma {:induction false} CodeUnitsApart(s: string, t: string)
    ensures CodeUnits(s) == CodeUnits(t) <==> s == t
    decreases |s|
  {
    if s != [] && t != [] {
      if CodeUnits(s) == CodeUnits(t) {
        UnitsApart(s[0], t[0], CodeUnits(s[1..]), CodeUnits(t[1..]));
      }
      CodeUnitsApart(s[1..], t[1..]);
      assert s == [s[0]] + s[1..] && t == [t[0]] + t[1..];
    }
  }

  lemma TextZero(s: string, t: string)
    ensures -1 <= CompareText(s, t) <= 1
    ensures CompareText(s, t) == 0 <==> s == t
    ensures CompareText(t, s) == -CompareText(s, t)
  {
    hide CodeUnits;
    UnitsZero(CodeUnits(s), CodeUnits(t));
    CodeUnitsApart(s, t);
  }

  lemma TextTransitive(s: string, t: string, u: string)
    requires CompareText(s, t) <= 0 && CompareText(t, u) <= 0
    ensures CompareText(s, u) == if CompareText(s, t) < 0 || CompareText(t, u) < 0 then -1 else 0
  {
    UnitsTransitive(CodeUnits(s), CodeUnits(t), CodeUnits(u));
  }

  /** The order is antisymmetric, and zero means the same term. */
  lemma {:induction false} CompareZero(a: Thing, b: Thing)
    ensures -1 <= Compare(a, b) <= 1
    ensures Compare(a, b) == 0 <==> Erase(a) == Erase(b)
    ensures Compare(b, a) == -Compare(a, b)
    decreases a
  {
    if Kind(a) == Kind(b) {
      match a
      case TextThing(s) => TextZero(s, b.s);
      case ArrayThing(os) =>
        if |os| == |b.os| {
          CompareAllZero(os, b.os);
        }
      case _ =>
    }
  }

  lemma {:induction false} CompareAllZero(xs: seq<Thing>, ys: seq<Thing>)
    requires |xs| == |ys|
    ensures -1 <= CompareAll(xs, ys) <= 1
    ensures CompareAll(xs, ys) == 0 <==> EraseAll(xs) == EraseAll(ys)
    ensures CompareAll(ys, xs) == -CompareAll(xs, ys)
    decreases xs
  {
    if xs != [] {
      CompareZero(xs[0], ys[0]);
      CompareAllZero(xs[1..], ys[1..]);
      assert EraseAll(xs)[0] == Erase(xs[0]) && EraseAll(xs)[1..] == EraseAll(xs[1..]);
      assert EraseAll(ys)[0] == Erase(ys[0]) && EraseAll(ys)[1..] == EraseAll(ys[1..]);
    }
  }

  lemma {:induction false} CompareTransitive(a: Thing, b: Thing, c: Thing)
    requires Compare(a, b) <= 0 && Compare(b, c) <= 0
    ensures Compare(a, c) == if Compare(a, b) < 0 || Compare(b, c) < 0 then -1 else 0
    decreases a
  {
    if Kind(a) == Kind(b) == Kind(c) {
      match a
      case TextThing(s) => TextTransitive(s, b.s, c.s);
      case ArrayThing(os) =>
        if |os| == |b.os| == |c.os| {
          CompareAllTransitive(os, b.os, c.os);
        }
      case _ =>
    }
  }

  lemma {:induction false} CompareAllTransitive(xs: seq<Thing>, ys: seq<Thing>, zs: seq<Thing>)
    requires |xs| == |ys| == |zs| && CompareAll(xs, ys) <= 0 && CompareAll(ys, zs) <= 0
    ensures CompareAll(xs, zs) == if CompareAll(xs, ys) < 0 || CompareAll(ys, zs) < 0 then -1 else 0
    decreases xs
  {
    if xs != [] {
      CompareTransitive(xs[0], ys[0], zs[0]);
      if Compare(xs[0], ys[0]) == 0 && Compare(ys[0], zs[0]) == 0 {
        CompareAllTransitive(xs[1..], ys[1..], zs[1..]);
      }
    }
  }

  lemma {:induction false} CompareAllFirst(xs: seq<Thing>, ys: seq<Thing>, k: nat)
    requires |xs| == |ys| && k <= |xs| && forall j :: 0 <= j < k ==> Compare(xs[j], ys[j]) == 0
    ensures CompareAll(xs, ys) == CompareAll(xs[k..], ys[k..])
    decreases k
  {
    if k == 0 {
      assert xs[0..] == xs && ys[0..] == ys;
    } else {
      CompareAllFirst(xs[1..], ys[1..], k - 1);
      assert xs[1..][k - 1..] == xs[k..] && ys[1..][k - 1..] == ys[k..];
    }
  }

  // The order itself

  /** The order of characters by their first differing code unit: those of two units come before 0xE000. */
  predicate CharBelow(c: char, d: char) {
    var m, n := c as int, d as int;
    if m < 0x10000 <= n then m < 0xD800 else if n < 0x10000 <= m then n >= 0xE000 else m < n
  }

  /** A text is below another that it begins, and below one whose first differing character is above. */
  ghost predicate TextBelow(s: string, t: string) {
    exists k :: 0 <= k <= |s| && TextBelowAt(s, t, k)
  }

  predicate TextBelowAt(s: string, t: string, k: nat)
    requires k <= |s|
  {
    k < |t| && s[..k] == t[..k] && (k < |s| ==> CharBelow(s[k], t[k]))
  }

  /**
   * Integers come first, then characters, texts, combinators and arrays. Combinators are ordered by
   * symbol and shorter arrays come first; otherwise the first elements that differ decide.
   */
  ghost predicate Below(a: Thing, b: Thing)
    decreases a
  {
    if a.IntThing? then b.IntThing? ==> a.i < b.i
    else if a.CharThing? then !b.IntThing? && (b.CharThing? ==> a.c < b.c)
    else if a.TextThing? then !b.IntThing? && !b.CharThing? && (b.TextThing? ==> TextBelow(a.s, b.s))
    else if a.CombThing? then b.ArrayThing? || (b.CombThing? && a.sym < b.sym)
    else b.ArrayThing? && (|a.os| < |b.os| || (|a.os| == |b.os| && FirstBelow(a.os, b.os)))
  }

  ghost predicate FirstBelow(xs: seq<Thing>, ys: seq<Thing>)
    requires |xs| == |ys|
    decreases xs
  {
    exists k :: 0 <= k < |xs| && Below(xs[k], ys[k]) && forall j :: 0 <= j < k ==> Erase(xs[j]) == Erase(ys[j])
  }

  /** A code unit is the character it stands for, or two of them give its number. */
  lemma UnitsDecode(c: char)
    ensures c as int < 0x10000 ==> Units(c) == [c as int]
    ensures c as int >= 0x10000 ==>
              && |Units(c)| == 2
              && 0xD800 <= Units(c)[0] < 0xDC00 <= Units(c)[1] < 0xE000
              && c as int == 0x10000 + (Units(c)[0] - 0xD800) * 0x400 + (Units(c)[1] - 0xDC00)
  {
    var m := c as int - 0x10000;
    assert m == (m / 0x400) * 0x400 + m % 0x400;
  }

  lemma UnitsSame(us: seq<nat>, s: seq<nat>, t: seq<nat>)
    requires 1 <= |us| <= 2
    ensures CompareUnits(us + s, us + t) == CompareUnits(s, t)
  {
    assert (us + s)[1..] == us[1..] + s && (us + t)[1..] == us[1..] + t;
    if |us| == 2 {
      assert (us[1..] + s)[1..] == s && (us[1..] + t)[1..] == t;
    } else {
      assert us[1..] + s == s && us[1..] + t == t;
    }
  }

  lemma UnitsDiffer(c: char, d: char, s: seq<nat>, t: seq<nat>)
    requires c != d
    ensures CompareUnits(Units(c) + s, Units(d) + t) < 0 <==> CharBelow(c, d)
  {
    hide Units;
    UnitsDecode(c);
    UnitsDecode(d);
    var l, r := Units(c) + s, Units(d) + t;
    assert l[0] == Units(c)[0] && r[0] == Units(d)[0];
    if c as int >= 0x10000 && d as int >= 0x10000 {
      assert l[1..][0] == Units(c)[1] && r[1..][0] == Units(d)[1];
    }
  }

  lemma {:induction false} TextExactly(s: string, t: string)
    ensures CompareText(s, t) < 0 <==> TextBelow(s, t)
    decreases |s|
  {
    hide CompareUnits, Units, CharBelow;
    if s == [] || t == [] {
      EmptyText(s, t);
    } else if s[0] == t[0] {
      TextExactly(s[1..], t[1..]);
      UnitsDecode(s[0]);
      UnitsSame(Units(s[0]), CodeUnits(s[1..]), CodeUnits(t[1..]));
      TextTail(s, t);
    } else {
      UnitsDiffer(s[0], t[0], CodeUnits(s[1..]), CodeUnits(t[1..]));
      if CharBelow(s[0], t[0]) {
        assert TextBelowAt(s, t, 0);
      }
      if TextBelow(s, t) {
        var k :| 0 <= k <= |s| && TextBelowAt(s, t, k);
        assert k > 0 ==> s[..k][0] == t[..k][0];
      }
    }
  }

  lemma EmptyText(s: string, t: string)
    requires s == [] || t == []
    ensures CompareText(s, t) < 0 <==> TextBelow(s, t)
  {
    if s == [] && t != [] {
      UnitsDecode(t[0]);
      assert TextBelowAt(s, t, 0);
    }
  }

  lemma TextTail(s: string, t: string)
    requires s != [] && t != [] && s[0] == t[0]
    ensures TextBelow(s, t) <==> TextBelow(s[1..], t[1..])
  {
    hide CharBelow;
    if TextBelow(s, t) {
      var k :| 0 <= k <= |s| && TextBelowAt(s, t, k);
      if k == 0 {
        UnitsApartNot(s[0]);
      }
      assert s[1..][..k - 1] == s[..k][1..] && t[1..][..k - 1] == t[..k][1..];
      assert TextBelowAt(s[1..], t[1..], k - 1);
    }
    if TextBelow(s[1..], t[1..]) {
      var k :| 0 <= k <= |s[1..]| && TextBelowAt(s[1..], t[1..], k);
      assert s[..k + 1] == [s[0]] + s[1..][..k] && t[..k + 1] == [t[0]] + t[1..][..k];
      assert TextBelowAt(s, t, k + 1);
    }
  }

  lemma UnitsApartNot(c: char)
    ensures !CharBelow(c, c)
  {
  }

  /** Comparing two objects tells which of them is below the other. */
  lemma {:induction false} CompareExactly(a: Thing, b: Thing)
    ensures Compare(a, b) < 0 <==> Below(a, b)
    ensures Compare(a, b) > 0 <==> Below(b, a)
    decreases a, 1
  {
    hide CompareText, TextBelow, FirstBelow, CompareAll;
    if a.TextThing? && b.TextThing? {
      TextExactly(a.s, b.s);
      TextExactly(b.s, a.s);
      TextZero(a.s, b.s);
    } else if a.ArrayThing? && b.ArrayThing? && |a.os| == |b.os| {
      CompareAllExactly(a.os, b.os);
    }
  }

  lemma {:induction false} CompareAllExactly(xs: seq<Thing>, ys: seq<Thing>)
    requires |xs| == |ys|
    ensures CompareAll(xs, ys) < 0 <==> FirstBelow(xs, ys)
    ensures CompareAll(xs, ys) > 0 <==> FirstBelow(ys, xs)
    decreases xs, 0
  {
    hide Below, Compare, Erase;
    if xs != [] {
      CompareExactly(xs[0], ys[0]);
      CompareAllExactly(xs[1..], ys[1..]);
      CompareZero(xs[0], ys[0]);
      FirstTail(xs, ys);
      FirstTail(ys, xs);
    }
  }

  lemma FirstTail(xs: seq<Thing>, ys: seq<Thing>)
    requires |xs| == |ys| && xs != []
    ensures FirstBelow(xs, ys) <==> Below(xs[0], ys[0]) || (Erase(xs[0]) == Erase(ys[0]) && FirstBelow(xs[1..], ys[1..]))
  {
    hide Below, Erase;
    if FirstBelow(xs, ys) {
      var k :| 0 <= k < |xs| && Below(xs[k], ys[k]) && forall j :: 0 <= j < k ==> Erase(xs[j]) == Erase(ys[j]);
      if k > 0 {
        assert Below(xs[1..][k - 1], ys[1..][k - 1]);
        assert forall j :: 0 <= j < k - 1 ==> Erase(xs[1..][j]) == Erase(ys[1..][j]);
      }
    }
    if Erase(xs[0]) == Erase(ys[0]) && FirstBelow(xs[1..], ys[1..]) {
      var k :| 0 <= k < |xs[1..]| && Below(xs[1..][k], ys[1..][k]) && forall j :: 0 <= j < k ==> Erase(xs[1..][j]) == Erase(ys[1..][j]);
      assert Below(xs[k + 1], ys[k + 1]);
      forall j | 0 <= j < k + 1
        ensures Erase(xs[j]) == Erase(ys[j])
      {
        assert j > 0 ==> xs[j] == xs[1..][j - 1] && ys[j] == ys[1..][j - 1];
      }
    }
  }

  method CompareObjects(a: Thing, b: Thing) returns (c: int)
    ensures c == Compare(a, b)
    ensures c < 0 <==> Below(a, b)
    ensures c > 0 <==> Below(b, a)
    decreases a
  {
    hide Below;
    CompareExactly(a, b);
    var t0, t1 := Kind(a), Kind(b);
    if t0 < t1 {
      return -1;
    } else if t1 < t0 {
      return 1;
    }
    match a {
      case IntThing(i) => c := CompareInt(i, b.i);
      case CharThing(ch) => c := CompareInt(ch as int, b.c as int);
      case TextThing(s) => c := CompareText(s, b.s);
      case CombThing(sym, _) => c := CompareInt(sym, b.sym);
      case ArrayThing(os) =>
        if |os| < |b.os| {
          return -1;
        } else if |b.os| < |os| {
          return 1;
        }
        for i := 0 to |os|
          invariant forall j :: 0 <= j < i ==> Compare(os[j], b.os[j]) == 0
        {
          CompareAllFirst(os, b.os, i);
          c := CompareObjects(os[i], b.os[i]);
          if c < 0 {
            return -1;
          }
          if c > 0 {
            return 1;
          }
        }
        CompareAllFirst(os, b.os, |os|);
        c := 0;
    }
  }

  // Maps kept in that order

  datatype Entry = Entry(key: Thing, val: nat)

  ghost predicate Sorted(m: seq<Entry>) {
    forall i, j :: 0 <= i < j < |m| ==> Compare(m[i].key, m[j].key) < 0
  }

  /** The entry whose key is the same term. */
  ghost predicate Finds(m: seq<Entry>, o: Thing, n: nat) {
    exists i :: 0 <= i < |m| && Erase(m[i].key) == Erase(o) && m[i].val == n
  }

  ghost predicate Lacks(m: seq<Entry>, o: Thing) {
    forall i :: 0 <= i < |m| ==> Erase(m[i].key) != Erase(o)
  }

  /** The place for a key, by bisection: this needs the order to be transitive. */
  method LowerBound(m: seq<Entry>, o: Thing) returns (k: nat)
    requires Sorted(m)
    ensures k <= |m|
    ensures forall i :: 0 <= i < k ==> Compare(m[i].key, o) < 0
    ensures forall i :: k <= i < |m| ==> Compare(m[i].key, o) >= 0
  {
    var hi := |m|;
    k := 0;
    while k < hi
      invariant 0 <= k <= hi <= |m|
      invariant forall i :: 0 <= i < k ==> Compare(m[i].key, o) < 0
      invariant forall i :: hi <= i < |m| ==> Compare(m[i].key, o) >= 0
      decreases hi - k
    {
      var mid := (k + hi) / 2;
      var c := CompareObjects(m[mid].key, o);
      if c < 0 {
        forall i | 0 <= i < mid
          ensures Compare(m[i].key, o) < 0
        {
          CompareTransitive(m[i].key, m[mid].key, o);
        }
        k := mid + 1;
      } else {
        forall i | mid < i < |m|
          ensures Compare(m[i].key, o) >= 0
        {
          Above(m[mid].key, m[i].key, o);
        }
        hi := mid;
      }
    }
  }

  lemma Above(a: Thing, b: Thing, o: Thing)
    requires Compare(a, b) < 0 && Compare(a, o) >= 0
    ensures Compare(b, o) > 0
  {
    CompareZero(a, b);
    CompareZero(a, o);
    CompareZero(b, o);
    if Compare(b, o) <= 0 {
      CompareTransitive(a, b, o);
    }
  }

  method Find(m: seq<Entry>, o: Thing) returns (r: Option<nat>)
    requires Sorted(m)
    ensures r.None? ==> Lacks(m, o)
    ensures r.Some? ==> Finds(m, o, r.value)
  {
    var k := LowerBound(m, o);
    forall i | 0 <= i < |m|
      ensures Compare(m[i].key, o) == 0 <==> Erase(m[i].key) == Erase(o)
    {
      CompareZero(m[i].key, o);
    }
    if k < |m| {
      var c := CompareObjects(m[k].key, o);
      if c == 0 {
        return Some(m[k].val);
      }
      forall i | k < i < |m|
        ensures Compare(m[i].key, o) > 0
      {
        Above(m[k].key, m[i].key, o);
      }
    }
    r := None;
  }

  method Insert(m: seq<Entry>, o: Thing, n: nat) returns (m1: seq<Entry>)
    requires Sorted(m) && Lacks(m, o)
    ensures Sorted(m1) && |m1| == |m| + 1
    ensures exists k :: 0 <= k <= |m| && m1 == m[..k] + [Entry(o, n)] + m[k..]
  {
    var k := LowerBound(m, o);
    m1 := m[..k] + [Entry(o, n)] + m[k..];
    forall i | 0 <= i < |m|
      ensures Compare(m[i].key, o) != 0 && Compare(o, m[i].key) == -Compare(m[i].key, o)
    {
      CompareZero(m[i].key, o);
    }
    forall i, j | 0 <= i < j < |m1|
      ensures Compare(m1[i].key, m1[j].key) < 0
    {
      if j < k {
        assert m1[i] == m[i] && m1[j] == m[j];
      } else if j == k {
        assert m1[i] == m[i];
      } else {
        assert m1[j] == m[j - 1];
        if i < k {
          assert m1[i] == m[i];
        } else if i > k {
          assert m1[i] == m[i - 1];
        }
      }
    }
  }

  // The data table

  /** The number of the entry that is the same term as o. */
  function Id(to: seq<Thing>, o: Thing): (r: Option<nat>)
    ensures r.Some? ==> r.value < |to| && Erase(to[r.value]) == Erase(o)
    ensures r.None? ==> forall i :: 0 <= i < |to| ==> Erase(to[i]) != Erase(o)
  {
    if to == [] then None
    else if Erase(to[|to| - 1]) == Erase(o) then Some(|to| - 1)
    else Id(to[..|to| - 1], o)
  }

  function Entered(to: seq<Thing>, o: Thing): seq<Thing> {
    if Id(to, o).Some? then to else to + [o]
  }

  function Defined(to: seq<Thing>, o: Thing): seq<Thing> {
    if Id(to, o).Some? then to[Id(to, o).value := o] else to + [o]
  }

  datatype Op = Enter(o: Thing) | Define(o: Thing)

  function After(ops: seq<Op>): seq<Thing> {
    if ops == [] then []
    else
      var to := After(ops[..|ops| - 1]);
      var op := ops[|ops| - 1];
      if op.Enter? then Entered(to, op.o) else Defined(to, op.o)
  }

  /** What a term stands for after some operations: its last definition, or else what was entered first. */
  function Current(ops: seq<Op>, t: Term): Option<Thing> {
    if ops == [] then None
    else
      var op := ops[|ops| - 1];
      var was := Current(ops[..|ops| - 1], t);
      if Erase(op.o) == t && (op.Define? || was.None?) then Some(op.o) else was
  }

  /** No term has two entries. */
  ghost predicate OneEach(to: seq<Thing>) {
    forall i, j :: 0 <= i < j < |to| ==> Erase(to[i]) != Erase(to[j])
  }

  lemma IdOne(to: seq<Thing>, o: Thing, n: nat)
    requires OneEach(to) && n < |to| && Erase(to[n]) == Erase(o)
    ensures Id(to, o) == Some(n)
  {
  }

  lemma EnteredOne(to: seq<Thing>, o: Thing)
    requires OneEach(to)
    ensures OneEach(Entered(to, o)) && OneEach(Defined(to, o))
  {
    hide Erase;
    var r := Id(to, o);
    if r.Some? {
      var to1 := to[r.value := o];
      forall i, j | 0 <= i < j < |to1|
        ensures Erase(to1[i]) != Erase(to1[j])
      {
        assert Erase(to[i]) != Erase(to[j]);
      }
    }
  }

  lemma {:induction false} AfterOne(ops: seq<Op>)
    ensures OneEach(After(ops))
    decreases |ops|
  {
    hide OneEach, Entered, Defined;
    if ops != [] {
      AfterOne(ops[..|ops| - 1]);
      EnteredOne(After(ops[..|ops| - 1]), ops[|ops| - 1].o);
    } else {
      NoneOne();
    }
  }

  lemma NoneOne()
    ensures OneEach([])
  {
  }

  /** How one operation changes what is found under a term. */
  lemma OpCurrent(to: seq<Thing>, op: Op, o: Thing)
    requires OneEach(to)
    ensures var to1 := if op.Enter? then Entered(to, op.o) else Defined(to, op.o);
            var r, r1 := Id(to, o), Id(to1, o);
            && (r.Some? ==> r1 == r && r.value < |to1|)
            && (r.Some? ==> to1[r.value] == if op.Define? && Erase(op.o) == Erase(o) then op.o else to[r.value])
            && (r.None? ==> if Erase(op.o) == Erase(o) then r1 == Some(|to|) && |to1| == |to| + 1 && to1[|to|] == op.o else r1.None?)
  {
    hide Erase;
    var to1 := if op.Enter? then Entered(to, op.o) else Defined(to, op.o);
    EnteredOne(to, op.o);
    if Id(to, o).Some? {
      if Id(to, op.o).Some? && Erase(op.o) == Erase(o) {
        IdOne(to, o, Id(to, op.o).value);
      }
      IdOne(to1, o, Id(to, o).value);
    } else if Erase(op.o) == Erase(o) {
      assert Id(to, op.o).None?;
      IdOne(to1, o, |to|);
    }
  }

  /** The table holds the last definition of every term, or what was entered first; nothing else is in it. */
  lemma {:induction false} AfterCurrent(ops: seq<Op>, o: Thing)
    ensures var to := After(ops);
            && (Id(to, o).None? <==> Current(ops, Erase(o)).None?)
            && (Id(to, o).Some? ==> Current(ops, Erase(o)) == Some(to[Id(to, o).value]))
    decreases |ops|
  {
    hide OneEach, Entered, Defined, Erase, Id;
    if ops != [] {
      var before := ops[..|ops| - 1];
      AfterCurrent(before, o);
      AfterOne(before);
      OpCurrent(After(before), ops[|ops| - 1], o);
    } else {
      IdNone(o);
    }
  }

  lemma IdNone(o: Thing)
    ensures Id([], o).None?
  {
  }

  /** Numbers never change. */
  lemma {:induction false} IdStable(ops: seq<Op>, more: seq<Op>, o: Thing)
    requires Id(After(ops), o).Some?
    ensures Id(After(ops + more), o) == Id(After(ops), o)
    decreases |more|
  {
    if more == [] {
      assert ops + more == ops;
    } else {
      IdStable(ops, more[..|more| - 1], o);
      assert (ops + more)[..|ops + more| - 1] == ops + more[..|more| - 1];
      AfterOne(ops + more);
      IdOne(After(ops + more), o, Id(After(ops), o).value);
    }
  }

  /** The map inverts the vector: the number of to[n] is n. */
  ghost predicate Inverse(to: seq<Thing>, m: seq<Entry>) {
    && (forall i :: 0 <= i < |m| ==> m[i].val < |to| && Erase(to[m[i].val]) == Erase(m[i].key))
    && (forall n :: 0 <= n < |to| ==> Finds(m, to[n], n))
  }

  lemma FoundIs(to: seq<Thing>, m: seq<Entry>, o: Thing, r: Option<nat>)
    requires OneEach(to) && Inverse(to, m)
    requires r.None? ==> Lacks(m, o)
    requires r.Some? ==> Finds(m, o, r.value)
    ensures r == Id(to, o)
  {
    if r.Some? {
      IdOne(to, o, r.value);
    } else {
      forall n | 0 <= n < |to|
        ensures Erase(to[n]) != Erase(o)
      {
        assert Finds(m, to[n], n);
      }
    }
  }

  class DataTable {
    var to: seq<Thing>
    var from: seq<Entry>
    ghost var ops: seq<Op>

    ghost predicate Valid()
      reads this
    {
      Sorted(from) && OneEach(to) && to == After(ops) && Inverse(to, from)
    }

    constructor ()
      ensures Valid() && ops == []
    {
      to, from, ops := [], [], [];
    }

    /** The number of an object, if it has one. */
    method Number(o: Thing) returns (r: Option<nat>)
      requires Valid()
      ensures r == Id(to, o) && (r.None? ==> Lacks(from, o))
    {
      r := Find(from, o);
      FoundIs(to, from, o, r);
    }

    method EnterData(o: Thing) returns (n: nat)
      requires Valid()
      modifies this
      ensures Valid() && ops == old(ops) + [Enter(o)] && to == Entered(old(to), o)
      ensures Id(to, o) == Some(n)
    {
      hide Sorted, OneEach, Inverse, Id, After, Lacks, Finds;
      AfterMore(ops, Enter(o));
      var r := Number(o);
      if r.None? {
        n := |to|;
        var f := Insert(from, o, n);
        InsertValid(to, from, o, f);
        to := to + [o];
        from := f;
      } else {
        n := r.value;
      }
      ops := ops + [Enter(o)];
    }

    method DefineData(o: Thing) returns (n: nat)
      requires Valid()
      modifies this
      ensures Valid() && ops == old(ops) + [Define(o)] && to == Defined(old(to), o)
      ensures Id(to, o) == Some(n) && to[n] == o
    {
      hide Sorted, OneEach, Inverse, Id, After, Lacks, Finds;
      AfterMore(ops, Define(o));
      var r := Number(o);
      if r.None? {
        n := EnterData(o);
      } else {
        n := r.value;
        ReplaceValid(to, from, o, n);
        to := to[n := o];
      }
      ops := old(ops) + [Define(o)];
      IdRange(to, o);
    }

    /** A symbol not yet known gets a stub; else the last definition is returned. */
    method GetCombinator(sym: Symbol) returns (o: Thing)
      requires Valid()
      modifies this
      ensures Valid() && ops == old(ops) + [Enter(CombThing(sym, Stub))]
      ensures var c := Current(old(ops), Leaf(CombAtom(sym)));
              o == if c.Some? then c.value else CombThing(sym, Stub)
    {
      var stub := CombThing(sym, Stub);
      AfterCurrent(ops, stub);
      var n := EnterData(stub);
      o := to[n];
      IdOne(to, stub, n);
    }
  }

  lemma AfterMore(ops: seq<Op>, op: Op)
    ensures After(ops + [op]) == if op.Enter? then Entered(After(ops), op.o) else Defined(After(ops), op.o)
  {
    assert (ops + [op])[..|ops|] == ops;
  }

  lemma IdRange(to: seq<Thing>, o: Thing)
    ensures Id(to, o).Some? ==> Id(to, o).value < |to|
  {
  }

  lemma InsertValid(to: seq<Thing>, m: seq<Entry>, o: Thing, m1: seq<Entry>)
    requires OneEach(to) && Inverse(to, m) && Id(to, o).None?
    requires exists k :: 0 <= k <= |m| && m1 == m[..k] + [Entry(o, |to|)] + m[k..]
    ensures OneEach(to + [o]) && Inverse(to + [o], m1) && Id(to + [o], o) == Some(|to|)
  {
    hide Erase, Inverse;
    var k :| 0 <= k <= |m| && m1 == m[..k] + [Entry(o, |to|)] + m[k..];
    InsertInverse(to, m, o, k);
    IdOne(to + [o], o, |to|);
  }

  lemma InsertInverse(to: seq<Thing>, m: seq<Entry>, o: Thing, k: nat)
    requires Inverse(to, m) && k <= |m|
    ensures Inverse(to + [o], m[..k] + [Entry(o, |to|)] + m[k..])
  {
    hide Erase, Finds;
    var to1, m1 := to + [o], m[..k] + [Entry(o, |to|)] + m[k..];
    forall i | 0 <= i < |m1|
      ensures m1[i].val < |to1| && Erase(to1[m1[i].val]) == Erase(m1[i].key)
    {
      if i != k {
        assert m1[i] == m[if i < k then i else i - 1];
      }
    }
    forall n | 0 <= n < |to1|
      ensures Finds(m1, to1[n], n)
    {
      if n < |to| {
        assert Finds(m, to[n], n);
        FindsMore(m, to[n], n, Entry(o, |to|), k);
      } else {
        FindsNew(m, o, n, k);
      }
    }
  }

  lemma FindsMore(m: seq<Entry>, o: Thing, n: nat, e: Entry, k: nat)
    requires Finds(m, o, n) && k <= |m|
    ensures Finds(m[..k] + [e] + m[k..], o, n)
  {
    hide Erase;
    var i :| 0 <= i < |m| && Erase(m[i].key) == Erase(o) && m[i].val == n;
    var m1 := m[..k] + [e] + m[k..];
    var j := if i < k then i else i + 1;
    assert m1[j] == m[i];
  }

  lemma FindsNew(m: seq<Entry>, o: Thing, n: nat, k: nat)
    requires k <= |m|
    ensures Finds(m[..k] + [Entry(o, n)] + m[k..], o, n)
  {
    hide Erase;
    var m1 := m[..k] + [Entry(o, n)] + m[k..];
    assert m1[k] == Entry(o, n);
  }

  lemma ReplaceValid(to: seq<Thing>, m: seq<Entry>, o: Thing, n: nat)
    requires OneEach(to) && Inverse(to, m) && Id(to, o) == Some(n)
    ensures n < |to| && OneEach(to[n := o]) && Inverse(to[n := o], m) && Id(to[n := o], o) == Some(n)
  {
    var to1 := to[n := o];
    IdOne(to1, o, n);
    forall k | 0 <= k < |to1|
      ensures Finds(m, to1[k], k)
    {
      assert Finds(m, to[k], k);
    }
  }

  // The symbol table

  class SymbolTable {
    var to: seq<string>
    var from: map<string, nat>

    ghost predicate Valid()
      reads this
    {
      && (forall n :: 0 <= n < |to| ==> to[n] in from && from[to[n]] == n)
      && (forall s :: s in from ==> from[s] < |to| && to[from[s]] == s)
    }

    constructor ()
      ensures Valid() && to == []
    {
      to, from := [], map[];
    }

    method EnterSymbol(s: string) returns (n: nat)
      requires Valid()
      modifies this
      ensures Valid() && n < |to| && to[n] == s
      ensures to == if s in old(to) then old(to) else old(to) + [s]
    {
      if s !in from {
        n := |to|;
        to := to + [s];
        from := from[s := n];
      } else {
        n := from[s];
      }
    }
  }

  function Constructors(k: nat): seq<Thing> {
    seq(k, i requires 0 <= i < k => CombThing(i, Data))
  }

  lemma NextConstructor(k: nat)
    ensures Entered(Constructors(k), CombThing(k, Data)) == Constructors(k + 1)
  {
  }

  lemma NextName(k: nat)
    requires k < 12
    ensures SystemNames()[k] !in SystemNames()[..k] && SystemNames()[..k] + [SystemNames()[k]] == SystemNames()[..k + 1]
  {
    hide SystemNames;
    NamesDistinct();
  }

  /** The first twelve symbols have the numbers the machine counts on, and each is a constructor at its own number. */
  method Populate(symbols: SymbolTable, data: DataTable)
    requires symbols.Valid() && data.Valid() && symbols.to == [] && data.ops == []
    modifies symbols, data
    ensures symbols.Valid() && data.Valid()
    ensures symbols.to == SystemNames()
    ensures |data.to| == 12 && forall k :: 0 <= k < 12 ==> data.to[k] == CombThing(k, Data)
  {
    hide SystemNames, Sorted, OneEach, Inverse, After, Constructors, Entered;
    NoConstructors();
    NamesDistinct();
    for k := 0 to 12
      invariant symbols.Valid() && data.Valid()
      invariant symbols.to == SystemNames()[..k]
      invariant data.to == Constructors(k)
    {
      NextName(k);
      NextConstructor(k);
      var s := symbols.EnterSymbol(SystemNames()[k]);
      var _ := data.EnterData(CombThing(s, Data));
    }
    assert SystemNames()[..12] == SystemNames();
    AllConstructors();
  }

  lemma AllConstructors()
    ensures |Constructors(12)| == 12 && forall k :: 0 <= k < 12 ==> Constructors(12)[k] == CombThing(k, Data)
  {
  }

  lemma NoConstructors()
    ensures After([]) == Constructors(0) == []
  {
  }
}
