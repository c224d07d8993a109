/** Printing of terms with an explicit stack, and the recursive printer it agrees with. */
module Render {
  import opened Terms

  datatype Value = Null | Atomic(a: Atom) | Array(os: seq<Value>)

  /** On the stack there are values to print and texts to copy. */
  datatype Item = Show(o: Value) | Raw(text: string)

  predicate IsComb(o: Value, s: Symbol) {
    o.Atomic? && o.a == CombAtom(s)
  }

  predicate IsTuple(o: Value) {
    o.Array? && |o.os| > 1 && IsComb(o.os[0], SYMBOL_TUPLE)
  }

  predicate IsCons(o: Value) {
    o.Array? && |o.os| == 3 && IsComb(o.os[0], SYMBOL_CONS)
  }

  predicate IsNil(o: Value) {
    IsComb(o, SYMBOL_NIL)
  }

  // The recursive printer. leaf prints atoms.

  function Print(leaf: Atom -> string, o: Value): string
    decreases o, 1
  {
    match o
    case Null => "."
    case Atomic(a) => leaf(a)
    case Array(os) =>
      if os == [] then "()"
      else if |os| == 1 then "(" + Print(leaf, os[0]) + ")"
      else if IsTuple(o) then "(" + PrintAll(leaf, os[1..], ", ") + ")"
      else if IsCons(o) then "{" + PrintList(leaf, o) + "}"
      else "(" + PrintAll(leaf, os, " ") + ")"
  }

  function PrintAll(leaf: Atom -> string, os: seq<Value>, sep: string): string
    decreases os
  {
    if os == [] then ""
    else if |os| == 1 then Print(leaf, os[0])
    else Print(leaf, os[0]) + sep + PrintAll(leaf, os[1..], sep)
  }

  /** The elements of a list, and its tail if that is not the empty list. */
  function PrintList(leaf: Atom -> string, o: Value): string
    requires IsCons(o)
    decreases o, 0
  {
    var head, tail := o.os[1], o.os[2];
    if IsCons(tail) then Print(leaf, head) + ", " + PrintList(leaf, tail)
    else if IsNil(tail) then Print(leaf, head)
    else Print(leaf, head) + "| " + Print(leaf, tail)
  }

  // The stack

  function PrintItem(leaf: Atom -> string, i: Item): string {
    match i
    case Show(o) => Print(leaf, o)
    case Raw(t) => t
  }

  /** What is printed by emptying the stack, whose top is at the end. */
  function PrintStack(leaf: Atom -> string, work: seq<Item>): string {
    if work == [] then "" else PrintItem(leaf, work[|work| - 1]) + PrintStack(leaf, work[..|work| - 1])
  }

  /** Rounds of the loop a value takes; a bound that falls in every round. */
  function Size(o: Value): nat {
    if o.Array? then 3 + 2 * SizeAll(o.os) else 2
  }

  function SizeAll(os: seq<Value>): nat {
    if os == [] then 0 else 1 + Size(os[0]) + SizeAll(os[1..])
  }

  function Weight(work: seq<Item>): nat {
    if work == [] then 0
    else (if work[|work| - 1].Show? then Size(work[|work| - 1].o) else 1) + Weight(work[..|work| - 1])
  }

  lemma StackPush(leaf: Atom -> string, work: seq<Item>, i: Item)
    ensures PrintStack(leaf, work + [i]) == PrintItem(leaf, i) + PrintStack(leaf, work)
    ensures Weight(work + [i]) == (if i.Show? then Size(i.o) else 1) + Weight(work)
  {
    assert (work + [i])[..|work|] == work;
  }

  lemma {:induction false} SizeSplit(os: seq<Value>, ps: seq<Value>)
    ensures SizeAll(os + ps) == SizeAll(os) + SizeAll(ps)
    decreases |os|
  {
    if os == [] {
      assert os + ps == ps;
    } else {
      assert (os + ps)[1..] == os[1..] + ps;
      SizeSplit(os[1..], ps);
    }
  }

  lemma {:induction false} PrintAllStep(leaf: Atom -> string, o: Value, os: seq<Value>, sep: string)
    ensures PrintAll(leaf, [o] + os, sep) == if os == [] then Print(leaf, o) else Print(leaf, o) + sep + PrintAll(leaf, os, sep)
  {
    assert ([o] + os)[1..] == os;
  }

  lemma Regroup(a: string, b: string, c: string)
    ensures a + (b + c) == a + b + c
  {
  }

  /** What the values from n on print, after a separator if others come before. */
  function PrintFrom(leaf: Atom -> string, os: seq<Value>, n: nat, sep: string): string
    requires n <= |os|
  {
    (if 0 < n < |os| then sep else "") + PrintAll(leaf, os[n..], sep)
  }

  lemma PrintFromStep(leaf: Atom -> string, os: seq<Value>, n: nat, sep: string)
    requires n < |os|
    ensures PrintFrom(leaf, os, n, sep) == (if n != 0 then sep else "") + (Print(leaf, os[n]) + PrintFrom(leaf, os, n + 1, sep))
    ensures SizeAll(os[n..]) == 1 + Size(os[n]) + SizeAll(os[n + 1..])
  {
    assert os[n..] == [os[n]] + os[n + 1..];
    PrintAllStep(leaf, os[n], os[n + 1..], sep);
    Regroup(Print(leaf, os[n]), sep, PrintAll(leaf, os[n + 1..], sep));
  }

  lemma PrintFromEnds(leaf: Atom -> string, os: seq<Value>, sep: string)
    ensures PrintFrom(leaf, os, |os|, sep) == "" && SizeAll(os[|os|..]) == 0
    ensures PrintFrom(leaf, os, 0, sep) == PrintAll(leaf, os, sep) && os[0..] == os
  {
    assert os[|os|..] == [] && os[0..] == os;
  }

  /** Push the values from the last to the first, with separators in between. */
  method PushAll(leaf: Atom -> string, work: seq<Item>, os: seq<Value>, sep: string) returns (work1: seq<Item>)
    ensures PrintStack(leaf, work1) == PrintAll(leaf, os, sep) + PrintStack(leaf, work)
    ensures Weight(work1) <= Weight(work) + SizeAll(os)
  {
    hide Print, PrintAll, PrintFrom, PrintStack, Weight, Size, SizeAll;
    work1 := work;
    var n := |os|;
    PrintFromEnds(leaf, os, sep);
    while n > 0
      invariant 0 <= n <= |os|
      invariant PrintStack(leaf, work1) == PrintFrom(leaf, os, n, sep) + PrintStack(leaf, work)
      invariant Weight(work1) <= Weight(work) + SizeAll(os[n..])
      decreases n
    {
      n := n - 1;
      PrintFromStep(leaf, os, n, sep);
      Regroup(Print(leaf, os[n]), PrintFrom(leaf, os, n + 1, sep), PrintStack(leaf, work));
      StackPush(leaf, work1, Show(os[n]));
      work1 := work1 + [Show(os[n])];
      if n != 0 {
        StackPush(leaf, work1, Raw(sep));
        work1 := work1 + [Raw(sep)];
        Regroup(sep, Print(leaf, os[n]) + PrintFrom(leaf, os, n + 1, sep), PrintStack(leaf, work));
      }
    }
  }

  /** The list apart: its elements, and what follows the last one. */
  function Elements(o: Value): seq<Value> {
    if IsCons(o) then [o.os[1]] + Elements(o.os[2]) else []
  }

  function Tail(o: Value): Value {
    if IsCons(o) then Tail(o.os[2]) else o
  }

  function PrintTail(leaf: Atom -> string, o: Value): string {
    if IsNil(Tail(o)) then "" else "| " + Print(leaf, Tail(o))
  }

  lemma ListStep(leaf: Atom -> string, o: Value)
    requires IsCons(o)
    ensures var head, tail := o.os[1], o.os[2];
            && Elements(o) == [head] + Elements(tail) && Tail(o) == Tail(tail)
            && (IsCons(tail) ==> PrintList(leaf, o) == Print(leaf, head) + ", " + PrintList(leaf, tail))
            && (!IsCons(tail) ==> Elements(tail) == [] && PrintList(leaf, o) == Print(leaf, head) + PrintTail(leaf, o))
  {
    hide Print;
  }

  lemma ListSize(o: Value)
    requires IsCons(o)
    ensures 7 + Size(o.os[1]) + Size(o.os[2]) < Size(o)
  {
    assert o.os == [o.os[0]] + ([o.os[1]] + [o.os[2]]);
    SizeSplit([o.os[1]], [o.os[2]]);
  }

  lemma {:induction false} ListApart(leaf: Atom -> string, o: Value)
    requires IsCons(o)
    ensures PrintList(leaf, o) == PrintAll(leaf, Elements(o), ", ") + PrintTail(leaf, o)
    ensures SizeAll(Elements(o)) + Size(Tail(o)) + 3 < Size(o)
    decreases o
  {
    hide Print, PrintAll, PrintList, Size, SizeAll;
    var head, tail := o.os[1], o.os[2];
    ListStep(leaf, o);
    ListSize(o);
    SizeMore(head, Elements(tail));
    PrintAllStep(leaf, head, Elements(tail), ", ");
    if IsCons(tail) {
      ListApart(leaf, tail);
      Regroup(Print(leaf, head) + ", ", PrintAll(leaf, Elements(tail), ", "), PrintTail(leaf, tail));
      ElementsSome(tail);
    }
  }

  lemma ElementsSome(o: Value)
    ensures IsCons(o) <==> Elements(o) != []
  {
  }

  lemma SizeMore(o: Value, os: seq<Value>)
    ensures SizeAll([o] + os) == 1 + Size(o) + SizeAll(os) && SizeAll([]) == 0
  {
    assert ([o] + os)[1..] == os;
  }

  /** The loop that takes a list apart. */
  method TakeApart(o: Value) returns (oo: seq<Value>, l: Value)
    ensures oo == Elements(o) && l == Tail(o)
  {
    oo, l := [], o;
    while IsCons(l)
      invariant oo + Elements(l) == Elements(o) && Tail(l) == Tail(o)
      decreases l
    {
      oo, l := oo + [l.os[1]], l.os[2];
    }
  }

  lemma PrintShape(leaf: Atom -> string, o: Value)
    requires o.Array?
    ensures Size(o) == 3 + 2 * SizeAll(o.os)
    ensures |o.os| == 0 ==> Print(leaf, o) == "()"
    ensures |o.os| == 1 ==> Print(leaf, o) == "(" + PrintAll(leaf, o.os, "") + ")"
    ensures |o.os| > 1 && IsTuple(o) ==> Print(leaf, o) == "(" + PrintAll(leaf, o.os[1..], ", ") + ")" && SizeAll(o.os[1..]) <= SizeAll(o.os)
    ensures |o.os| > 1 && IsCons(o) ==> Print(leaf, o) == "{" + (PrintAll(leaf, Elements(o), ", ") + PrintTail(leaf, o)) + "}"
    ensures |o.os| > 1 && !IsTuple(o) && !IsCons(o) ==> Print(leaf, o) == "(" + PrintAll(leaf, o.os, " ") + ")"
  {
    if IsCons(o) {
      ListApart(leaf, o);
    }
  }

  // The printed forms

  /** A list as terms build it: cons of every element, and the tail in the end. */
  function ListOf(es: seq<Value>, tail: Value): Value {
    if es == [] then tail else Array([Atomic(CombAtom(SYMBOL_CONS)), es[0], ListOf(es[1..], tail)])
  }

  lemma {:induction false} ListParts(es: seq<Value>, tail: Value)
    requires !(tail.Array? && |tail.os| == 3 && tail.os[0] == Atomic(CombAtom(SYMBOL_CONS)))
    ensures Elements(ListOf(es, tail)) == es && Tail(ListOf(es, tail)) == tail
    decreases |es|
  {
    if es != [] {
      ListParts(es[1..], tail);
      assert es == [es[0]] + es[1..];
    }
  }

  /** A list prints its elements in braces, and its tail after a bar when that is not the empty list. */
  lemma PrintsList(leaf: Atom -> string, es: seq<Value>, tail: Value)
    requires es != []
    requires !(tail.Array? && |tail.os| == 3 && tail.os[0] == Atomic(CombAtom(SYMBOL_CONS)))
    ensures Print(leaf, ListOf(es, tail)) ==
              "{" + PrintAll(leaf, es, ", ") + (if tail == Atomic(CombAtom(SYMBOL_NIL)) then "" else "| " + Print(leaf, tail)) + "}"
  {
    hide Print, PrintAll;
    ListParts(es, tail);
    PrintShape(leaf, ListOf(es, tail));
    Regroup("{", PrintAll(leaf, es, ", "), PrintTail(leaf, ListOf(es, tail)));
  }

  /** A tuple prints its parts between commas and without its head, and any other array its parts between spaces. */
  lemma PrintsArray(leaf: Atom -> string, os: seq<Value>)
    requires !(|os| == 3 && os[0] == Atomic(CombAtom(SYMBOL_CONS)))
    ensures Print(leaf, Array(os)) ==
              if |os| > 1 && os[0] == Atomic(CombAtom(SYMBOL_TUPLE)) then "(" + PrintAll(leaf, os[1..], ", ") + ")"
              else "(" + PrintAll(leaf, os, " ") + ")"
  {
    hide Print, PrintAll;
    PrintShape(leaf, Array(os));
    PrintFew(leaf, os, " ");
    PrintFew(leaf, os, "");
  }

  lemma PrintFew(leaf: Atom -> string, os: seq<Value>, sep: string)
    ensures |os| == 0 ==> PrintAll(leaf, os, sep) == ""
    ensures |os| == 1 ==> PrintAll(leaf, os, sep) == Print(leaf, os[0])
  {
  }

  /** Parts are printed in order, with separators between them only. */
  lemma {:induction false} PrintsNext(leaf: Atom -> string, os: seq<Value>, o: Value, sep: string)
    ensures PrintAll(leaf, os + [o], sep) == (if os == [] then "" else PrintAll(leaf, os, sep) + sep) + Print(leaf, o)
    decreases |os|
  {
    hide Print;
    if os == [] {
      assert [] + [o] == [o];
    } else {
      PrintsNext(leaf, os[1..], o, sep);
      assert os == [os[0]] + os[1..] && os + [o] == [os[0]] + (os[1..] + [o]);
      PrintAllStep(leaf, os[0], os[1..], sep);
      PrintAllStep(leaf, os[0], os[1..] + [o], sep);
      if os[1..] != [] {
        var p, q := Print(leaf, os[0]), PrintAll(leaf, os[1..], sep);
        Regroup5(p, sep, q, sep, Print(leaf, o));
        Regroup(p, sep, q);
      }
    }
  }

  /** The stack printer prints what the recursive one does, and ends on every term. */
  method RenderArray(leaf: Atom -> string, o: Value) returns (os: string)
    ensures os == Print(leaf, o)
  {
    hide PrintStack, Weight;
    os := "";
    var none: seq<Item> := [];
    var work := none + [Show(o)];
    StackPush(leaf, none, Show(o));
    StackNone(leaf);
    while work != []
      invariant os + PrintStack(leaf, work) == Print(leaf, o)
      decreases Weight(work)
    {
      var top, rest := work[|work| - 1], work[..|work| - 1];
      assert work == rest + [top];
      StackPush(leaf, rest, top);
      Regroup(os, PrintItem(leaf, top), PrintStack(leaf, rest));
      if top.Raw? {
        os := os + top.text;
        work := rest;
      } else if top.o.Null? {
        work := rest + [Raw(".")];
        StackPush(leaf, rest, Raw("."));
      } else if top.o.Atomic? {
        os := os + leaf(top.o.a);
        work := rest;
      } else {
        work := Unfold(leaf, rest, top.o);
      }
    }
  }

  lemma StackNone(leaf: Atom -> string)
    ensures PrintStack(leaf, []) == ""
  {
  }

  method Unfold(leaf: Atom -> string, rest: seq<Item>, o: Value) returns (work: seq<Item>)
    requires o.Array?
    ensures PrintStack(leaf, work) == Print(leaf, o) + PrintStack(leaf, rest)
    ensures Weight(work) < Weight(rest) + Size(o)
  {
    hide Print, PrintAll, PrintStack, PrintList, Weight, Size, SizeAll, Elements, PrintTail;
    var aa := o.os;
    PrintShape(leaf, o);
    if |aa| == 0 {
      work := rest + [Raw("()")];
      StackPush(leaf, rest, Raw("()"));
    } else if |aa| == 1 {
      work := Bracket(leaf, rest, ")", aa, "", "(");
    } else if IsTuple(o) {
      work := Bracket(leaf, rest, ")", aa[1..], ", ", "(");
    } else if IsCons(o) {
      work := UnfoldList(leaf, rest, o);
    } else {
      work := Bracket(leaf, rest, ")", aa, " ", "(");
    }
  }

  method UnfoldList(leaf: Atom -> string, rest: seq<Item>, o: Value) returns (work: seq<Item>)
    requires IsCons(o)
    ensures PrintStack(leaf, work) == "{" + (PrintAll(leaf, Elements(o), ", ") + PrintTail(leaf, o)) + "}" + PrintStack(leaf, rest)
    ensures Weight(work) < Weight(rest) + Size(o)
  {
    hide Print, PrintAll, PrintStack, PrintList, Weight, Size, SizeAll, Elements;
    StackPush(leaf, rest, Raw("}"));
    work := rest + [Raw("}")];
    ListApart(leaf, o);
    var oo, l := TakeApart(o);
    if !IsNil(l) {
      StackPush(leaf, work, Show(l));
      work := work + [Show(l)];
      StackPush(leaf, work, Raw("| "));
      work := work + [Raw("| ")];
      Regroup("| ", Print(leaf, l), "}" + PrintStack(leaf, rest));
    }
    assert PrintStack(leaf, work) == PrintTail(leaf, o) + ("}" + PrintStack(leaf, rest));
    work := PushAll(leaf, work, oo, ", ");
    StackPush(leaf, work, Raw("{"));
    work := work + [Raw("{")];
    Regroup5("{", PrintAll(leaf, oo, ", "), PrintTail(leaf, o), "}", PrintStack(leaf, rest));
  }

  lemma Regroup5(a: string, b: string, c: string, d: string, e: string)
    ensures a + (b + (c + (d + e))) == a + (b + c) + d + e
  {
    Regroup(b, c, d + e);
    Regroup(a, b + c, d + e);
    Regroup(a + (b + c), d, e);
  }

  method Bracket(leaf: Atom -> string, rest: seq<Item>, close: string, os: seq<Value>, sep: string, open: string) returns (work: seq<Item>)
    ensures PrintStack(leaf, work) == open + PrintAll(leaf, os, sep) + close + PrintStack(leaf, rest)
    ensures Weight(work) <= Weight(rest) + SizeAll(os) + 2
  {
    hide Print, PrintAll, PrintStack, Weight, Size, SizeAll;
    StackPush(leaf, rest, Raw(close));
    work := PushAll(leaf, rest + [Raw(close)], os, sep);
    StackPush(leaf, work, Raw(open));
    work := work + [Raw(open)];
    Regroup(open, PrintAll(leaf, os, sep), close + PrintStack(leaf, rest));
    Regroup(open + PrintAll(leaf, os, sep), close, PrintStack(leaf, rest));
  }
}
