/** The values of the language: atoms, and the terms that applications of them build. */
module Terms {

  /** Combinators are identified by their number in the symbol table. */
  type Symbol = nat

  // The symbols the machine enters first, in this order.
  const SYMBOL_INT: Symbol := 0
  const SYMBOL_FLOAT: Symbol := 1
  const SYMBOL_COMPLEX: Symbol := 2
  const SYMBOL_CHAR: Symbol := 3
  const SYMBOL_TEXT: Symbol := 4
  const SYMBOL_ARRAY: Symbol := 5
  const SYMBOL_NONE: Symbol := 6
  const SYMBOL_TRUE: Symbol := 7
  const SYMBOL_FALSE: Symbol := 8
  const SYMBOL_TUPLE: Symbol := 9
  const SYMBOL_NIL: Symbol := 10
  const SYMBOL_CONS: Symbol := 11

  /** The names of those symbols. */
  function SystemNames(): seq<string> {
    ["System::int", "System::float", "System::complex", "System::char", "System::text", "System::array",
     "System::none", "System::true", "System::false", "System::tuple", "System::nil", "System::cons"]
  }

  /** The symbol s is entered under the name x. */
  predicate HasName(s: Symbol, x: string) {
    s < |SystemNames()| && SystemNames()[s] == x
  }

  /** Each constant is the number of its name. */
  lemma SymbolNames()
    ensures HasName(SYMBOL_INT, "System::int") && HasName(SYMBOL_FLOAT, "System::float") && HasName(SYMBOL_COMPLEX, "System::complex")
    ensures HasName(SYMBOL_CHAR, "System::char") && HasName(SYMBOL_TEXT, "System::text") && HasName(SYMBOL_ARRAY, "System::array")
    ensures HasName(SYMBOL_NONE, "System::none") && HasName(SYMBOL_TRUE, "System::true") && HasName(SYMBOL_FALSE, "System::false")
    ensures HasName(SYMBOL_TUPLE, "System::tuple") && HasName(SYMBOL_NIL, "System::nil") && HasName(SYMBOL_CONS, "System::cons")
  {
  }

  lemma NamesDistinct()
    ensures |SystemNames()| == 12
    ensures forall i, j :: 0 <= i < j < 12 ==> SystemNames()[i] != SystemNames()[j]
  {
    var kinds := ["int", "float", "complex", "char", "text", "array", "none", "true", "false", "tuple", "nil", "cons"];
    forall i | 0 <= i < 12
      ensures SystemNames()[i][8..] == kinds[i]
    {
    }
  }

  /** A name belongs to one symbol only. */
  lemma NamedOnce(s: Symbol, t: Symbol, x: string)
    requires HasName(s, x) && HasName(t, x)
    ensures s == t
  {
    hide SystemNames;
    NamesDistinct();
  }

  /** The objects without components: literals and combinators. */
  datatype Atom =
    | IntAtom(i: int)
    | CharAtom(c: char)
    | TextAtom(s: string)
    | CombAtom(sym: Symbol)

  /** The symbol an object answers to when a pattern asks for its tag. */
  function AtomSymbol(a: Atom): Symbol {
    match a
    case IntAtom(_) => SYMBOL_INT
    case CharAtom(_) => SYMBOL_CHAR
    case TextAtom(_) => SYMBOL_TEXT
    case CombAtom(s) => s
  }

  /** A fully evaluated term. An application is flat: its head is not an application. */
  datatype Term = Leaf(a: Atom) | Node(ts: seq<Term>)

  function TermSymbol(t: Term): Symbol {
    match t
    case Leaf(a) => AtomSymbol(a)
    case Node(_) => SYMBOL_ARRAY
  }

  const NONE := Leaf(CombAtom(SYMBOL_NONE))

  /** The normal form of f applied to args: arrays of size one do not exist. */
  function Normal(f: Term, args: seq<Term>): Term {
    if args == [] then f else Node([f] + args)
  }
}
