/** The process object of src/builtin_process.hpp: two locked queues, a run loop in its own thread, and the
    threads that send, receive and halt. Every access to shared state is one step, in any order. */
module Processes {
  import opened Common
  import opened Terms

  /** What the machine makes of a program applied to a message. */
  datatype Reduction = Value(t: Term) | Raise(e: Term) | Endless

  type Reducer = (Term, Term) -> Reduction

  /** Where the run loop is. Crashed is a null pointer taken for the result of a reduction that was cut short. */
  datatype Place =
    | Start
    | Loop
    | Pop
    | Reduce(msg: Term)
    | Push(out: Term, next: Term)
    | Update(next: Term)
    | Fail(e: Term)
    | Stop
    | Done
    | Crashed(lost: Term)

  /** The object, the place of its thread, and the messages sent, taken by the program, and received so far. */
  datatype World = World(
    program: Term, inq: seq<Term>, outq: seq<Term>, halted: bool, exc: Option<Term>,
    place: Place, sent: seq<Term>, consumed: seq<Term>, received: seq<Term>)

  /** Proc is the next step of the run loop; Cut is a reduction noticing that the process was halted. */
  datatype Action = Send(m: Term) | Recv | Halt | Proc | Cut

  function Created(f: Term): World {
    World(f, [], [], false, None, Start, [], [], [])
  }

  const NO_TUPLE := Leaf(TextAtom("no tuple"))

  predicate IsPair(t: Term) {
    t.Node? && |t.ts| == 3 && TermSymbol(t.ts[0]) == SYMBOL_TUPLE
  }

  /** One step of the run loop. A reduction that does not end makes none. */
  function Step(red: Reducer, w: World): World {
    match w.place
    case Start => w.(halted := false, place := Loop)
    case Loop => w.(place := if w.halted then Done else Pop)
    case Pop => if w.inq == [] then w.(place := Loop) else w.(inq := w.inq[1..], place := Reduce(w.inq[0]))
    case Reduce(m) =>
      (match red(w.program, m)
      case Endless => w
      case Raise(e) => w.(consumed := w.consumed + [m], place := Fail(e))
      case Value(t) =>
        w.(consumed := w.consumed + [m], place := if IsPair(t) then Push(t.ts[1], t.ts[2]) else Fail(NO_TUPLE)))
    case Push(out, next) => w.(outq := w.outq + [out], place := Update(next))
    case Update(next) => w.(program := next, place := Loop)
    case Fail(e) => w.(exc := Some(e), place := Stop)
    case Stop => w.(halted := true, place := Loop)
    case Done => w
    case Crashed(_) => w
  }

  /** A step of any thread; receiving from an empty queue, and cutting what is not running, do nothing. */
  function Next(red: Reducer, w: World, a: Action): World {
    match a
    case Send(m) => w.(inq := w.inq + [m], sent := w.sent + [m])
    case Recv => if w.outq == [] then w else w.(outq := w.outq[1..], received := w.received + [w.outq[0]])
    case Halt => w.(halted := true)
    case Proc => Step(red, w)
    case Cut => if w.halted && w.place.Reduce? then w.(place := Crashed(w.place.msg)) else w
  }

  function Run(red: Reducer, w: World, s: seq<Action>): World {
    if s == [] then w else Next(red, Run(red, w, s[..|s| - 1]), s[|s| - 1])
  }

  lemma RunMore(red: Reducer, w: World, s: seq<Action>, a: Action)
    ensures Run(red, w, s + [a]) == Next(red, Run(red, w, s), a)
  {
    assert (s + [a])[..|s|] == s;
  }

  // What the process computes

  /** The answers to the first inputs, and the programs before and after each. The first component of a pair answers
      the message and the second is the next program. The process stops at an input whose reduction throws e, or gives
      no pair. */
  ghost predicate History(red: Reducer, ins: seq<Term>, outs: seq<Term>, progs: seq<Term>, stopped: Option<Term>) {
    && |progs| == |outs| + 1
    && |outs| <= |ins|
    && (forall i :: 0 <= i < |outs| ==> red(progs[i], ins[i]) == Value(Node([Leaf(CombAtom(SYMBOL_TUPLE)), outs[i], progs[i + 1]])))
    && (stopped.None? ==> |ins| == |outs|)
    && (stopped.Some? ==> |ins| == |outs| + 1 && Stops(red(progs[|outs|], ins[|outs|]), stopped.value))
  }

  ghost predicate Stops(r: Reduction, e: Term) {
    || r == Raise(e)
    || (r.Value? && NoPair(r.t) && e == Leaf(TextAtom("no tuple")))
  }

  ghost predicate NoPair(t: Term) {
    forall o, g :: t != Node([Leaf(CombAtom(SYMBOL_TUPLE)), o, g])
  }

  /** Starting with program f, the inputs lead to the outputs, the program g, and the reason to stop, if there is one. */
  ghost predicate Computes(red: Reducer, f: Term, ins: seq<Term>, outs: seq<Term>, g: Term, stopped: Option<Term>) {
    exists progs :: History(red, ins, outs, progs, stopped) && progs[0] == f && progs[|outs|] == g
  }

  lemma PairShape(t: Term)
    ensures IsPair(t) <==> !NoPair(t)
    ensures IsPair(t) ==> t == Node([Leaf(CombAtom(SYMBOL_TUPLE)), t.ts[1], t.ts[2]])
  {
    if IsPair(t) {
      assert t.ts == [t.ts[0], t.ts[1], t.ts[2]];
    }
  }

  lemma ComputesNone(red: Reducer, f: Term)
    ensures Computes(red, f, [], [], f, None)
  {
    assert History(red, [], [], [f], None);
  }

  lemma ComputesPair(red: Reducer, f: Term, ins: seq<Term>, outs: seq<Term>, g: Term, m: Term, o: Term, h: Term)
    requires Computes(red, f, ins, outs, g, None)
    requires red(g, m) == Value(Node([Leaf(CombAtom(SYMBOL_TUPLE)), o, h]))
    ensures Computes(red, f, ins + [m], outs + [o], h, None)
  {
    var progs :| History(red, ins, outs, progs, None) && progs[0] == f && progs[|outs|] == g;
    var progs1 := progs + [h];
    forall i | 0 <= i < |outs + [o]|
      ensures red(progs1[i], (ins + [m])[i]) == Value(Node([Leaf(CombAtom(SYMBOL_TUPLE)), (outs + [o])[i], progs1[i + 1]]))
    {
      assert i == |outs| || red(progs[i], ins[i]) == Value(Node([Leaf(CombAtom(SYMBOL_TUPLE)), outs[i], progs[i + 1]]));
    }
    assert History(red, ins + [m], outs + [o], progs1, None);
  }

  lemma ComputesStop(red: Reducer, f: Term, ins: seq<Term>, outs: seq<Term>, g: Term, m: Term, e: Term)
    requires Computes(red, f, ins, outs, g, None) && Stops(red(g, m), e)
    ensures Computes(red, f, ins + [m], outs, g, Some(e))
  {
    hide Stops;
    var progs :| History(red, ins, outs, progs, None) && progs[0] == f && progs[|outs|] == g;
    forall i | 0 <= i < |outs|
      ensures red(progs[i], (ins + [m])[i]) == Value(Node([Leaf(CombAtom(SYMBOL_TUPLE)), outs[i], progs[i + 1]]))
    {
      assert (ins + [m])[i] == ins[i];
    }
    assert History(red, ins + [m], outs, progs, Some(e));
  }

  lemma {:induction false} HistoriesAgree(red: Reducer, ins: seq<Term>, o1: seq<Term>, p1: seq<Term>, s1: Option<Term>,
                                          o2: seq<Term>, p2: seq<Term>, s2: Option<Term>, k: nat)
    requires History(red, ins, o1, p1, s1) && History(red, ins, o2, p2, s2) && p1[0] == p2[0]
    requires k <= |o1| && k <= |o2|
    ensures o1[..k] == o2[..k] && p1[k] == p2[k]
    decreases k
  {
    hide Stops;
    if k > 0 {
      HistoriesAgree(red, ins, o1, p1, s1, o2, p2, s2, k - 1);
      assert Value(Node([Leaf(CombAtom(SYMBOL_TUPLE)), o1[k - 1], p1[k]])) == Value(Node([Leaf(CombAtom(SYMBOL_TUPLE)), o2[k - 1], p2[k]]));
      PairOnce(o1[k - 1], p1[k], o2[k - 1], p2[k]);
      assert o1[..k] == o1[..k - 1] + [o1[k - 1]] && o2[..k] == o2[..k - 1] + [o2[k - 1]];
    }
  }

  lemma PairOnce(o: Term, g: Term, p: Term, h: Term)
    requires Node([Leaf(CombAtom(SYMBOL_TUPLE)), o, g]) == Node([Leaf(CombAtom(SYMBOL_TUPLE)), p, h])
    ensures o == p && g == h
  {
    var l, r := Node([Leaf(CombAtom(SYMBOL_TUPLE)), o, g]), Node([Leaf(CombAtom(SYMBOL_TUPLE)), p, h]);
    assert l.ts[1] == r.ts[1] && l.ts[2] == r.ts[2];
  }

  lemma StopsOnce(r: Reduction, d: Term, e: Term)
    requires Stops(r, d)
    ensures Stops(r, e) ==> d == e
    ensures forall o, g :: r != Value(Node([Leaf(CombAtom(SYMBOL_TUPLE)), o, g]))
  {
  }

  lemma LaterStop(red: Reducer, ins: seq<Term>, o1: seq<Term>, p1: seq<Term>, s1: Option<Term>,
                  o2: seq<Term>, p2: seq<Term>, s2: Option<Term>)
    requires History(red, ins, o1, p1, s1) && History(red, ins, o2, p2, s2) && p1[0] == p2[0]
    ensures |o1| >= |o2|
  {
    hide Stops;
    if |o1| < |o2| {
      HistoriesAgree(red, ins, o1, p1, s1, o2, p2, s2, |o1|);
      assert red(p2[|o1|], ins[|o1|]) == Value(Node([Leaf(CombAtom(SYMBOL_TUPLE)), o2[|o1|], p2[|o1| + 1]]));
      StopsOnce(red(p1[|o1|], ins[|o1|]), s1.value, s1.value);
    }
  }

  /** A program has one history for its inputs. */
  lemma ComputesOnce(red: Reducer, f: Term, ins: seq<Term>, o1: seq<Term>, g1: Term, s1: Option<Term>,
                     o2: seq<Term>, g2: Term, s2: Option<Term>)
    requires Computes(red, f, ins, o1, g1, s1) && Computes(red, f, ins, o2, g2, s2)
    ensures o1 == o2 && g1 == g2 && s1 == s2
  {
    hide Stops;
    var p1 :| History(red, ins, o1, p1, s1) && p1[0] == f && p1[|o1|] == g1;
    var p2 :| History(red, ins, o2, p2, s2) && p2[0] == f && p2[|o2|] == g2;
    LaterStop(red, ins, o1, p1, s1, o2, p2, s2);
    LaterStop(red, ins, o2, p2, s2, o1, p1, s1);
    HistoriesAgree(red, ins, o1, p1, s1, o2, p2, s2, |o1|);
    assert o1[..|o1|] == o1 && o2[..|o1|] == o2;
    if s1.Some? {
      StopsOnce(red(g1, ins[|o1|]), s1.value, s2.value);
    }
  }

  /** The message taken from the queue and not yet answered. */
  function InFlight(p: Place): seq<Term> {
    match p
    case Reduce(m) => [m]
    case Crashed(m) => [m]
    case _ => []
  }

  function Pending(p: Place): seq<Term> {
    if p.Push? then [p.out] else []
  }

  /** The program that the next message will meet. */
  function NextProgram(w: World): Term {
    if w.place.Push? || w.place.Update? then w.place.next else w.program
  }

  /** The reason to stop, once there is one. */
  function Reason(w: World): Option<Term> {
    if w.place.Fail? then Some(w.place.e) else w.exc
  }

  ghost predicate Inv(red: Reducer, f: Term, w: World) {
    && w.sent == w.consumed + InFlight(w.place) + w.inq
    && Computes(red, f, w.consumed, w.received + w.outq + Pending(w.place), NextProgram(w), Reason(w))
    && (match w.place
        case Stop => w.exc.Some?
        case Loop => w.exc.Some? ==> w.halted
        case Done => w.halted
        case Crashed(_) => w.exc == None && w.halted
        case Start => w.exc == None && w.consumed == []
        case _ => w.exc == None)
  }

  lemma PopKeeps(red: Reducer, f: Term, w: World)
    requires Inv(red, f, w) && w.place.Pop?
    ensures Inv(red, f, Step(red, w))
  {
    hide Computes;
    if w.inq != [] {
      assert w.inq == [w.inq[0]] + w.inq[1..];
      assert w.consumed + [] + w.inq == w.consumed + [w.inq[0]] + w.inq[1..];
    }
  }

  lemma ReduceKeeps(red: Reducer, f: Term, w: World)
    requires Inv(red, f, w) && w.place.Reduce?
    ensures Inv(red, f, Step(red, w))
  {
    hide Computes, IsPair, NoPair;
    var m, outs, r := w.place.msg, w.received + w.outq, red(w.program, w.place.msg);
    assert w.consumed + [m] + w.inq == w.consumed + [m] + [] + w.inq;
    assert outs + [] == outs;
    if r.Raise? {
      ComputesStop(red, f, w.consumed, outs, w.program, m, r.e);
    } else if r.Value? {
      PairShape(r.t);
      if IsPair(r.t) {
        ComputesPair(red, f, w.consumed, outs, w.program, m, r.t.ts[1], r.t.ts[2]);
      } else {
        ComputesStop(red, f, w.consumed, outs, w.program, m, NO_TUPLE);
      }
    }
  }

  lemma PushKeeps(red: Reducer, f: Term, w: World)
    requires Inv(red, f, w) && w.place.Push?
    ensures Inv(red, f, Step(red, w))
  {
    hide Computes;
    assert w.received + (w.outq + [w.place.out]) + [] == w.received + w.outq + [w.place.out];
  }

  lemma StepKeeps(red: Reducer, f: Term, w: World)
    requires Inv(red, f, w)
    ensures Inv(red, f, Step(red, w))
  {
    hide Computes;
    match w.place
    case Pop => PopKeeps(red, f, w);
    case Reduce(m) => ReduceKeeps(red, f, w);
    case Push(out, next) => PushKeeps(red, f, w);
    case _ =>
  }

  lemma NextKeeps(red: Reducer, f: Term, w: World, a: Action)
    requires Inv(red, f, w)
    ensures Inv(red, f, Next(red, w, a))
  {
    hide Computes, Step;
    match a
    case Proc => StepKeeps(red, f, w);
    case Recv =>
      if w.outq != [] {
        assert w.received + [w.outq[0]] + w.outq[1..] == w.received + w.outq;
      }
    case Send(m) => assert w.consumed + InFlight(w.place) + (w.inq + [m]) == w.consumed + InFlight(w.place) + w.inq + [m];
    case _ =>
  }

  /** In every run: what was sent is what was taken, then what is in work, then what waits; what was received, then what
      waits, are the program's answers to what was taken, in order. Nothing is lost, doubled or overtaken. */
  lemma {:induction false} RunFifo(red: Reducer, f: Term, s: seq<Action>)
    ensures Inv(red, f, Run(red, Created(f), s))
    decreases |s|
  {
    hide Next;
    if s == [] {
      ComputesNone(red, f);
    } else {
      RunFifo(red, f, s[..|s| - 1]);
      NextKeeps(red, f, Run(red, Created(f), s[..|s| - 1]), s[|s| - 1]);
    }
  }

  /** The messages received are always the first outputs of the program for the messages sent. */
  lemma ReceivedPrefix(red: Reducer, f: Term, s: seq<Action>)
    ensures var w := Run(red, Created(f), s);
            && w.consumed <= w.sent
            && (exists outs, g, stopped :: Computes(red, f, w.consumed, outs, g, stopped))
            && (forall outs, g, stopped :: Computes(red, f, w.consumed, outs, g, stopped) ==> w.received <= outs)
  {
    hide Computes;
    RunFifo(red, f, s);
    var w := Run(red, Created(f), s);
    var all := w.received + w.outq + Pending(w.place);
    assert w.received <= all;
    assert w.consumed <= w.consumed + InFlight(w.place) + w.inq;
    forall outs, g, stopped | Computes(red, f, w.consumed, outs, g, stopped)
      ensures w.received <= outs
    {
      ComputesOnce(red, f, w.consumed, outs, g, stopped, all, NextProgram(w), Reason(w));
    }
  }

  /** A message whose reduction gives a pair: its first component is sent and the second is the next program. */
  lemma PairTurn(red: Reducer, w: World, m: Term, o: Term, g: Term)
    requires w.place == Reduce(m) && red(w.program, m) == Value(Node([Leaf(CombAtom(SYMBOL_TUPLE)), o, g]))
    ensures Run(red, w, [Proc, Proc, Proc]) == w.(consumed := w.consumed + [m], outq := w.outq + [o], program := g, place := Loop)
  {
    hide Next, Step;
    ThreeSteps(red, w);
    var t := Node([Leaf(CombAtom(SYMBOL_TUPLE)), o, g]);
    assert t.ts[1] == o && t.ts[2] == g;
    PairSteps(red, w, m, t);
  }

  lemma PairSteps(red: Reducer, w: World, m: Term, t: Term)
    requires w.place == Reduce(m) && red(w.program, m) == Value(t) && IsPair(t)
    ensures Step(red, Step(red, Step(red, w))) == w.(consumed := w.consumed + [m], outq := w.outq + [t.ts[1]], program := t.ts[2], place := Loop)
  {
  }

  /** A message whose reduction throws, or gives anything but a pair, ends the process with that exception, or another. */
  lemma StopTurn(red: Reducer, w: World, m: Term)
    requires w.place == Reduce(m) && !red(w.program, m).Endless?
    requires forall o, g :: red(w.program, m) != Value(Node([Leaf(CombAtom(SYMBOL_TUPLE)), o, g]))
    ensures var e := if red(w.program, m).Raise? then red(w.program, m).e else Leaf(TextAtom("no tuple"));
            Run(red, w, [Proc, Proc, Proc]) == w.(consumed := w.consumed + [m], exc := Some(e), halted := true, place := Loop)
  {
    hide Next, IsPair, NoPair;
    ThreeSteps(red, w);
    if red(w.program, m).Value? {
      PairShape(red(w.program, m).t);
      StopShape(red(w.program, m).t);
    }
  }

  lemma StopShape(t: Term)
    requires forall o, g :: Value(t) != Value(Node([Leaf(CombAtom(SYMBOL_TUPLE)), o, g]))
    ensures NoPair(t)
  {
  }

  lemma ThreeSteps(red: Reducer, w: World)
    ensures Run(red, w, [Proc, Proc, Proc]) == Step(red, Step(red, Step(red, w)))
  {
    hide Step;
    var none: seq<Action> := [];
    RunMore(red, w, none, Proc);
    RunMore(red, w, none + [Proc], Proc);
    RunMore(red, w, none + [Proc] + [Proc], Proc);
    assert none + [Proc] + [Proc] + [Proc] == [Proc, Proc, Proc];
  }

  // Halting

  lemma {:induction false} RunAppend(red: Reducer, w: World, s: seq<Action>, t: seq<Action>)
    ensures Run(red, w, s + t) == Run(red, Run(red, w, s), t)
    decreases |t|
  {
    if t == [] {
      assert s + t == s;
    } else {
      assert (s + t)[..|s + t| - 1] == s + t[..|t| - 1];
      RunAppend(red, w, s, t[..|t| - 1]);
    }
  }

  /** Once the loop has started, a halted process stays halted. */
  lemma {:induction false} HaltedForever(red: Reducer, w: World, s: seq<Action>)
    requires w.halted && !w.place.Start?
    ensures Run(red, w, s).halted && !Run(red, w, s).place.Start?
    decreases |s|
  {
    if s != [] {
      HaltedForever(red, w, s[..|s| - 1]);
    }
  }

  /** A halt that comes before the loop has started is forgotten. */
  lemma HaltTooEarly(red: Reducer, f: Term)
    ensures !Run(red, Created(f), [Halt, Proc]).halted
  {
    var none: seq<Action> := [];
    RunMore(red, Created(f), none, Halt);
    RunMore(red, Created(f), none + [Halt], Proc);
    assert none + [Halt] + [Proc] == [Halt, Proc];
  }

  /** A halt is final if and only if the loop has started. */
  lemma HaltFinal(red: Reducer, w: World)
    requires w.halted
    ensures (forall s :: Run(red, w, s).halted) <==> !w.place.Start?
  {
    if w.place.Start? {
      var none: seq<Action> := [];
      RunMore(red, w, none, Proc);
      assert !Run(red, w, none + [Proc]).halted;
    } else {
      forall s
        ensures Run(red, w, s).halted
      {
        HaltedForever(red, w, s);
      }
    }
  }

  /** In a halted process, the places from which a message is still taken or in work. */
  predicate Exposed(p: Place) {
    p.Pop? || p.Reduce? || p.Crashed?
  }

  lemma {:induction false} NotExposed(red: Reducer, w: World, s: seq<Action>)
    requires w.halted && !w.place.Start? && !Exposed(w.place)
    ensures !Exposed(Run(red, w, s).place)
    decreases |s|
  {
    if s != [] {
      NotExposed(red, w, s[..|s| - 1]);
      HaltedForever(red, w, s[..|s| - 1]);
    }
  }

  /** A halted process can end in a null result exactly when the halt hit the loop between its test and its result, or came
      before the loop: then it is forgotten, and a second one may hit. */
  lemma HaltCrashes(red: Reducer, w: World)
    requires w.halted
    ensures (exists s :: Run(red, w, s).place.Crashed?) <==> w.place.Start? || Exposed(w.place)
  {
    var none: seq<Action> := [];
    if w.place.Start? {
      CrashFromStart(red, w);
    } else if Exposed(w.place) {
      if w.place.Pop? {
        CrashFromPop(red, w);
      } else if w.place.Reduce? {
        CrashFromReduce(red, w);
      } else {
        assert Run(red, w, none) == w;
      }
    } else {
      forall s
        ensures !Run(red, w, s).place.Crashed?
      {
        NotExposed(red, w, s);
      }
    }
  }

  lemma CrashFromStart(red: Reducer, w: World)
    requires w.place.Start?
    ensures exists s :: Run(red, w, s).place.Crashed?
  {
    var s: seq<Action> := [];
    RunMore(red, w, s, Proc);
    RunMore(red, w, s + [Proc], Proc);
    var s2 := s + [Proc] + [Proc];
    RunMore(red, w, s2, Halt);
    var w3 := Run(red, w, s2 + [Halt]);
    assert w3.halted && w3.place.Pop?;
    CrashFromPop(red, w3);
    var s4 :| Run(red, w3, s4).place.Crashed?;
    RunAppend(red, w, s2 + [Halt], s4);
    assert Run(red, w, s2 + [Halt] + s4).place.Crashed?;
  }

  lemma CrashFromReduce(red: Reducer, w: World)
    requires w.halted && w.place.Reduce?
    ensures Run(red, w, [Cut]).place.Crashed?
  {
    assert [Cut][..0] == [];
  }

  lemma CrashFromPop(red: Reducer, w: World)
    requires w.halted && w.place.Pop?
    ensures exists s :: Run(red, w, s).place.Crashed?
  {
    var s: seq<Action> := [];
    RunMore(red, w, s, Send(NONE));
    RunMore(red, w, s + [Send(NONE)], Proc);
    RunMore(red, w, s + [Send(NONE)] + [Proc], Cut);
    assert Run(red, w, s + [Send(NONE)] + [Proc]).place.Reduce?;
  }

  /** Without a halt from outside no reduction is ever cut short, and the process stops only for the program's own reasons. */
  lemma {:induction false} NoHaltNoCrash(red: Reducer, f: Term, s: seq<Action>)
    requires Halt !in s
    ensures var w := Run(red, Created(f), s);
            && !w.place.Crashed? && (w.halted ==> w.exc.Some? && (w.place.Loop? || w.place.Done?))
            && (w.place.Done? ==> exists outs, g, e :: Computes(red, f, w.consumed, outs, g, Some(e)))
    decreases |s|
  {
    hide Computes;
    RunFifo(red, f, s);
    if s != [] {
      NoHaltNoCrash(red, f, s[..|s| - 1]);
      RunFifo(red, f, s[..|s| - 1]);
      assert s[|s| - 1] in s;
    }
  }

  // Progress

  /** The program answers every message with a pair, whatever program it has become. */
  ghost predicate Answering(red: Reducer) {
    forall f, m :: exists o, g :: red(f, m) == Value(Node([Leaf(CombAtom(SYMBOL_TUPLE)), o, g]))
  }

  /** The steps the loop needs to answer everything it was sent. */
  function Work(w: World): nat {
    5 * |w.inq| + match w.place
                  case Start => 1
                  case Pop => if w.inq == [] then 0 else -1
                  case Reduce(_) => 3
                  case Push(_, _) => 2
                  case Update(_) => 1
                  case _ => 0
  }

  ghost predicate Working(w: World) {
    && (w.place.Start? || !w.halted) && w.exc.None?
    && !w.place.Fail? && !w.place.Stop? && !w.place.Done? && !w.place.Crashed?
  }

  function Procs(n: nat): seq<Action> {
    seq(n, _ => Proc)
  }

  /** Left alone, a process that is not halted answers everything it was sent, in order. */
  lemma {:induction false} Drains(red: Reducer, f: Term, w: World, n: nat)
    requires Answering(red) && Inv(red, f, w) && Working(w) && n == Work(w)
    ensures var w1 := Run(red, w, Procs(n));
            && w1.sent == w.sent == w1.consumed && w1.received == w.received
            && exists g :: Computes(red, f, w1.sent, w1.received + w1.outq, g, None)
    decreases n
  {
    hide Computes, Step, Run;
    if n == 0 {
      Drained(red, f, w);
    } else {
      StepKeeps(red, f, w);
      StepWorks(red, w);
      Drains(red, f, Step(red, w), n - 1);
      ProcsFirst(red, w, n);
    }
  }

  lemma Drained(red: Reducer, f: Term, w: World)
    requires Inv(red, f, w) && Working(w) && Work(w) == 0
    ensures Run(red, w, Procs(0)) == w && w.sent == w.consumed
    ensures Computes(red, f, w.sent, w.received + w.outq, NextProgram(w), None)
  {
    hide Computes;
    assert w.inq == [];
    assert w.received + w.outq + [] == w.received + w.outq;
    assert w.consumed + [] + [] == w.consumed;
  }

  lemma ProcsFirst(red: Reducer, w: World, n: nat)
    requires n > 0
    ensures Run(red, w, Procs(n)) == Run(red, Step(red, w), Procs(n - 1))
  {
    hide Step;
    assert Procs(n) == [Proc] + Procs(n - 1);
    RunAppend(red, w, [Proc], Procs(n - 1));
    assert [Proc][..0] == [];
  }

  lemma StepWorks(red: Reducer, w: World)
    requires Answering(red) && Working(w) && Work(w) > 0
    ensures var w1 := Step(red, w); Working(w1) && Work(w1) == Work(w) - 1 && w1.sent == w.sent && w1.received == w.received
  {
    hide IsPair, NoPair;
    if w.place.Reduce? {
      var r := red(w.program, w.place.msg);
      var o, g :| r == Value(Node([Leaf(CombAtom(SYMBOL_TUPLE)), o, g]));
      PairShape(r.t);
      assert !NoPair(r.t) by { HasPair(o, g); }
    }
  }

  lemma HasPair(o: Term, g: Term)
    ensures !NoPair(Node([Leaf(CombAtom(SYMBOL_TUPLE)), o, g]))
  {
  }

  // The object

  class Process {
    var program: Term
    var inQueue: seq<Term>
    var outQueue: seq<Term>
    var exc: Option<Term>
    var halted: bool
    /** The place of the run loop between two of its steps, and the messages so far. */
    var place: Place
    ghost var sent: seq<Term>
    ghost var consumed: seq<Term>
    ghost var received: seq<Term>

    ghost function Now(): World
      reads this
    {
      World(program, inQueue, outQueue, halted, exc, place, sent, consumed, received)
    }

    constructor (f: Term)
      ensures Now() == Created(f)
    {
      program, inQueue, outQueue, exc, halted, place := f, [], [], None, false, Start;
      sent, consumed, received := [], [], [];
    }

    method InPush(o: Term, ghost red: Reducer)
      modifies this
      ensures Now() == Next(red, old(Now()), Send(o))
    {
      inQueue := inQueue + [o];
      sent := sent + [o];
    }

    /** None is the null pointer: nothing to take. */
    method InPop() returns (o: Option<Term>)
      modifies this`inQueue
      ensures o.None? <==> old(inQueue) == []
      ensures if o.None? then inQueue == old(inQueue) else old(inQueue) == [o.value] + inQueue
    {
      o := None;
      if inQueue != [] {
        o := Some(inQueue[0]);
        inQueue := inQueue[1..];
      }
    }

    method OutPush(o: Term)
      modifies this`outQueue
      ensures outQueue == old(outQueue) + [o]
    {
      outQueue := outQueue + [o];
    }

    method OutPop(ghost red: Reducer) returns (o: Option<Term>)
      modifies this
      ensures Now() == Next(red, old(Now()), Recv)
      ensures o.None? <==> old(outQueue) == []
      ensures o.Some? ==> received == old(received) + [o.value]
    {
      o := None;
      if outQueue != [] {
        o := Some(outQueue[0]);
        outQueue := outQueue[1..];
        received := received + [o.value];
      }
    }

    method SetHalted(ghost red: Reducer)
      modifies this
      ensures Now() == Next(red, old(Now()), Halt)
    {
      if !halted {
        halted := true;
      }
    }

    /** The run loop up to its next access of shared state. */
    method RunStep(red: Reducer)
      modifies this
      ensures Now() == Next(red, old(Now()), Proc)
    {
      match place {
        case Start =>
          halted := false;
          place := Loop;
        case Loop =>
          place := if halted then Done else Pop;
        case Pop =>
          var o := InPop();
          place := if o.None? then Loop else Reduce(o.value);
        case Reduce(m) =>
          var r := red(program, m);
          if !r.Endless? {
            consumed := consumed + [m];
            if r.Raise? {
              place := Fail(r.e);
            } else if IsPair(r.t) {
              place := Push(r.t.ts[1], r.t.ts[2]);
            } else {
              place := Fail(NO_TUPLE);
            }
          }
        case Push(out, next) =>
          OutPush(out);
          place := Update(next);
        case Update(next) =>
          program := next;
          place := Loop;
        case Fail(e) =>
          exc := Some(e);
          place := Stop;
        case Stop =>
          SetHalted(red);
          place := Loop;
        case Done =>
        case Crashed(_) =>
      }
    }
  }
}
