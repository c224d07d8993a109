# Egel's compiler and abstract machine in Dafny

This project models the Egel compiler from resolved syntax trees to bytes, the abstract machine that executes the
bytes, and the runtime structures both rest on. It proves that each stage keeps the meaning of a program, and that
the stages compose: what a surface program means is what the machine computes.

## The system

**Values and the store.** A value is an atom (integer, character, text, combinator) or a flat array of values. The
store is a list of mutable arrays; an object is null, an atom, or the address of an array. A combinator is known by
its symbol.

**The machine.** A thunk is an array `[rt, rti, k, exc, c, arg0 ..]`. Reducing it writes a result to cell `rti` of `rt`
and gives the next thunk. `Machine.Step` is one round of the trampoline, `Machine.Steps` a number of rounds; the
class `Interpreter.Processor` fetches and executes bytes in a loop, `Trampoline.Run` is the trampoline.

**The reference semantics.** `Semantics.Apply(n, P, f, args)` rewrites whole applications eagerly: a head is applied to
its whole argument spine, so `(g a) b` means `g a b`, and the first alternative that takes enough arguments and whose
patterns match is entered with the arguments left over. `n` bounds the unfoldings of definitions and the handlers
installed; `Out` means that more are needed. Building data, splicing arrays and evaluating arguments use no fuel.
`Fuel.OneResult` shows that the fuel does not matter otherwise.

**The surface semantics** (`SugarMeaning.SApply`) gives every construct a meaning of its own: an `if` takes its else branch on
`System::false` only, a `do` gives its argument to the first function of its pipe and each result to the next function,
and so on. It takes `System::throw` and `System::handle` to be what the runtime has under these names, and
`System::|>` to be reverse application, as in the prelude (include/prelude.eg:46-48).

**The stages**, from source to bytes:

| stage | modules |
|---|---|
| names are resolved and made unique | `Identify` |
| sugar becomes blocks and applications | `Sugar`, `SugarMeaning`, `SugarProgram`, `Alpha`, `SugarNames`, `SugarUnique`, `SugarResolved` |
| blocks become combinators (eta, deapply, lift, relambda) | `Closures`, `Lifting`, `LiftShape`, `LiftMeaning`, `LiftProgram`, `Lifter`, `LiftNames`, `LiftUnits` |
| every inner redex gets a name, in the order of evaluation | `LetNormal`, `Reredex`, `Redexer` |
| definitions become instructions and bytes | `Emit`, `Codegen`, `Matching`, `Blocks`, `Jumps`, `Encoding`, `Shapes`, `Definitions`, `Coders`, `Emitter`, `EmitUnits`, `Tags` |
| bytes are executed | `Bytecode`, `Equality`, `Machine`, `Interpreter`, `Trampoline` |
| bytes are compiled to calls of runtime routines | `Native`, `NativeCode`, `NativePatterns`, `NativeRuns`, `NativeOps`, `Tameness`, `RedexTames`, `NativeTames` |

The proof that emitted code computes what the semantics says follows the chain of thunks: `Build` says which arrays the
code of a body allocates, `Filling` how a result that arrives in a waiting cell completes them, `Values` that an
unfinished array is never taken for a value, `Chain` that the chain of thunks evaluates the redexes in order, `Pending`
that every round keeps a closed set of thunks that can still be reduced. `Toplevel`, `Handlers`, `Abandoned`, `Backend`,
`Compiler`, `SugarProgram` and `NativeTames` draw the conclusions.

The remaining modules model what the stages rest on: `Order` (the order of objects, symbol and data tables), `Dag`
(the serializer), `Dependencies`, `Render` (the printer), `Assembly` and `Grammar` (disassembler and assembler), `Destruction` (the
deferred destructor) and `Processes` (processes and their mailboxes).

Code that changes state in the source is a class or a method with loops here, proved equal to a function
(`Emitter.EmitCode.VisitDefinition` gives the bytes of `Blocks.DefCode`, `Interpreter.Reduce` is
`Encoding.RunBytes`, and so on); the laws are proved about the functions.

Where a definition serves both the code and what is said of it, a statement describes it from outside: tags by the names of
symbols (`Tags.TagNames`), lookups by the tables (`Identify.GetExactly`), the order by its cases (`Order.CompareExactly`),
instructions by their bytes (`Encoding.EncodeLayout`) and words (`Assembly.LinesOf`, `Grammar.AssembledExactly`), comparison and
concatenation of objects by terms and members (`Equality.TestExactly`, `Bytecode.ConcatMembers`), printed forms by the shape of
what is printed (`Render.PrintsArray`, `Render.PrintsList`), records by what they refer to (`Dag.ToDag`) and their numbers
by a recursive visit (`Dag.NumberingVisits`).

## Where the code does not do what one would expect

Each of these is proved as it is, with the exact condition under which the expected property holds.

- Lifted names are a scope's name followed by a counter: the thirteenth block of `f` and the third of `f1` collide
  (`Lifter.NamesCollide`). `LiftNames.SharedExactly` says of a program's names and counters when two blocks share a
  symbol, `LiftNames.OutputNamed` when the lifted program exists all the same, and `LiftNames.OutputForNames` that it
  does if no definition's name ends in a digit or is like that of a lifted block.
- The native SPLIT routine casts its operand without a check. The native code of a definition agrees with the interpreter
  if and only if no array pattern is tried on something that is no array (`NativePatterns.NativeReduction`);
  `NativePatterns.NativeDiffers` is a definition of two alternatives that is defined in one and undefined in the other.
  `NativeTames.NativeExactly` says the same of whole programs: with native code the machine computes what evaluation does,
  or, if evaluation tries an array pattern on anything else, comes to a wrong cast and never ends.
- The serializer numbers arrays in reverse order of the visit, so that a shared array may be referred to before it has a
  number. `Dag.RoundTrip` says exactly when a term comes back; `Dag.SharedLost` is a term that does not.
- A halt of a process that hits the loop between its test and the end of the reduction leaves no result to look at; and
  a halt that comes before the loop has started is forgotten, so that a second one may (`Processes.HaltCrashes`, an
  equivalence in every halted state).
- A halt is final if and only if the loop of the process has started (`Processes.HaltFinal`); `Processes.HaltTooEarly` is
  a run in which it has not.
- TAG compares the symbol of `x` only, although the comment on the opcode says "x, or x[0]". The two differ exactly when
  `x` is an array whose first element has the tag asked for, and that is not the tag of arrays (`Bytecode.TagExactly`);
  `Bytecode.TagDiffers` is such an array, and `Tags.DocExactly` says what this means for whole patterns.

## Model

| member | source | states |
|---|---|---|
| `SugarProgram.SurfaceComplete` | src/desugar.hpp:414-429 | For every program of the surface language: if evaluation ends with a value or an exception, the machine ends on the compiled bytes with the same one; while evaluation needs more fuel the machine is still running |
| `SugarProgram.SurfaceSound` | src/machine.hpp:396-440 | The converse: if the machine ends within m rounds, the surface program ends with fuel m, with the same value or exception |
| `SugarProgram.DesugarMeans` | src/desugar.hpp:48-311 | Desugared definitions, evaluated as blocks and applications, give every application the result that a direct semantics of if, let, tuples, lists, statements, lambda, do, throw and try gives it |
| `SugarProgram.DesugarSame` | src/desugar.hpp:414-429 | The same inside the surface language: running the passes over a program changes no result |
| `SugarProgram.DefKept` | src/desugar.hpp:414-429 | A desugared definition denotes what it denoted before, and no sugar is left in it |
| `SugarMeaning.ApplySim` | src/desugar.hpp:48-311 | A value applied to arguments and its desugared form applied to the desugared arguments have the same result, with the same fuel |
| `SugarMeaning.IfLemma` | src/desugar.hpp:48-75 | The block made of a condition takes the else branch exactly on System::false; the branch receives the arguments that follow |
| `SugarMeaning.LetLemma` | src/desugar.hpp:184-203 | A let enters its body with its pattern matched against the value, and is an application without a result if that fails |
| `SugarMeaning.SeqLemma` | src/desugar.hpp:138-152 | The first part of a statement is evaluated and its value dropped |
| `SugarMeaning.TryLemma` | src/desugar.hpp:231-258 | The handler sees what the body throws and nothing else, and a body that returns is not handled |
| `SugarMeaning.AddAgrees` | src/desugar.hpp:277-296 | A do body with its variable added is the pipe applied to the variable's value: the first function gets it, each further one the result before it, also when arguments follow |
| `Sugar.AddFirst` | src/desugar.hpp:277-296 | In a pipe of any length, with further arguments anywhere, the variable is added to what the pipe starts with |
| `SugarMeaning.PipeApply` | src/desugar.hpp:277-296 | Applying the pipe operator to a value and a function applies the function to the value, with one more unit of fuel |
| `SugarMeaning.MatchSim` | src/lift.hpp:90-105 | Matching a nested, tuple or list pattern is matching the flat application pattern it becomes |
| `Sugar.Kept` | src/desugar.hpp:48-311 | No pass changes what a term denotes; one traversal each, for nine of the passes |
| `Sugar.ListsKept` | src/desugar.hpp:111-124 | The list pass, which rewrites its own output, ends, and does not change what a term denotes |
| `Sugar.PassSorts` | src/desugar.hpp:48-311 | Every pass removes its construct, and brings in no more than wildcards and lets, which later passes remove |
| `Sugar.DesugarPlain` | src/desugar.hpp:414-429 | After all passes nothing but constants, variables, tags, applications and blocks is left |
| `SugarNames.MadeUpNames` | src/desugar.hpp:15-35 | Programs that differ in the names that wildcards and do variables get, and in positions of blocks, have the same results with the same fuel, up to names in closures |
| `Alpha.ApplyAlike` | src/lift.hpp:48-228 | Evaluation with closures does not depend on the names of variables: terms that are the same up to bound names have results that are |
| `SugarUnique.WellSource` | src/transform.hpp:1394-1456 | If in a closed definition of the source every name binds once, wildcards aside, and none is like R_0, its desugared form has the unique names that lambda lifting asks for |
| `SugarResolved.UnitWell` | src/semantical.hpp:101-280 | Every definition of a resolved unit that uses no variable from elsewhere has, as a term of the source, such names, whatever names the passes make up for wildcards and do variables |
| `SugarResolved.Resolved` | src/semantical.hpp:189-270 | The binders of a term of the source are those of the tree that was resolved and do variables, and its variables are bound where that tree binds them |
| `SugarUnique.OnceUnique` | src/transform.hpp:1394-1456 | In such a term no name is both free and bound in any part |
| `Identify.UnitKept` | src/semantical.hpp:103-111 | A unit is accepted exactly when every name is bound in it or visible in a table outside, and no list of patterns binds a name twice; the result has the same binding structure, in which names from outside are the ones declared innermost, and its binders are V_0, V_1, .. in the order of the visit, all different |
| `Identify.GetExactly` | src/environment.hpp:65-73 | A lookup gives a name v exactly when some table declares it as v and no table further in declares it; it gives the empty name exactly when no table does, or the innermost declaration is empty |
| `Identify.DeclaredApart` | src/lexical.hpp:981-996 | Whatever scopes hold before a unit is resolved are names of combinators, in namespaces, not written with an upper-case letter in front; so none of them looks like a generated name |
| `Identify.UnitIdentified` | src/semantical.hpp:103-111 | Hence a unit keeps its binding structure whatever is declared outside it |
| `Identify.UseKeeps` | src/semantical.hpp:189-243 | Every occurrence gets the name of its innermost binder, in any scope that binds the names so far |
| `Identify.PatKeeps` | src/semantical.hpp:189-205 | Patterns bind their variables in the current scope from left to right; a tag is looked up and not bound |
| `Identify.MatchKeeps` | src/semantical.hpp:245-256 | A match binds in a scope of its own, which guard and body see and which is left at the end |
| `Identify.LetKeeps` | src/semantical.hpp:258-270 | The right-hand side of a let does not see its patterns |
| `Identify.RewriteIdentify.RewriteAst` | src/semantical.hpp:101-280 | The pass with its state, scopes and counter does what the function says, errors included |
| `LiftMeaning.ApplySim` | src/lift.hpp:48-228 | A closure applied to arguments does what its combinator does on the values of the closure's free variables followed by the arguments: same value, exception, or lack of fuel |
| `LiftShape.PassesExpr` | src/lift.hpp:533-541 | Eta, deapply and lift compose to one translation of blocks into combinators applied to their free variables |
| `Lifting.EtaVisit` | src/transform.hpp:1394-1456 | On terms with unique names the visitor that adds occurrences and removes binders finds exactly the free variables |
| `Lifting.DeapplyFlat` | src/lift.hpp:90-105 | Deapply ends, and leaves no application in head position and no application of one part |
| `LiftProgram.OutputLifts` | src/lift.hpp:209-228 | What the passes make of a program whose patterns are data-headed satisfies the conditions of the simulation |
| `LiftProgram.OutputSource` | src/lift.hpp:533-541 | Every lifted definition is one the back end accepts |
| `LiftNames.SharedExactly` | src/lift.hpp:151-173 | Two blocks of a program share a symbol if and only if there are definitions n and nd, with d one or more digits, and counters i and j below their numbers of blocks, such that i reads d followed by j |
| `LiftNames.OutputNamed` | src/lift.hpp:151-173 | The lifted program exists if and only if no definition is named like a lifted block and blocks whose names clash are the same |
| `LiftNames.OutputForNames` | src/lift.hpp:151-173 | If no definition's name ends in a digit or is like that of a lifted block, no two blocks share a symbol and the lifted program exists |
| `LiftNames.NamedNumbered` | src/lift.hpp:169-185 | The names that the pass draws for a definition, one by one, are those names |
| `Lifter.NamesApart` | src/lift.hpp:151-173 | If no scope's name ends in a digit, equal lifted names come from the same scope and counter |
| `Lifter.NamesCollide` | src/lift.hpp:151-173 | f with counter 12 and f1 with counter 2 |
| `Lifter.RewriteLift.RewriteDefinition` | src/lift.hpp:175-228 | With its counter and list of lifted definitions the pass lifts inner blocks before outer ones, and gives what the function gives |
| `LiftUnits.LiftUnit` | src/lift.hpp:175-228 | One object of the pass goes over all definitions of a unit, and gives for each its lifted blocks and then itself |
| `LiftUnits.UnitOutput` | src/lift.hpp:151-228 | What it gives is the lifted program, if no definition is named like a lifted block and blocks whose names clash are the same |
| `EmitUnits.EmitUnit` | src/emit.hpp:697-744 | One emitter goes over all definitions, with the variables of earlier ones still bound; the table it fills is the one the theorems on the back end are about |
| `EmitUnits.CompileUnit` | src/lift.hpp:533-541 | The lifting pass, the redex pass and the emitter, one after the other over a whole unit, give a table for which `SourceComplete` and `SourceSound` hold |
| `Compiler.SourceComplete` | src/lift.hpp:533-541 | If a program with anonymous combinators ends, the machine ends on its code with the same value or exception |
| `Compiler.SourceSound` | src/machine.hpp:396-440 | If the machine ends on its code, the program with anonymous combinators ends, with the same value or exception |
| `Reredex.ProgramApply` | src/lift.hpp:340-485 | In the rewritten program every application has the same result with the same fuel |
| `Reredex.RedexedMeans` | src/lift.hpp:404-485 | The chain of lets of a body evaluates to what the body does, left to right and innermost first, also when a redex throws |
| `Reredex.RedexedOk` | src/lift.hpp:404-485 | Every name is bound once and used once, later; no right-hand side and no body holds a nested redex |
| `Redexer.RewriteRedex.RewriteBlock` | src/lift.hpp:340-485 | The pass with its counter and its stack of redexes gives what the function gives |
| `Backend.MachineComplete` | src/emit.hpp:335-744 | If evaluation of a lifted program ends, the machine ends on the emitted bytes with the same value or exception; else it runs on |
| `Backend.MachineSound` | src/machine.hpp:396-440 | If the machine ends on emitted bytes, evaluation ends with the same value or exception |
| `Backend.EmittedCompiled` | src/lift.hpp:533-541 | A table filled from the emitter holds the compiled form of the program with its redexes named |
| `Toplevel.RunComplete` | src/machine.hpp:396-440 | For a compiled program, from the thunks the trampoline starts with: value, exception, or as many rounds as there is fuel |
| `Toplevel.RunSound` | src/machine.hpp:396-440 | An end of the trampoline within m rounds is the result of evaluation with fuel m |
| `Toplevel.RunForever` | src/machine.hpp:425-440 | The machine runs forever when evaluation needs more fuel whatever it is given; and if it runs forever, no fuel leads to a value or an exception |
| `Chain.ApplyRun` | src/machine.hpp:425-440 | Whenever eager evaluation of c args gives v, the thunk [rt, rti, k, exc, c, args] reaches k with v in rt[rti] and no other array cell that existed before changed; if it throws, the thunk of the handler is reached with what was thrown; no thunk that existed before is reduced on the way, and on the way array patterns are tried on applications only exactly when evaluation does so |
| `Chain.ChainRun` | src/emit.hpp:586-629 | The thunks a body set up run its lets in order, each result arriving in the one cell that waits for it, and then its root |
| `Chain.CodeRun` | src/emit.hpp:697-744 | The theorem for compiled combinators |
| `Chain.CaughtStep` | src/runtime.hpp:1909-1948 | A throw continues with the handler of its thunk, with the target, index, continuation and outer handler the handle had |
| `Chain.HandleStep` | src/runtime.hpp:1964-2012 | A handle runs its second argument on none with a new handler thunk that keeps the link of the handle |
| `Handlers.HandlerResumes` | src/runtime.hpp:1909-2012 | If the handled application throws es, the machine reaches the thunk of the handler applied to none and es, with the rt, rti, k and exc of the handle; no thunk older than the handle is reduced on the way |
| `Handlers.HandlerRuns` | src/runtime.hpp:1964-2012 | Then the handler runs in place of the handle: its value goes to the handle's target and continuation, and what it throws goes to the enclosing handler |
| `Handlers.HandlerUnused` | src/runtime.hpp:1964-2012 | If the handled application returns, the handler is not run and the enclosing handler is back in force |
| `Abandoned.HandlerFinal` | src/runtime.hpp:1909-2012 | If a handle is met at any round of a run and the handled application throws, the machine comes to the handler's thunk, and from there to the end of the run no thunk made since the handle is reduced but that one: continuations that the throw abandoned are never reduced |
| `Abandoned.HandlerGone` | src/runtime.hpp:1964-2012 | If the handled application returns, then in the rest of the run no thunk made since the handle is reduced, neither the handler's nor one of the application |
| `Pending.PendStep` | src/machine.hpp:425-440 | Every round keeps a set of thunks closed: it has the next thunk, and with a thunk its continuation and its handler; only new thunks join it, and nothing writes to the link of one of its thunks |
| `Pending.BodyPending` | src/emit.hpp:449-629 | The thunks a body sets up continue with one another or with the continuation of the thunk that is reduced, have its handler, and have no waiting cell in their links |
| `Toplevel.RunState` | src/machine.hpp:425-440 | Every thunk that a run comes to applies a represented term to represented terms and has a target that is unfinished, or the machine stops at it |
| `Values.TreeValue` | src/emit.hpp:335-447 | The array built for a tree stands for its value, once nothing in it is waiting |
| `Values.WriteOpen` | src/emit.hpp:570-577 | What a tree root stores before its redexes have run is recognizably unfinished |
| `Values.BodyHoles` | src/emit.hpp:374-395 | Every waiting cell is an empty cell of an array of its own body |
| `Filling.RootFill` | src/emit.hpp:586-629 | A body built with an unknown and then completed is the body built with the value |
| `Codegen.TreeRun` | src/emit.hpp:335-447 | The code of a tree allocates exactly the arrays of the tree, and records the cell of every named redex |
| `Codegen.RedexRun` | src/emit.hpp:449-568 | The code of a redex builds its thunk with a copy of the link, and leaves it in the register returned |
| `Codegen.RootRun` | src/emit.hpp:570-629 | The code of a body sets up its thunks back to front, appends the arguments left over to the root, and returns the first thunk |
| `Matching.PatternRun` | src/emit.hpp:230-324 | The code of a pattern falls through exactly when the pattern matches, with every variable's register holding its part; else it goes to the label. What the pattern of a tag matches is stated by `Tags.TagNames` |
| `Blocks.DefRun` | src/emit.hpp:631-744 | A definition enters the first alternative whose arity fits and whose patterns match; if there is none, c applied to all its arguments goes to rt[rti] and k is next |
| `Jumps.DefForward` | src/emit.hpp:671-744 | Every FAIL of a definition jumps forward, to an instruction of that definition; every alternative has a label |
| `Encoding.DecodeEncode` | src/bytecode.hpp:113-223 | Fetching from the bytes of an instruction gives that instruction, for operands that fit their fields |
| `Encoding.EncodeLayout` | src/bytecode.hpp:24-223 | The opcodes are numbered from 0 to 11 in their order; registers, labels and entries of the data section are four bytes at offsets 1, 5 and 9, indices two bytes at offset 13, most significant byte first |
| `Encoding.DecodeAt` | src/bytecode.hpp:407-417 | In the bytes of a whole program every instruction is found at its offset |
| `Encoding.BytesRun` | src/bytecode.hpp:407-628 | Executing relabelled bytes from the offset of an instruction is executing the instructions from there, jumps included |
| `Encoding.JumpTarget` | src/bytecode.hpp:225-284 | A label becomes the byte offset of its instruction, and offsets keep the order of positions |
| `Encoding.ResolveAt` | src/bytecode.hpp:236-284 | Relabelling replaces the label of a FAIL by its offset, by 0 if it has none, and changes nothing else |
| `Coders.Coder.Relabel` | src/bytecode.hpp:236-284 | The loop that patches bytes in place gives the bytes of the relabelled program |
| `Coders.Coder.EmitOpConcatx` | src/bytecode.hpp:194-201 | The bytes appended are those of the instruction |
| `Emitter.EmitCode.VisitDefinition` | src/emit.hpp:697-744 | The visitor, with its registers, cursor, labels, variables and slots, emits exactly the bytes and data of the definition's code |
| `Emitter.EmitCode.VisitRoot` | src/emit.hpp:586-629 | Instructions, registers and slots of a body |
| `Emitter.EmitCode.VisitRedex` | src/emit.hpp:470-568 | Instructions, registers and slots of a redex |
| `Emitter.EmitCode.VisitTree` | src/emit.hpp:335-447 | Instructions, registers and slots of a tree |
| `Emitter.EmitCode.VisitPattern` | src/emit.hpp:230-324 | Instructions and variables of a pattern |
| `Emitter.EmitCode.VisitMatch` | src/emit.hpp:631-669 | Instructions, variables and label of an alternative, after which its registers are free again |
| `Interpreter.Reduce` | src/bytecode.hpp:407-628 | The fetch and execute loop over registers, flag and pc ends, and computes the result of the code on the thunk |
| `Interpreter.Processor.OpConcatx` | src/bytecode.hpp:519-590 | Members of y and those of z from an index on, with no array made for a single one |
| `Bytecode.TagExactly` | src/bytecode.hpp:600-612 | When the flag that TAG sets is not the one its comment describes, and when TAG on the first element would set another |
| `Bytecode.TagDiffers` | src/bytecode.hpp:36-36 | A pair on which it is not |
| `Tags.TagRun` | src/bytecode.hpp:600-612 | With a combinator in y the flag is set exactly when x holds an array and the combinator is System::array, an integer, character or text and it is System::int, System::char or System::text, or that combinator itself; nothing else changes |
| `Tags.TagNames` | src/emit.hpp:273-318 | The same for patterns with a tag and terms: the pattern under the tag matches, and the term has the tag by the name of its symbol |
| `SugarMeaning.TagMeans` | src/runtime.hpp:1037-1217 | The same for tags in the patterns of the surface language; no function has a tag |
| `Terms.SymbolNames` | src/runtime.hpp:95-108 | Each of the twelve constants is the number of the system name it stands for |
| `Equality.TestExactly` | src/bytecode.hpp:591-599 | TEST sets the flag exactly when both registers hold the same term, arrays included: no path through a term visits an array twice, so the depth of the comparison suffices |
| `Bytecode.ConcatMembers` | src/bytecode.hpp:519-590 | CONCATX gives an array of the members of y, or y itself, and those of z from an index on, in order; a single member is not put in an array |
| `Tags.DocExactly` | src/emit.hpp:273-318 | A pattern matches exactly what it would match by that comment without a tag, other than that of arrays, that meets an application with this head; and then with the same variables |
| `Trampoline.ReduceThunk` | src/runtime.hpp:1407-2012 | The reduce methods of literals, arrays, data, throw and handle, with their loops over the elements of the thunk, and that of code are one step of the machine |
| `Trampoline.Run` | src/machine.hpp:425-440 | The loop is that many steps |
| `Trampoline.Evaluate` | src/machine.hpp:396-440 | Reducing an object on emitted code: if the loop ends, the result is that of evaluation |
| `Native.NativeRun` | src/lightning.hpp:102-252 | The native routines give what the interpreter gives as long as no SPLIT meets a non-array; the flag is not reset by a FAIL, but is set again before the next one |
| `NativeCode.NativeDefinition` | src/lightning.hpp:751-770 | The code of every definition meets what that needs, in a store without arrays of size one |
| `NativePatterns.NativeReduction` | src/lightning.hpp:161-175 | Native code does one reduction as the interpreter does if and only if no array pattern is tried on what is no array |
| `NativePatterns.NativeDiffers` | src/lightning.hpp:161-175 | A definition and an argument on which the interpreter returns and the native code is undefined |
| `NativePatterns.StepsSizes` | src/runtime.hpp:1324-1341 | In every run, the store never holds an array of size one |
| `NativeRuns.NativeBytesRun` | src/lightning.hpp:365-460 | Calling the routines for the bytes of a program, with jumps to offsets, is calling them for its instructions |
| `NativeRuns.StepsNative` | src/lightning.hpp:102-252 | Any number of rounds with native code are those of the interpreter if every SPLIT on the interpreter's way meets an array, and are undefined if one does not |
| `NativeRuns.TameThunk` | src/lightning.hpp:161-175 | In the terms of the program that condition on a thunk is that no array pattern is tried on what is no array |
| `NativeRuns.NativeSound` | src/machine.hpp:396-440 | If the machine ends with native code, the result is that of evaluation |
| `NativeTames.NativeExactly` | src/lightning.hpp:102-252 | For every program: if evaluation tries array patterns on applications only, the machine with native code gives the same value or exception, or runs on while evaluation needs more fuel; if not, it comes to an undefined routine, and no number of rounds ends it |
| `NativeTames.NativeTamely` | src/machine.hpp:396-440 | If the machine with native code ends within m rounds, evaluation ends with fuel m and the same result, and has tried array patterns on applications only |
| `NativeTames.TameRun` | src/lightning.hpp:161-175 | In every run, the operands of SPLIT are arrays in a number of rounds exactly when no array pattern is tried on a term that is no application in these rounds |
| `RedexTames.ProgramTame` | src/lift.hpp:340-485 | Naming redexes changes nothing about whether array patterns are only tried on applications |
| `NativeOps.OpTakex` | src/lightning.hpp:144-159 | The routine on the array of registers changes the registers and flag as the instruction does |
| `NativeOps.OpConcatx` | src/lightning.hpp:177-228 | The same for CONCATX |
| `NativeOps.AnalyzeBytecode.Pass` | src/lightning.hpp:504-588 | One pass over the bytes: no register that an instruction names is beyond the maximum, the maximum is one of them, and the labels are exactly the jump targets |
| `NativeOps.WithinRegisters` | src/lightning.hpp:504-588 | A routine reads and writes no register beyond the largest its instruction names: started with the same registers up to there it ends in the same way, and it keeps those beyond |
| `Fuel.OneResult` | src/machine.hpp:425-440 | A term has at most one result, whatever the fuel |
| `Destruction.Memory.Release` | src/runtime.hpp:1257-1316 | Dropping a reference ends, with a fixed nesting of calls; counts are again the numbers of references; what is still alive is exactly what the remaining references reach, and what hangs from a cycle |
| `Destruction.Memory.Destroy` | src/runtime.hpp:1293-1314 | The outermost destructor empties the stack; an inner one only puts its elements there |
| `Destruction.Memory.Pop` | src/runtime.hpp:1306-1308 | Each pop leaves one reference fewer in all, and frees only what no reference reaches |
| `Destruction.Memory.Set` | src/runtime.hpp:1378-1381 | Overwriting element i of an array puts the new reference there and keeps its length, its other elements and the elements of all other objects; counts stay exact, and exactly what the write cuts off is freed |
| `Destruction.SettledExact` | src/runtime.hpp:1293-1316 | Settled counts mean: alive if and only if reachable from the roots or from a cycle |
| `Destruction.AcyclicStuck` | src/runtime.hpp:1293-1316 | Without cycles that is what the roots reach: nothing leaks |
| `Dag.RoundTrip` | src/serialize.hpp:335-533 | The term comes back if and only if every array is numbered before the arrays that hold it, or it and the first record are both the empty array |
| `Dag.UnsharedRoundTrip` | src/serialize.hpp:335-533 | When no array of the term is shared the term comes back, whatever literals are shared; every record refers to smaller numbers |
| `Dag.NumberingFacts` | src/serialize.hpp:335-363 | Every part of the term gets one number, literals first, the root last |
| `Dag.NumberingVisits` | src/serialize.hpp:335-363 | The parts numbered are those of a visit that takes an object and then its elements from the last to the first, each object once; of two literals, and of two arrays, the one visited later has the smaller number |
| `Dag.SharedLost` | src/serialize.hpp:465-474 | A term with a shared pair that does not come back |
| `Dag.ToDag` | src/serialize.hpp:335-483 | The three loops end and give one record for every number: that of a literal holds it, that of an array has the number of each element in order, or 0 for one without an earlier record; None stands for the error on opaque objects, and is given exactly when one is met |
| `Dag.FromDag` | src/serialize.hpp:485-533 | The loop rebuilds the records one by one |
| `Dag.RebuildMore` | src/serialize.hpp:485-533 | A record becomes its literal, or the array of what its numbers stand for so far, in order, with null for a number without a record; no array is made for one element |
| `Dependencies.Dependencies` | src/serialize.hpp:819-869 | Exactly the combinators in every set with the object, the elements of its arrays and the combinators its code refers to, once each; the loops end on cyclic definitions |
| `Dependencies.NeededExactly` | src/serialize.hpp:819-869 | What two rounds of reachability find is that least set |
| `Dependencies.NeededClosed` | src/serialize.hpp:848-867 | The result holds the combinators of the term, and with a code object those its code refers to |
| `Dependencies.NeededLeast` | src/serialize.hpp:819-869 | That is the smallest set that holds the term's combinators and is closed under references of code |
| `Order.CompareZero` | src/runtime.hpp:1739-1847 | Compare gives -1, 0 or 1, is antisymmetric, and zero exactly for the same term, with combinators taken by symbol and texts compared by their UTF-16 code units |
| `Order.CompareTransitive` | src/runtime.hpp:1739-1847 | Compare is transitive, and strict if either step is |
| `Order.CompareObjects` | src/runtime.hpp:1739-1847 | The recursive comparison with its loop over array elements is negative exactly when the left object is below the right one, and positive exactly when it is above: integers, then characters, texts, combinators by symbol, and arrays, the shorter first, else by the first elements that differ |
| `Order.CompareExactly` | src/runtime.hpp:1739-1847 | The same of the comparison as a function, for all objects |
| `Order.TextExactly` | src/runtime.hpp:1739-1847 | A text is below another if it begins it, or is below it at the first character that differs, where characters beyond the basic plane come between 0xD7FF and 0xE000 |
| `Order.UnitsDecode` | src/runtime.hpp:1739-1847 | The code units of a character give its number back |
| `Order.LowerBound` | src/runtime.hpp:1854-1860 | An ordered map under this comparison finds its place by bisection |
| `Order.AfterCurrent` | src/machine.hpp:101-148 | After any run of enter and define, the table holds under every term its last definition, or else what was entered first |
| `Order.IdStable` | src/machine.hpp:101-148 | Numbers never change in any run |
| `Order.DataTable.EnterData` | src/machine.hpp:113-122 | The vector grows by new terms only, and map and vector stay inverse |
| `Order.DataTable.DefineData` | src/machine.hpp:128-136 | The object at the term's number is replaced, and map and vector stay inverse |
| `Order.DataTable.GetCombinator` | src/machine.hpp:349-353 | The last object defined for the symbol, or a stub, which is entered |
| `Order.Populate` | src/machine.hpp:212-273 | The twelve system symbols are entered in the order of their names, to which `Terms.SymbolNames` ties the constants, each with its constructor at its own number |
| `Render.RenderArray` | src/runtime.hpp:3212-3275 | The printer with its stack ends, and prints what the recursive printer of tuples, proper and improper lists and applications prints |
| `Render.PrintsArray` | src/runtime.hpp:3212-3275 | A tuple of two or more parts is printed without its head and with commas; any other array but a list with spaces, also one of no or one part |
| `Render.PrintsList` | src/runtime.hpp:3239-3261 | A list, as cons and a tail build it, is printed in braces with commas, and with its tail after a bar unless that is the empty list |
| `Render.PrintsNext` | src/runtime.hpp:3228-3270 | Parts are printed in order, with separators between them only |
| `Render.ListApart` | src/runtime.hpp:3239-3261 | Taking a list apart in a loop loses nothing of what is printed |
| `Assembly.AssembleBack` | src/bytecode.hpp:1139-1209 | Assembling the words of disassembled bytes gives the bytes back, for all bytes made of complete instructions |
| `Assembly.CodeBack` | src/bytecode.hpp:826-899 | The bytes of any program are such bytes |
| `Assembly.LinesOf` | src/bytecode.hpp:826-899 | The words of a program are, for each instruction in order, its offset in hexadecimal, its operator, r and a decimal number for each register, a decimal number for an index or an entry of the data section, and a hexadecimal number for a label |
| `Assembly.DecimalBack` | src/runtime.hpp:775-780 | Reading a decimal number back |
| `Assembly.DecimalStart` | src/runtime.hpp:775-780 | What follows the digits does not count |
| `Decimals.DecimalAt` | src/bytecode.hpp:791-808 | The digit with k digits after it is the k-th decimal digit of the number |
| `Assembly.HexBack` | src/runtime.hpp:782-799 | Reading a hexadecimal label back, with its prefix |
| `Assembly.HexCapitals` | src/runtime.hpp:782-799 | Capital letters are the digits that small ones are |
| `Assembly.HexAt` | src/bytecode.hpp:795-812 | The digit with k digits after it is the k-th hexadecimal digit of the number, a small letter from ten on |
| `Assembly.Disassembler.Write` | src/bytecode.hpp:826-899 | The loop over the bytes writes those words |
| `Assembly.Assembler.Assemble` | src/bytecode.hpp:1139-1209 | The loop over the words gives those bytes, or None, exactly as the function does that `Grammar.AssembledExactly` describes |
| `Grammar.AssembledExactly` | src/bytecode.hpp:1139-1209 | The assembler gives bytes exactly when the words up to the data section are lines of an ignored word and the words of an instruction, registers beginning with r, and gives the bytes of these instructions; all else is a syntax error |
| `Processes.RunFifo` | src/builtin_process.hpp:112-153 | Over every interleaving of sending, receiving, halting and the steps of the loop: what was sent is what was taken, what is in work, and what waits; what was received and what waits to be has a history in which each message taken was reduced by the program of its time to a pair of the answer and the next program, until the one that threw or gave no pair |
| `Processes.ReceivedPrefix` | src/builtin_process.hpp:187-218 | Such a history exists, and messages received are the first answers of every one |
| `Processes.ComputesOnce` | src/builtin_process.hpp:132-149 | A program has one history for its messages |
| `Processes.PairTurn` | src/builtin_process.hpp:132-141 | If the reduction of a message gives a pair, three steps later its first component is in the queue and its second is the program |
| `Processes.StopTurn` | src/builtin_process.hpp:130-149 | If it throws, or gives anything else, three steps later the process is halted, with what was thrown or with the text that says no tuple |
| `Processes.Drains` | src/builtin_process.hpp:112-153 | A process left alone, whose program answers everything with pairs, answers everything it was sent, within a number of steps that is given |
| `Processes.HaltedForever` | src/builtin_process.hpp:93-97 | Once the loop has started, halted is final |
| `Processes.HaltTooEarly` | src/builtin_process.hpp:112-116 | A halt before the loop has started is overwritten |
| `Processes.HaltFinal` | src/builtin_process.hpp:93-116 | In every state, a halt holds in all continuations if and only if the loop has started |
| `Processes.HaltCrashes` | src/builtin_process.hpp:118-149 | In every halted state, some continuation looks at a missing result if and only if the loop is past its test and not past its reduction, or has not started |
| `Processes.NoHaltNoCrash` | src/builtin_process.hpp:130-149 | Without a halt from outside no reduction is cut short, and a process stops only because its program throws or gives no pair |
| `Processes.Process.RunStep` | src/builtin_process.hpp:112-153 | Each step of the loop between two accesses of shared state |

## Left out

- Lexing, parsing, operator precedence, namespaces, `using` renames and module search.
- Floats, complex numbers and opaque objects, as values and in the order of objects; NaN breaks the order.
- Match guards: the emitter ignores them, so a guard has no meaning here.
- `RewriteLazyOp` and `RewriteMonmin`: they look for names with one colon, which never occur, so they change nothing.
- The counters behind the names WILD0, DOVAR0, ..: the names are attributes of the nodes in `Sugar`, the theorems hold for every choice of them, and `SugarNames.MadeUpNames` says that the choice does not matter. The positions of blocks likewise.
- Exceptions raised by built-in functions, and the built-in functions themselves; throw and handle are modelled.
- Redefinition of combinators while a program runs: during a run the table is fixed. `Order` models the tables that change.
- Undeclared combinators: the semantics gives `Undef`, and the machine is stuck there.
- The data section holds the constants themselves; the global data table between a code's data section and the objects is modelled in `Order` only.
- Freeing: the store of `Machine` only grows; `Destruction` models freeing, for one thread.
- Integer width: no instruction computes with integers, so they are unbounded. Operand fields of bytecode have their real widths, as does the sixteen-bit index of CONCATX, hence the bound on arities in `Compile.AltOk`.
- Arrays that contain themselves: what a finished object stands for is a finite term, and TEST is exact on terms (`Equality.TestExactly`).
- Halting a run from outside is a bound on the number of rounds in `Trampoline.Run`; sleeping is left out.
- The composed theorems start after name resolution. `SugarResolved.UnitWell` and `SugarUnique.WellSource` carry the names from there to lambda lifting; which symbols the names of combinators become, and which texts literals, is not modelled.
- `EmitUnits.CompileUnit`: takes the bodies as the eta pass leaves them, because the order in which a set of free variables is listed is not fixed.
- The lifting theorems ask for what the earlier stages leave: unique names, applications of two or more parts, application patterns with a constant head, no tag for arrays, and no name that looks like R_0, R_1, ...
- Flattening of patterns by deapply is part of `Sugar.DPat`; `Lifting` starts from flat patterns. Order of free variables, which the source takes from a set, is any order without repetition.
- `LiftMeaning.ApplySim`: a closure is compared with its combinator applied to values; closures are not compared with each other.
- Operators, values and other declarations that are treated like definitions.
- Generation of machine code: the routines called and the jump structure are modelled, registers of the processor and the stack are not.
- The single element that the native CONCATX builds and drops is not counted as an array of the store.
- The data section in the assembler's round trip, and the lexer between words and text.
- The textual form of serialized terms.
- Sharing in what `Dag.FromDag` rebuilds: the result is compared as a term. The null pointer is no part of a term given to the serializer.
- The containers of the C++ library are sequences and maps; an ordered map is a sorted sequence in `Order`.
- `Destruction.Memory.Release`: objects other than arrays that hold references, such as code objects, are not modelled.
- The sleeping state of processes, and their delays between polls.
- FFI, operating system, files, time, regular expressions, mathematics, strings, random numbers, dictionaries and the interactive shell.
