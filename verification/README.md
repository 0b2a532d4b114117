# A verified model of the Gafq core

Gafq is Lua 5.1.5 under another name: a compiler to register code, a virtual machine, tables with an array part and a hash part, an incremental
collector and the standard libraries. This project models the parts of it that are hard to get right, and proves what they promise, for all inputs and
all runs. `dafny verify dfyconfig.toml` checks everything.

Where the source changes things in place, the project has a class or a method with loops, proved equal to a specification function or to the property
itself; the laws are then proved about the specification.

**The incremental collector** (`Gc*.dfy`). The heap is a graph of tagged objects with two whites, gray, black, fixed and finalized bits, weak tables, open
and closed upvalues, threads, the lists `gray`, `grayagain`, `weak`, `tmudata`, `rootgc` and the string table. Steps of the collector and steps of the program
(allocation, interning, stores with their barriers, unguarded stack stores, capturing and closing variables, metatables, switching threads) come in any order.
`GcInv.Inv` is the invariant; `GcRun.RunSafe` and `GcRun.RunTriColor` are what follows from it for every run. `GcFull` proves that a full collection ends
from every state, and says exactly which objects are left and which entries weak tables have lost; `GcModes` says what the letters of `__mode` mean for this.
`GcEffect` says what each step does to the contents of objects, and that the collector's steps leave them alone. `GcMachine.GlobalState` is the collector in place.

**The expression compiler against the virtual machine** (`Code*.dfy`). `CodeVm` is what `gafqV_execute` does with the instructions that expressions need;
`CodeGen` is the code generator with jump lists as sets; `CodeCorrect` is the meaning theorem, for every expression over constants, locals, parentheses,
`not`, `and`, `or` and the six comparisons, every meaning of comparison and all register contents. `CodeLists` and `CodeMachine` refine this to the
`FuncState` of `gcode.c`, with lists threaded through the `sBx` fields of unpatched jumps. `CodeParser` and `CodeSource` add `subexpr` with its priorities, which reads
tokens and drives the generator; printing and parsing are inverse. `CodeProgram` puts it all together: from tokens, in place, to code that computes
the right value; `CodeBlock` runs whole blocks of such statements from the start of a function;
`CodeFit` says how much room an expression needs, and that with this room nothing is refused. Registers from `nactvar` up are nil on entry to a function (gdo.c:297-298), which `gafqK_nil` relies on (`CodeExt.Entry`).

**Tables** (`Table*.dfy`). `Table.Table` has an array part and a chained scatter table with Brent's variation. Its invariant gives each key one
place, on an acyclic chain from its main position; every operation is specified by the map from keys to values that the table stands for. The hash is any function.
Rehash sizes the array part optimally and leaves room, so that it never runs twice; lengths are borders; a traversal survives deletion and dead keys.
`RefList` builds the reference system of `gauxlib.c` on it, `TmCache` is the cache of absent metamethods.

**The pattern matcher** (`Matcher*.dfy`). `Matcher` is the backtracking search with captures as a function, `MatcherMachine.MatchState` the same in
place, with captures undone on failure. `MatcherSpec` has a declarative relation between patterns and subjects, captures and back references included, and an
order of preference, and proves that the matcher finds exactly the preferred match. `MatcherClass` says which characters classes and sets have.

**Smaller pieces.** `Upvalues`: open and closed upvalues and the variables they share. `CheckCode`: what the bytecode checker guarantees about control flow;
`CheckCases`: which instructions it accepts.
`Sort`: the library's quicksort. `Dump`, `DumpProof`, `DumpMachine`, `Zio`, `LoadMachine`: precompiled chunks, written and read back through buffered
input. `Quote`: `%q` and the lexer.

Three results are about where the code falls short:

- The bytecode checker tests a `LOADBOOL` that skips for the operand 1 only, while the machine skips for every operand but 0. `CheckCode.SkipCounterexample` is accepted code that runs
  into a `SETLIST` count; `CheckCode.ClosedIff` says exactly when accepted code is closed under its jumps.
- A full collection that starts while finalizers are pending can set apart userdata that the program strongly reaches, because marking passes over pending userdata that are
  still black. `GcLate.ReachableFinalized` is such a state; `GcFull.FullCycleFinalizers` says exactly what is set apart from every state.
- `%q` output reads back if and only if its line ends do not overflow the lexer's line counter (`Quote.RoundTrip`).

The documentation describes `and` and `or` by the values they return (section 2.5.3 of the Lua 5.1 manual), and `#` by borders (section 2.5.5);
the code does both as described.


## Model

| member | source | states |
|---|---|---|
| `GcMark.MarkMarks` | ggc.c:69-112 | reallymarkobject: the object and what must follow with it (closed upvalues, userdata's metatable and environment) stop being white, everything else keeps its colour, and new gray objects are exactly the ones put on the gray list |
| `GcMark.MarkManyMarks` | ggc.c:46-60 | marking several objects leaves each of them that exists not white, and marks nothing that marking does not lead to |
| `GcPropagate.PropagateMarkTri` | ggc.c:277-320 | one propagatemark step keeps the tri-colour invariant: no black object (outside tmudata) refers to a white one, every gray object is on a list that will be visited, the lists have no repetitions |
| `GcPropagate.PropagateAllTri` | ggc.c:323-327 | propagateall ends with an empty gray list and keeps the tri-colour invariant and the heap's bodies |
| `GcPropagate.RemarkUpvalsDone` | ggc.c:515-522 | after remarkupvals every open upvalue that is marked has a marked value |
| `GcAtomic.SeparateSpec` | ggc.c:128-155 | gafqC_separateudata moves exactly the white, not yet finalized userdata with a __gc field to tmudata |
| `GcAtomic.SeparateOrder` | ggc.c:145-151 | they are queued behind those that were pending, in the order of the list, which has newer userdata first |
| `GcAtomic.MarkTmuSpec` | ggc.c:115-124 | marktmu marks what the pending userdata refer to, and keeps the tri-colour invariant |
| `GcAtomic.ClearTablesClosed` | ggc.c:337-375 | after cleartable, marked objects refer to marked objects only, weak references included |
| `GcClear.ClearTablesExact` | ggc.c:330-375 | cleartable empties exactly the weak slots and the entries that iscleared condemns, leaves every other entry and table as it was, and marks exactly the strings it meets: weak values of array parts, keys, and values of keys that stay |
| `GcAtomic.AtomicMarkSpec` | ggc.c:525-543 | the marking part of atomic: nothing is gray-listed any more, the running thread and the basic metatables are marked, and all strong references from marked objects lead to marked ones |
| `GcCollect.MarkRootInv` | ggc.c:493-512 | markroot starts a cycle in a state that satisfies the whole invariant |
| `GcCollect.PropagateInv` | ggc.c:556-567 | a propagation step of singlestep keeps the whole invariant and frees nothing |
| `GcCollect.AtomicInv` | ggc.c:525-553 | atomic, with the switch of whites, keeps the whole invariant and frees nothing |
| `GcStep.SweepStringInv` | ggc.c:572-582 | sweeping a bucket of the string table keeps the invariant and frees only dead strings |
| `GcStep.SweepInv` | ggc.c:407-428 | sweeping part of the rootgc list, with the open upvalues of threads, keeps the invariant and frees only dead objects |
| `GcStep.GctmInv` | ggc.c:445-471 | GCTM puts the first pending userdata back on the list of objects, white and alive, pushes its finalizer and itself, changes no other object, and keeps the invariant |
| `GcStep.SingleStepInv` | ggc.c:556-607 | every collector step, in every phase, keeps the invariant and keeps every object that is not dead |
| `GcBarrier.BarrierInv` | ggc.c:661-671 | the forward barrier repairs the invariant after a black object has got a reference to a white one |
| `GcBarrier.BarrierBackInv` | ggc.c:674-682 | the backward barrier repairs it by turning the table gray again, on grayagain |
| `GcMutator.StoreTableInv` | gvm.c:134-149 | a store into a table with its barrier keeps the invariant in every phase of the collector |
| `GcMutator.StoreMetaInv` | gapi.c:698-740 | setting a metatable with its barrier keeps the invariant |
| `GcMutator.StoreThreadInv` | ggc.c:256-274 | stores to a stack need no barrier, because threads are never black |
| `GcMutator.StoreUpvalInv` | gvm.c:452-457 | OP_SETUPVAL with its barrier keeps the invariant, for open and closed upvalues |
| `GcAlloc.LinkInv` | ggc.c:685-691 | a new object, white and linked to rootgc, keeps the invariant in every phase |
| `GcAlloc.LinkStringInv` | gstring.c:50-73 | a new string in its bucket keeps the invariant, also while the string table is being swept |
| `GcAlloc.ReviveInv` | gstring.c:84-90 | finding a string that is dead brings it back to life |
| `GcAlloc.FindUpvalInv` | gfunc.c:53-79 | capturing a variable, with the revival of a dead open upvalue, keeps the invariant |
| `GcAlloc.CloseHeadInv` | ggc.c:694-709 | closing an upvalue, with gafqC_linkupval's change of colour, keeps the invariant |
| `GcRun.StepInv` | ggc.c:556-607 | every step, of the collector or of the program, keeps the invariant, and everything that the program can get hold of exists afterwards |
| `GcRun.RunInv` | ggc.c:556-607 | the invariant holds after every run of steps in any order |
| `GcRun.RunSafe` | ggc.c:407-428 | in every run, what is reachable from the main thread, the running thread, the registry or the basic metatables never carries the dead white and is never freed |
| `GcRun.RunTriColor` | ggc.c:277-320 | in every state of every run that is propagating, no black object outside tmudata refers to a white one, and every gray object is a string, an open upvalue or on gray, grayagain or weak |
| `GcEffect.RunParts` | ggc.c:158-238 | in every run, an object that the program can get hold of has all its parts alive: metatable, environment, upvalues, prototype, constants, array and stack values, keys and values of entries that are not empty; so have the roots |
| `GcEffect.CollectorKeeps` | ggc.c:556-607 | a collector step leaves every object that stays what it had: upvalues, when closed, keep their value, threads their stack; only the end of the mark phase empties entries, in tables with a mode and of objects that were not marked or are being finalized, and only GCTM pushes |
| `GcEffect.StoreChanges` | gapi.c:698-740 | stores put what they are given into the table, metatable, part, stack or upvalue that they name, and change the contents of no other object |
| `GcEffect.NewChanges` | ggc.c:685-691 | a new object has the contents it is given and is on the stack, a string found again is the same string, and nothing else changes |
| `GcEffect.ClosureChanges` | gvm.c:726-745 | a new closure has its environment, its parts and, in order, an open upvalue for each variable it captures |
| `GcEffect.CloseChanges` | gfunc.c:96-112 | the topmost open upvalue takes over the value of its variable and leaves the list, or is freed if it is dead; nothing else changes |
| `GcRun.BootInv` | gstate.c:143-191 | the first state satisfies the invariant |
| `GcFull.StepProgress` | ggc.c:556-607 | every step before the finalize phase makes the phase, the pending objects or the queue smaller, so the phase is reached |
| `GcFull.FinishSweepFrees` | ggc.c:635-650 | interrupting a half-done mark frees nothing; finishing a sweep frees exactly what was dead |
| `GcFull.FullCycleExact` | ggc.c:651-658 | an object is left after a full cycle if and only if it is fixed, strongly reachable from the roots or from userdata awaiting __gc, or a string that a surviving weak table keeps; every surviving weak table has lost exactly the entries that refer to freed objects, or as values to finalized userdata, and every other table is unchanged |
| `GcFull.FullCycleFinalizers` | ggc.c:128-155 | the userdata set apart in a cycle, besides those pending before, are exactly the ones with a __gc field that were not finalized and that marking does not find; marking does not go on from pending userdata that are still black (ggc.c:52-57) |
| `GcFull.FullCycleFinalized` | ggc.c:128-155 | the userdata that count as finalized afterwards are exactly those that did before and those that marking does not find |
| `GcFull.FoundAll` | ggc.c:46-60 | when no finalizer is pending, marking finds all that is strongly reachable from the roots |
| `GcLate.ReachableFinalized` | ggc.c:635-658 | with a finalizer pending it need not: a state in which a full collection sets apart a userdata that the program strongly reaches |
| `GcFull.FullGcExact` | ggc.c:635-658 | gafqC_fullgc, from every state of the collector, ends in the pause with exactly those objects and those entries left |
| `GcModes.FieldIff` | gtable.c:455-463 | the value of a field is that of the first entry with its name that is not empty, and nil exactly when there is none |
| `GcModes.ModeMeans` | ggc.c:161-168 | keys are weak exactly when the metatable's __mode is a string with a `k`, values exactly when it is one with a `v` |
| `GcModes.StrongMeans` | ggc.c:163-190 | a table holds its metatable, its keys unless they are weak and its values unless they are weak, and nothing else |
| `GcModes.ModesKeep` | ggc.c:635-658 | a table that is strongly reached keeps its keys through a full collection unless its keys are weak, and its values unless its values are weak |
| `GcModes.ModesFree` | ggc.c:635-658 | an object, other than a string, that only weak keys and weak values refer to, and that no finalizer awaits, is freed by a full collection |
| `GcReach.ReachLeast` | ggc.c:158-238 | the reachable set, and the set reached without going on from some objects, is the least one that has the seeds and is closed under these references |
| `GcMachine.GlobalState.MarkObject` | ggc.c:69-112 | in place, marks, lists and colours become what marking gives |
| `GcMachine.GlobalState.PropagateOne` | ggc.c:277-320 | in place, one gray object is traversed |
| `GcMachine.GlobalState.SeparateUdata` | ggc.c:128-155 | the loop over the userdata part of the list |
| `GcMachine.GlobalState.ClearWeak` | ggc.c:351-375 | the loops over all weak tables, array part and hash part |
| `GcMachine.GlobalState.AtomicPhase` | ggc.c:525-553 | atomic in place |
| `GcMachine.GlobalState.SweepRoot` | ggc.c:407-428 | sweeplist in place with its count |
| `GcMachine.GlobalState.Step` | ggc.c:556-607 | singlestep in place |
| `GcMachine.GlobalState.FullCollect` | ggc.c:635-658 | gafqC_fullgc in place: its loops end, from every state |
| `CodeRun.RunPatch` | gcode.c:131-160 | patching: when pending jumps get targets, tests get or lose their register and a last LOADNIL is extended, every run goes on as the targets say |
| `CodeExt.RunToExt` | gcode.c:163-166 | a run of extended code is a run of the old code, followed by a run from where that ended: pending jumps come to the first new instruction |
| `CodeOps.EmitRun` | gcode.c:789-801 | gafqK_code appends the effect of the instruction to every run that comes to the end, by falling through or by a pending jump, and leaves the other exits |
| `CodeOps.EmitNilRun` | gcode.c:35-56 | gafqK_nil: whether it emits, extends the previous LOADNIL or does nothing, the register is nil at the end and no other register changes |
| `CodeOps.CondJumpRun` | gcode.c:74-77 | condjump: control leaves by the new jump exactly when the test takes it |
| `CodeGood.DischargeBody` | gcode.c:343-379 | discharge2reg puts the value that the descriptor stands for into the register and keeps all listed exits |
| `CodeFill.Exp2RegBody` | gcode.c:390-411 | exp2reg: however the value is reached, it ends in the register, and no other register in use changes |
| `CodeFill.FillRun` | gcode.c:395-408 | both lists: jumps with a TESTSET deliver their value, jumps without one come to the right LOADBOOL |
| `CodeCond.InvertRun` | gcode.c:516-521 | invertjump: falling through and taking the last jump change places, all else stays |
| `CodeCond.JumpOnCondSplits` | gcode.c:524-536 | jumponcond leaves exactly on the condition, also when it takes back a NOT |
| `CodeLogic.GoIfSplits` | gcode.c:539-583 | gafqK_goiftrue and gafqK_goiffalse: control goes on exactly when the value has the wanted truth |
| `CodeLogic.NotGood` | gcode.c:586-618 | codenot: the code now yields the negation, by its end and by its exchanged lists |
| `CodeCompose.EitherGood` | gcode.c:737-751 | and / or: the code yields the operand that section 2.5.3 of the Lua 5.1 manual says |
| `CodeRel.Exp2RKBody` | gcode.c:444-469 | gafqK_exp2RK: the value is in the register or constant operand it returns |
| `CodeRel.CompGood` | gcode.c:673-686 | codecomp: the comparison decides between the jump and falling through, for all six operators |
| `CodeCorrect.CompileGood` | gparser.c:904-933 | for every expression over constants, locals, not, and, or and comparisons, every run of the code emitted through prefix, infix and posfix yields its value or leaves by the list that fits it |
| `CodeCorrect.NextRegCorrect` | gcode.c:414-419 | after gafqK_exp2nextreg the value of the expression is in the first free register and no register in use has changed, for every meaning of comparison and all register contents |
| `CodeCorrect.StoreLocalCorrect` | gcode.c:472-478 | after gafqK_storevar to a local, that local has the value and no other register in use has changed |
| `CodeCorrect.GoIfTrueCorrect` | gcode.c:539-560 | after gafqK_goiftrue control reaches the false list exactly when the value is nil or false, and goes on exactly when it is not |
| `CodeCorrect.GoIfFalseCorrect` | gcode.c:563-583 | the same for gafqK_goiffalse and the true list |
| `CodeLists.ThreadJoin` | gcode.c:185-196 | one new offset in the last jump makes of two disjoint threaded lists the list of both |
| `CodeLists.PatchRefines` | gcode.c:150-160 | patchlistaux on offsets is patching on sets of jumps with absolute targets |
| `CodeMachine.FuncState.FixJump` | gcode.c:80-87 | the offset is written, or the error raised exactly when it does not fit in sBx |
| `CodeMachine.FuncState.Concat` | gcode.c:185-196 | the head returned leads through all of the first list, then all of the second; no jump outside the first list changes |
| `CodeMachine.FuncState.NeedsValue` | gcode.c:122-128 | whether some jump of the threaded list has no TESTSET |
| `CodeMachine.FuncState.PatchListAux` | gcode.c:150-160 | every jump of the list gets its value or default target, and nothing else changes |
| `CodeMachine.FuncState.DischargeJpc` | gcode.c:163-166 | every pending jump targets the next instruction |
| `CodeMachine.FuncState.Code` | gcode.c:789-801 | the state becomes what emitting gives; jumps on other lists keep their links |
| `CodeMachine.FuncState.Jump` | gcode.c:59-66 | a jump whose list also has the jumps that were pending |
| `CodeMachine.FuncState.PatchToHere` | gcode.c:179-182 | the list joins the pending jumps |
| `CodeMachine.FuncState.Exp2Reg` | gcode.c:390-411 | descriptor, code and lists become what exp2reg gives on sets; lists of other descriptors stay intact |
| `CodeMachine.FuncState.GoIfTrue` | gcode.c:539-560 | likewise |
| `CodeMachine.FuncState.CodeNot` | gcode.c:586-618 | likewise |
| `CodeMachine.FuncState.Infix` | gcode.c:710-733 | the first operand leaves as its operator wants, or is in a register or constant; lists of other descriptors stay intact |
| `CodeMachine.FuncState.Posfix` | gcode.c:736-781 | both operands become one descriptor, its lists joined from theirs |
| `CodeParser.ShowParses` | gparser.c:904-933 | parsing a printed expression, at any limit its operators exceed, gives it back and goes on with what follows: priorities and associativity are those of the table |
| `CodeParser.ParseShows` | gparser.c:904-933 | every tree that subexpr finds prints as exactly the tokens that it took, and it stops only before an operator of at most the limit's priority |
| `CodeParser.PrintParse` | gparser.c:886-900 | printing with parentheses only where the priorities need them, and parsing, keeps the value of every expression |
| `CodeParser.ParseScope` | gparser.c:904-933 | the tree has only the names and literals of the tokens |
| `CodeSource.LexState.SubExpr` | gparser.c:904-933 | reading tokens and generating code at once, recursion, loop and level limit and all: the code and descriptor of the parsed tree, or a syntax error only where parsing fails, or a limit of the generator |
| `CodeSource.LexState.Apply` | gparser.c:921-930 | one round of the loop: infix, second operand, posfix |
| `CodeProgram.CompileLocal` | gcode.c:414-419 | end to end, in place, from tokens: the emitted code computes the parsed expression into the new local, on every machine; tokens that parse are accepted when there is room for the tree |
| `CodeProgram.CompileAssign` | gcode.c:472-478 | end to end: assignment to a local, accepted when there is room |
| `CodeProgram.CondIsFalse` | gparser.c:1056-1057 | turning a nil descriptor into false gives what compiling the condition with false in place of that nil would have given, and the condition decides the same |
| `CodeProgram.CompileCondition` | gparser.c:1051-1060 | cond, end to end: the list returned is taken exactly when the condition is nil or false; accepted when there is room |
| `CodeProgram.PrintedMeaning` | gparser.c:904-935 | code computes (or decides) the parsed form of a printed expression exactly when it computes (or decides) the expression |
| `CodeProgram.NoFailure` | gparser.c:904-933 | tokens that parse are accepted when registers, constants and instructions suffice for what the tree needs |
| `CodeFit.CompileFits` | gcode.c:199-206 | an expression compiles without an error whenever its width in registers and its constants, counted on the tree, fit below 250 and 2^18; the code grows by at most the instructions counted on the tree |
| `CodeFit.StatFits` | gparser.c:1279-1298 | so do local declarations and assignments |
| `CodeFit.CondStateFits` | gparser.c:1051-1060 | so do conditions |
| `CodeFit.BlockFits` | gparser.c:1279-1298 | so do blocks, by the sum of their needs |
| `CodeBlock.EarlyNil` | gcode.c:35-56 | when an assignment extends a LOADNIL before it, its expression has the same value before and after |
| `CodeBlock.StatRun` | gparser.c:1030-1045 | a statement's code, after code that comes to its end, comes to the end with what the statement does done, and nothing else changed in the locals |
| `CodeBlock.BlockRun` | gparser.c:1279-1298 | running the code of a block of local declarations and assignments from the start of the function does to the locals what the statements do one after the other, for all blocks, machines and arguments |
| `TableHash.NextFinds` | gtable.c:469-491 | a key further along the chain is found from the next node on |
| `TableInsert.ReuseInv` | gtable.c:399-401 | a key put into a main position without a value, whatever chain the node is in, keeps all chains in order |
| `TableInsert.AppendInv` | gtable.c:418-424 | a key chained behind a colliding key that is at home keeps the chains in order |
| `TableInsert.MoveInv` | gtable.c:409-417 | moving a colliding key that is not at home, and taking its place, keeps the chains in order |
| `TableView.PathForward` | gtable.c:382-432 | chains have no cycles |
| `TableView.KeyReached` | gtable.c:382-432 | every key lives in one node, reached from its main position; when it lives elsewhere, the node at its main position holds a key whose own main position that is |
| `TableView.SplitKeys` | gtable.c:333-349 | the number of keys for the hash part is the total less those in 1..n |
| `TableSize.Log2` | gobject.c:56-71 | the floor of the binary logarithm, -1 for 0 |
| `TableSize.ComputeSizes` | gtable.c:189-208 | the largest power of two n such that more than n/2 of 1..n are in use, and how many are |
| `Table.Table.constructor` | gtable.c:358-371 | a new table is in order and has no values |
| `Table.Table.Find` | gtable.c:435-491 | the walk along the chain finds the node of a key exactly when the key lives in one |
| `Table.Table.Get` | gtable.c:435-491 | the value of the key in the map that the table stands for |
| `Table.Table.GetFreePos` | gtable.c:382-388 | a node never used, or none is left |
| `Table.Table.NewKey` | gtable.c:399-432 | a place for a new key; no key changes its value; with room left the table does not grow, else one rehash is enough |
| `Table.Table.Put` | gtable.c:494-529 | a store changes the value of its key and of no other; it fails only for more than 2^26 keys |
| `Table.Table.Store` | gtable.c:494-505 | the errors for nil and NaN as keys, and the table unchanged then |
| `Table.Table.NumUseArray` | gtable.c:222-244 | counts the keys of the array part, by slices |
| `Table.Table.NumUseHash` | gtable.c:247-260 | counts all keys of the hash part, and the integer ones by slices |
| `Table.Table.Resize` | gtable.c:297-324 | every key keeps its value, and room is left as asked for; re-insertion never grows the table |
| `Table.Table.Rehash` | gtable.c:333-349 | every key keeps its value, the array part gets the optimal size for the keys with the new one, and the new key has a place or room: no second rehash |
| `Table.Table.RemoveEntry` | ggc.c:62-66 | a collectable key of an empty entry dies; no value and no other entry changes, and no traversal is disturbed |
| `Table.Table.FindIndex` | gtable.c:137-159 | the place of a key, alive or dead, or the error when it is in no node |
| `Table.Table.Next` | gtable.c:162-179 | the first place with a value after that of the key, with its key and value |
| `Table.Table.UnboundSearch` | gtable.c:532-553 | a border, also when doubling overflows |
| `Table.Table.GetN` | gtable.c:560-576 | always a border |
| `TableNext.FoundAgain` | gtable.c:137-159 | after any number of calls, while fields are cleared and keys die, the key returned last is found, alive or dead, at the place it was returned from |
| `TableNext.NextStops` | gtable.c:162-179 | no call of a traversal raises "invalid key to 'next'", and the end is reported after at most as many calls as the table has places |
| `TableNext.VisitsOrdered` | gtable.c:162-179 | places are visited in strictly increasing order, so none twice |
| `TableNext.TraversalComplete` | gtable.c:162-179 | when the end is reported, every entry that had a value all along has been returned exactly once, with its key |
| `TableTraverse.Traverse` | gtable.c:137-179 | a whole traversal of a table in place, with any stores to existing fields and any dying keys between the calls: no call fails, it ends, and it is complete in this sense |
| `MatcherSpec.EndsIff` | gstrlib.c:303-353 | an end with its captures is in the list of preferences exactly when the declarative relation, which threads the captures, holds for it |
| `MatcherSpec.ToCloseIff` | gstrlib.c:196-201 | a closing parenthesis ends the last capture that is unfinished |
| `MatcherSpec.NoErrors` | gstrlib.c:331-364 | on legal patterns (nothing malformed, at most 32 captures, each closed after it was opened, references to closed ones only) no error is met |
| `MatcherSpec.BalancedIff` | gstrlib.c:283-300 | matchbalance stops exactly where the brackets balance for the first time |
| `MatcherSpec.MatchFinds` | gstrlib.c:367-442 | on every pattern, malformed ones and captures included, the matcher gives what is first in the order of preference, which may be an error |
| `MatcherSpec.MatcherCorrect` | gstrlib.c:367-442 | what it returns satisfies the relation, captures included; on every legal pattern it raises no error, and it fails exactly when nothing satisfies the relation; single characters are matched by the meaning of classes and sets |
| `MatcherSpec.MatchForward` | gstrlib.c:331-364 | matches go forward, and captures are parts of what was matched |
| `MatcherSpec.BackRefText` | gstrlib.c:356-364 | match_capture compares texts; a position capture never matches |
| `MatcherClass.ClassMeans` | gstrlib.c:228-244 | each class letter has the characters of its list, its capital all others, and any other escaped character only itself |
| `MatcherClass.ClassLaws` | gstrlib.c:228-244 | the laws of section 5.4.1 of the Lua 5.1 manual: capitals are complements, `%a` is `%l` or `%u`, `%w` is `%a` or `%d`, and every byte is in exactly one of `%w`, `%p`, the space, `%c` and those above 127 |
| `MatcherClass.ItemsIff` | gstrlib.c:252-265 | the search through a set finds a character exactly when an item of the set, parsed into characters, ranges and classes, has it |
| `MatcherClass.SetMeans` | gstrlib.c:247-267 | a set has what some item has; the complement after `^` |
| `MatcherClass.SingleMeans` | gstrlib.c:270-280 | singlematch is the meaning of the class at that place: any character, a character, an escaped class or a set |
| `MatcherClass.ClassEndIff` | gstrlib.c:204-225 | a class ends after two characters when escaped, after one otherwise, and a set ends at the first bracket that is neither escaped nor first |
| `MatcherMachine.MatchState.FindClassEnd` | gstrlib.c:204-225 | the end of a class, or the error of a malformed one |
| `MatcherMachine.MatchState.BracketMatches` | gstrlib.c:247-267 | a set has exactly the characters that one of its items has, ranges with both ends, or after `^` those that none has |
| `MatcherMachine.MatchState.MatchBalance` | gstrlib.c:283-300 | the loop with its counter |
| `MatcherMachine.MatchState.StartCapture` | gstrlib.c:331-342 | a failed match leaves level and captures as they were |
| `MatcherMachine.MatchState.EndCapture` | gstrlib.c:345-353 | a failed match opens the capture again |
| `MatcherMachine.MatchState.Longest` | gstrlib.c:303-315 | the most repetitions first, each with the captures as on entry |
| `MatcherMachine.MatchState.Shortest` | gstrlib.c:318-328 | the fewest repetitions first |
| `MatcherMachine.MatchState.Run` | gstrlib.c:367-442 | match in place: it ends, a failure leaves level and captures[0..level) as on entry, a success leaves the captures of the functional matcher |
| `CheckCode.Parity` | gdebug.c:347-363 | a position is an instruction, and not a SETLIST count, exactly when an even number of words before it look like a SETLIST with a count |
| `CheckCode.ClosedIff` | gdebug.c:317-475 | accepted code keeps control at instructions if and only if its LOADBOOL skips are in order, which the checker tests for operand 1 only |
| `CheckCode.SkipCounterexample` | gdebug.c:373-380 | accepted code with a LOADBOOL operand of 2 that skips into a SETLIST count |
| `CheckCode.PathsSafe` | gdebug.c:317-475 | with LOADBOOL operands 0 or 1 every control-flow path of accepted code stays inside it at instructions, with all constant, upvalue and prototype indices in range |
| `CheckCases.FieldsABC` | gopcodes.h:37-50 | opcode and operands are the bit fields of the word |
| `CheckCases.AcceptsIff` | gdebug.c:330-449 | what the checker accepts: an instruction is accepted exactly when the registers, constants and upvalues it uses are there, operator by operator |
| `CheckCases.AcceptsConstant` | gdebug.c:338-390 | likewise for constants, and for globals, whose names must be strings |
| `CheckCases.AcceptsJump` | gdebug.c:343-416 | jumps and numeric loops are accepted exactly when they lead to an instruction and the loop's registers are there |
| `CheckCases.AcceptsTest` | gdebug.c:369-411 | tests, comparisons and generic loops, followed by a jump, exactly when what they use is there |
| `CheckCases.AcceptsVararg` | gdebug.c:463-470 | VARARG is accepted exactly in a function with variable arguments and no table of them, with room for the values |
| `CheckCode.CountBack` | gdebug.c:353-359 | the loop that counts back |
| `CheckCode.Symbexec` | gdebug.c:317-475 | the result is not 0 exactly when every instruction passes its checks |
| `CheckCode.CheckCode` | gdebug.c:484-486 | accepts exactly such code |
| `Sort.SortThree` | gtablib.c:194-216 | the first, middle and last elements in order, all else in place |
| `Sort.ScanUp` | gtablib.c:223-228 | the scan stops inside the range, at an element that is not smaller; no error |
| `Sort.ScanDown` | gtablib.c:229-233 | likewise downwards |
| `Sort.Partition` | gtablib.c:217-244 | a permutation with smaller elements before the pivot and larger ones after it |
| `Sort.AuxSort` | gtablib.c:193-254 | a sorted permutation of the range, nothing outside it touched, no "invalid order function", recursion at most log2(n) deep |
| `Sort.SortAll` | gtablib.c:256-264 | sort gives a sorted permutation for every strict weak order on the elements |
| `DumpProof.StringBack` | gundump.c:76-89 | strings come back, NULL as NULL |
| `DumpProof.FunctionBack` | gundump.c:161-181 | a dumped function comes back, nested functions and inherited sources included, with any bytes after it |
| `DumpProof.RoundTrip` | gundump.c:195-210 | undump of dump is the function; with strip, the function without debug data and with source "=?" |
| `DumpProof.EncLowFirst` | gdump.c:29-55 | integers are written lowest byte first |
| `DumpMachine.DumpState.Block` | gdump.c:29-37 | a block goes to the writer exactly when nothing has failed, its status is the writer's answer, and nothing is written after a failure |
| `DumpMachine.DumpState.Function` | gdump.c:129-141 | what is written is the dump, unless the writer fails; a writer that never fails gets all of it, with status 0 |
| `Zio.ZIO.Lookahead` | gzio.c:34-44 | the next byte, which stays unread |
| `Zio.ZIO.Read` | gzio.c:57-71 | the next bytes in order, however the reader splits them; the number of missing ones at the end |
| `LoadMachine.LoadState.String` | gundump.c:76-89 | reads what LoadString reads, or fails |
| `LoadMachine.LoadState.Function` | gundump.c:161-181 | reads what loading gives, with the errors for depth and bad code |
| `LoadMachine.LoadSplit` | gundump.c:195-210 | loading a dumped function gives it back however it is split into chunks |
| `Upvalues.FindOk` | gfunc.c:53-79 | the upvalue of a slot is found or made; the open list stays strictly descending with one upvalue per slot |
| `Upvalues.SetUpvalOk` | gvm.c:452-457 | a write through an upvalue, open or closed, is a write to its variable |
| `Upvalues.CloseOk` | gfunc.c:96-112 | exactly the upvalues at or above the level are closed, and every upvalue reads what it read |
| `Upvalues.RunOk` | gfunc.c:53-112 | in every run of capture, slot write, upvalue write and close, every upvalue reads the last value written to its variable through any alias |
| `Upvalues.Thread.FindUpval` | gfunc.c:53-79 | the walk along the open list |
| `Upvalues.Thread.CloseUpvals` | gfunc.c:96-112 | the loop of gafqF_close |
| `RefList.OneBorder` | gauxlib.c:481-501 | with an empty free list the length is the number of live references |
| `RefList.RefTable.Ref` | gauxlib.c:481-501 | never a live reference; the object is live under it; the slots in use equal the most references ever live at once; it fails only near 2^26 slots |
| `RefList.RefTable.Unref` | gauxlib.c:504-512 | exactly that reference is no longer live, and its slot is the next one used; it fails only near 2^26 slots |
| `RefList.RefTable.Deref` | gauxlib.c:481-512 | a live reference keeps its object |
| `TmCache.FastTmAgrees` | gtm.c:50-58 | fasttm agrees with the plain lookup, changes no field, and sets the bit of an event exactly when it is absent |
| `TmCache.SetTableInv` | gvm.c:134-158 | gafqV_settable keeps a set bit meaning an absent event, also for a table that is its own metatable |
| `TmCache.StoreEnds` | gvm.c:134-158 | where a store ends, along the chain of __newindex handlers: on a table that takes it, that field of that table is set and no other field of any table; a function is called exactly when the chain ends in it; a type error exactly when it ends in a value without handler; the loop error exactly after 100 links |
| `TmCache.EndsOnce` | gvm.c:134-158 | a store has one chain and one outcome |
| `TmCache.ApplyChanges` | gtable.c:494-529 | raw stores and clearings set one field of one table; lookups and new places change none |
| `TmCache.RunAgrees` | gtm.h:41-42 | in every run of stores, places made by gafqH_set, rehashes, clearings by the collector, changes of metatables and queries, fasttm agrees with the plain lookup on every table |
| `TmCache.Tables.Fast` | gtm.c:50-58 | the lookup that caches, in place |
| `TmCache.Tables.Store` | gvm.c:134-158 | gafqV_settable in place, with its loop limit: the store ends where the chain of handlers says, and changes what that says |
| `Quote.AddQuoted` | gstrlib.c:698-725 | appends the quoted form |
| `Quote.EscapeLetters` | glex.c:294-314 | the escape letters a, b, t, n, v, f, r stand for the characters 7 to 13, and no other letter stands for one |
| `Quote.DigitsMean` | glex.c:324-339 | a decimal escape is the number its one to three digits write |
| `Quote.ReadBack` | glex.c:274-352 | reading the quoted body gives the bytes, or "chunk has too many lines" |
| `Quote.RoundTrip` | glex.c:274-352 | for every byte string, reading the %q form gives it back if and only if its line ends do not overflow the line counter |
| `Quote.LexState.ReadToken` | glex.c:274-352 | read_string in place, with all its errors |

## Left out

The collector

- FullCycleExact: userdata that were waiting for their finalizer before the cycle count as waiting.
- GctmInv: the body of a finalizer is not part of the step; what it does is later steps of the program.
- `gafq_setupvalue` is not a step of the program: it puts the barrier on the closure instead of the shared upvalue (gapi.c:1072-1087). Stores through upvalues are OP_SETUPVAL.
- Entries with a nil value hold nothing in the collector's heap; dead keys are modelled in the table module only.
- A thread's stack is its part below the top; clearing the rest, shrinking stacks, pacing, byte counts, resizing the string table and allocation failure.
- SeparateSpec: userdata are looked for on the whole list of objects; the source starts after the main thread, where it links them all.
- Debug assertions of the collector.

The compiler

- Upvalues, globals, indexing, calls, varargs, arithmetic, concatenation and constant folding, statements other than `local v = x`, `v = x` and conditions, line information; a token that leads there is rejected by the model's parser.
- Names reach the parser as the registers of their locals; scoping (`singlevar`, `searchvar`) is not part of this model.
- Comparison is any relation for each of `==`, `<` and `<=`; metamethods, and errors of comparisons, are not modelled.
- CompGood: the second call of `gafqK_exp2RK` on the first operand is proved to change nothing, and left out of the class.
- A register or constant count beyond its limit, or a jump too far, ends compilation with a failure; the message is not modelled.

Tables

- Put: after "table overflow" (more than 2^26 keys to place) nothing is said about the table.
- NaN and -0 as numbers, the hash functions, and freeing a table. `gafqH_resizearray` is modelled for growing only, which is all its caller does.
- Unref: a reference is not released twice; the reference system promises nothing then.
- Ref: the table is used by the reference system only.
- TmCache: errors for nil and NaN keys and the layout of the table are invisible there; `fs->h` of the lexer, which is filled without resetting flags and is never a metatable.

The pattern matcher

- `str_find_aux`, `gmatch`, `gsub`, anchors handled there, plain search; locales other than "C" for the character classes.

Smaller pieces

- PathsSafe: control flow and index ranges only. Memory safety does not follow from the checker: TFORLOOP calls use slots that it does not check (gdebug.c:406-410). `symbexec` as a search for a register's writer is left out.
- AuxSort: comparators that are no strict weak order, which the source does not promise to sort or to stay in range for, and raising errors in the comparator.
- RoundTrip: the chunk header is an opaque prefix; its bytes are not modelled, since the renamed signature makes them one longer than GAFQC_HEADERSIZE.
- LoadState: a NULL string constant, which is never written, is read as an error.
- Upvalues: upvalues have numbers for identities; freeing them and the `uvhead` list belong to the collector.
- LexState: buffer and token size limits. Long strings and comments of the lexer.
- The C API, input and output libraries, `setjmp`, hooks, coroutine switching, stack sizes of vararg calls, number formatting.
