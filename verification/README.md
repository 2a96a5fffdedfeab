# Verified models of parts of an LLVM tree

This project models a dozen self-contained algorithms of the repository in Dafny and proves what they
are for. Each group of files stands alone; together they are checked by `dafny verify dfyconfig.toml`.

- **BrainF** (`BrainF*.dfy`): the compiler from the BrainF tape language to a control flow graph. The
  class `BrainFCompiler.BrainF` has the fields and the in-place updates of the C++ class, and is proved to
  compute a function on texts. The emitted function is proved to simulate the program symbol by symbol
  (loops, fused runs, cells modulo 256, end of input read as 255, bounds checks), also where the program
  never ends, and to be in SSA form.
- **Alias sets** (`AliasSet*.dfy`): the tracker that merges alias sets by forwarding, counts references,
  and collapses into one set past a threshold. One invariant (reference counts, acyclic forwarding,
  partition by may-alias, must sets, access) is kept by every operation, also where the location of a
  tracked pointer grows, and `AliasSetRuns.Sound` says what it means for clients after any run. Without
  forwarding, names and counts, an operation is a function on groups of pointers and instructions with
  their access, must or may (`AliasSetGroups.Next`), and after any run the active sets are exactly the
  groups that this function yields (`AliasSetHistory.Model`), which also decides when the tracker gives up.
- **Exceptions** (`Leb128.dfy`, `ExceptionTable*.dfy`, `WrapperCode.dfy`, `Unwinding.dfy`): reading LEB128
  numbers, the personality routine's walk of the call site table and action chains, a writer of such
  tables, in all encodings of pointers, as its partner, and the meaning of generated try/catch/finally
  wrappers nested to any depth.
- **Mod/ref combination** (`ModRef.dfy`): the queries of the alias analysis aggregate, with early exits and
  argument walks, equal a form without early exits, which never misses a conflict, reports exactly what
  the answers of the analyses do not rule out, and says "must" only where it is so.
- **Case folding** (`CaseFold.dfy`), **bisection** (`AbTest.dfy`), **block alignment and breakdown**
  (`BlockAlignment.dfy`, `BlockBreakdown.dfy`), **undef lanes** (`ShuffleFuzz.dfy`), **barrier**
  (`Barrier.dfy`), **chunked draining** (`DemangleTree.dfy`), **mangled names** (`ManglingParser.dfy`).

Where a piece of code changes objects in place, the model is a class whose methods are proved against
functions of the old state; what the code takes from LLVM, the C library, processes or a random
source is a parameter (`Oracle`, `Analysis`, `World`) or an arbitrary choice.

Some properties one might expect of the code do not hold; they are proved exactly as far as they do:

- Bounds-checked BrainF code is safe on every program exactly if the tape has a cell: the head starts at
  `memtotal/2`, and only moves are checked (`SafeIffTape`, with the program `+` as the witness).
- Its error message appears exactly if a whole run of moves ends off the tape; a run that leaves the tape
  and comes back (`<>`) goes unreported (`ComplainsIffRunEndsOffTape`, `ReturningMovesGoUnreported`). If no
  run turns around, every departure is reported (`ComplaintsAreFounded`).
- Bisection finds every name that the sequential check finds, with any test. It takes others for good, too,
  exactly if a partition of its tree passes with a name in it that does not pass alone (`CheckBisect`,
  `BisectionIsSequential`); with four names of which two only pass together it finds those two, and the
  sequential check none (`BisectionTakesMore`).
- Draining directories in chunks loses nothing unless the walk is of the current directory and that has an
  object file itself: the directory of its path is empty, and the run fails exactly then (`Go`,
  `HomeIffNotCurrent`, `CurrentDirectoryIsLost`).
- Deleting pointers keeps an alias set tracker consistent unless a saturated tracker that holds no
  instruction loses its last pointer: exactly then its saturated set is reclaimed, but still named
  (`DeleteValue`, `LastReference`).
- An alias set records an access only if it was asked for, for something that is in it, unless pointers are
  deleted: what was recorded for a deleted pointer stays recorded (`AccessHasReason`, `AccessIffAsked`,
  `DeletedAccessStays`).
- Growing the location of a tracked pointer keeps together what may alias if pointers that must alias grow
  together, which is exactly what keeps alias analysis coherent (`CoherentIffTogether`); a pointer of a must
  set other than its first one that grows alone can be missed (`GrownPointerIsMissed`).
- An answer about a call and a location can be only "must", neither Mod nor Ref, although a comment says that
  no routine returns that (`OnlyMust`).

## Model

| member | source | states |
|---|---|---|
| `BrainFSource.ParseCountsBrackets` | compiler/examples/BrainF/BrainF.cpp:398-414 | Reading one nesting level agrees with counting brackets from any position and depth: where the level ends, and whether a bracket is missing. |
| `BrainFSource.ProgramIffBalanced` | compiler/examples/BrainF/BrainF.cpp:424-428 | A text compiles exactly if its brackets balance: no extra `]` and no missing one. |
| `BrainFSource.ParseKeepsSymbols` | compiler/examples/BrainF/BrainF.cpp:322-421 | Reading neither loses, adds nor reorders a symbol; other characters are comments. |
| `BrainFSource.FuelMonotone` | compiler/examples/BrainF/BrainF.cpp:290-310 | A finished run does not depend on how long its loops are watched. |
| `BrainFFuse.FuseIsMaximal` | compiler/examples/BrainF/BrainF.cpp:318-378 | After fusing, no two neighbouring moves and no two neighbouring changes are left, at any depth. |
| `BrainFFuse.FuseKeepsRun` | compiler/examples/BrainF/BrainF.cpp:342-378 | Fusing runs of moves and of changes keeps the outcome of every run, of every program. |
| `BrainFFuse.FewerChecks` | compiler/examples/BrainF/BrainF.cpp:251-272 | A run that looks at the head less often than after every move agrees with it as long as the head stays on the tape, and only fails a check if the other run does. |
| `BrainFFuse.CheckedAccesses` | compiler/examples/BrainF/BrainF.cpp:251-272 | With a check after every run of moves, no access is off the tape once the head starts on it. |
| `BrainFFuse.OneWayChecks` | compiler/examples/BrainF/BrainF.cpp:251-272 | If no run of moves turns around, checking at its end finds every departure from the tape. |
| `BrainFIR.StoppedOnce` | compiler/examples/BrainF/BrainF.cpp:467-468 | The emitted code is deterministic: where it stops does not depend on how long it is watched. |
| `BrainFIR.StepsOutput` | compiler/examples/BrainF/BrainF.cpp:224-242 | What the emitted code has written stays written. |
| `BrainFGen.GenFrame` | compiler/examples/BrainF/BrainF.cpp:200-316 | Compiling a program only extends the current block and adds blocks, all but the current one with exactly one terminator. |
| `BrainFGen.BlocksClosed` | compiler/examples/BrainF/BrainF.cpp:64-188 | In the whole function every block has exactly one terminator, at its end. |
| `BrainFCompiler.BrainF.constructor` | compiler/examples/BrainF/BrainF.cpp:52-56 | A compiler that has emitted nothing yet. |
| `BrainFCompiler.BrainF.Compile` | compiler/examples/BrainF/BrainF.cpp:52-62 | Compiling succeeds exactly on programs, and then the blocks are those of the function `Compiled`. |
| `BrainFCompiler.BrainF.EmitHeader` | compiler/examples/BrainF/BrainF.cpp:64-188 | The entry block, the end block and, with bounds checks, the error block. |
| `BrainFCompiler.BrainF.ReadLoop` | compiler/examples/BrainF/BrainF.cpp:190-474 | One nesting level is read with one symbol of lookahead and compiled as the fusion of its parse; it fails exactly on a `]` or an end of text that does not belong there. |
| `BrainFCompiler.BrainF.WriteOut` | compiler/examples/BrainF/BrainF.cpp:201-316 | Writing the current command out leaves the rest of the level to do, and nothing else. |
| `BrainFCompiler.BrainF.ReadSymbols` | compiler/examples/BrainF/BrainF.cpp:318-421 | The reading loop moves the lookahead on without changing what is left to compile: runs are fused across comments. |
| `BrainFCompiler.NextCharacter` | compiler/examples/BrainF/BrainF.cpp:327-419 | One character read by the loop, compared with the parse of the text. |
| `BrainFCompiler.BrainF.EmitCommand` | compiler/examples/BrainF/BrainF.cpp:207-288 | The instructions of a command other than a loop. |
| `BrainFCompiler.BrainF.EmitMove` | compiler/examples/BrainF/BrainF.cpp:244-274 | A move, with its bounds check if asked for. |
| `BrainFCompiler.BrainF.EmitCheck` | compiler/examples/BrainF/BrainF.cpp:252-272 | The bounds check branches to the error block, or on to a new one. |
| `BrainFCompiler.BrainF.EmitLoop` | compiler/examples/BrainF/BrainF.cpp:290-310 | A loop: the test block with its unfinished phi, then the body, then the end of the loop. |
| `BrainFCompiler.BrainF.FinishLoop` | compiler/examples/BrainF/BrainF.cpp:430-462 | The back edge, the loop test, and the exit block with its phi. |
| `BrainFSim.ExecRead` | compiler/examples/BrainF/BrainF.cpp:207-222 | The code for `,` stores the next character in the cell, or 255 at the end of the input, or faults off the tape. |
| `BrainFSim.ExecWrite` | compiler/examples/BrainF/BrainF.cpp:224-242 | The code for `.` outputs the cell, although it is sign extended on the way. |
| `BrainFSim.ExecChange` | compiler/examples/BrainF/BrainF.cpp:276-288 | The code for a run of changes adds their sum to the cell modulo 256. |
| `BrainFSim.ExecCheck` | compiler/examples/BrainF/BrainF.cpp:251-272 | The check reaches the error block exactly if the head is off the tape. |
| `BrainFSim.SimTest` | compiler/examples/BrainF/BrainF.cpp:437-461 | The loop test leaves the loop exactly if the cell under the head is zero, and passes the head on. |
| `BrainFSim.SimCmd` | compiler/examples/BrainF/BrainF.cpp:201-316 | The code of a command follows the command, from any state and with any fuel; where the fuel runs out, the code is on its way with the same tape, input and output. |
| `BrainFSim.SimLoop` | compiler/examples/BrainF/BrainF.cpp:290-310 | The code of a loop follows the loop through all of its rounds; where the fuel runs out between two rounds, with the same tape, input and output. |
| `BrainFSim.SimProg` | compiler/examples/BrainF/BrainF.cpp:200-422 | The code of a program follows the program, whether or not it ends. |
| `BrainFSsa.CertifiedIsSsa` | compiler/examples/BrainF/BrainF.cpp:424-462 | A certificate that is checked edge by edge proves that definitions are unique and dominate their uses on every path, and that phis match predecessors. |
| `BrainFSsaEdits.LinkKeeps` | compiler/examples/BrainF/BrainF.cpp:430-439 | Closing a loop, a branch together with the incoming edge of the phi, keeps the certificate. |
| `BrainFSsaGen.FunctionIsSsa` | compiler/examples/BrainF/BrainF.cpp:190-474 | The emitted function is in SSA form, through any nesting of loops. |
| `BrainFCorrect.CompilerCorrect` | compiler/examples/BrainF/BrainF.cpp:52-62 | The compiled function stops exactly if the program ends, and with its one outcome: same output and tape, the error message, or a fault; it never reaches code without a meaning. Whether or not the program ends, the function passes through every state of the program between two rounds of a loop, and at some point has written a text exactly if the program has. |
| `BrainFCorrect.OutputKeepsUp` | compiler/examples/BrainF/BrainF.cpp:290-310 | After n steps, the function has written no more than the program has when each of its loops may be repeated n times. |
| `BrainFCorrect.WellBehavedPrograms` | compiler/examples/BrainF/BrainF.cpp:190-474 | For a program that, one symbol at a time, keeps its head on the tape, the compiled function, with bounds checks or without, returns exactly if the program ends, with its tape and output, and writes exactly what the program writes even if it does not end. |
| `BrainFCorrect.BoundsChecked` | compiler/examples/BrainF/BrainF.cpp:122-125 | With bounds checks, every access of every compiled program is inside a tape of at least one cell. |
| `BrainFCorrect.EmptyTapeFaults` | compiler/examples/BrainF/BrainF.cpp:122-125 | On an empty tape the checked program `+` faults. |
| `BrainFCorrect.SafeIffTape` | compiler/examples/BrainF/BrainF.cpp:122-125 | Bounds checks make all programs safe exactly on tapes with a cell. |
| `BrainFCorrect.ComplainsIffRunEndsOffTape` | compiler/examples/BrainF/BrainF.cpp:251-272 | The error message appears exactly if some whole run of moves ends off the tape. |
| `BrainFCorrect.ComplaintsAreFounded` | compiler/examples/BrainF/BrainF.cpp:251-272 | If it appears, the unfused program left the tape; the converse holds if no run turns around and the tape has a cell. |
| `BrainFCorrect.ReturningMovesGoUnreported` | compiler/examples/BrainF/BrainF.cpp:364-378 | The converse fails for `<>`. |
| `BrainFCorrect.CompiledIsWellFormed` | compiler/examples/BrainF/BrainF.cpp:244-310 | For every program the compiled function has one terminator in each block, phis whose edges are the predecessors, and definitions that dominate all uses. |
| `AliasSets.Resolve` | compiler/include/llvm/Analysis/AliasSetTracker.h:283-293 | Following forwarding pointers ends at an active set, the home of the set. |
| `AliasSets.LiveSetsHavePointers` | compiler/lib/Analysis/AliasSetTracker.cpp:113-127 | If all counts are exact and positive, an active set without unknown instructions that something leads to has a pointer. |
| `AliasSets.MustSetsHavePointers` | compiler/lib/Analysis/AliasSetTracker.cpp:201-211 | An active must set has a pointer, so that any one can stand for the set. |
| `AliasSetEdits.RedirectKeeps` | compiler/include/llvm/Analysis/AliasSetTracker.h:286-291 | Shortening a forwarding pointer keeps the whole invariant, but for one reference that is owed. |
| `AliasSetEdits.RenameKeeps` | compiler/include/llvm/Analysis/AliasSetTracker.h:117-122 | So does making a record name the active set. |
| `AliasSetEdits.DecrementKeeps` | compiler/include/llvm/Analysis/AliasSetTracker.h:191-195 | Dropping the owed reference restores the counts. |
| `AliasSetEdits.EraseKeeps` | compiler/lib/Analysis/AliasSetTracker.cpp:113-122 | Erasing an unreferenced set keeps the invariant, owing one reference to the set it forwarded to. |
| `AliasSetMerge.MergeKeeps` | compiler/lib/Analysis/AliasSetTracker.cpp:52-111 | Merging keeps the invariant; the result only is a must set if both were and one pointer of each must alias. |
| `AliasSetMerge.AttachKeeps` | compiler/lib/Analysis/AliasSetTracker.cpp:129-165 | Adding a pointer to the only set it may alias keeps the invariant. |
| `AliasSetMerge.AttachInstKeeps` | compiler/lib/Analysis/AliasSetTracker.cpp:167-186 | Adding an instruction to the only set it may interfere with keeps the invariant. |
| `AliasSetMerge.DetachKeeps` | compiler/lib/Analysis/AliasSetTracker.cpp:552-573 | Deleting a record keeps the invariant, but for the owed reference. |
| `AliasSetTracking.AliasSetTracker.DropRef` | compiler/include/llvm/Analysis/AliasSetTracker.h:191-195 | Dropping a reference reclaims the sets that become unreferenced, all of them empty and along the forwarding chain, and no other. |
| `AliasSetTracking.AliasSetTracker.RemoveAliasSet` | compiler/lib/Analysis/AliasSetTracker.cpp:113-127 | An unreferenced set leaves the list and drops its reference to the set it forwards to. |
| `AliasSetSizes.SizedErase` | compiler/lib/Analysis/AliasSetTracker.cpp:113-122 | Taking a set off the list, with its size off the total only if it may alias and does not forward, keeps the total exact. |
| `AliasSetTracking.AliasSetTracker.GetForwardedTarget` | compiler/include/llvm/Analysis/AliasSetTracker.h:283-293 | Path compression: the set forwards straight to its home afterwards, and no pointer or instruction changes its set. |
| `AliasSetTracking.AliasSetTracker.GetAliasSet` | compiler/include/llvm/Analysis/AliasSetTracker.h:115-124 | The set of a record is its active home, which the record names afterwards. |
| `AliasSetTracking.AliasSetTracker.MergeSetIn` | compiler/lib/Analysis/AliasSetTracker.cpp:52-111 | Merging moves the pointers and instructions of one set to another, in order, adds up access, changes no other set, and keeps the total exact. |
| `AliasSetSizes.SizedMerge` | compiler/lib/Analysis/AliasSetTracker.cpp:76-98 | What merging adds to the total is what the sets that are weakened by it have not counted yet: sizes and total stay exact. |
| `AliasSetTracking.AliasSetTracker.WeakenedByMerge` | compiler/lib/Analysis/AliasSetTracker.cpp:56-74 | A merged set stays a must set exactly if both were and the first pointers must alias. |
| `AliasSetTracking.AliasSetTracker.AliasesPointer` | compiler/lib/Analysis/AliasSetTracker.cpp:192-228 | The answer is no alias exactly if nothing in the set may alias the pointer at this location; must alias answers for all pointers of a must set. |
| `AliasSetTracking.AliasSetTracker.AliasesUnknownInst` | compiler/lib/Analysis/AliasSetTracker.cpp:230-256 | The answer is yes exactly if something in the set may interfere with the instruction. |
| `AliasSetTracking.MustSetMeets` | compiler/lib/Analysis/AliasSetTracker.cpp:201-211 | Any one pointer of a must set answers for all of them. |
| `AliasSetTracking.AliasSetTracker.MergeAliasSetsForPointer` | compiler/lib/Analysis/AliasSetTracker.cpp:298-327 | Exactly the sets that may alias the pointer, at its location as of now, become one, which is a must set exactly if they were and all of its pointers must alias; afterwards no other set may alias it. |
| `AliasSetTracking.AliasSetTracker.FindAliasSetForUnknownInst` | compiler/lib/Analysis/AliasSetTracker.cpp:329-344 | Exactly the sets that may interfere with the instruction become one, also once saturated. |
| `AliasSetTracking.AliasSetTracker.AddPointer` | compiler/lib/Analysis/AliasSetTracker.cpp:129-165 | A pointer is added at the end of a set, which is weakened exactly if the pointer is not known to, and need not, alias its first pointer; the size of the set and the total stay exact. |
| `AliasSetSizes.SizedAttach` | compiler/lib/Analysis/AliasSetTracker.cpp:144-164 | So they do when a pointer is added, also where it weakens the set. |
| `AliasSetTracking.AliasSetTracker.GetAliasSetFor` | compiler/lib/Analysis/AliasSetTracker.cpp:346-395 | The pointer is in the returned set, at its new location if it is new or has grown; exactly the sets that take it in have become that set, with just their pointers, instructions and access; it is a must set exactly if they were and all of its pointers must alias; no other set changes. What may alias stays together, at the new locations. |
| `AliasSetTracking.AliasSetTracker.GetSaturatedSetFor` | compiler/lib/Analysis/AliasSetTracker.cpp:354-369 | In a saturated tracker that is the saturated set, to which a new pointer is added; locations may grow. |
| `AliasSetTracking.AliasSetTracker.GetKnownSet` | compiler/lib/Analysis/AliasSetTracker.cpp:371-382 | For a known pointer it is the set that it is in, after merging exactly the sets that it may alias if it has grown. |
| `AliasSetTracking.AliasSetTracker.MergeGrown` | compiler/lib/Analysis/AliasSetTracker.cpp:371-377 | A pointer has grown: exactly the sets that may alias it at its new location become one, its own among them, and the whole invariant holds of the new locations. |
| `AliasSetTracking.AliasSetTracker.GetTarget` | compiler/lib/Analysis/AliasSetTracker.cpp:379 | The active set of a record, which names it afterwards; no pointer or instruction changes its set. |
| `AliasSetTracking.RelocatedGrown` | compiler/lib/Analysis/AliasSetTracker.cpp:371-379 | Once no other set may alias a pointer at its new location, the invariant holds of the new locations. |
| `AliasSetGrowth.CoherentIffTogether` | compiler/lib/Analysis/AliasSetTracker.cpp:201-211 | Growing keeps alias analysis coherent, as one answer for a whole must set asks for, exactly if pointers that must alias grow together. |
| `AliasSetGrowth.GrownPointerIsMissed` | compiler/lib/Analysis/AliasSetTracker.cpp:201-211 | If a pointer of a must set other than its first one grows alone, the set is passed over for a pointer that may alias it, and the two end up in different sets. |
| `AliasSetTracking.GroupedByAdding` | compiler/lib/Analysis/AliasSetTracker.cpp:384-394 | What uniting sets and adding a pointer does to who is together with whom. |
| `AliasSetTracking.AddedJoined` | compiler/lib/Analysis/AliasSetTracker.cpp:384-394 | The sets that may alias a new pointer are exactly what its set has been made of. |
| `AliasSetTracking.InstAddedJoined` | compiler/lib/Analysis/AliasSetTracker.cpp:446-452 | Likewise for an instruction. |
| `AliasSetTracking.AliasSetTracker.MergeAllAliasSets` | compiler/lib/Analysis/AliasSetTracker.cpp:598-633 | Afterwards every set on the list forwards straight to one active set, which holds everything, nothing else, and records all access. |
| `AliasSetTracking.AliasSetTracker.constructor` | compiler/include/llvm/Analysis/AliasSetTracker.h:357-359 | An empty tracker. |
| `AliasSetTracking.AliasSetTracker.Add` | compiler/lib/Analysis/AliasSetTracker.cpp:635-647 | An access of a pointer: exactly the sets that take the pointer in become one, which holds what they held and the pointer, records exactly their access and what was asked for, and is a must set exactly if they were and all of its pointers must alias; no other set changes. Counted from a state with exact sizes, the tracker becomes saturated exactly if it is not and then has more pointers in sets that may alias, modulo 2^32, than the threshold; everything is in one set then, with all access. |
| `AliasSetTracking.AliasSetTracker.AddAccessTo` | compiler/lib/Analysis/AliasSetTracker.cpp:637-638 | The access of the set of the pointer afterwards is exactly that of the sets that became it and what was asked for; the access of no other set changes. |
| `AliasSetTracking.AliasSetTracker.RecordAccess` | compiler/lib/Analysis/AliasSetTracker.cpp:638 | Access bits are added to those of a set, and nothing else changes. |
| `AliasSetTracking.AliasSetTracker.Saturate` | compiler/lib/Analysis/AliasSetTracker.cpp:640-646 | Everything is merged exactly if the tracker is not saturated and the count is past the threshold; otherwise nothing changes. |
| `AliasSetTracking.AliasSetTracker.AddNewPointer` | compiler/lib/Analysis/AliasSetTracker.cpp:384-394 | A new pointer goes to the sets it may alias, which become one, or to a set of its own. |
| `AliasSetTracking.AliasSetTracker.AddAlone` | compiler/lib/Analysis/AliasSetTracker.cpp:391-394 | A pointer that may alias nothing gets a set of its own. |
| `AliasSetTracking.AliasSetTracker.MayAfterAdding` | compiler/lib/Analysis/AliasSetTracker.cpp:135-148 | A must set is weakened exactly if the new pointer is not known to, and need not, alias its first pointer. |
| `AliasSetTracking.AliasSetTracker.CreateSet` | compiler/lib/Analysis/AliasSetTracker.cpp:391-394 | A new set is at the end of the list, empty and active. |
| `AliasSetTracking.AliasSetTracker.AddUnknownInst` | compiler/lib/Analysis/AliasSetTracker.cpp:167-186 | The instruction is added to its set, which may alias from now on and covers the access of the instruction. |
| `AliasSetTracking.AliasSetTracker.VisitSet` | compiler/lib/Analysis/AliasSetTracker.cpp:303-324 | One set on the list: it is passed over exactly if it cannot alias the pointer. |
| `AliasSetTracking.AliasSetTracker.VisitSetForInst` | compiler/lib/Analysis/AliasSetTracker.cpp:330-342 | One set on the list, for an instruction, likewise. |
| `AliasSetTracking.AliasSetTracker.Absorb` | compiler/lib/Analysis/AliasSetTracker.cpp:317-323 | The first set that is hit is remembered, any other merged into it. |
| `AliasSetTracking.AliasSetTracker.MergeSets` | compiler/lib/Analysis/AliasSetTracker.cpp:83-109 | Contents, counts and forwarding of the two merged sets. |
| `AliasSetTracking.AliasSetTracker.Collapse` | compiler/lib/Analysis/AliasSetTracker.cpp:619-630 | One set, when everything is merged: it forwards to the saturated set afterwards, and nothing in it is lost. |
| `AliasSetTracking.AliasSetTracker.ForwardToSaturated` | compiler/lib/Analysis/AliasSetTracker.cpp:621-627 | A set that forwards already is made to forward to the saturated set. |
| `AliasSetTracking.AliasSetTracker.ForwardTo` | compiler/include/llvm/Analysis/AliasSetTracker.h:286-291 | A set forwards to its home instead of to a set that leads there. |
| `AliasSetTracking.AliasSetTracker.NameActive` | compiler/include/llvm/Analysis/AliasSetTracker.h:117-122 | A record names its home instead of a set that leads there. |
| `AliasSetTracking.AliasSetTracker.Unlink` | compiler/lib/Analysis/AliasSetTracker.cpp:557-567 | A record is taken off the list of its set. |
| `AliasSetTracking.AliasSetTracker.AddUnknown` | compiler/lib/Analysis/AliasSetTracker.cpp:427-452 | Exactly markers and instructions that access no memory are ignored, and change nothing; any other instruction is held by the one set that exactly the sets it may interfere with become. That set records their access, a read, and a write exactly if one of them did or the instruction may write. |
| `AliasSetTracking.AliasSetTracker.AddAccessing` | compiler/lib/Analysis/AliasSetTracker.cpp:446-452 | An instruction that accesses memory joins the set that all it may interfere with has become, or gets a set of its own; contents and access of the set are exactly those of the sets that became it and of the instruction. |
| `AliasSetTracking.AliasSetTracker.DeleteValue` | compiler/lib/Analysis/AliasSetTracker.cpp:552-573 | Deleting a pointer, before or after saturation, takes it from its set, and the set off the list exactly if nothing is left in it; other pointers, instructions, all access and which sets are must sets stay as they are. It leaves a consistent state unless, and only unless, it takes the last pointer from a saturated tracker that holds no instruction: then the saturated set is reclaimed, but still named. |
| `AliasSetTracking.AliasSetTracker.DropUnlinked` | compiler/lib/Analysis/AliasSetTracker.cpp:569-570 | Dropping the reference that the record was, which is the last one exactly in that case. |
| `AliasSetTracking.LastReference` | compiler/lib/Analysis/AliasSetTracker.cpp:113-122 | The record of a pointer is the last reference to its set exactly if the tracker is saturated and holds nothing else, since every set that forwards to the saturated one is named by a record. |
| `AliasSetRuns.ValidIsSound` | compiler/lib/Analysis/AliasSetTracker.cpp:83-127 | In every consistent state: pointers that may alias at their recorded locations resolve to one active set, pointers of must sets must alias, instructions are with the pointers and instructions they may interfere with, reference counts are exact and positive, no active set is empty, and once saturated everything resolves to one set. |
| `AliasSetGroups.JoinedGroups` | compiler/lib/Analysis/AliasSetTracker.cpp:76-111 | Without forwarding, names and counts, sets that become one are groups of pointers and instructions that become one: what is in the active sets, their access and which of them are must sets is a function of the groups before. |
| `AliasSetGroups.TakersMatch` | compiler/lib/Analysis/AliasSetTracker.cpp:346-394 | Which groups take in a pointer is decided by what is in them, where the pointer is, and saturation alone. |
| `AliasSetGroups.RemovedGroups` | compiler/lib/Analysis/AliasSetTracker.cpp:552-573 | Deleting a pointer takes it from its group, and drops groups without contents. |
| `AliasSetGroups.SaturatingGroups` | compiler/lib/Analysis/AliasSetTracker.cpp:635-647 | Saturation makes one group of everything, with all access. |
| `AliasSetGroups.MayPtrsAre` | compiler/lib/Analysis/AliasSetTracker.cpp:147-164 | The pointers of the sets that may alias, one set after the other, are those of the groups that may alias. |
| `AliasSetHistory.ModelHolds` | compiler/lib/Analysis/AliasSetTracker.cpp:346-573 | After any run, exactly the pointers that were added and not deleted since are in groups. |
| `AliasSetHistory.AccessHasReason` | compiler/lib/Analysis/AliasSetTracker.cpp:637-638 | After any run that does not saturate the tracker, a group records a read (or a write) only if one was asked for, for a pointer that is in it or has been deleted since, or by an instruction that is in it. |
| `AliasSetHistory.AccessIsRecorded` | compiler/lib/Analysis/AliasSetTracker.cpp:637-638 | After any run, a group records all that was asked for about its pointers since they were last deleted, and the access of its instructions. |
| `AliasSetHistory.AccessIffAsked` | compiler/lib/Analysis/AliasSetTracker.cpp:637-638 | After a run without deletions and saturation, a group records an access exactly if something in it was asked for with it. |
| `AliasSetHistory.DeletedAccessStays` | compiler/lib/Analysis/AliasSetTracker.cpp:552-573 | With deletions it may record more: where a pointer is written, another one that it may alias is read, and the first one is deleted, the write stays recorded. |
| `AliasSetHistory.MustIffAlike` | compiler/lib/Analysis/AliasSetTracker.cpp:60-74 | After a run without deletions and saturation, a group is a must group exactly if it has no instructions and all of its pointers must alias, at the locations recorded by then. |
| `AliasSetRuns.Apply` | compiler/lib/Analysis/AliasSetTracker.cpp:397-573 | Every operation keeps the state consistent, drops neither an instruction nor recorded access, and makes of the active sets exactly what the function on groups says, contents and access, but exactly for a deletion that loses the saturated set. |
| `AliasSetRuns.Perform` | compiler/lib/Analysis/AliasSetTracker.cpp:397-573 | So the tracker keeps up with the operations of a run: its active sets are the groups of the model, it tracks the pointers added since they were last deleted, covers all access asked for since, and holds every instruction that is not ignored. |
| `AliasSetRuns.Run` | compiler/lib/Analysis/AliasSetTracker.cpp:346-647 | So does every run of operations, from an empty tracker, with locations that grow, and with deletions before and after saturation, until the saturated set is lost: by a run that deletes the last pointer after saturation and never added an instruction that is not ignored. Unsaturated, no access is recorded without a reason. A run of accesses alone is determined in full: the total is the number of pointers in sets that may alias, modulo 2^32, and the tracker becomes saturated by exactly the first access after which the model has more of them than the threshold. |
| `AliasSetRuns.ModelledFounded` | compiler/lib/Analysis/AliasSetTracker.cpp:637-638 | What that means for the active sets: every access that one records has a reason, and without deletions it is recorded exactly if something in the set was asked for with it, and a set is a must set exactly if it has no instructions and all of its pointers must alias. |
| `AliasSetRuns.DecidedByCount` | compiler/lib/Analysis/AliasSetTracker.cpp:640 | Whether an access saturates the tracker is decided by the number of pointers in the groups of the model that may alias. |
| `Leb128.RoundTripU` | compiler/examples/ExceptionDemo/ExceptionDemo.cpp:334-350 | Decoding an encoded number gives it back, and the position after it, exactly if it is below the limit up to which the shifts of an `int` are defined (2^31); otherwise it has no meaning. |
| `Leb128.RoundTripS` | compiler/examples/ExceptionDemo/ExceptionDemo.cpp:358-379 | The same for signed numbers, from -2^27 up to that limit. |
| `Leb128.ReadULEB128` | compiler/examples/ExceptionDemo/ExceptionDemo.cpp:334-350 | The loop computes the number at the pointer and advances it past the number. |
| `Leb128.ReadSLEB128` | compiler/examples/ExceptionDemo/ExceptionDemo.cpp:358-379 | The same for signed numbers, with sign extension. |
| `ExceptionTable.FirstMatch` | compiler/examples/ExceptionDemo/ExceptionDemo.cpp:532-578 | The position of the first record for a type, counted from 1; 0 if and only if there is none. |
| `ExceptionTable.PhasesAgree` | compiler/examples/ExceptionDemo/ExceptionDemo.cpp:705-757 | The search phase finds a handler exactly where the cleanup phase installs a selector that is not 0. |
| `ExceptionTable.CoveringSiteDecides` | compiler/examples/ExceptionDemo/ExceptionDemo.cpp:652-761 | In a table without overlaps the call site that covers the pc decides alone; where none does, unwinding goes on. |
| `ExceptionTable.ReadEncodedPointer` | compiler/examples/ExceptionDemo/ExceptionDemo.cpp:411-478 | A pointer in any encoding that is not rejected: unsigned or signed, of fixed or variable length, relative to its own address, or indirect; 0, without advancing, if it is omitted. What that means is `ReadPointer`. |
| `ExceptionTableWriter.ReadPointer` | compiler/examples/ExceptionDemo/ExceptionDemo.cpp:411-478 | Reading a pointer gives the address that it was written for, and the position after it: in every format, whether the address itself is written or its distance modulo 2^64 from where the pointer is, or, for indirect encodings, that of a cell that holds the address. |
| `ExceptionTableWriter.EncodingBytes` | compiler/examples/ExceptionDemo/ExceptionDemo.cpp:419-475 | Which byte stands for which encoding: exactly the bytes that are made of a format, a bit for relative pointers and a bit for indirect ones are supported. |
| `ExceptionTableWriter.EncodingsAreStandard` | compiler/examples/ExceptionDemo/ExceptionDemo.cpp:415-452 | There are no other formats than these; an omitted pointer is neither relative nor indirect. |
| `ExceptionTable.HandleActionValue` | compiler/examples/ExceptionDemo/ExceptionDemo.cpp:501-581 | The walk of an action chain finds the first record whose type matches, and its position; nothing for a foreign exception. |
| `ExceptionTable.ReadHeader` | compiler/examples/ExceptionDemo/ExceptionDemo.cpp:623-650 | The header of the language specific data. |
| `ExceptionTable.ReadCallSite` | compiler/examples/ExceptionDemo/ExceptionDemo.cpp:653-661 | One entry of the call site table. |
| `ExceptionTable.Land` | compiler/examples/ExceptionDemo/ExceptionDemo.cpp:678-757 | What is decided at a landing pad, in either phase. |
| `ExceptionTable.HandleLsda` | compiler/examples/ExceptionDemo/ExceptionDemo.cpp:595-764 | On data that describes call sites, the personality routine decides by the first one with a landing pad that covers the pc. |
| `ExceptionTableWriter.ChainWritten` | compiler/examples/ExceptionDemo/ExceptionDemo.cpp:532-578 | A chain of actions as a compiler writes it is one that can be walked. |
| `ExceptionTableWriter.RecordsWritten` | compiler/examples/ExceptionDemo/ExceptionDemo.cpp:557-563 | Entries of the written type table give the types of their type infos, in any encoding of fixed size, such as the indirect relative one of position independent code. |
| `ExceptionTableWriter.TableWritten` | compiler/examples/ExceptionDemo/ExceptionDemo.cpp:652-661 | A written call site table describes its call sites, in any encoding, relative and indirect ones included. |
| `ExceptionTableWriter.HeaderWritten` | compiler/examples/ExceptionDemo/ExceptionDemo.cpp:623-650 | A written header is read back, with or without a landing pad base and a type table. |
| `ExceptionTableWriter.WrittenDataIsRead` | compiler/examples/ExceptionDemo/ExceptionDemo.cpp:595-764 | Written language specific data, in any supported encodings, relative and indirect ones included, with or without a landing pad base and a type table, describes exactly the call sites that were written, wherever it is. |
| `ExceptionTableWriter.SomePlace` | compiler/examples/ExceptionDemo/ExceptionDemo.cpp:623-650 | Relative pointers of fixed size can be written wherever the data is: there is a place for its table of call sites. |
| `WrapperCode.WrapperBuilder.constructor` | compiler/examples/ExceptionDemo/ExceptionDemo.cpp:1090-1098 | A builder without blocks. |
| `WrapperCode.WrapperBuilder.CreateFinallyBlock` | compiler/examples/ExceptionDemo/ExceptionDemo.cpp:947-1008 | The slots, initialized in the entry block, and the finally block with its switch on the flag. |
| `WrapperCode.WrapperBuilder.CreateCatchBlock` | compiler/examples/ExceptionDemo/ExceptionDemo.cpp:1023-1053 | A catch block sets the flag and goes to the finally block. |
| `WrapperCode.WrapperBuilder.CreateExceptionBlocks` | compiler/examples/ExceptionDemo/ExceptionDemo.cpp:1211-1317 | The landing pad stores what it is given; foreign exceptions go to the finally block, ours to the block of their selector. |
| `WrapperCode.WrapperBuilder.TerminateBlocks` | compiler/examples/ExceptionDemo/ExceptionDemo.cpp:1171-1209 | The invoke at the end of the entry block, and the blocks that lead on or end the function. |
| `WrapperCode.WrapperBuilder.CreateCatchWrappedInvokeFunction` | compiler/examples/ExceptionDemo/ExceptionDemo.cpp:1075-1323 | The builder generates exactly the blocks of `Wrapper`. |
| `Unwinding.SelectorLists` | compiler/examples/ExceptionDemo/ExceptionDemo.cpp:705-757 | A wrapper's landing pad gets a selector for exactly the listed types, that of the first clause for the type, and is a handler exactly then. |
| `Unwinding.WrittenClauses` | compiler/examples/ExceptionDemo/ExceptionDemo.cpp:1218-1230 | The call site of a wrapper, written with its types in order and a cleanup, is for what the wrapper catches. |
| `Unwinding.WrittenWrapperDecides` | compiler/examples/ExceptionDemo/ExceptionDemo.cpp:595-764 | From the bytes written for a wrapper, in any supported encodings, the personality routine decides at its invoke, in both phases and for every exception, as the runs of nested wrappers assume. |
| `Unwinding.ExecFinally` | compiler/examples/ExceptionDemo/ExceptionDemo.cpp:1000-1005 | From the finally block a thrown exception is resumed; otherwise the function ends after freeing what is in its slot. |
| `Unwinding.WrapperRun` | compiler/examples/ExceptionDemo/ExceptionDemo.cpp:1075-1323 | A wrapper runs its finally once, and catches and frees exactly the exceptions of the types it lists. |
| `Unwinding.InnermostHandler` | compiler/examples/ExceptionDemo/ExceptionDemo.cpp:743-757 | The search phase finds the innermost wrapper that lists the type. |
| `Unwinding.NestedRun` | compiler/examples/ExceptionDemo/ExceptionDemo.cpp:1458-1509 | The whole run of nested wrappers, event by event, in order. |
| `Unwinding.NestedReturn` | compiler/examples/ExceptionDemo/ExceptionDemo.cpp:1192-1203 | Without an exception, only the finally blocks run. |
| `Unwinding.ExceptionsAreHandledOnce` | compiler/examples/ExceptionDemo/ExceptionDemo.cpp:1138-1317 | At any depth: every finally runs once, exactly the innermost wrapper that lists the type catches, a caught exception is freed once, any other is resumed out of every wrapper and never freed. |
| `ModRef.AAResults.constructor` | compiler/lib/Analysis/AliasAnalysis.cpp:63-67 | The registered analyses. |
| `ModRef.AAResults.Alias` | compiler/lib/Analysis/AliasAnalysis.cpp:100-108 | The first analysis that does not answer may alias decides. |
| `ModRef.FirstDefiniteDecides` | compiler/lib/Analysis/AliasAnalysis.cpp:100-108 | That answer, if it is not may alias, is the one that some analysis gives before which all others answer may alias. |
| `ModRef.AAResults.PointsToConstantMemory` | compiler/lib/Analysis/AliasAnalysis.cpp:110-117 | Memory is constant if any analysis says so. |
| `ModRef.AAResults.GetArgModRefInfo` | compiler/lib/Analysis/AliasAnalysis.cpp:119-131 | The meet of all answers about an argument, in spite of the early exit. |
| `ModRef.AAResults.GetModRefBehavior` | compiler/lib/Analysis/AliasAnalysis.cpp:347-359 | The meet of all behaviors, in spite of the early exit. |
| `ModRef.MeetPermits` | compiler/lib/Analysis/AliasAnalysis.cpp:347-359 | The met behavior permits exactly what every analysis permits. |
| `ModRef.AAResults.ArgumentsMask` | compiler/lib/Analysis/AliasAnalysis.cpp:179-198 | The union over exactly the pointer arguments that may alias the location; "must" exactly if all of them must. `LocPrecise` says what that rules out. |
| `ModRef.AAResults.GetModRefInfoOfLoc` | compiler/lib/Analysis/AliasAnalysis.cpp:154-213 | The query about a call and a location answers what the form without early exits does, the "must" bit included. |
| `ModRef.AAResults.WalkSecondArguments` | compiler/lib/Analysis/AliasAnalysis.cpp:251-299 | The walk of the second call's arguments finds a conflict exactly if one of them has one; "must" is set exactly if something was found, the last argument was needed, and the first call must alias all of them. |
| `ModRef.AAResults.WalkFirstArguments` | compiler/lib/Analysis/AliasAnalysis.cpp:301-342 | The walk of the first call's arguments, likewise. |
| `ModRef.AAResults.GetModRefInfoOfCalls` | compiler/lib/Analysis/AliasAnalysis.cpp:215-345 | The query about two calls answers what the form without early exits does, the "must" bit included. |
| `ModRef.BehaviorSound` | compiler/lib/Analysis/AliasAnalysis.cpp:347-359 | The meet of sound behaviors permits whatever a call does. |
| `ModRef.LocSound` | compiler/lib/Analysis/AliasAnalysis.cpp:154-213 | Whatever a call does to a location is reported, across all refinements. |
| `ModRef.LocPrecise` | compiler/lib/Analysis/AliasAnalysis.cpp:154-213 | Mod is reported of a call and a location exactly if nothing rules it out, and likewise Ref. It is ruled out by an analysis that says so, a behavior that only reads, memory that an analysis takes for constant, or a behavior that permits only argument pointees, if for each pointer argument the first definite analysis says no alias or some analysis says that it is not modified. |
| `ModRef.CallsModSound` | compiler/lib/Analysis/AliasAnalysis.cpp:215-345 | If the first call writes what the second accesses, Mod is reported. |
| `ModRef.CallsRefSound` | compiler/lib/Analysis/AliasAnalysis.cpp:215-345 | If the first call reads what the second writes, Ref is reported. |
| `ModRef.CallsPrecise` | compiler/lib/Analysis/AliasAnalysis.cpp:215-345 | Mod and Ref of two calls are reported exactly if nothing rules them out, where the walk of arguments goes by what is ruled out of each argument and the other call. |
| `ModRef.MustAliasSound` | compiler/lib/Analysis/AliasAnalysis.cpp:100-108 | If the first analysis that decides says must alias, two locations start at the same address. |
| `ModRef.LocMustSound` | compiler/include/llvm/Analysis/AliasAnalysis.h:123-129 | Where "must" is reported, a call reaches the location only through arguments that start where it does; unless an analysis said so by itself, such an argument was found. |
| `ModRef.MustPrecise` | compiler/lib/Analysis/AliasAnalysis.cpp:179-206 | "Must" is reported of a call and a location exactly if some analysis that is asked for both says so, or all pointer arguments must alias the location and one of them may be accessed. |
| `ModRef.CallsMustSound` | compiler/include/llvm/Analysis/AliasAnalysis.h:123-129 | Where "must" is reported of two calls, whatever both access they access through arguments that start at the same address. |
| `ModRef.CallsMustPrecise` | compiler/lib/Analysis/AliasAnalysis.cpp:215-345 | "Must" of two calls is reported exactly if something is reported, all pointers that are walked must alias what the other call accesses, and no admitted bit is found before the last one; or if an analysis says so. |
| `ModRef.OnlyMust` | compiler/include/llvm/Analysis/AliasAnalysis.h:102-104 | The comment that no routine returns only "must" does not hold: the query about a call that only writes through its arguments and constant memory that its argument must alias does. |
| `ModRef.CombinationIsSound` | compiler/lib/Analysis/AliasAnalysis.cpp:154-345 | A combination of sound analyses never misses a conflict. |
| `CaseFold.MapsByRemainder` | compiler/utils/unicode-case-fold.py:77-79 | The characters of a block are exactly those in its range with the right remainder. |
| `CaseFold.InBlock` | compiler/utils/unicode-case-fold.py:85-99 | The second test of a block, in each of its three forms, maps the block and leaves all else alone. |
| `CaseFold.BlockImplements` | compiler/utils/unicode-case-fold.py:66-99 | The tests of a block implement its mappings. |
| `CaseFold.AppendImplements` | compiler/utils/unicode-case-fold.py:101-123 | Tests of one block after those of earlier ones implement all of their mappings. |
| `CaseFold.Generator.constructor` | compiler/utils/unicode-case-fold.py:30-31 | An empty body. |
| `CaseFold.Generator.DumpBlock` | compiler/utils/unicode-case-fold.py:66-99 | The tests of a block are appended to the body. |
| `CaseFold.Generator.Generate` | compiler/utils/unicode-case-fold.py:35-123 | The generator fails exactly on unsorted or missing mappings; otherwise the function it emits returns the mapped value for every mapped character, and every other integer itself. |
| `AbTest.CheckSequentially` | compiler/utils/abtest.py:111-123 | The names that pass alone. |
| `AbTest.Bisection.constructor` | compiler/utils/abtest.py:126-132 | A bisection that has not started. |
| `AbTest.Bisection.TestPartition` | compiler/utils/abtest.py:134-151 | A test announces how many may remain, decides a partition or leaves it to be split, and changes nothing about what will be found in all. |
| `AbTest.Bisection.Split` | compiler/utils/abtest.py:159-169 | Splitting keeps what will be found and the bounds, and gets nearer to the end. |
| `AbTest.Bisection.TestHalves` | compiler/utils/abtest.py:166-169 | Testing both halves adds what is found in them, and keeps the bounds. |
| `AbTest.Bisection.CheckBisect` | compiler/utils/abtest.py:126-171 | For every test, what bisection finds: all names that pass alone, and nothing else exactly if no partition misleads, as when the test is closed under subsets. Every announced number bounds the tests still to come; n names take at most 2n-2 tests (one takes 1), and take them all if nothing passes. |
| `AbTest.FoundIsGood` | compiler/utils/abtest.py:134-169 | In each partition, bisection finds the names that pass alone, and only those exactly if every partition that is tested and passes has no others. |
| `AbTest.BisectionIsSequential` | compiler/utils/abtest.py:111-171 | So bisection agrees with checking names one by one exactly if no partition misleads. |
| `AbTest.BisectionTakesMore` | compiler/utils/abtest.py:147-149 | It does not for a test that two names only pass together, although picking all from A passes and all from B fails. |
| `Barrier.InitInv` | compiler/examples/ParallelJIT/ParallelJIT.cpp:142-153 | The barrier starts in a consistent state. |
| `Barrier.AllOthersWait` | compiler/examples/ParallelJIT/ParallelJIT.cpp:174-180 | When a thread unblocks the others, all of them are waiting. |
| `Barrier.StepInv` | compiler/examples/ParallelJIT/ParallelJIT.cpp:166-233 | Every step keeps the invariant, and the assertion in block never fails. |
| `Barrier.RunInv` | compiler/examples/ParallelJIT/ParallelJIT.cpp:166-233 | So does every interleaving. |
| `Barrier.NobodyEarly` | compiler/examples/ParallelJIT/ParallelJIT.cpp:166-217 | In every interleaving, nobody is back before all have arrived and the releaser has entered. |
| `Barrier.NeverStuck` | compiler/examples/ParallelJIT/ParallelJIT.cpp:166-233 | As long as somebody is not back, some thread can take a step. |
| `Barrier.AllReturn` | compiler/examples/ParallelJIT/ParallelJIT.cpp:166-233 | Every interleaving ends after a bounded number of steps, exactly when everybody is back. |
| `BlockAlignment.Aligner.constructor` | compiler/utils/update_mca_test_checks.py:315-320 | No blocks yet. |
| `BlockAlignment.Aligner.Analyze` | compiler/utils/update_mca_test_checks.py:248-260 | The recorded index of every block afterwards is exactly the farthest of its first occurrences, if that is farther than it was. |
| `BlockAlignment.Aligner.AnalyzeList` | compiler/utils/update_mca_test_checks.py:253-260 | The same for one list. |
| `BlockAlignment.Aligner.AnalyzeBlock` | compiler/utils/update_mca_test_checks.py:259-260 | An index is recorded exactly if it is farther. |
| `BlockAlignment.Aligner.AlignMatchingBlocks` | compiler/utils/update_mca_test_checks.py:225-284 | A pass moves exactly the first block that follows another one and is in front of its farthest index, to that index, by empty blocks; it changes nothing exactly if there is none. If it changes anything it lowers the number of adjacent blocks. |
| `BlockAlignment.Aligner.Shunt` | compiler/utils/update_mca_test_checks.py:270-277 | Exactly so many empty blocks are inserted that the block is at its farthest index. |
| `BlockAlignment.Aligner.AddBlocks` | compiler/utils/update_mca_test_checks.py:323-342 | Alignment ends for all lists, by passes each of which but the last one moves one block that was in front of its farthest index there, and leaves every first occurrence that follows another block exactly at its farthest index, which is the farthest of the first occurrences of the block. Lists in which no block is in front of its farthest index stay as they are, as does the first list. |
| `BlockAlignment.FirstListStays` | compiler/utils/update_mca_test_checks.py:323-342 | In a single list no block is in front of its farthest index. |
| `BlockAlignment.PaddedSqueeze` | compiler/utils/update_mca_test_checks.py:274-277 | Inserting empty blocks keeps the blocks and their order. |
| `BlockAlignment.PaddedIndex` | compiler/utils/update_mca_test_checks.py:274-277 | Inserting empty blocks moves no first occurrence to the front. |
| `BlockBreakdown.Flush` | compiler/utils/update_mca_test_checks.py:177-178 | Flushing adds to what is kept for a prefix exactly its batch, prefixes in their order as strings. |
| `BlockBreakdown.AddToBatches` | compiler/utils/update_mca_test_checks.py:196-197 | A line is added to the batch of each prefix of its text, and to no other. |
| `BlockBreakdown.BatchLine` | compiler/utils/update_mca_test_checks.py:195-197 | A line of every text is added to the batches of its prefixes. |
| `BlockBreakdown.AllSame` | compiler/utils/update_mca_test_checks.py:172-173 | Whether a line is common to all texts. |
| `BlockBreakdown.BreakDownBlock` | compiler/utils/update_mca_test_checks.py:143-202 | A breakdown is given exactly if the first line is common and differing lines have a prefix. The entries of the common prefix then are exactly the lines that all texts share, in order; those of a prefix of a text are exactly its other lines; there are no others, and between common lines prefixes are in order. Keeping the common prefix and one prefix of a text yields the lines of that text, in order. |
| `ShuffleFuzz.CalcShuffle` | compiler/utils/shuffle_select_fuzz_tester.py:147-164 | The lanes of a shuffle, as elements of both operands in a row. |
| `ShuffleFuzz.CalcSelect` | compiler/utils/shuffle_select_fuzz_tester.py:181-197 | The lanes of a select. |
| `ShuffleFuzz.GenMask` | compiler/utils/shuffle_select_fuzz_tester.py:260-281 | A mask has an element for each lane, undefined or in range. |
| `ShuffleFuzz.GenInsts` | compiler/utils/shuffle_select_fuzz_tester.py:284-327 | For all random choices: operands are inputs, the zero vector or earlier results, the expected values are computed lane by lane, and every value but the last one is used. |
| `ShuffleFuzz.ExpectedIsRight` | compiler/utils/shuffle_select_fuzz_tester.py:147-197 | Exactly the undefined lanes are marked -1; all others have their expected value in every execution, whatever undefined lanes are. |
| `ShuffleFuzz.ExpectedExecutes` | compiler/utils/shuffle_select_fuzz_tester.py:147-197 | There is such an execution. |
| `DemangleTree.MapContext.constructor` | compiler/utils/demangle_tree.py:44-49 | Nothing is pending. |
| `DemangleTree.MapContext.TakeChunk` | compiler/utils/demangle_tree.py:83-115 | A chunk is the next files in order, of whole directories but perhaps for the last; a carried result is taken up by the first. |
| `DemangleTree.MapContext.AddMapped` | compiler/utils/demangle_tree.py:120-123 | The results of files are added to those of their directories; this fails exactly if some file has a directory without one. |
| `DemangleTree.MapContext.Report` | compiler/utils/demangle_tree.py:131-135 | Each complete directory is reported, with its totals, and added to the cumulative result. |
| `DemangleTree.MapContext.AddDirectory` | compiler/utils/demangle_tree.py:175-176 | The files of another directory become pending. |
| `DemangleTree.MapContext.ProcessOneChunk` | compiler/utils/demangle_tree.py:83-135 | A chunk keeps the invariant: a partial result is carried exactly if the first pending directory is partly processed, and complete directories are reported once, with their own totals. It fails exactly if one of its files has an empty directory name, and then reports nothing. |
| `DemangleTree.MapContext.FinishChunk` | compiler/utils/demangle_tree.py:125-135 | What is complete is reported, and the rest carried over. |
| `DemangleTree.MapContext.ProcessPendingFiles` | compiler/utils/demangle_tree.py:137-139 | Draining stops when less than a chunk is left, or on a failure. |
| `DemangleTree.ChunkDone` | compiler/utils/demangle_tree.py:125-135 | What a chunk leaves behind. |
| `DemangleTree.ProcessAppend` | compiler/utils/demangle_tree.py:73-77 | Processing files in parts is processing them at once. |
| `DemangleTree.TotalsOfFiles` | compiler/utils/demangle_tree.py:73-77 | Totals count every file and all of its symbols once, list what crashed in order, and collect exactly the errors of the files. |
| `DemangleTree.Go` | compiler/utils/demangle_tree.py:141-184 | For every chunk size and every walk: unless the current directory itself has an object file, every object file is processed, in order, and none twice, every directory is reported once with its own totals, the cumulative result is that of all files, and nothing is left over. Otherwise, and only then, the run fails, and reports no directory from that one on. |
| `DemangleTree.HomeIffNotCurrent` | compiler/utils/demangle_tree.py:121 | The directory of the path of a file is the one that was walked, exactly if that is not the current directory. |
| `DemangleTree.PathsAreDistinct` | compiler/utils/demangle_tree.py:165-166 | Different files of a walk have different paths, also in the current directory. |
| `DemangleTree.FilesAreDistinct` | compiler/utils/demangle_tree.py:156-176 | So no path is met twice in a walk of directories, each with distinct names. |
| `DemangleTree.CurrentDirectoryIsLost` | compiler/utils/demangle_tree.py:157-166 | The path of `a.o` in `.` has no directory. |
| `DemangleTree.CurrentInWalk` | compiler/utils/demangle_tree.py:156-182 | Object files of the current directory in a walk. |
| `ManglingParser.SourceName` | compiler/utils/extract_symbols.py:225-231 | A source name and the rest make up the text. |
| `ManglingParser.NameOf` | compiler/utils/extract_symbols.py:224-242 | A name and the rest make up the text. |
| `ManglingParser.NamePatterns` | compiler/utils/extract_symbols.py:224-242 | Which part that is: a number and that many characters, or as many as there are; the name of a constructor or destructor; otherwise the longest text without an `E` that leaves some text, if there is one. |
| `ManglingParser.LongestPatterns` | compiler/utils/extract_symbols.py:226-294 | The digits of a source name, and the qualifiers of a nested name, are the longest that leave some text, which determines them (`LongestIsUnique`). |
| `ManglingParser.SubstitutionPattern` | compiler/utils/extract_symbols.py:258 | A substitution is an `S`, characters of a substitution, and an underscore, with some text after it. |
| `ManglingParser.Skip` | compiler/utils/extract_symbols.py:246-276 | Skipping template arguments ends, with a strict suffix of the text, if any. |
| `ManglingParser.Nested` | compiler/utils/extract_symbols.py:280-318 | Parsing a nested name ends, with a strict suffix of the text, if any. |
| `ManglingParser.SkipItaniumTemplate` | compiler/utils/extract_symbols.py:246-276 | The loop computes that suffix. |
| `ManglingParser.ParseItaniumNestedName` | compiler/utils/extract_symbols.py:280-318 | The loop computes the parts and that suffix. |
| `ManglingParser.ParseSource` | compiler/utils/extract_symbols.py:225-231 | Parsing a printed source name gives back the name and the text that follows. |
| `ManglingParser.SkipPrinted` | compiler/utils/extract_symbols.py:246-276 | Printed template arguments, nested to any depth, are skipped. |
| `ManglingParser.ExpressionsAreTooComplex` | compiler/utils/extract_symbols.py:267-269 | Template arguments with a literal or an expression among them are given up as too complex. |
| `ManglingParser.UnendedArgs` | compiler/utils/extract_symbols.py:273-276 | Template arguments that do not end are rejected. |
| `ManglingParser.ComponentsPrinted` | compiler/utils/extract_symbols.py:299-315 | Printed components are parsed, in order. |
| `ManglingParser.ParsePrinted` | compiler/utils/extract_symbols.py:280-318 | Parsing a printed nested name, followed by any text, gives back exactly its components, which of them are templates, and that text. |

## Left out

- BrainFIR.Exec: head positions are integers, so that `int` overflow of fused counts and pointer wrap-around are not modelled; allocation always succeeds.
- BrainFCompiler.BrainF.Compile: a text on which `readloop` aborts makes it return false; the module, its prototypes and the driver `BrainFDriver.cpp` are not part of this model.
- AliasSetTracking.AliasSetTracker.DeleteValue: what this, and adding an instruction, does to `TotalMayAliasSetSize` is modelled, modulo 2^32, but stated only of accesses: otherwise the counter is not exact in the tracker itself, since adding an unknown instruction weakens a set without counting it (167-186) and deleting a pointer leaves the size of a must set alone (564-567). The widths of the other counters are not modelled.
- AliasSetRuns.Run: what a tracker does after it has lost its saturated set is left out: `removeAliasSet` (113-122) leaves `AliasAnyAS` pointing to the set that it erases.
- AliasSetTracking.AliasSetTracker.GetAliasSetFor: a location is what alias analysis answers about a pointer; it grows where an access is larger than the recorded one. The metadata of a pointer is the same for all its accesses (intersecting it, AliasSetTracker.h:80-89, is left out). `copyValue`, `clear` and adding one tracker to another are left out, too.
- AliasSetTracking.AliasSetTracker.AddUnknown: which instructions are markers, and which access memory, are parameters; so is the choice of `add` between pointers and instructions (455-502).
- AliasSets.Oracle: alias analysis is asked to be coherent at all locations of a run (symmetric, a pointer must alias itself, must alias is an equivalence that respects no alias), and growing changes no answer to or from must alias; without coherence, pointers of a must set may be missed (`AliasSetGrowth.GrownPointerIsMissed`); with it, the first pointer of a must set need not be enlarged when another one is added (AliasSetTracker.cpp:147-149), and is not; `undef`, which does not alias itself, is not part of this model. Alias sets are numbered instead of linked, and a doubly linked list of pointers is a sequence.
- Leb128.ReadULEB128: numbers that need a shift of an `int` by more than 28 bits, or of more than three bits by 28, have no meaning (344, 368). The bits that are or-ed into the result are clear there, so that the model adds them.
- ExceptionTable.DecodePointer: encodings on which `readEncodedPointer` aborts have no meaning. Filters are left out.
- ExceptionTableWriter.WriteLsda: the layout is not chosen by the writer: where the call site table is, and which cells hold the addresses that are pointed to indirectly, are arguments.
- Unwinding.RunNested: the unwinder is modelled by its contract with personality routines; what is printed is reduced to the finally and catch messages. Raising an exception that nobody catches, and the test code around the outermost wrapper, are not part of this model.
- ModRef.AAResults.GetModRefInfoOfCalls: queries about other instructions, atomics and captures are left out, as is the "must" bit of the answers about one argument, which no query looks at.
- CaseFold.Generator.Generate: matching the lines of the file is left out; the mappings are those of the matching lines.
- AbTest.Bisection.CheckBisect: a test is a fixed function of the set of names picked from B. Splitting and replacing functions in files is left out.
- Barrier.Next: a thread's work with the mutex is one step, and there are no spurious wake-ups, although the waits are not in loops.
- BlockAlignment.Aligner.AddBlocks: run lines have distinct keys; running the tool, splitting its output and the padding at the end are left out, as is pruning prefixes before a breakdown.
- ShuffleFuzz.GenInsts: objects that hold their own value are replaced by a list of values; types, printing and the generated main function are left out.
- DemangleTree.Go: processing a file is a function of its path; a walk gives normalized directories, each once, with plain names of files; rows of directories without objects are kept apart from the others; what is left in the context by a failed chunk is only stated of the rows and the cumulative result; the final percentages are left out.
- ManglingParser.Nested: text has no newlines (it is a part of a line), and digits are those of ASCII. Operators, literals, expressions and function types are only parsed, not printed; deciding which symbols to keep is left out.
- `AssumptionCache.cpp`, the other analyses and scripts of the tree, and headers that only declare are left out; they would add members that follow from one body.
