# Formal model of a JavaScript engine's kernels

A Dafny model of ten self-contained parts of the engine, each with its main properties proved for all inputs,
all runs or all reachable states.

- **Bytecode linker** (`Bytecode`, `Relocation`, `Linker`, `MergeLaws`, `Machine`, `ControlFlow`, `LinkedRuns`, `LineMap`). Instructions, their
  encoding, the in-place relocating walk over a byte array, the chunk class with its side tables, and a small step
  machine (constants, jumps, try frames, throws, closures, calls, returns). Whole runs of merged code simulate the
  dependency's runs, through whatever an environment does between them; with functions of both modules about, they are
  the runs of the two modules side by side; merging is associative. A call returns to its caller, and a throw lands in its
  catch, whatever the run between them does above the caller's part of the stack.
- **Agents** (`WaitNotify`, `WaitNotifyInvariant`, `WaitNotifyTheorems`, `WaitRequests`, `NotifyRequests`,
  `SharedBytes`, `Broadcast`). Waiting,
  notifying and broadcasting as step systems with one step for each section under a lock; timeouts and spurious
  wakeups are steps of their own and may land between any two others. One inductive invariant carries conservation,
  order, tidiness and freedom from deadlock; the last is claimed without any spurious wakeup. What a caller asked for, an
  index, a timeout or a count, is followed from its event to every later state.
- **Property descriptors** (`OrderedMap`, `Descriptors`, `DescriptorLaws`). The encoding of descriptors in an
  ordered map refines an abstract map from names to descriptors, over exactly the sets of names that are not accessor
  keys of each other.
- **BigInt and doubles** (`Arith`, `Double`, `BigIntOps`). Doubles are bit fields; exact values are integers scaled
  by 2^1074.
- **DataView** (`ArrayBuffers`, `BufferHistories`, `DataViews`, `ByteOrder`, `DataViewElements`, `DataViewContents`).
  User code that a coercion calls is a list of resizes, detaches and byte writes. What any such list leaves of a buffer;
  exactly which views can be made and which accesses succeed; what a get reads after a set, kind by kind.
- **String literals and templates** (`Unicode`, `StringLiterals`, `StringFaults`, `TemplateCooking`, `CookGrammar`). The
  string decoder accepts exactly a stated grammar and refuses the rest for stated faults; template cooking has its own
  grammar, commutes with newline normalisation, and is compared with the decoder piece by piece.
- **Tokenizer** (`Lexemes`, `LexicalRules`, `Numbers`, `NumberGrammar`, `NumericLiterals`, `Names`, `NameGrammar`,
  `Punctuators`, `BracketMatch`, `Slashes`, `RegexGrammar`, `Branches`, `Tokens`, `TemplateTexts`, `Lexing`, `Closings`,
  `Divisions`, `Substitutions`). The main loop accepts a text exactly when it is a sequence of lexemes, and its tokens are
  theirs; grammars that the branches accept exactly; what a slash means after a closing bracket; which divisions are taken
  for regular expressions; where the end of a substitution is found and where it should be.
- **Early errors** (`Syntax`, `StaticSemantics`, `EarlyErrorLaws`, `EarlyErrorSpec`, `DeclarationRules`). Which places are
  checked for clashing names, as a list of requirements, with the verdict independent of statement order and compared with
  the language's rules, which are said of the program directly.
- **Eval scan** (`EvalScan`, `EvalOccurrences`). The early-exit bit scan against the set of all occurrences, as it walks
  them and as they are meant.
- **Read-eval-print loop** (`Repl`, `ReplLaws`, `ReplReading`, `ReplTemplates`). The completeness automaton, its verdict on
  every input, and exactly which templates it takes for what they are.

Where the source updates state in place or loops, there is a class or a method with loops (`Linker.Chunk`,
`Relocation.AdjustBytecodeOffsets`, `SharedBytes.SharedBuffer`, `Descriptors.PropertyMap`, `ArrayBuffers.ArrayBuffer`,
`DataViewElements.DataView`, `EvalScan.Scanner`, the tokenizer and validator methods), proved equal to a
specification function about which the theorems are stated.

Modelling conventions: `usize` values that only count or index are unbounded naturals; `u8`, `u16`, `u32` and `i128`
widths are explicit. `checked` is the build's overflow-checks setting: with it an overflowing addition panics, without
it the sum wraps; a panic is `None`. Dafny's `char` is a Unicode scalar value, as Rust's is. Bit masks are sets of flags.

## What the proofs found

1. A try statement without a catch binding stores 0xffff as its binding index (`src/core/compiler.rs:2526`), and the
   virtual machine reads that value as "none" (`src/core/vm/runner.rs:5993-6017`), but the linker relocates it like a
   constant index. Merged onto a base whose number of constants is no multiple of 2^16, the merge panics with overflow
   checks (`Machine.BindinglessTryPanics`) and without them the try stores what it catches in the global that the base's
   last constant names (`Machine.BindinglessTryIsCaptured`). `Linker.RelocationKeepsMeaningIff` gives the exact condition.
2. Opcode 111 is emitted (`src/core/compiler.rs:6326`) and decodes, but the linker's walk panics on it
   (`Machine.UnwalkableOpcodePanics`).
3. A line entry recorded at the very end of the base competes with the dependency's entry for offset 0 after a merge;
   `LineMap.LookupAfterMergeExactly` says exactly when.
4. A descriptor does not survive a write and a read exactly when it is all-flags data whose value is itself an internal
   property (`DescriptorLaws.RoundTrip`), and names that are accessor keys of each other interfere (`DescriptorLaws.FrameIff`).
5. The 64-bit DataView setters write 0 for values outside `i128`; a read gets the right residue exactly when the value fits
   or is a multiple of 2^64 (`DataViewElements.GetAfterSet`).
6. String escapes go through a radix parser that skips a leading plus sign, so `\x+7` is accepted
   (`StringLiterals.PlusSignAccepted`); an escaped character above U+FFFF is cut to 16 bits
   (`StringLiterals.IdentityEscapeKeepsCharacter`).
7. A surrogate in braces (`\u{d800}`) is valid in a template (section 12.9.4 of ECMA-262) and in string literals here, but
   cooking refuses it (`TemplateCooking.BracedSurrogateRefused`).
8. The end of a `${...}` is found by counting braces wherever they stand. It is the end the language gives exactly when
   the braces in strings, comments, regular expressions and the text of nested templates sum to zero and never bring the
   count below zero before (`Substitutions.RightEndIff`); a piece disturbs in no substitution exactly when its own braces
   balance (`Substitutions.HarmlessIff`). So a template with a quoted brace in a substitution is refused
   (`Substitutions.QuotedBraceRefused`). Byte offsets of tokens inside a substitution are relative to the substitution's
   own text; only lines and columns are adjusted.
9. Number literals stray from the language exactly when a prefix has no digits or an identifier or a digit follows at
   once (`NumericLiterals.StraysIff`): `0xn` is a big integer, `1name` a big integer and a name, `0b12` two numbers
   (`NumberGrammar.StrayLiterals`). Names stray exactly when they have a hash sign after the first character, a signed
   escape such as `\u{+41}`, or a hash sign that no start of a name follows (`NameGrammar.StraysIff`).
10. After an operand of one token, or the name of a variable or property, a slash divides exactly when that is no
    template, no regular expression and no name that the tokenizer has made a keyword, such as `async`, `as` or
    `default` after a dot (`Divisions.DividesIff`). After those the slash begins the regular expression that stands there,
    or is an error when none does (`Divisions.SlashAfterOperand`). So `async/2` and `` `a`/2 `` are refused, and
    `` `a`/2/1 `` is read as a template, a regular expression and a number (`Divisions.DividedAsyncRefused`,
    `Divisions.DividedTemplateRefused`, `Divisions.DividedTwiceRead`).
11. On the declared names of lists, loop heads, switch blocks and catch clauses (sections 14.2.1, 14.7.4.1, 14.7.5.1,
    14.12.1, 14.15.1 and B.3.4 of ECMA-262) the verdict of the early-error passes is the language's exactly when, at every
    place, no lexical name is declared by `var` in a loop head, no name of a lexical loop head is repeated or declared by
    `var` in the loop's body, and no name of a catch pattern is declared by `var` in the handler
    (`EarlyErrorSpec.VerdictIsLanguagesIff`, `DeclarationRules.LawfulIff`). So `let x; for (var x of []);`, `for (let x of []) { var x; }` and
    `try {} catch ([x]) { var x; }` pass.
12. `eval_ast_scan` is documented to return a subset of its mask. It does so for every program exactly for the masks that
    `EvalScan.SubsetOfMaskIff` names. Within its mask it returns exactly the flags of the constructs it is meant to find
    when every masked flag raised beside the point is also meant, and every masked flag of what it does not look at is
    also raised in view, and only then (`EvalOccurrences.ScanRightIff`). `arguments[0]` raises the strict-mode flag,
    `arguments++` and `[arguments] = []` do not, and what stands inside `super[...]` or after `extends` is not looked at.
13. The completeness test reads a template as plain text up to the next bare backtick, where each `${` opens a brace and
    each bare `}` closes one. It goes over a template, wherever that stands, exactly when this reading is closed and
    balanced (`ReplTemplates.PassedOverIff`, `ReplTemplates.AsDocumentedIff`): one substitution without nested templates
    exactly when its code has no closing brace (`ReplTemplates.SubstitutionIff`), template text likewise
    (`ReplTemplates.TextIff`). When it goes over all of them the verdict is the documented one
    (`ReplTemplates.DocumentedVerdict`). So after `` `${ {} }`( `` the test answers "complete".
14. A plain call compares the low eight bits of its argument count with the function's arity
    (`src/core/vm/runner.rs:598-600`), so when there are more arguments than parameters but 256 fewer (or 512, and so on)
    would be too few, as for 256 arguments and one parameter, the padding is computed below zero. `ControlFlow.CallEnters`
    says that this happens exactly then, and what a call does in every other case.

## Model

| member | source | states |
|---|---|---|
| Bytecode.FetchEncode | src/core/opcode.rs:526-610 | reading back an instruction encoded in the operand layout gives the instruction, at any place and whatever follows |
| Bytecode.EncodeFetch | src/core/opcode.rs:526-610 | what is fetched encodes to the bytes it was fetched from, and is valid |
| Bytecode.FetchAtBoundary | src/core/opcode.rs:526-610 | at every instruction boundary of assembled code the fetch yields that instruction |
| Bytecode.TablesAgree | src/core/opcode.rs:526-610 | the linker's own table of operand layouts agrees with the machine's on every opcode but 111, 115 and 116, which it does not know |
| Relocation.AdjustU16At | src/core/opcode.rs:612-624 | the little-endian u16 in the buffer is the old one plus the offset; a position past the end is left alone; overflow panics only in checked builds |
| Relocation.AdjustU32At | src/core/opcode.rs:625-642 | the same for u32, which panics on overflow in every build |
| Relocation.AdjustBytecodeOffsets | src/core/opcode.rs:526-610 | the loop over the array leaves exactly the relocated code, or reports the panic |
| Relocation.RelocateAssembled | src/core/opcode.rs:526-610 | the byte walk over assembled code is instruction-by-instruction shifting; lengths and boundaries do not move |
| Linker.Chunk.WriteByte | src/core/opcode.rs:360-362 | appends the byte |
| Linker.Chunk.WriteU16 | src/core/opcode.rs:368-371 | appends the two little-endian bytes |
| Linker.Chunk.WriteU32 | src/core/opcode.rs:373-378 | appends the four little-endian bytes |
| Linker.Chunk.AddConstant | src/core/opcode.rs:380-384 | appends the constant; the returned u16 names it exactly while the pool has at most 65536 entries |
| Linker.Chunk.RecordLine | src/core/opcode.rs:386-395 | records the position at the end of the code unless the line is 0 or the last entry has the same position |
| Linker.Chunk.MergeDependencyChunk | src/core/opcode.rs:413-512 | the chunk becomes the specified merge in every table, and the start of the dependency is returned |
| Linker.Chunk.MergeIpSets | src/core/opcode.rs:432-512 | every IP of the dependency enters the IP-keyed sets shifted, and nothing else changes |
| Linker.Chunk.MergeIpMaps | src/core/opcode.rs:432-512 | every IP-keyed map entry of the dependency is stored under its shifted IP |
| Linker.Chunk.MergeLines | src/core/opcode.rs:473-475 | the line entries follow, shifted |
| Linker.RelocationKeepsMeaningIff | src/core/opcode.rs:526-642 | a relocated instruction names the same target, constants and binding if and only if its operands leave room for the offsets, its opcode is known to the walk, and it is not a binding-less try met by a constant offset |
| MergeLaws.MergeKeepsBase | src/core/opcode.rs:413-512 | code, constants, lines and IP tables of the base are untouched below the seam |
| MergeLaws.MergeCarriesDependency | src/core/opcode.rs:413-512 | for a base whose tables lie inside its code, the tables and constants above the seam answer as the dependency's do, shifted |
| MergeLaws.MergeCarriesLines | src/core/opcode.rs:459-475 | every line entry of the dependency follows those of the base, shifted, with its position |
| MergeLaws.MergeDeclares | src/core/opcode.rs:498-512 | a name is declared in the merged chunk if and only if in one of the two; an alias answers as in the dependency if that knows it, else as in the base |
| MergeLaws.MergesDeclare | src/core/opcode.rs:498-512 | after any list of merges a name is declared if and only if some chunk of the list declares it |
| MergeLaws.MergesAlias | src/core/opcode.rs:498-512 | and an alias answers as in the last chunk that knows it |
| MergeLaws.MergeKeepsLocated | src/core/opcode.rs:413-512 | IPs inside the code and a sorted line map are kept by merging |
| MergeLaws.MergeKeepsWellFormed | src/core/opcode.rs:413-512 | merging whole-instruction code gives whole-instruction code |
| MergeLaws.ShiftTwice | src/core/opcode.rs:612-642 | relocating an instruction twice is relocating it once by the sums, panics and wrap-around included |
| MergeLaws.ShiftAllTwice | src/core/opcode.rs:526-642 | the same for code |
| MergeLaws.ShiftAllConcat | src/core/opcode.rs:526-610 | relocation distributes over concatenation |
| MergeLaws.CodeAssociates | src/core/opcode.rs:413-512 | relocating b followed by relocated c is relocating b and, by the summed offsets, c |
| MergeLaws.MergeAssociates | src/core/opcode.rs:413-512 | for whole-instruction code whose summed offsets fit the operands, (a+b)+c and a+(b+c) are the same chunk in every table, or both panic |
| Machine.ExecuteMoves | src/core/vm/runner.rs:1556-1564 | an instruction and its relocated form do the same to a state, up to the offset |
| Machine.FetchMoves | src/core/opcode.rs:413-512 | at a boundary of the dependency the merged code holds the shifted instruction above the seam |
| Machine.StepMoves | src/core/vm/runner.rs:202-243 | one step of the merged chunk above the seam is the dependency's step, moved |
| Machine.RunMoves | src/core/vm/runner.rs:2109-2125 | so is any number of steps: the whole run is simulated, outcomes included |
| Machine.RunThroughMoves | src/core/vm/runner.rs:2109-2125 | the simulation goes on through instructions handed to an environment that treats moved states alike: the same requests and the same end, moved |
| LinkedRuns.StepsApart | src/core/vm/runner.rs:202-243 | from any instruction of either module, whatever functions the state holds, a merged step is the step of the module the state stands in, with its own code and constants |
| LinkedRuns.RunsApart | src/core/vm/runner.rs:2109-2125 | over any number of steps and any answers of an environment, with functions of both modules on the stack, in globals and in frames, the merged chunk hands out and ends as the two modules side by side |
| Machine.StepOk | src/core/vm/runner.rs:3566-3670 | steps from instruction boundaries lead to instruction boundaries |
| Machine.StepKept | src/core/vm/runner.rs:443-660 | a step of the base that does not crash is the same step in the merged chunk |
| Machine.RunKept | src/core/vm/runner.rs:443-660 | so is any number of steps of the base, when its functions start inside it |
| Machine.MoveThrowing | src/core/vm/runner.rs:5969-5982 | a throw lands in the moved catch frame with the moved stack |
| Machine.MoveReturning | src/core/vm/runner.rs:202-243 | a return leads to the moved caller, dropping the same try frames |
| Machine.BindinglessTryPanics | src/core/opcode.rs:526-642 | a binding-less try anywhere in the dependency makes a checked merge panic, unless the base has a multiple of 2^16 constants |
| Machine.BindinglessTryIsCaptured | src/core/vm/runner.rs:5993-6017 | in an unchecked merge it is fetched and executed at its shifted place as a try that binds the base's last constant |
| Machine.UnwalkableOpcodePanics | src/core/opcode.rs:600-608 | code holding opcode 111, 115 or 116 at any instruction boundary makes the merge panic |
| ControlFlow.StepKeepsNesting | src/core/vm/runner.rs:5993-6023 | try frames stay nested in the call frames at every step |
| ControlFlow.BottomKept | src/core/vm/runner.rs:202-243 | a run that takes nothing from below a floor leaves the stack, frames and try frames below it as they were, whatever the environment does above |
| ControlFlow.CallEnters | src/core/vm/runner.rs:443-660 | a plain call starts the function over a new frame, each parameter its argument or undefined; it crashes exactly when surplus arguments wrap below the arity |
| ControlFlow.CallReturns | src/core/vm/runner.rs:202-243 | after any run of the function above its floor its return restores the caller: callee and arguments replaced by the result, frames and try frames as before the call |
| ControlFlow.ThrowLands | src/core/vm/runner.rs:5969-6017 | a throw after any run of a try block above its floor lands at the catch target with stack, frames and outer try frames as at the start of the block, the thrown value bound |
| ControlFlow.BlockEnds | src/core/vm/runner.rs:5969-6024 | the end of a try block takes down that block's try frame only; a throw instruction throws the top of the stack |
| ControlFlow.BranchesChoose | src/core/vm/runner.rs:2109-2126 | jumps go to their target exactly on the stated truth of the value they take off |
| ControlFlow.HandedOutIff | src/core/vm/runner.rs:63-200 | exactly which instructions are handed out, with their opcode, operands or constant |
| LineMap.BinarySearch | src/core/opcode.rs:397-403 | a hit, or the insertion point |
| LineMap.GetLineColForIp | src/core/opcode.rs:397-403 | the position of an entry with the greatest offset not above the IP, or None when every entry lies above it |
| LineMap.RunsStayLocated | src/core/opcode.rs:386-395 | over any run of writes, records and merges the line map stays sorted and within the code |
| LineMap.RecordAnswers | src/core/opcode.rs:386-403 | a recorded position is an answer from the end of the code on, every answer below stays, and no entry is added when the last one has that position |
| LineMap.NothingIff | src/core/opcode.rs:397-403 | a lookup has no answer exactly when every entry lies above |
| LineMap.LookupAfterMergeExactly | src/core/opcode.rs:397-475 | which positions a lookup above the seam may give: the dependency's own, and a trailing base entry exactly when the dependency has only its start before the IP |
| LineMap.LookupAfterMerge | src/core/opcode.rs:397-475 | with base entries below the base's end, lookups answer as in the dependency |
| WaitNotifyInvariant.ReachableInv | src/js_agent.rs:129-198 | the inductive invariant: lock ownership, queue contents, waiter states and notify progress agree in every reachable state |
| WaitNotifyTheorems.WakeupsConserved | src/js_agent.rs:129-198 | wakeups counted by all notify calls, those in progress included, are the waiters flagged notified, call by call |
| WaitNotifyTheorems.WaitResult | src/js_agent.rs:136-167 | a wait returned true exactly if one notify counted its waiter; a timed-out waiter was never counted |
| WaitNotifyTheorems.IncompleteWaiterQueuedOnce | src/js_agent.rs:136-167 | a waiter not complete stands exactly once in its queue |
| WaitNotifyTheorems.WakesInOrder | src/js_agent.rs:171-197 | when notify marks a waiter every waiter enqueued earlier at that index is complete |
| WaitNotifyTheorems.LookupSeesEveryWaiter | src/js_agent.rs:171-176 | the queue notify takes holds every incomplete waiter of the index |
| WaitNotifyTheorems.NotifyWakesEnough | src/js_agent.rs:171-197 | a notify wakes at most its limit, and below it leaves no waiter of the queue it locked incomplete |
| NotifyRequests.NeverMoreThanAsked | src/js_agent.rs:171-197 | in every later state a notify begun with count k has counted at most k |
| NotifyRequests.WakesAsAsked | src/js_agent.rs:171-197 | a finished notify that was given no count, or counted fewer than asked, leaves complete every waiter of the queue at its index when it took the queue lock |
| NotifyRequests.WakesEveryWaiter | src/js_agent.rs:171-197 | so every waiter of that index that was not yet complete then |
| WaitRequests.FailsOnlyWhenTimeIsUp | src/js_agent.rs:136-167 | in every later state a wait's waiter stands at the index asked for, and only a wait with a timeout whose time was up comes to false |
| WaitRequests.SpuriousWakeupsChangeNothing | src/js_agent.rs:147-158 | a spurious wakeup of a waiter that was not notified leads back to the same state |
| WaitRequests.WakingDecides | src/js_agent.rs:147-158 | a notified waiter comes to true even with its time up, an unnotified one to false when its time is up, and without a timeout it is never up |
| WaitNotifyTheorems.NoLostWakeup | src/js_agent.rs:129-198 | a notified waiter parked on its condvar has been signalled |
| WaitNotifyTheorems.QueuesAreTidy | src/js_agent.rs:159-197 | no empty queue stays in the map, and a returned wait is in no queue |
| WaitNotifyTheorems.LocksInOrder | src/js_agent.rs:136-197 | in every reachable state a call that wants the queue lock owns no lock, one that wants a state lock owns no state lock, and none owns two state locks |
| WaitNotifyTheorems.BlockedOnlyByRequest | src/js_agent.rs:136-197 | a call whose requested lock is free can step without any spurious wakeup, unless it is parked for good |
| WaitNotifyTheorems.SomeHolderCanStep | src/js_agent.rs:136-197 | whenever a lock is held some holder can step |
| WaitNotifyTheorems.NoDeadlock | src/js_agent.rs:136-197 | without any spurious wakeup, in every reachable state some call can step or every unfinished call is parked without a time limit and counted by no notify |
| SharedBytes.SharedBuffer.Read | src/js_agent.rs:88-95 | the bytes of the range, or None when it overflows or leaves the buffer |
| SharedBytes.SharedBuffer.Write | src/js_agent.rs:97-110 | the range is overwritten, or nothing changes and false is returned |
| SharedBytes.SharedBuffer.CompareExchange | src/js_agent.rs:112-127 | returns the old bytes and replaces them exactly when they equal the expected ones |
| SharedBytes.OverwrittenReads | src/js_agent.rs:97-110 | a write reads back and leaves every other byte alone |
| SharedBytes.OneWinner | src/js_agent.rs:112-127 | of any number of racing exchanges of one expected value, exactly one succeeds when it is there, else none |
| Broadcast.WritesAccountedFor | src/js_agent.rs:200-213 | slot writes not yet announced are those of senders between the write and the bump |
| Broadcast.AwaitSeesABroadcast | src/js_agent.rs:215-225 | a waiting agent gets a buffer no older than the generation it saw, newer than the one it had seen |
| Broadcast.NoLostBroadcast | src/js_agent.rs:200-225 | below 2^32 broadcasts an agent parked without a signal has seen all of them |
| Broadcast.HoldersCanStep | src/js_agent.rs:200-225 | the data lock's holder can always step, and the generation lock's holder waits only for it |
| Broadcast.NoDeadlock | src/js_agent.rs:200-225 | without any spurious wakeup, in every reachable state some call can step or every unfinished call is an agent parked with no newer generation than the one it saw |
| Broadcast.UpToDateSeesAll | src/js_agent.rs:200-225 | below 2^32 broadcasts such an agent has seen every one of them |
| Broadcast.ParksUntilSignalled | src/js_agent.rs:215-225 | an agent that has seen the generation parks unsignalled and does not go on by itself; a spurious wakeup leads it back to the same state, or on when there is something newer |
| Descriptors.PropertyMap.WriteToLegacyMap | src/core/property_descriptor.rs:176-220 | the entries become the specified encoding, insertion order included |
| Descriptors.PropertyMap.WriteAttrs | src/core/property_descriptor.rs:511-516 | the descriptor of a present key is rewritten with the given flags |
| Descriptors.PropertyMap.MarkFlag | src/core/property_descriptor.rs:296-386 | one flag of a present key is set or cleared |
| Descriptors.PropertyMap.PutGetter | src/core/property_descriptor.rs:419-427 | the getter is set, the setter found inline or hidden is kept |
| Descriptors.PropertyMap.PutSetter | src/core/property_descriptor.rs:429-437 | the setter is set, the getter is kept |
| Descriptors.PropertyMap.DropGetter | src/core/property_descriptor.rs:439-455 | the getter goes, and with it the property when no setter is left |
| Descriptors.PropertyMap.DropSetter | src/core/property_descriptor.rs:457-472 | the setter goes, and with it the property when no getter is left |
| Descriptors.PropertyMap.RemoveAll | src/core/property_descriptor.rs:223-227 | the three entries of the key are removed |
| DescriptorLaws.RoundTrip | src/core/property_descriptor.rs:176-284 | reading a written descriptor gives it back if and only if it is not all-flags data holding an internal property |
| DescriptorLaws.ReadsWithoutProperty | src/core/property_descriptor.rs:229-284 | without an inline property a bare value reads as data with every flag, hidden accessors as an enumerable, configurable accessor |
| DescriptorLaws.StoredAs | src/core/property_descriptor.rs:176-220 | all-flags data is stored bare, everything else as an inline property with its flags, accessors under the hidden keys besides |
| DescriptorLaws.AccessorFlags | src/core/property_descriptor.rs:400-437 | a getter or setter put on no accessor makes an enumerable, configurable one, and keeps the flags of an accessor |
| DescriptorLaws.MarkedIff | src/core/property_descriptor.rs:296-390 | a mark is found exactly on a present key whose flag is off, the read-only mark on data only |
| DescriptorLaws.WriteFrame | src/core/property_descriptor.rs:176-284 | no unrelated name's descriptor changes |
| DescriptorLaws.FrameIff | src/core/property_descriptor.rs:176-284 | the frame holds for all maps and descriptors if and only if neither name is the accessor key of the other |
| DescriptorLaws.EraseFrame | src/core/property_descriptor.rs:223-227 | removing a key changes no unrelated name's descriptor |
| DescriptorLaws.WriteKeepsOrder | src/core/property_descriptor.rs:176-220 | rewriting a present key leaves the visible keys in their order |
| DescriptorLaws.MarkKeepsOrder | src/core/property_descriptor.rs:296-386 | so does changing a flag |
| DescriptorLaws.WriteTwice | src/core/property_descriptor.rs:176-220 | a second write of the same kind overrides the first, entry order included |
| DescriptorLaws.MarkSetsOneFlag | src/core/property_descriptor.rs:296-390 | a mark keeps the kind, sets its flag and no other, and is what the has-mark query reports |
| DescriptorLaws.MarksCommute | src/core/property_descriptor.rs:296-386 | marks of different flags commute as whole maps |
| DescriptorLaws.PerformRefines | src/core/property_descriptor.rs:296-472 | over any names that are not accessor keys of each other, each helper does to the abstract map what it should and nothing else |
| DescriptorLaws.RunRefines | src/core/property_descriptor.rs:176-516 | so does any sequence of helpers |
| DescriptorLaws.RefinesIffApart | src/core/property_descriptor.rs:176-516 | the refinement holds for all operations on a set of names if and only if none is the accessor key of another |
| DescriptorLaws.VisibleApart | src/core/property_descriptor.rs:176-516 | names without the accessor prefixes are such a set |
| DescriptorLaws.SetOrderIrrelevant | src/core/property_descriptor.rs:419-437 | getter then setter gives the same descriptor as setter then getter |
| Double.TruncExact | src/core/vm/bigint.rs:49-60 | truncation on the bit fields drops exactly the part below the units digit |
| Double.TruncTestExact | src/core/vm/bigint.rs:49-60 | a double equals its truncation exactly when it is an integer |
| Double.FloorExact | src/core/vm/bigint.rs:85-106 | floor on the bit fields is the greatest integer not above the value, carries into the next binade included |
| Double.ClassesByBits | src/core/vm/bigint.rs:49-106 | infinities, NaNs and finite doubles by their 64 bits |
| Double.OrderedByBits | src/core/vm/bigint.rs:49-106 | finite doubles without a sign have the order of their bits; the least is one unit of the scale, and 1 is 2^1074 |
| BigIntOps.LateBranchesUnreachable | src/core/vm/bigint.rs:60-83 | after the truncation test the two late None branches are never taken |
| BigIntOps.IntegralDecodeExact | src/core/vm/bigint.rs:49-83 | the decode succeeds exactly on integral doubles, with exactly their value |
| BigIntOps.ComparisonExact | src/core/vm/bigint.rs:85-106 | for every non-NaN bit pattern the comparison is the order of the exact values |
| BigIntOps.TruncateToBits | src/core/vm/bigint.rs:252-272 | the builtin's remainder, correction and wrap compute asUintN and asIntN |
| BigIntOps.AsUintNUnique | src/core/vm/bigint.rs:253-271 | asUintN is the only congruent number in [0, 2^n) |
| BigIntOps.AsIntNUnique | src/core/vm/bigint.rs:253-271 | asIntN is the only congruent number in [-2^(n-1), 2^(n-1)) |
| BigIntOps.AsIntNOfAsUintN | src/core/vm/bigint.rs:253-271 | asIntN(n, asUintN(n, x)) = asIntN(n, x) |
| BigIntOps.NestedWidths | src/core/vm/bigint.rs:253-271 | nested widths collapse to the smaller one |
| BigIntOps.AsUintNRespectsSumAndProduct | src/core/vm/bigint.rs:253-271 | asUintN may be applied to operands of sums and products first |
| DataViews.ConstructedInside | src/core/vm/dataview.rs:795-869 | a constructed view lies inside the buffer as re-read after every coercion and the prototype lookup |
| BufferHistories.LengthAfter | src/core/vm/dataview.rs:795-869 | after any sequence of user actions a buffer that is not detached has the length of the last resize it took |
| BufferHistories.UntouchedByteKept | src/core/vm/dataview.rs:795-869 | a byte never stored to and never outside the buffer keeps its value |
| BufferHistories.ReturnedByteIsZero | src/core/vm/dataview.rs:795-869 | a byte that was outside the buffer and not stored to since is zero |
| BufferHistories.LastStoreHolds | src/core/vm/dataview.rs:795-869 | a byte inside the buffer holds the last store to it |
| BufferHistories.ConstructIff | src/core/vm/dataview.rs:795-869 | exactly which views can be constructed, and which bytes the one made shows |
| BufferHistories.RefusalKinds | src/core/vm/dataview.rs:795-869 | when no coercion throws, the error is for the type exactly when the buffer is found detached, else for the range |
| BufferHistories.CoercionsPassOn | src/core/vm/dataview.rs:795-869 | what a coercion throws is passed on unless an earlier check failed; a number that is no index is out of range |
| DataViews.CheckBoundsExact | src/core/vm/dataview.rs:944-996 | the checks accept exactly the elements among the bytes the view shows, and say where these stand in the buffer |
| DataViews.ValidatedGetInBounds | src/core/vm/dataview.rs:922-998 | a validated get lies within the current length, whatever the coercion did |
| DataViews.ValidatedSetInBounds | src/core/vm/dataview.rs:1001-1085 | so does a validated set, after both coercions |
| DataViews.StepsOk | src/core/vm/dataview.rs:795-1085 | views stay inside fixed-length buffers over any run |
| DataViews.EveryGetInBounds | src/core/vm/dataview.rs:922-998 | over every run of resizes, detaches, constructions, gets and sets |
| DataViews.EverySetInBounds | src/core/vm/dataview.rs:1001-1085 | the same for sets |
| DataViewElements.DataView.ValidatedGet | src/core/vm/dataview.rs:922-998 | the method is the specified validation, user code included |
| DataViewElements.DataView.ValidatedSet | src/core/vm/dataview.rs:1001-1085 | immutability first, then offset, value and bounds |
| DataViewElements.DataView.WriteBytes | src/core/vm/dataview.rs:208-224 | the store loop writes each byte only where the buffer still has room |
| DataViewElements.DataView.SetElement | src/core/vm/dataview.rs:146-317 | the setters, 64-bit ones included, are the specified set |
| DataViewElements.DataView.GetElement | src/core/vm/dataview.rs:121-281 | the getters are the specified get |
| DataViewElements.ToUintIsResidue | src/core/vm/dataview.rs:1088-1116 | the number conversions are truncation and residue modulo 2^bits |
| DataViewElements.GetAfterSet | src/core/vm/dataview.rs:121-582 | a get after a set returns the written integer reduced into the reader's range: always for numbers, and for BigInts if and only if they fit an i128 or are multiples of 2^64 |
| DataViewContents.GetReadsSet | src/core/vm/dataview.rs:121-582 | a get after a set by the same kind reads, for each of the eight kinds, the integer reduced into that kind's range, written out |
| DataViewContents.HoldsUnique | src/core/vm/dataview.rs:1088-1116 | each kind's representative is unique |
| DataViewContents.SetStoresBytes | src/core/vm/dataview.rs:146-582 | a set changes exactly the 1, 2, 4 or 8 bytes at the element, to the bytes of the integer, least significant first or last |
| DataViewContents.SetSucceedsIff | src/core/vm/dataview.rs:1001-1085 | a set succeeds exactly when the buffer may change, both coercions succeed and the element lies among the bytes shown after them |
| DataViewContents.GetSucceedsIff | src/core/vm/dataview.rs:922-998 | the same for gets |
| DataViewContents.GetErrors | src/core/vm/dataview.rs:922-998 | which error a get throws in every other case |
| DataViewContents.SetErrors | src/core/vm/dataview.rs:1001-1085 | which error a set throws, and what it leaves of the buffer |
| DataViewContents.WrongReceiver | src/core/vm/dataview.rs:922-942 | a receiver that is no DataView is refused for its type before anything is coerced |
| DataViewElements.SetFrame | src/core/vm/dataview.rs:146-582 | no other byte changes, nor the length; a set that throws writes nothing |
| DataViewElements.OtherOrderSwaps | src/core/vm/dataview.rs:121-317 | the other byte order reads the byte-reversed number |
| ByteOrder.RoundTrip | src/core/vm/dataview.rs:170-317 | decoding what was encoded in the same order is the residue modulo 2^(8w) |
| ByteOrder.Onto | src/core/vm/dataview.rs:170-317 | encoding what was decoded gives the bytes back |
| Unicode.PairsInverse | src/core/tokenizer.rs:2281-2293 | splitting into a surrogate pair is the inverse of joining one |
| StringLiterals.ParseStringLiteral | src/core/tokenizer.rs:2164-2389 | the index-driven loop decodes as specified, errors included |
| StringLiterals.ReadElement | src/core/tokenizer.rs:2175-2383 | one turn of that loop |
| StringLiterals.ReadUnicode | src/core/tokenizer.rs:2255-2321 | the two forms of Unicode escapes |
| StringLiterals.ParsesPieces | src/core/tokenizer.rs:2164-2389 | any list of well-formed pieces and the closing quote parses to the pieces' units and stops at the quote |
| StringLiterals.ParsedIsPieces | src/core/tokenizer.rs:2164-2389 | whatever parses is such a list |
| StringLiterals.AcceptsExactlyPieces | src/core/tokenizer.rs:2164-2389 | so the decoder accepts exactly that grammar, with exactly those units |
| StringFaults.FailsIff | src/core/tokenizer.rs:2164-2389 | the decoder refuses a text for a fault exactly when well-formed pieces come before where that goes wrong, each fault spelled out |
| StringLiterals.PrintThenParse | src/core/tokenizer.rs:2164-2389 | printing any sequence of code units, lone surrogates included, and parsing gives it back |
| StringLiterals.SpellingsOfUnit | src/core/tokenizer.rs:2164-2389 | four digits after `\u`, the same in braces, two after `\x`, and `\0`, spell the unit they should |
| StringLiterals.ContinuationVanishes | src/core/tokenizer.rs:2360-2383 | a backslash before a line end spells nothing |
| StringLiterals.StrictUnlessPlus | src/core/tokenizer.rs:2255-2345 | an accepted escape strays from the language's digits exactly when they start with a plus sign |
| StringLiterals.IdentityEscapeKeepsCharacter | src/core/tokenizer.rs:2355-2359 | an escaped ordinary character stands for itself exactly when it is one code unit |
| StringLiterals.PlusSignAccepted | src/core/tokenizer.rs:2322-2345 | a signed hexadecimal escape is accepted |
| TemplateCooking.ParseTemplateLiteralChunk | src/core/tokenizer.rs:266-439 | both loops over the slice compute the specified raw and cooked values |
| TemplateCooking.RawChunk | src/core/tokenizer.rs:267-297 | the raw loop |
| TemplateCooking.CookChunk | src/core/tokenizer.rs:299-438 | the cooking loop, None at the first invalid escape |
| CookGrammar.CooksIff | src/core/tokenizer.rs:299-438 | a chunk has a cooked value exactly when it is made of valid characters and escapes, written out, and the value is theirs |
| TemplateCooking.RawIsNormalised | src/core/tokenizer.rs:267-297 | raw is the newline-normalised source in code units |
| TemplateCooking.RawHasNoCR | src/core/tokenizer.rs:267-297 | raw never contains CR |
| TemplateCooking.NormalisingFirst | src/core/tokenizer.rs:266-439 | normalising newlines first changes neither cooked nor raw |
| TemplateCooking.CookedIsRaw | src/core/tokenizer.rs:266-439 | without a backslash cooked equals raw |
| TemplateCooking.AgreesWithLiteral | src/core/tokenizer.rs:299-438 | template and string decoding read a piece alike if and only if its digits have no sign, an escaped character is one unit, and no surrogate stands in braces |
| TemplateCooking.CooksLikeLiteral | src/core/tokenizer.rs:299-438 | a literal of such pieces cooks to what it decodes to |
| TemplateCooking.BracedSurrogateRefused | src/core/tokenizer.rs:396-413 | a surrogate in braces decodes in a string and is refused in a template |
| BracketMatch.FindMatchingOpenIndex | src/core/tokenizer.rs:1990-2004 | the greatest opening index from which opening tokens are at least as many as closing ones, for any tokens |
| BracketMatch.FindsBalancedOpen | src/core/tokenizer.rs:1990-2004 | called on a closing token: the greatest index from which they balance, or None exactly if there is none |
| Numbers.SkipDigits | src/core/tokenizer.rs:1400-1413 | the loop over digits and separators, which fails at a separator that no digit follows |
| Numbers.ReadNumber | src/core/tokenizer.rs:1366-1574 | the whole branch over the index, prefixes, big integers, fractions and exponents included |
| Numbers.DigitsIff | src/core/tokenizer.rs:1470-1482 | a run of digits is taken if and only if each separator in it stands between two digits, and to its end |
| NumberGrammar.LiteralRead | src/core/tokenizer.rs:1366-1574 | every literal of the grammar is read to its end, with its token |
| NumberGrammar.NumbersIff | src/core/tokenizer.rs:937-1574 | the branch accepts exactly the texts that begin with a literal of the grammar that ends there, and takes that literal |
| NumericLiterals.LegalIsLiteral | src/core/tokenizer.rs:1366-1574 | accepted literals that have digits are numeric literals by the productions of section 12.9.3 of ECMA-262 |
| NumericLiterals.LiteralIsLegal | src/core/tokenizer.rs:1366-1574 | every numeric literal by these productions is one of them |
| NumericLiterals.LiteralIff | src/core/tokenizer.rs:1366-1574 | so an accepted literal is one of the language if and only if it has digits |
| NumericLiterals.StraysIff | src/core/tokenizer.rs:1414-1448 | what is read is a literal of the language that ends there if and only if it has digits and neither an identifier nor a digit follows |
| NumericLiterals.LiteralAccepted | src/core/tokenizer.rs:1437-1560 | a literal of the language is accepted where it ends unless an alphabetic character that starts no identifier follows |
| NumberGrammar.StrayLiterals | src/core/tokenizer.rs:1414-1431 | 0xn is a big integer, and a name or a digit may follow at once |
| Names.ReadName | src/core/tokenizer.rs:1741-1951 | the loop over plain and escaped characters, keywords and the two keywords with an asterisk |
| Names.ReadEscaped | src/core/tokenizer.rs:1745-1805 | both forms of escapes in names |
| NameGrammar.NamesIff | src/core/tokenizer.rs:1729-1951 | the branch accepts exactly the texts that begin with a name of the grammar, and takes that name |
| NameGrammar.EscapesSpellTheName | src/core/tokenizer.rs:1865-1875 | any spelling with escapes gives the same name and never a keyword |
| NameGrammar.StraysIff | src/core/tokenizer.rs:1765-1863 | exactly which accepted names are not of the language |
| Punctuators.LongestSign | src/core/tokenizer.rs:499-1365 | what is taken is the longest punctuator of the language that stands there, an optional chain before a digit excepted |
| Slashes.FindDivides | src/core/tokenizer.rs:675-713 | whether a slash divides, from the tokens before it |
| Slashes.FindBraceEndsExpression | src/core/tokenizer.rs:2114-2162 | the same for a closing brace, through the matching one |
| Closings.AfterParenthesis | src/core/tokenizer.rs:681-713 | after a balanced pair of parentheses a slash divides exactly when the token before the pair, line ends aside, is none of the six header words |
| Closings.AfterLoneParenthesis | src/core/tokenizer.rs:681-713 | after a closing parenthesis that matches none it divides |
| Closings.AfterBrace | src/core/tokenizer.rs:1980-2162 | after a balanced pair of braces not after a parenthesis it divides exactly when what stands before the pair precedes an object |
| Closings.AfterLoneBrace | src/core/tokenizer.rs:2114-2162 | after a closing brace that matches none it divides |
| Closings.AfterBody | src/core/tokenizer.rs:1980-2162 | after a body that follows parentheses it divides exactly for a function expression, which is told by what stands before its word |
| Slashes.ReadSlash | src/core/tokenizer.rs:674-834 | a division, or a regular expression literal with its scan and flags |
| Slashes.CheckFlags | src/core/tokenizer.rs:779-810 | the loop accepts exactly known flags without repetition and not both u and v |
| RegexGrammar.PatternIff | src/core/tokenizer.rs:732-769 | the scan ends at a slash if and only if what precedes it is a pattern of the language's grammar |
| RegexGrammar.RegexIff | src/core/tokenizer.rs:732-834 | the branch reads exactly the literals made of such a pattern that the library knows and of valid flags, and takes them whole |
| Branches.ReadBranch | src/core/tokenizer.rs:499-1974 | one turn on any other character: takes at least one character and stays inside the text, or fails |
| Tokens.TokenizeText | src/core/tokenizer.rs:441-460 | the main loop, terminating on every text, yields the specified tokens |
| Tokens.ReadTemplate | src/core/tokenizer.rs:1624-1726 | the template loop, recursing on a strictly shorter text for each substitution |
| Tokens.Turn | src/core/tokenizer.rs:460-1974 | one turn of the main loop |
| Tokens.MatchBrace | src/core/tokenizer.rs:1638-1657 | the brace-counting loop |
| Tokens.SkipBlock | src/core/tokenizer.rs:629-668 | a block comment and the line ends in it |
| Tokens.TokenizeOk | src/core/tokenizer.rs:441-1726 | offsets are byte lengths of prefixes and never decrease; templates hold n+1 strings around n substitutions, whose tokens are placed in a shorter piece of the text |
| Lexing.TokenizesIff | src/core/tokenizer.rs:441-1974 | the tokenizer accepts a text with these tokens exactly when it is a sequence of lexemes, each standing where it may, and the tokens are theirs at the byte offsets of their lexemes |
| Lexing.LexemeRead | src/core/tokenizer.rs:460-1974 | one turn reads any lexeme that may stand there, whole |
| Lexing.LexemeWritten | src/core/tokenizer.rs:460-1974 | every turn that does not fail has read a lexeme |
| TemplateTexts.TemplateIff | src/core/tokenizer.rs:1624-1726 | a template is taken exactly when it is chunks around balanced substitutions that are texts themselves, and its parts are theirs |
| LexicalRules.BlanksAre | src/core/tokenizer.rs:460-492 | white space and line ends are those of the language |
| LexicalRules.KeywordsAre | src/core/tokenizer.rs:1876-1946 | the keywords are the reserved words and four contextual ones |
| LexicalRules.WordsAre | src/core/tokenizer.rs:1860-1951 | what a name is made: private name, keyword with or without asterisk, or identifier |
| LexicalRules.AskedAre | src/core/tokenizer.rs:779-834 | the regular expression library is asked about all flags but d |
| LexicalRules.LengthInBytes | src/core/tokenizer.rs:444-453 | token offsets count the UTF-8 bytes before them |
| Tokens.EndsAtFirstSurplus | src/core/tokenizer.rs:1638-1657 | a substitution ends after the first closing brace that outweighs the opening ones, and nowhere else |
| Divisions.DividesIff | src/core/tokenizer.rs:681-713 | after an operand of one token or a name a slash divides if and only if that is no template, no regular expression and no name made a keyword |
| Divisions.SlashAfterOperand | src/core/tokenizer.rs:674-834 | otherwise the turn reads the regular expression that stands there, and fails if and only if none does |
| Divisions.MisjudgedTurn | src/core/tokenizer.rs:674-834 | the same in the main loop, which goes on after that regular expression |
| Divisions.DividedWord | src/core/tokenizer.rs:1892-1932 | a variable named async, as, await, yield, let or static, divided by any text, is refused or followed by a regular expression |
| Divisions.DividedTemplate | src/core/tokenizer.rs:681-713 | so is any template of plain text |
| Divisions.DividedAsyncRefused | src/core/tokenizer.rs:681-713 | async/2 is an error |
| Divisions.DividedTemplateRefused | src/core/tokenizer.rs:681-713 | a template divided by 2 is an error |
| Divisions.DividedTwiceRead | src/core/tokenizer.rs:732-834 | divided by 2 and by 1 it is a template, a regular expression and a number |
| Substitutions.AllDepth | src/core/tokenizer.rs:1638-1657 | the raw count of a text is its braces of code and its stray ones |
| Substitutions.RightEndIff | src/core/tokenizer.rs:1638-1657 | the count ends a substitution at its own closing brace if and only if its stray braces sum to zero and never bring the count below zero before |
| Substitutions.HarmlessPieces | src/core/tokenizer.rs:1638-1657 | when the braces of every string, comment, regular expression and nested template balance by themselves, it does |
| Substitutions.HarmlessIff | src/core/tokenizer.rs:1638-1657 | such a piece disturbs in no substitution if and only if its own braces balance |
| Substitutions.QuotedBrace | src/core/tokenizer.rs:1638-1657 | a string that holds a closing brace is such a piece that disturbs |
| Substitutions.QuotedBraceRefused | src/core/tokenizer.rs:1638-1661 | a quoted closing brace in a substitution makes the template an error |
| StaticSemantics.PushUnique | src/core/mod.rs:304-313 | names go into the set until one repeats, exactly when the list so far repeats one |
| StaticSemantics.CollectDirectLexicalNames | src/core/mod.rs:1978-2021 | fails exactly when a name repeats; otherwise the set holds the names before and those of the statement |
| StaticSemantics.CollectLexicalNames | src/core/mod.rs:1321-1327 | the same over a list |
| StaticSemantics.CollectVarDeclaredNames | src/core/mod.rs:2023-2119 | the vector grows by the var names, in order |
| StaticSemantics.ValidateStatementList | src/core/mod.rs:2130-2154 | accepts exactly if every requirement of the list holds, else reports the cause of one that fails |
| StaticSemantics.ValidateStatement | src/core/mod.rs:2156-2355 | the same for a statement |
| StaticSemantics.ValidateFunctionLike | src/core/mod.rs:1329-1385 | parameters, clashes with the body's lexical names, the function's name, then the body |
| StaticSemantics.ValidateSwitch | src/core/mod.rs:2269-2306 | the whole case block is one place, then each case |
| StaticSemantics.ValidateTry | src/core/mod.rs:2307-2344 | the catch parameter on its own and against the lexical names of the handler |
| StaticSemantics.ValidateEarlyErrors | src/core/mod.rs:2372-2374 | a program is accepted if and only if every place is free of repeated and clashing names and no function stands or is named where it may not |
| EarlyErrorLaws.OrderIrrelevant | src/core/mod.rs:2130-2355 | reordering statements in a list and in any lists inside it does not change acceptance |
| EarlyErrorSpec.CoveredCheck | src/core/mod.rs:2023-2154 | a place meets the language's rule if and only if it passes here and its loop-head names clash with nothing |
| EarlyErrorSpec.VerdictIsLanguagesIff | src/core/mod.rs:2130-2355 | over whole programs: the language's rules on declared names of sections 14.2.1, 14.7.4.1, 14.7.5.1, 14.12.1, 14.15.1 and B.3.4 of ECMA-262 hold if and only if the passes accept and no missed check fails at any depth |
| DeclarationRules.ListNamesAreDeclared | src/core/mod.rs:1978-2021 | the names that the passes collect in a list are exactly those that some statement of it declares, and repeat exactly when one is declared twice |
| DeclarationRules.LawfulIff | src/core/mod.rs:2023-2355 | the rules of the language, said of the program directly, hold exactly when the passes accept it and nothing they do not ask is broken |
| DeclarationRules.ClashRefused | src/core/mod.rs:1978-2021 | a list in which two statements declare one name is refused |
| DeclarationRules.RefusedPairs | src/core/mod.rs:2000-2021 | two classes, a let with a class, an exported class with a let, and two functions in a block are refused |
| DeclarationRules.ReportsWhatFails | src/core/mod.rs:2023-2355 | what a failing requirement is reported as |
| EarlyErrorSpec.HeadVarMissed | src/core/mod.rs:2062-2079 | a let and a var loop head of the same name pass |
| EarlyErrorSpec.HeadLexicalMissed | src/core/mod.rs:2023-2119 | a lexical loop head and a var of the same name in the body pass |
| EarlyErrorSpec.CatchPatternMissed | src/core/mod.rs:2307-2344 | a catch pattern and a var of the same name in the handler pass |
| EvalScan.Scanner.Stmt | src/core/statement.rs:429-597 | the in-place accumulation over a statement |
| EvalScan.Scanner.Expr | src/core/statement.rs:599-741 | and over an expression |
| EvalScan.EvalAstScan | src/core/statement.rs:416-427 | the driver with its early return is the full threaded scan |
| EvalScan.ScanFindsMaskedOccurrences | src/core/statement.rs:416-741 | the returned flags of the mask are exactly those that occur; early exits lose none |
| EvalScan.StmtHonest | src/core/statement.rs:429-597 | from any accumulated flags: nothing lost, nothing invented, and beyond the mask only the three unmasked flags |
| EvalScan.SubsetOfMaskIff | src/core/statement.rs:416-427 | only flags of the mask come back, for every program, if and only if the mask is empty or holds the three flags set without asking it |
| EvalOccurrences.ScanRightIff | src/core/statement.rs:416-741 | for any program and mask: the masked result is exactly the flags of the constructs that are meant if and only if the two conditions on excess and hidden flags hold |
| EvalOccurrences.RightWithoutQuirks | src/core/statement.rs:416-741 | so for every mask on programs without such constructs |
| EvalOccurrences.ReadingRaisesStrictFlag | src/core/statement.rs:638-671 | the strict flag is raised by an element access on arguments |
| EvalOccurrences.UpdateMissesStrictFlag | src/core/statement.rs:677-702 | and not by an increment of it |
| EvalOccurrences.SuperHidesKey | src/core/statement.rs:608-620 | the key of a super member is not scanned |
| EvalOccurrences.HeritageHidden | src/core/statement.rs:592-593 | what a class extends is not scanned |
| EvalOccurrences.PatternMissesStrictFlag | src/core/statement.rs:638-671 | assigning through a pattern does not raise the strict flag |
| Repl.IsCompleteInput | src/repl.rs:65-265 | the loop with its seven flags is the mode automaton; the flags exclude each other |
| Repl.InCode | src/repl.rs:205-257 | one character outside strings, comments and regular expressions |
| ReplLaws.QuotedRead | src/repl.rs:145-166 | a string is passed over whatever it holds |
| ReplLaws.CharactersAre | src/repl.rs:77-90 | white space, brackets, the characters before a regular expression and the letters of flags, each against its list |
| ReplLaws.BlockRead | src/repl.rs:107-120 | so is a block comment |
| ReplLaws.LineRead | src/repl.rs:98-105 | and a line comment |
| ReplLaws.RegExpRead | src/repl.rs:122-143 | and a regular expression with its flags |
| ReplLaws.TemplateRead | src/repl.rs:168-203 | template text folds its substitution openings and bare closing braces onto the stack; a mismatch ends the test |
| ReplLaws.PiecesRead | src/repl.rs:65-265 | reading any pieces folds their brackets onto the stack |
| ReplLaws.TailRead | src/repl.rs:258-265 | what the verdict is when the input ends inside a string, template, comment or regular expression |
| ReplLaws.FoldsIffCanBeBalanced | src/repl.rs:205-257 | a stack of expected brackets that never mismatches is the same as brackets that can be balanced by adding to them |
| ReplReading.PiecesRight | src/repl.rs:65-265 | every input is such pieces and a tail |
| ReplReading.AsksForMoreIff | src/repl.rs:65-265 | for every input: more is asked for if and only if its brackets can be balanced by adding to them, and are not balanced yet or the input ends inside a string, template, block comment or regular expression |
| ReplTemplates.PassedOverIff | src/repl.rs:52-203 | a text between backticks is passed over in every context if and only if it is read as whole pieces whose brackets balance |
| ReplTemplates.StaysOpenIff | src/repl.rs:52-265 | more is always asked for after a text that begins with a backtick if and only if its reading has no mismatch and ends open or unbalanced |
| ReplTemplates.SimpleTemplateIff | src/repl.rs:168-203 | a template without nested ones is passed over if and only if its openings and bare closing braces balance |
| ReplTemplates.AsDocumentedIff | src/repl.rs:52-203 | a template without nested ones is treated as documented in every context if and only if the brackets of its substitutions balance, and so do its openings and bare closing braces |
| ReplTemplates.SubstitutionIff | src/repl.rs:180-200 | one substitution is passed over if and only if its code has no bare closing brace |
| ReplTemplates.TextIff | src/repl.rs:188-200 | template text is passed over if and only if it has no bare closing brace |
| ReplTemplates.DocumentedVerdict | src/repl.rs:52-265 | when the templates are passed over, nested substitutions included, the verdict is the documented one |

## Left out

- Machine.Execute: every instruction outside control flow, constants, closures and plain calls is handed out as `External` with its constant looked up; `this`, `new.target`, captured cells, and calls of async, generator and class-constructor functions are not modelled.
- Machine.RunMoves: its states hold functions of the dependency only and it stops at the first instruction handed out; `Machine.RunThroughMoves` goes on through these, and `LinkedRuns.RunsApart` has functions of both modules.
- Machine.RunThroughMoves: its states and answers hold functions of the dependency only; `LinkedRuns.RunsApart` has both.
- Linker.Merge: tables the source does not merge (`top_level_locals_at_ip`, `live_import_bindings` and other module records) are left out, as is the loading of module graphs.
- WaitNotify.Apply: the value comparison that precedes an Atomics wait is not in the modelled file, so no wakeup is claimed lost or kept before the enqueueing step; clocks are reduced to "a timeout may happen".
- Broadcast.NoLostBroadcast: claimed below 2^32 broadcasts, because the generation counter wraps there.
- Thread spawning, joining, sleeping, reports and `reset_agent_state`: plumbing around the modelled sections.
- BigIntOps.BigintFromIntegralNumber: parsing of BigInt strings is a matter of the number library's digit grammar and is not modelled.
- DataViewElements.Get: the float getters and setters depend on float conversions outside the modelled files; growable shared buffers are not modelled; argument errors are reduced to their kind.
- StringLiterals.Parse: lines and columns in error messages are not modelled.
- Numbers.NumberAt: a number token keeps its literal without separators; the conversion to a double is the number library's, which accepts every literal of the grammar.
- Lexemes.Tables: Unicode tables beyond ASCII, the validity of a regular expression's pattern and whether code is a module are parameters.
- Divisions.DividesIff: what parentheses, brackets and braces end, which `Closings` characterises, and regular expressions taken for divisions, as after the `of` of a loop head, are not compared with the language, which leaves them to the parser.
- Tokens.Iterate: line and column counting and the texts of errors are not modelled.
- Substitutions.PieceOk: which slashes of a substitution begin a regular expression depends on the parser, so any division of the text into pieces is admitted in which no comment starts at a slash of the code.
- StaticSemantics.ValidateStatementList: checks inside expressions and classes and the `use strict` directive are not modelled; error messages are reduced to their cause.
- StaticSemantics.ValidateStatement: the same.
- EarlyErrorSpec.VerdictIsLanguagesIff: covers the rules it cites; imported names, functions at the top of modules, which are lexical there, and the leniency for functions in blocks of sloppy scripts (Annex B of ECMA-262) are outside.
- StaticSemantics.ValidateSwitch: the subject and the case expressions are not validated.
- StaticSemantics.ValidateFunctionLike: reserved parameter names, `await`, `yield` and the directive are not modelled.
- StaticSemantics.ValidateEarlyErrors: checks inside expressions and classes are not modelled.
- EvalScan.ExprFlags: expression forms that the scan walks alike share one constructor.
- ReplTemplates.DocumentedVerdict: which slashes begin a regular expression is left to the test's own heuristic, which its documentation calls one; a template in which the brackets of a substitution do not balance is covered by `AsDocumentedIff` only.
- Parser, compiler, module loading, the rest of the virtual machine and of the builtins, garbage collection, Intl, Temporal and the command line.
