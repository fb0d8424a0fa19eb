# A verified model of the midletpascal preverifier and its companions

The compiler turns Pascal into class files for small devices and carries a class-file preverifier. This
project models the algorithms of both whose correctness is hardest to see, and proves what they
promise. Every algorithm is written in the form of the source: classes whose methods change their
fields, arrays filled in place, loops with their invariants. Each method is proved against a specification
function or relation, and the lemmas say what that specification means.

| part | modules |
|---|---|
| ZIP inflater | `Bits`, `Huffman`, `HuffmanTable`, `TableSpace`, `Reverse`, `CodeTable`, `Rfc1951`, `FixedCodes`, `BitReader`, `Inflate`, `InflateRules`, `MatchCodes`, `MatchExample`, `DynamicExample`, `InflateExample`, `LongRunExample` |
| type merging and dataflow | `ClassTree`, `TypeMerge`, `TypeRank`, `MergeStates`, `MergeLeast`, `MaskLists`, `StateRank`, `MergeInto`, `Flow`, `FlowProgress`, `Dataflow`, `LeastFixpoint` |
| rewriting of methods | `Subroutines`, `InlinedList`, `InlineJsr`, `NewCode`, `EmittedCode`, `CodeOffsets`, `ExceptionTable`, `InlineRuns`, `Placement`, `ReturnAddresses`, `AddressPaths`, `FallingOut`, `FallenRuns`, `TwoLevels`, `LongJump`, `DeadCode`, `SecondPass`, `AfterInlining` |
| string ids and method tables | `Probing`, `StringIds`, `MethodTables` |
| constant pools and class files | `ConstantPool`, `ClassFile`, `CodeAttribute`, `TypeCodes` |
| heap structures of the compiler | `Memory`, `NameTable` |
| symbol files and stack maps | `SymbolFile`, `StackMaps` |
| shared | `Wrappers`, `Sets` |

The main results:

- **Inflating refines RFC 1951.** `Rfc1951` defines decompression of a bit string from sections 3.2.2 to
  3.2.7 of the RFC, without tables or buffers. `Inflate.Inflate` succeeds if and only if the compressed bytes
  decompress to exactly the expected number of bytes, and then the buffer holds them. The rules differ
  from the RFC at a few points of dynamic block headers; `InflateRules` says exactly for which streams
  this matters, and `InflateExample` and `LongRunExample` give a stream for each direction. `MatchCodes` proves that
  the length and distance codes cover 3 to 258 and 1 to 32768, each number once and in order.
- **The dataflow analysis ends in the least fixpoint**, with the reached instructions exactly those that are
  reachable. It rests on `merge_fullinfo_types` being the least upper bound of two types, and a merge of states
  that of two states (`MergeLeast`), and ends because every change moves up in an order of finite height. The
  result is below every fixpoint without interfaces (`LeastFixpoint`), so nothing is given up without need and the
  order of visits does not matter; with interfaces, to which anything may be assigned, it need not be.
- **Inlining subroutines and deleting dead code preserve meaning.** A structured method that does nothing with
  its return addresses but store them ends with an outcome before the rewriting if and only if it does so
  afterwards, whatever its instructions compute. The conditions are exact: `Placement` proves that the
  inlined list has what each copy needs if and only if its instruction is structured, and `AddressPaths` that
  outcomes are kept for all effects if and only if no path takes a return address. `FallenRuns` proves that
  falling out of a subroutine is noticed. The next pass is over a legal method without subroutines
  (`AfterInlining`), and a second pass over such a method finds nothing dead (`SecondPass`), so the `again`
  loop ends.
- **Unique and stable ids, agreeing views, round trips** for the tables and file formats.

Where the code falls short of what it is for, the code is kept, the condition under which it is right is
proved in both directions, and a concrete input shows the fault:

| where | what goes wrong | exact condition | input |
|---|---|---|---|
| jar.c:536-539 | a dynamic block without distance codes is rejected even when it needs none | `InflateRules.StandardStreams` | `InflateExample.RejectedStream` |
| jar.c:433-539 | headers beyond the limits of RFC 1951 are accepted | `InflateRules.ProgramStreams` | `LongRunExample.AcceptedStream` |
| check_code.c:2961-3022 | merging mask lists, meant to keep the longest common list, may keep a shorter one | `MaskLists.GreatestIff`, `MaskLists.AllEntriesKeptIff` | `MaskLists.NotLongest` |
| inlinejsr.c:251-260 | only stores of return addresses are dropped: any other instruction that takes one finds none on the new stack | `AddressPaths.SameForAllEffectsIff`, `ReturnAddresses.SameOutcomesIff` | `ReturnAddresses.OldReturns`, `ReturnAddresses.NewThrows` |
| inlinejsr.c:472-474 | the number of the instruction at a range's end is looked up one element past the end of the array | `CodeOffsets.EndInsideIff` | `CodeOffsets.WholeRange` |
| inlinejsr.c:171-281 | falling through out of a subroutine goes to the wrong instruction | `Placement.FallsToOwnIff` | `FallingOut.OldReturns`, `FallingOut.NewThrows` |
| inlinejsr.c:219-236 | a subroutine that is also called at another level is silently dropped where a subroutine calls it | `Placement.CallEntersIff`, `Placement.ReturnPointIff`, `Placement.SuppliedIff` | `TwoLevels.OldReturns`, `TwoLevels.NewThrows` |
| inlinejsr.c:629-634 | a displacement that inlining has made too long for two bytes is truncated | `LongJump.WrittenIff` | `LongJump.OldReturns`, `LongJump.NewLost` |
| classresolver.c:282-344 | a method that overrides several inherited slots replaces only the first of them | `MethodTables.OnlyFirstReplaced` | `MethodTables.SecondSlotKept` |
| identifier.c:366-518 | names and counts over 127 and numbers over 32 bits do not survive a round trip; names lose their upper case | `SymbolFile.RoundTripIffFits`, `SymbolFile.LowerIsIdentity` | `SymbolFile.LargeBound` |

## Model

| member | source | states |
|---|---|---|
| Inflate.Inflate | preverifier/jar.c:105-199 | succeeds if and only if the first compLen bytes decompress, using all of them, to some decompLen bytes; the buffer then holds those bytes; fewer than compLen + 4 bytes are read, and nothing past decompLen is written |
| Inflate.InflateBlock | preverifier/jar.c:144-179 | one pass of the block loop does one block of the specification, or fails when that block does or has no room; it says whether the block was the last |
| Inflate.EndOfData | preverifier/jar.c:181-183 | the final test on the unread input holds exactly when the consumed bits round up to compLen bytes, and then at most three of the extra bytes were read |
| Inflate.InflateStored | preverifier/jar.c:211-249 | a stored block is copied after the byte boundary if its two lengths are complementary and it fits, otherwise the block fails, as in section 3.2.4 |
| Inflate.InflateHuffman | preverifier/jar.c:262-396 | the block body of sections 3.2.5 to 3.2.7: same output, same end position, failure in the same cases apart from lack of room |
| Inflate.DecodeSymbols | preverifier/jar.c:286-385 | the loop appends what the specification's symbols append, up to the end-of-block symbol, for fixed and table-driven codes |
| Inflate.OneSymbol | preverifier/jar.c:287-384 | one turn is one step of the specification: literal, end of block, match or failure; overlapping matches included |
| Inflate.CopyBack | preverifier/jar.c:372-382 | the byte-by-byte copy yields the match of the specification even when source and destination overlap |
| MatchCodes.LengthsTile | preverifier/jartables.h:32-100 | length code 257 + n has no extra bits for the first eight and one more after every four; from 3 on each code begins where the one before it ends, 284 ends at 258, and 285 is 258 alone |
| MatchCodes.LengthCode | preverifier/jartables.h:32-100 | every length from 3 to 258 has exactly one code from 257 to 284 with extra bits |
| MatchCodes.LengthInRange | preverifier/jar.c:336-343 | no other length is ever read |
| MatchCodes.DistancesTile | preverifier/jartables.h:103-173 | distance code n has no extra bits for the first four and one more after every two; from 1 on each begins where the one before it ends, and 29 ends at 32768 |
| MatchCodes.DistanceCode | preverifier/jartables.h:103-173 | every distance from 1 to 32768 has exactly one code with extra bits |
| MatchCodes.DistanceInRange | preverifier/jar.c:345-361 | no other distance is ever read |
| MatchExample.MatchDecodes | preverifier/jar.c:262-396 | four bytes, with a literal, a match of length 4 and distance 1 and the end of block in the fixed codes, decode to "aaaaa" and nothing else |
| MatchExample.StoredDecodes | preverifier/jar.c:211-249 | six bytes with a stored byte decode to that byte and nothing else |
| InflateRules.CopyIsPeriodic | preverifier/jar.c:372-382 | byte i of a match is the byte at distance back plus i modulo the distance: an overlapping copy repeats its source |
| Inflate.FixedLitLen | preverifier/jar.c:300-314 | reading nine reversed bits finds the literal or length that the fixed code of section 3.2.6 assigns to the coming bits |
| Inflate.FixedDistance | preverifier/jar.c:347-349 | five reversed bits are the fixed distance code |
| FixedCodes.FixedSymbolMatches | preverifier/jar.c:293-314 | for every bit string, the three ranges of the nine-bit code pick the symbol whose canonical code, computed from the code lengths, begins that string |
| FixedCodes.FixedDistMatches | preverifier/jar.c:347-349 | the same for five-bit distances |
| Inflate.DecodeDynamicHuffmanTables | preverifier/jar.c:412-556 | reads the header of section 3.2.7, and the two tables decode its code lengths; it fails only where the header is incomplete or refused |
| Inflate.ReadCodeLengths | preverifier/jar.c:479-528 | literal lengths and the three kinds of repeats give the specification's list of code lengths; a list that overruns the array is reported as such |
| MatchCodes.HeaderOrder | preverifier/jar.c:440-459 | for every header, the i-th three bits are the length of the i-th code in the order 16, 17, 18, 0, 8, 7, 9, 6 and so on to 15, and codes that are not given have length zero |
| DynamicExample.StreamDecodes | preverifier/jar.c:412-556 | seventeen bytes, with a dynamic header that uses runs of all three kinds, two literals and a match of length 3 and distance 2, decode to 5, 6, 5, 6, 5 and nothing else |
| Huffman.CodeFits | preverifier/jar.c:605-664 | with a Kraft sum of at most one, each canonical code fits in its length |
| Huffman.MatchIsPrefix | preverifier/jar.c:605-664 | if two codes begin the same bits, the shorter is a prefix of the longer |
| Huffman.LongerCodeIsLarger | preverifier/jar.c:605-664 | a code exceeds, as a prefix, all shorter ones |
| Huffman.ShortestCode | preverifier/jar.c:605-664 | the first of the shortest codes is zero |
| Huffman.CodesConsecutive | preverifier/jar.c:605-664 | codes of one length are consecutive numbers in the order of their symbols |
| Huffman.LongerCodesFollow | preverifier/jar.c:605-664 | the first code of a length is the number after the last code of the next shorter length in use, with zeros appended |
| Huffman.MatchUnique | preverifier/jar.c:571-708 | no two symbols' codes begin the same bit string |
| Huffman.DecodeFindsMatch | preverifier/jar.c:571-708 | decoding bit by bit gives the one symbol whose code begins the coming bits, with its length, and nothing if there is none |
| HuffmanTable.LookupFinds | preverifier/jarint.h:165-175 | looking up any bits in a filled two-level table gives the entry of the symbol whose code begins them, and zero if there is no such symbol |
| HuffmanTable.ZeroStep | preverifier/jar.c:656-661 | a symbol without a code leaves the table right |
| HuffmanTable.ShortStep | preverifier/jar.c:667-671 | filling every entry that ends in a short reversed code keeps the table right for one more symbol |
| HuffmanTable.LongStep | preverifier/jar.c:672-691 | the same for a long code, entered in an old or new second-level table |
| TableSpace.SubtableCount | preverifier/jar.c:635-640 | the number of second-level tables allocated is the number of heads that short codes leave free |
| TableSpace.RoomForHead | preverifier/jar.c:635-646 | second-level tables never outgrow the allocation |
| TableSpace.FewHeads | preverifier/jar.c:672-691 | at most half as many second-level tables are used as there are symbols |
| TableSpace.CallSitesFit | preverifier/jar.c:461-539 | for the three calls, with 19, at most 288 and at most 32 lengths, all offsets of second-level tables fit |
| TableSpace.LongEntryFits | preverifier/jar.c:677-684 | the entry for a second-level table, its byte offset marked with the top bit, is a 16-bit number |
| Reverse.Reverse9IsRev | preverifier/jartables.h:187-199 | the table-driven nine-bit reversal reverses the bits of every nine-bit number |
| Reverse.Reverse15IsRev | preverifier/jartables.h:187-199 | the same for fifteen bits |
| CodeTable.CountLengths | preverifier/jar.c:594-598 | counts the symbols of each length |
| CodeTable.FirstCodes | preverifier/jar.c:605-616 | the first code of each length, left-justified, is the space that shorter codes use; the longest length in use is found |
| CodeTable.FillTable | preverifier/jar.c:656-704 | the filled table decodes the code lengths, and each entry is a 16-bit number |
| CodeTable.MakeCodeTable | preverifier/jar.c:571-708 | no table exactly when all lengths are zero, undefined exactly when they are over-subscribed, and otherwise a table whose lookup finds the canonical code |
| BitReader.InflaterState.constructor | preverifier/jar.c:115-122 | reading starts at bit 0 with nothing written |
| BitReader.InflaterState.NeedBits | preverifier/jarint.h:134-140 | reads bytes until j bits are buffered and at most seven more; the position does not move, at most 32 bits are buffered, and eight times the bytes read is always the position plus the buffered bits |
| BitReader.InflaterState.NextBits | preverifier/jarint.h:145-146 | the next j bits of the input, first bit lowest |
| BitReader.InflaterState.DumpBits | preverifier/jarint.h:151-155 | moves the position j bits on |
| BitReader.InflaterState.GetHuffmanEntry | preverifier/jarint.h:165-175 | reads the symbol whose code comes next and moves past it, or finds that no code does |
| InflateRules.StandardStreams | preverifier/jar.c:412-556 | a stream that is valid under RFC 1951 is accepted by the program if and only if each of its dynamic headers has a distance code |
| InflateRules.ProgramStreams | preverifier/jar.c:412-556 | a stream that the program accepts is valid under RFC 1951 if and only if each dynamic header has at most 286 literal and length codes and no repeat that runs past its last code length |
| InflateExample.RejectedStream | preverifier/jar.c:536-539 | a twelve-byte stream that is valid under RFC 1951, with an empty output, and that the program rejects |
| LongRunExample.AcceptedStream | preverifier/jar.c:502-523 | a thirteen-byte stream, with a run of zeros past the last code length, that the program decodes to nothing and that RFC 1951 does not allow |
| ClassTree.NearestCommonSuperclass | preverifier/check_code.c:3689-3721 | the two pointer walks, by equal depth, end at the join of the two classes |
| ClassTree.JoinIsLeast | preverifier/check_code.c:3689-3721 | the join is a superclass of both classes, and every other common superclass is above it |
| ClassTree.JoinUnique | preverifier/check_code.c:3689-3721 | nothing else has that property |
| ClassTree.JoinOfSupers | preverifier/check_code.c:3716-3721 | classes of equal depth have the join of their superclasses, which is why the walk is right |
| TypeMerge.MergeFullinfoTypes | preverifier/check_code.c:3573-3729 | computes the merge of two types, with and without the assignment flag |
| TypeMerge.IsProperSuperclass | preverifier/check_code.c:3678-3687 | the walk up from a class finds the target exactly when it is a superclass other than Object |
| TypeMerge.MergeOfClasses | preverifier/check_code.c:3689-3721 | two classes, interfaces included, merge to their join |
| TypeMerge.MergeKnown | preverifier/check_code.c:3573-3729 | the merge of types is a type: array dimensions and classes stay in range |
| TypeMerge.MergeIsUpper | preverifier/check_code.c:3573-3729 | the merge is above both types |
| TypeMerge.MergeIsLeast | preverifier/check_code.c:3573-3729 | the merge is below every type that is above both: classes, null, primitive and covariant object arrays, and Bogus |
| TypeMerge.LeastIsUnique | preverifier/check_code.c:3573-3729 | it is the only least upper bound |
| TypeMerge.MergeLaws | preverifier/check_code.c:3573-3729 | merging is idempotent, commutative and associative |
| TypeMerge.AssignableMeansLeq | preverifier/check_code.c:3548-3552 | a type is assignable to another exactly when it is below it, or the other is an interface, or array of one, of the same dimensions as a reference |
| TypeMerge.AssignableUp | preverifier/check_code.c:3548-3552 | what is assignable to a type is assignable to every type above it |
| TypeMerge.MergedIsAssignable | preverifier/check_code.c:2840-2877 | both types are assignable to their merge |
| TypeRank.RankDecreases | preverifier/check_code.c:1457-1492 | going strictly up lowers a type's rank: the order has finite height |
| MergeStates.MergedUp | preverifier/check_code.c:2677-2813 | a merged state is above the recorded state, and the incoming state is assignable to it |
| MergeStates.MergedMasksEmbed | preverifier/check_code.c:2961-3022 | the merged mask list is a common subsequence of both lists, each mask holding the registers of both |
| MergeStates.CoversUp | preverifier/check_code.c:2677-2813 | a state that receives an incoming state keeps receiving it when merged further |
| MergeStates.AboveTransitive | preverifier/check_code.c:2677-2813 | raising a state twice raises it |
| MergeLeast.MergedRegister | preverifier/check_code.c:2907-2959 | register by register: kept as long as all incoming values so far are assignable, then the merge of the two, and Bogus where either list ends |
| MergeLeast.MergedRegisterIsMerge | preverifier/check_code.c:2907-2959 | a register that is not of an interface type becomes the merge of the two, kept or not |
| MergeLeast.MergedIsLeast | preverifier/check_code.c:2677-2813 | every state that is at or above the recorded and the incoming one is at or above the merged one: in all slots, registers and flags, with missing registers taken as Bogus |
| MergeLeast.MergedIsLeastCover | preverifier/check_code.c:2677-2813 | without interfaces, the states at or above the merged one are exactly those above the recorded one that the incoming one may flow into |
| MergeLeast.MergedAtMostIff | preverifier/check_code.c:2677-2813 | with interfaces, a state is at or above the merged one if and only if it is so for the recorded one and for whatever of the incoming one was merged rather than found assignable |
| MergeLeast.InterfaceNotAbove | preverifier/check_code.c:3548-3552 | null merged with a class gives that class, although an interface would be above null and accept the class too |
| MaskLists.SameEntriesMerge | preverifier/check_code.c:2961-3022 | merging mask lists with the same entries keeps all entries and unites their registers |
| MaskLists.AllEntriesKeptIff | preverifier/check_code.c:2961-3022 | all recorded masks are kept if and only if their entries occur, in order, among the incoming ones |
| MaskLists.GreatestIff | preverifier/check_code.c:2961-3022 | without repetitions, the merged list contains every list that both contain, each mask with the registers of both, if and only if their common entries come in the same order |
| MaskLists.NotLongest | preverifier/check_code.c:2961-2966 | lists a, b, c and b, c, a merge to a alone, although b, c is common to both |
| StateRank.WeightUp | preverifier/check_code.c:1457-1492 | a state that changes upwards weighs strictly less: slots or registers raised, lists or masks shortened, masks or flags enlarged |
| StateRank.MaskWeightUp | preverifier/check_code.c:2961-3022 | shortening a mask list or enlarging one of its masks lowers its weight |
| MergeInto.IsAssignableTo | preverifier/check_code.c:3548-3552 | merging with the assignment flag decides assignability |
| MergeInto.MergeStack | preverifier/check_code.c:2828-2879 | the recorded stack becomes the slot-wise merge, and `changed` is set if that differs; no other instruction is touched |
| MergeInto.CountMatches | preverifier/check_code.c:2969-2992 | the first pass over the masks finds whether the merge differs |
| MergeInto.MergeMasks | preverifier/check_code.c:2996-3020 | the second pass builds the merged list |
| MergeInto.MergeRegisters | preverifier/check_code.c:2894-3024 | registers and masks become the merge, with trailing Bogus registers dropped, and `changed` is set if that differs |
| MergeInto.MergeFlags | preverifier/check_code.c:3040-3059 | and-flags are intersected, or-flags united, and `changed` is set if either differs |
| MergeInto.MergeIntoOneSuccessor | preverifier/check_code.c:2677-2813 | for code without jsr, stack, registers and flags together become the merged state of exactly one instruction |
| FlowProgress.AbsorbAdvances | preverifier/check_code.c:2677-2813 | merging any state a predecessor may send keeps the recorded states consistent, raises them, adds nothing unreachable, and the receiver then accepts that state |
| Flow.EdgeIff | preverifier/check_code.c:2526-2613 | control goes on to the next instruction, except after gotos, switches, returns and throws; to the targets of branches; and to the handlers whose range contains the instruction |
| Flow.MarksIff | preverifier/check_code.c:2526-2613 | marked as targets are those of branches and switches, and handlers |
| FlowProgress.MergedDue | preverifier/check_code.c:2677-2813 | if neither of two states knows less than the closed states have at an instruction, nor does their merge |
| Dataflow.NextDue | preverifier/check_code.c:2652-2659 | what an instruction passes on knows at least what closed states have at its successors |
| Dataflow.ThrownDue | preverifier/check_code.c:2609-2650 | and what it throws, at its handlers |
| Dataflow.MergeIntoHandler | preverifier/check_code.c:2616-2650 | a handler receives the registers from before the instruction, and for invokeinit from before and after, with their flags |
| Dataflow.MergeIntoSuccessors | preverifier/check_code.c:2513-2659 | for code without jsr, unless the instruction itself changes again, all handlers and successors accept what flows to them, and all branch targets are marked |
| Dataflow.Visit | preverifier/check_code.c:1457-1492 | visiting a changed instruction keeps the invariant that unchanged ones are settled, and lowers the termination measure |
| Dataflow.InitializeDataflow | preverifier/check_code.c:1376-1436 | the initial states satisfy that invariant, with the entry state at instruction 0 |
| Dataflow.RunDataflow | preverifier/check_code.c:1447-1493 | the loop terminates in a fixpoint: entry accepted, every reachable instruction's states accepted by all its successors and handlers, REACHED set exactly on reachable instructions, targets marked exactly; and its states are at or below any that account, by the order of types, for the arguments and all that flows |
| Dataflow.PathVisited | preverifier/check_code.c:1447-1493 | every path from the entry has been visited once nothing is changed |
| Dataflow.FinishedIsFixpoint | preverifier/check_code.c:1447-1493 | any consistent and settled assignment without changes is a sound fixpoint |
| LeastFixpoint.EntryReceives | preverifier/check_code.c:1386-1412 | in a fixpoint the first instruction has the arguments and an empty stack, and is marked as reached and, in a constructor, as needing a constructor call |
| LeastFixpoint.NextReceives | preverifier/check_code.c:2652-2659 | each successor has the stack and registers after the instruction, and its flags, with bit 0 if it constructed `this` |
| LeastFixpoint.HandlerReceives | preverifier/check_code.c:2609-2650 | each handler has its own stack and the registers and flags before the instruction and, for a constructor call, also those after it, with bit 2 if it is for `this` |
| LeastFixpoint.FixpointIsClosed | preverifier/check_code.c:1447-1493 | a fixpoint without interfaces accounts, by the order of types, for all that flows |
| LeastFixpoint.LeastOfAll | preverifier/check_code.c:1447-1493 | the result of the analysis is at or below every fixpoint without interfaces below which the effects of instructions are monotone |
| LeastFixpoint.ResultUnique | preverifier/check_code.c:1447-1493 | two such results agree in every slot, register and flag, in whatever order instructions are visited |
| LeastFixpoint.InterfaceFixpoint | preverifier/check_code.c:3548-3552 | a method of two instructions with a fixpoint, of an interface on the stack, that the result of the analysis is not below |
| Dataflow.Analyse | preverifier/check_code.c:603-608 | initialisation followed by the loop yields that least fixpoint for every method |
| Subroutines.SegmentStands | preverifier/inlinejsr.c:171-267 | every copy in the list stands where the recursion put it: an instruction of that call, with what follows it |
| Subroutines.SegmentCalled | preverifier/inlinejsr.c:219-236 | a copy in a call comes from the jsr recorded as its caller |
| Subroutines.SegmentComplete | preverifier/inlinejsr.c:171-267 | every reached instruction of a subroutine has a copy in each call |
| Subroutines.SameLength | preverifier/inlinejsr.c:156-281 | calls with the same chain of subroutines get equally many copies |
| InlinedList.CopiesUnique | preverifier/inlinejsr.c:156-281 | no instruction has two copies in one call |
| InlinedList.OneEligible | preverifier/inlinejsr.c:621-662 | a branch outwards has exactly one eligible copy of its target, in the enclosing call of the target's depth |
| InlinedList.NextCopy | preverifier/inlinejsr.c:171-197 | falling through goes to the copy of the next instruction in the same call |
| InlinedList.CallCopy | preverifier/inlinejsr.c:198-237 | after a jsr come the copies for its call, and the jsr is dropped only when the first of them is its target |
| InlinedList.ReturnCopy | preverifier/inlinejsr.c:268-280 | after a call's copies comes the return point, and a ret is dropped only when it is the last copy |
| InlineJsr.MatchSubroutine | preverifier/inlinejsr.c:665-680 | compares an instruction's masks with the whole chain of calls |
| InlineJsr.JsrContext.constructor | preverifier/inlinejsr.c:98-123 | an empty list and empty mapping |
| InlineJsr.JsrContext.Include | preverifier/inlinejsr.c:181-265 | one instruction appends its copy, the copies of its call and the flags that they imply |
| InlineJsr.JsrContext.RewriteOneSubroutine | preverifier/inlinejsr.c:156-281 | the recursion terminates, appends exactly the call's copies in order, revises only the caller's flag, and records where each call ends |
| NewCode.SubroutineGoto | preverifier/inlinejsr.c:651-662 | true exactly when the target call encloses, or is, the branch's call |
| NewCode.UpdateTarget | preverifier/inlinejsr.c:621-647 | the written displacement leads to the first eligible copy |
| NewCode.TargetIsEligible | preverifier/inlinejsr.c:621-647 | the search finds the only eligible copy, in the right enclosing call |
| NewCode.TargetFoundIff | preverifier/inlinejsr.c:621-647 | the search fails, and the source panics, exactly when the target is not reached or is in a subroutine that the branch is not in |
| Placement.FallsToOwnIff | preverifier/inlinejsr.c:171-197 | falling through goes to the copy of the next instruction for the same call if and only if that instruction is in the same subroutine |
| Placement.CallEntersIff | preverifier/inlinejsr.c:219-236 | the copies made for a jsr hold its target if and only if the target is in the subroutine that is called, directly inside the jsr's own |
| Placement.ReturnPointIff | preverifier/inlinejsr.c:268-280 | behind all copies made for a jsr stands its return point, for the same call, if and only if the return point is in the jsr's subroutine |
| Placement.RetReturnsIff | preverifier/inlinejsr.c:394-404 | so a ret goes to the return point of its own call if and only if that return point is in place |
| Placement.SuppliedIff | preverifier/inlinejsr.c:156-281 | a copy has everything it needs in the list, to fall to, to branch to, to call, to return to and to handle exceptions, if and only if its instruction is structured |
| NewCode.AssignOffsets | preverifier/inlinejsr.c:298-336 | from offset 0 the copies follow one another without gaps or overlaps, with switches aligned, rets three bytes long and dropped copies empty, up to the length of the code |
| NewCode.OffsetTakes | preverifier/inlinejsr.c:320-336 | from its offset to the next, a dropped copy takes no bytes, a ret three, a switch its opcode, zero to three bytes up to a multiple of four and its operands, and any other instruction its old length |
| EmittedCode.InstrSize | preverifier/inlinejsr.c:339-446 | so does what is written for the copy |
| EmittedCode.EmittedOffsets | preverifier/inlinejsr.c:298-336 | each new instruction starts at the sum of the sizes of those before it |
| EmittedCode.EmittedSize | preverifier/inlinejsr.c:320-446 | where no jsr is a jsr_w, every goto that replaces a jsr or a ret has three bytes; switches are padded, and all others have their old length |
| EmittedCode.OutwardFound | preverifier/inlinejsr.c:621-647 | every branch and handler of a structured method finds its target |
| EmittedCode.CallFound | preverifier/inlinejsr.c:379-392 | a jsr finds its target among the copies for its own call; if dropped, right behind it |
| EmittedCode.ReturnFound | preverifier/inlinejsr.c:394-404 | a ret finds the return point of its own call; if dropped, right behind it |
| EmittedCode.BuiltResolvable | preverifier/inlinejsr.c:284-451 | none of the panics of code generation can happen |
| EmittedCode.Inline | preverifier/inlinejsr.c:98-123 | the list built for a structured method is the complete one |
| EmittedCode.FixupCode | preverifier/inlinejsr.c:284-451 | the new code is what the list prescribes, each instruction starts at the sum of the sizes before it, and the length is the sum of all |
| EmittedCode.FetchEmitted | preverifier/inlinejsr.c:284-451 | at the offset of a kept copy stands its instruction and no other |
| ExceptionTable.CatchRuns | preverifier/inlinejsr.c:476-505 | for one copy of a handler, the entries cover exactly the kept copies in range that may go to it |
| ExceptionTable.CatchBlock | preverifier/inlinejsr.c:471-506 | for one old entry, every copy in range is covered for each handler copy eligible from it |
| CodeOffsets.NumberInstructions | preverifier/check_code.c:548-562 | fills in, for every offset, the number of the instruction that starts there, and counts the instructions |
| CodeOffsets.NumberAt | preverifier/check_code.c:548-562 | at the offset of an instruction stands its number |
| CodeOffsets.EndInsideIff | preverifier/inlinejsr.c:472-474 | the offset at which a range ends is inside the array if and only if the range ends before the code does |
| CodeOffsets.WholeRange | preverifier/inlinejsr.c:472-474 | a legal entry for all of a three-byte method, whose end is looked up past the array |
| CodeOffsets.InitializeExceptionTable | preverifier/check_code.c:1212-1256 | the instruction numbers in the verifier's own table are right for every legal entry, including those that end where the code does |
| ExceptionTable.LookUp | preverifier/inlinejsr.c:471-474 | the numbers that the rewriter looks up are those of the verifier, for ranges that end before the code does |
| ExceptionTable.FixupExceptionHandlers | preverifier/inlinejsr.c:453-513 | looks up the numbers of the old entries, all inside the array, and builds a table of such blocks in their order, each entry from the offset of a copy to that of a copy or the end |
| ExceptionTable.SameHandler | preverifier/inlinejsr.c:453-513 | whatever is thrown at a kept copy, the first matching new entry leads to the copy of the handler that the first matching old entry names, and none matches if none did |
| InlineRuns.SilentStep | preverifier/inlinejsr.c:198-280 | a dropped jsr, ret or astore of a return address takes the old run to the next copy and leaves the data, and the new code, where they are |
| InlineRuns.StepSimulates | preverifier/inlinejsr.c:98-154 | every other step of the old code that does not take a return address is one step of the new code, with the same data, to a copy of the same instruction in the same calls |
| InlineRuns.Forward | preverifier/inlinejsr.c:98-154 | if the old code ends, and no return address is taken on the way, the new code ends with the same outcome |
| InlineRuns.Backward | preverifier/inlinejsr.c:98-154 | and conversely: the new code then ends only as the old code does |
| InlineRuns.SameWhenHandsOff | preverifier/inlinejsr.c:98-154 | the same for a single run that takes no return address, whatever other runs do |
| InlineRuns.StoredNotTaken | preverifier/inlinejsr.c:251-260 | where the analysis finds only stores with return addresses among their operands, no run takes one |
| InlineRuns.SameOutcome | preverifier/inlinejsr.c:98-154 | in a structured method where only stores take return addresses, for any effects of the instructions, data and outcome: the old code ends with it if and only if the new code does |
| InlineRuns.RewriteCode | preverifier/inlinejsr.c:98-154 | for every structured method, list, code and exception table are the ones that those theorems are about |
| InlineRuns.NoSubroutinesLeft | preverifier/inlinejsr.c:284-451 | the new code has no jsr, no ret and no astore of a return address |
| ReturnAddresses.SameOutcomesIff | preverifier/inlinejsr.c:251-260 | for given effects of all other instructions, old and new code end alike under every effect on return addresses if and only if no instruction other than a store ever has one among its operands |
| ReturnAddresses.StoredNeverTaken | preverifier/inlinejsr.c:251-260 | the condition holds for every method in which the analysis finds only stores |
| AddressPaths.StepFollows | preverifier/inlinejsr.c:251-260 | a step of any run is a step of the control flow |
| AddressPaths.WalkRuns | preverifier/inlinejsr.c:251-260 | every path of the control flow is that of a run, with effects that follow a script |
| AddressPaths.SameForAllEffectsIff | preverifier/inlinejsr.c:251-260 | old and new code end alike for all effects of all instructions if and only if no path of the control flow leads to an instruction, other than a store, with a return address among its operands |
| ReturnAddresses.ExampleStructured | preverifier/inlinejsr.c:251-260 | a subroutine that duplicates its return address meets every other condition |
| ReturnAddresses.ExampleGenerated | preverifier/inlinejsr.c:98-154 | it is rewritten, to code that does the duplication first |
| ReturnAddresses.OldReturns | preverifier/inlinejsr.c:98-154 | before the rewriting it returns with an empty stack |
| ReturnAddresses.NewThrows | preverifier/inlinejsr.c:98-154 | after it, the first instruction finds nothing to duplicate |
| FallingOut.FallsThroughIff | preverifier/inlinejsr.c:171-197 | with return points in their jsr's subroutine, an instruction is followed by a copy of the next one if and only if falling through stays in its subroutine |
| FallingOut.OnlyFault | preverifier/inlinejsr.c:171-197 | an example, whose subroutine stores its return address and tests a value, breaks the conditions only in that the test falls out of the subroutine |
| FallingOut.WrongSuccessor | preverifier/inlinejsr.c:171-280 | the list built for it, where the test is followed by the return point |
| FallingOut.OldReturns | preverifier/inlinejsr.c:98-154 | before the rewriting the example returns |
| FallingOut.NewThrows | preverifier/inlinejsr.c:98-154 | after it, with the same effects of instructions, the example throws |
| FallenRuns.SameEmitted | preverifier/inlinejsr.c:284-451 | the code written for a method is the code written for it with all ways of falling out cut off |
| FallenRuns.CalmReaches | preverifier/inlinejsr.c:98-154 | until a run falls out, the new code keeps up with it, at copies of the same instructions |
| FallenRuns.FallingOutShows | preverifier/inlinejsr.c:98-154 | if any run falls out of a subroutine and the next instruction with effects, behind any stores, calls and returns, is another one in the new code, behind any gotos, or there is none, then there are effects and an outcome that the old code ends with and the new code does not |
| FallenRuns.ExampleWritten | preverifier/inlinejsr.c:98-154 | the example is such a method |
| TwoLevels.OnlyFault | preverifier/inlinejsr.c:219-236 | a method with a return inside nested finally blocks, as a subroutine called from another and from outside, breaks the conditions only in its inner jsr |
| TwoLevels.ExampleList | preverifier/inlinejsr.c:156-281 | the list built for it |
| TwoLevels.NothingInlined | preverifier/inlinejsr.c:219-236 | the inner jsr is dropped, and no copy of its target is made for it |
| TwoLevels.OldReturns | preverifier/inlinejsr.c:98-154 | before the rewriting it does the inner subroutine and returns |
| TwoLevels.NewThrows | preverifier/inlinejsr.c:98-154 | after it, with the same effects of instructions, it goes on after the outer jsr instead, and throws |
| LongJump.WrittenIff | preverifier/inlinejsr.c:629-634 | the displacement in the new code is the one that is meant if and only if it fits in two bytes |
| LongJump.ExampleBuilt | preverifier/inlinejsr.c:621-647 | inlining two calls of a subroutine of n instructions turns a branch of nine bytes into one of 3 + 2n |
| LongJump.WasShort | preverifier/inlinejsr.c:629-634 | it was nine bytes |
| LongJump.OldReturns | preverifier/inlinejsr.c:98-154 | before the rewriting the branch leads to the return |
| LongJump.NewLost | preverifier/inlinejsr.c:629-634 | after it, with n from 16383 to 32766, the branch leads to before the code |
| DeadCode.AnalysedIsStructured | preverifier/check_code.c:636-650 | a fixpoint of the dataflow makes a method without jsr, with ranges of handlers that end before the code does, one that rewriting preserves |
| DeadCode.FlatList | preverifier/inlinejsr.c:171-267 | the list is then the reached instructions, each once, in order |
| DeadCode.DistancesShrink | preverifier/inlinejsr.c:298-336 | deleting unreached instructions never lengthens the distance between two instructions, nor turns it round |
| DeadCode.FlatJumpsFit | preverifier/inlinejsr.c:621-647 | so branches that fit in 16 bits still do |
| DeadCode.EdgeMaps | preverifier/inlinejsr.c:284-513 | each edge of the old flow graph, branches and handlers included, is an edge between the new offsets |
| SecondPass.NumberOfOffset | preverifier/check_code.c:548-562 | reading the new code, the instruction at the offset of a copy gets the copy's place as its number |
| SecondPass.EdgeRead | preverifier/inlinejsr.c:284-513 | every edge of the new code is an edge of the method that the second pass decodes from the written displacements and exception table |
| SecondPass.RereadLegal | preverifier/inlinejsr.c:284-513 | all branches and handlers of the decoded method lead to its instructions |
| SecondPass.AllReached | preverifier/check_code.c:636-650 | in any fixpoint that the second analysis may end in, every instruction is reached |
| SecondPass.CountDead | preverifier/check_code.c:636-645 | the count is zero exactly when every instruction is reached |
| SecondPass.VerifyAgain | preverifier/check_code.c:603-650 | for every method without subroutines, the second pass ends in a fixpoint and counts no dead instruction, so nothing is rewritten again |
| AfterInlining.KeptFrom | preverifier/inlinejsr.c:284-451 | behind a dropped copy there is always one that is kept, at the same offset |
| AfterInlining.PlaceNumbered | preverifier/inlinejsr.c:284-451 | every offset that control can be sent to is that of an instruction of the new code |
| AfterInlining.NextPassLegal | preverifier/check_code.c:646-650 | whatever subroutines a method had, the method that the next pass reads from its new code has none, and all its branches and handlers lead to its own instructions |
| Probing.StepsTo | preverifier/util.c:209-216 | stepping down by 1 to 8 modulo 2003 reaches every slot from every slot |
| StringIds.EmptyMeansAbsent | preverifier/util.c:209-216 | when probing meets an empty slot, the string is nowhere in the bucket |
| StringIds.BucketInsert | preverifier/util.c:261-263 | filling that slot keeps every string of the bucket findable |
| StringIds.IdsUnique | preverifier/util.c:174-278 | two strings with the same id are equal |
| StringIds.StrIDhash.constructor | preverifier/util.c:150-162 | a new bucket is empty |
| StringIds.StrIDhash.Search | preverifier/util.c:209-216 | probing ends, at the string or at an empty slot that shows its absence |
| StringIds.StrIDhash.Insert | preverifier/util.c:261-263 | one slot is filled, all others keep theirs |
| StringIds.StringTable.constructor | preverifier/util.c:184-192 | no string has an id |
| StringIds.StringTable.Find | preverifier/util.c:194-221 | searching the chained buckets finds a string exactly when it has an id, and finds the slot of that id |
| StringIds.StringTable.AddBucket | preverifier/util.c:225-251 | a bucket is chained on and no id changes |
| StringIds.StringTable.Put | preverifier/util.c:261-277 | the string gets its slot's id |
| StringIds.StringTable.Str2ID | preverifier/util.c:174-278 | an old string keeps its id, a new one gets an id of its own between 1 and 32048, no other id ever changes, and it fails only for a new string in a full table |
| StringIds.StringTable.ID2Str | preverifier/util.c:326-346 | the inverse of Str2ID |
| MethodTables.NameAndTypeUnique | preverifier/classresolver.c:1175-1194 | the hash of a name and a type is a 32-bit number that no other pair shares |
| MethodTables.ClassBlock.FindOverridden | preverifier/classresolver.c:282-301 | the first inherited slot that the method overrides, or none |
| MethodTables.ClassBlock.AssignSlots | preverifier/classresolver.c:263-307 | every method gets its slot; only offsets change |
| MethodTables.ClassBlock.FillTable | preverifier/classresolver.c:332-344 | every entry is the last own method of that slot, else the inherited one |
| MethodTables.ClassBlock.ResolveMethods | preverifier/classresolver.c:216-349 | a class's table extends its superclass's and each entry's offset is its index; an interface numbers its methods |
| MethodTables.NewSlotsDiffer | preverifier/classresolver.c:303-306 | new methods get distinct slots behind the superclass's |
| MethodTables.SlotsDiffer | preverifier/classresolver.c:282-306 | methods of different name or type never share a slot |
| MethodTables.InheritedSlot | preverifier/classresolver.c:333-344 | an inherited slot holds the inherited method or one that overrides it |
| MethodTables.OwnMethodInTable | preverifier/classresolver.c:337-344 | every own virtual method stands at its offset |
| MethodTables.OnlyFirstReplaced | preverifier/classresolver.c:282-344 | an inherited slot that a method overrides gets that method if and only if no earlier slot is overridden by it |
| MethodTables.SlotTakenIff | preverifier/classresolver.c:267-300 | an inherited slot gets a method that is neither static nor private nor a constructor if and only if it is the first whose method has its name and type, is not private, and is protected, public or of the same package |
| MethodTables.SlotKept | preverifier/classresolver.c:282-300 | a slot keeps its method if it is private, or package-private in another package, or no method of the class that is dispatched through the table has its name and type |
| MethodTables.NoSlotIff | preverifier/classresolver.c:269-272 | exactly static methods, private methods and constructors have no slot |
| MethodTables.SecondSlotKept | preverifier/classresolver.c:282-344 | three classes, resolved in turn, the last of which has a method that overrides two inherited ones and leaves the second in the table |
| MethodTables.ResolvedIsCompatible | preverifier/classresolver.c:216-349 | each slot of the superclass holds a method of the same name and type |
| MethodTables.ChainCompatible | preverifier/classresolver.c:216-349 | so it does along any chain of superclasses |
| Memory.MemoryList.constructor | util/memory.c:74-83 | the list is its sentinel, all buckets are empty, nothing is live |
| Memory.MemoryList.HashInsert | util/memory.c:41-47 | the object joins the bucket of its address and no other chain changes |
| Memory.MemoryList.HashRemove | util/memory.c:50-68 | takes out the one object with this address, or finds that no node has it |
| Memory.MemoryList.MemAlloc | util/memory.c:110-141 | adds one live block at the end of the list, or nothing when allocation fails; index and links stay right |
| Memory.MemoryList.MemRealloc | util/memory.c:147-199 | the block's address changes in the list and in the index, its place in the list stays |
| Memory.MemoryList.MemFree | util/memory.c:204-248 | exactly this block stops being live; an unknown pointer changes nothing |
| Memory.MemoryList.ViewsAgree | util/memory.c:34-68 | an address is live exactly when its bucket holds an object with it, and bucket members are list nodes |
| SymbolFile.File.WriteString | structures/identifier.c:366-372 | appends the length byte and as much of the lower-cased text as that length, as a signed char, says; for up to 127 characters, all of them, with exactly the capitals raised by 32 |
| SymbolFile.File.WriteType | structures/identifier.c:390-453 | appends the encoding of the whole type tree |
| SymbolFile.File.ReadString | structures/identifier.c:374-388 | reads what the format says a string is, and stops right behind it |
| SymbolFile.File.ReadType | structures/identifier.c:455-518 | reads what the format says a type is, and stops right behind it |
| SymbolFile.ParseEncode | structures/identifier.c:390-518 | what was written for a tree with short names and small counts and numbers reads back as that tree with lower-cased names, leaving all that follows |
| SymbolFile.ParseUnfit | structures/identifier.c:390-518 | for any other tree it does not |
| SymbolFile.ParseLongStr | structures/identifier.c:366-388 | a name of more than 127 bytes does not read back, whatever follows its length |
| SymbolFile.RoundTripIffFits | structures/identifier.c:366-518 | the round trip succeeds if and only if all names are at most 127 bytes long, all counts at most 127 and all numbers fit in 32 bits |
| SymbolFile.LargeBound | structures/identifier.c:442-452 | an interval up to 2^31 reads back as one up to -2^31 |
| SymbolFile.LowerIsIdentity | util/strings.c:188-201 | lower-casing leaves exactly the names without upper-case letters alone |
| SymbolFile.LowerForgetsCase | util/strings.c:188-201 | two names are the same in lower case if and only if they have the same length and at each place one character or the two cases of one letter; lower-casing raises capitals by 32 and leaves the rest, and doing it again changes nothing |
| SymbolFile.StrBytes | structures/identifier.c:366-372 | a name is written as its length and its characters, with exactly the capitals raised by 32 |
| SymbolFile.FirstByte | structures/identifier.c:390-453 | an array is marked by 7, a record by 8, an interval by 9 |
| SymbolFile.ArrayBytes | structures/identifier.c:394-415 | an array type over an interval, byte by byte |
| SymbolFile.RecordBytes | structures/identifier.c:417-441 | a record with one field, byte by byte |
| SymbolFile.Int4Bytes4 | structures/identifier.c:439-451 | four bytes give an integer back if and only if it is a 32-bit number |
| NameTable.CompareEqual | structures/name_table.c:99-163 | names compare equal exactly when they are the same in lower case |
| NameTable.CompareLetters | structures/name_table.c:124-124 | names compare equal if and only if they are equally long and at each place are one character or the two cases of one letter |
| NameTable.WalkGrown | structures/name_table.c:99-163 | adding a leaf changes only the searches that ended at that place |
| NameTable.OrderedGrown | structures/name_table.c:99-163 | it keeps the tree ordered |
| NameTable.WalkFinds | structures/name_table.c:171-191 | searching an ordered tree finds a name's descriptor exactly when the table has it |
| NameTable.DescribesGrown | structures/name_table.c:99-163 | the tree with the new leaf stands for the table with the new name |
| NameTable.Table.constructor | structures/name_table.c:32-49 | an empty table with an unused root |
| NameTable.Table.Search | structures/name_table.c:119-147 | the loop down the tree ends at the node, or at the parent and side for a new one |
| NameTable.Table.ListedIff | structures/name_table.c:99-163 | the map has exactly the names of the entries, in any case of letters |
| NameTable.Table.ListedDescriptor | structures/name_table.c:99-163 | with their descriptors |
| NameTable.Table.Find | structures/name_table.c:171-213 | the descriptor of the entry that has this name, in any case of letters, or nothing if there is none |
| NameTable.Table.Link | structures/name_table.c:149-161 | hangs the node into the tree and at the end of the insertion-order list, and both stay views of the same nodes |
| NameTable.Table.Append | structures/name_table.c:149-161 | a new entry is the last in the list, hangs where the search ended, and no other entry changes its name or descriptor |
| NameTable.Table.Insert | structures/name_table.c:99-163 | a name that an entry has, in any case of letters, changes nothing; another is added once, at the end of the list; all old entries keep their names and descriptors |
| StackMaps.Preverifier.constructor | classgen/preverify.c:39-45 | both lists are empty |
| StackMaps.Preverifier.ProcessJump | classgen/preverify.c:786-814 | a target is added once, unless it is pending or done |
| StackMaps.Preverifier.PreverifyFrom | classgen/preverify.c:119-128 | walking a line of code to its goto or return lists all targets on it |
| StackMaps.Preverifier.Take | classgen/preverify.c:50-58 | a pending map moves to the output, and the targets seen stay the same |
| StackMaps.Preverifier.Explore | classgen/preverify.c:37-60 | the worklist ends with every listed target explored |
| StackMaps.Preverifier.PreverifyBytecode | classgen/preverify.c:37-64 | the maps are exactly the branch targets reachable from offset 0, each once, in increasing order, each with a stack that some run has there |
| StackMaps.RunOnLines | classgen/preverify.c:119-128 | every run stays on lines of code that have been walked |
| StackMaps.AllTargets | classgen/preverify.c:37-64 | so no reachable target is missed |
| StackMaps.Smallest | classgen/preverify.c:80-93 | the smallest offset that is not below the range |
| StackMaps.SortMapList | classgen/preverify.c:70-113 | the same maps in strictly increasing order |
| ConstantPool.Constants.Intern | classgen/constant_pool.c:123-151 | returns the entry's index, adding it only if it is not there |
| ConstantPool.Constants.AddUtf8 | classgen/constant_pool.c:34-89 | afterwards the index denotes the text; entries are only ever added at the end, and none if it was there |
| ConstantPool.Constants.AddString | classgen/constant_pool.c:94-118 | the same for string constants |
| ConstantPool.Constants.AddInteger | classgen/constant_pool.c:123-151 | the same for integers |
| ConstantPool.Constants.AddClass | classgen/constant_pool.c:210-234 | the same for classes |
| ConstantPool.Constants.AddNameAndType | classgen/constant_pool.c:239-268 | the same for names with types |
| ConstantPool.Constants.AddFieldref | classgen/constant_pool.c:273-302 | the same for fields of classes |
| ConstantPool.Constants.AddMethodref | classgen/constant_pool.c:307-336 | the same for methods of classes |
| ConstantPool.MeaningUnique | classgen/constant_pool.c:34-336 | two indices that denote the same constant are equal |
| ConstantPool.MeaningKept | classgen/constant_pool.c:367-381 | an index keeps its meaning when entries are added |
| ConstantPool.PresentEntry | classgen/constant_pool.c:34-336 | a constant is in the pool exactly when the entry made from its parts is |
| ConstantPool.PresentParts | classgen/constant_pool.c:210-336 | a constant in the pool has its parts in the pool |
| ConstantPool.WriteConstantPool | classgen/constant_pool.c:386-449 | writes count, tags and big-endian fields of every entry |
| ConstantPool.EntryFormat | classgen/constant_pool.c:393-448 | the tag is 1 for a text, 3 for an integer, 7 for a class, 8 for a string, 9 for a field, 10 for a method and 12 for a name with a type; the numbers after it have their high bytes first |
| ConstantPool.PoolCount | classgen/constant_pool.c:390-391 | the first two bytes are one more than the number of entries |
| ConstantPool.Loader.LoadEntry | preverifier/classloader.c:1092-1155 | reads a written entry back and stops behind it |
| ConstantPool.Loader.LoadConstantPool | preverifier/classloader.c:1069-1161 | reads back every entry of a written pool of the kinds modelled, consuming all its bytes; fails exactly when the pool exceeds the size limit |
| ConstantPool.SeenUnique | preverifier/classloader.c:1092-1155 | what the reader stores determines the entry written |
| ClassFile.PoolWriter.LookupUtf8 | preverifier/file.c:118-150 | the returned index is where the text will stand; a text is added once, and only if no entry has it |
| ClassFile.PoolWriter.GetLastNotUtf8Index | preverifier/file.c:173-186 | the last entry that is not a text |
| ClassFile.PoolWriter.CollectTexts | preverifier/file.c:196-213 | afterwards the StackMap name and all new class names have places |
| ClassFile.PoolWriter.WriteOldEntries | preverifier/file.c:233-287 | old entries with renumbered text references and, after the last that is not a text, the new classes |
| ClassFile.PoolWriter.WriteConstantPool | preverifier/file.c:188-302 | all entries of the new pool, with the declared count |
| ClassFile.TextResolves | preverifier/file.c:118-150 | every index that the lookup returns holds that text in the new pool |
| ClassFile.TextMoves | preverifier/file.c:118-125 | a renumbered text index holds the old text |
| ClassFile.MeaningKept | preverifier/file.c:188-302 | every old entry that is not a text keeps its index and denotes the same text, class, member or value in the new pool |
| ClassFile.NewClassResolves | preverifier/file.c:279-297 | the class index that a stack map uses denotes that class |
| TypeCodes.CheckClassConstant | preverifier/check_code.c:398-415 | the first entry for a class, or -1 if the pool has none |
| TypeCodes.NewClasses.GetTypeCode | preverifier/check_code.c:463-484 | the information put into a map entry stands for the class; a new class is added only if neither pool nor list has it |
| TypeCodes.StandsOn | preverifier/check_code.c:463-484 | it goes on standing for the class when more classes are added |
| TypeCodes.ObjectEntryResolves | preverifier/file.c:353-365 | the two bytes written for it are an index that denotes that class in the new pool |
| CodeAttribute.MapBytesSize | preverifier/file.c:369-381 | the computed size of a stack map part is the number of bytes written for it |
| CodeAttribute.FramesBytesSize | preverifier/file.c:407-416 | the same for all frames |
| CodeAttribute.TableLengths | preverifier/file.c:403-451 | the length terms of code, line, variable and stack-map tables equal the bytes written |
| CodeAttribute.HeadFields | preverifier/file.c:451-467 | at their places in the attribute stand the stack size, the number of registers, the length of the code, the code, the number of entries of the exception table, the entries and the number of tables |
| CodeAttribute.CatchFields | preverifier/file.c:459-462 | an entry of the exception table: start, end, handler and type |
| CodeAttribute.CatchAt | preverifier/file.c:458-463 | the k-th entry stands at 8k |
| CodeAttribute.LineFields | preverifier/file.c:486-489 | an entry of the line-number table: offset and line |
| CodeAttribute.LineAt | preverifier/file.c:485-490 | the k-th entry stands at 4k |
| CodeAttribute.LocalFields | preverifier/file.c:513-517 | an entry of the local-variable table: offset, length, name, type and register |
| CodeAttribute.LocalAt | preverifier/file.c:511-519 | the k-th entry stands at 10k |
| CodeAttribute.AttributeFields | preverifier/file.c:474-483 | a table begins with the index of its name and the number of bytes after that number |
| CodeAttribute.EntryFields | preverifier/file.c:344-367 | a map entry is its kind, and for kinds 7 and 8 a two-byte index or offset |
| CodeAttribute.FrameFields | preverifier/file.c:526-533 | a stack map is its offset, the number of registers and these, and the number of stack items and these |
| CodeAttribute.ClassBuffer.constructor | preverifier/file.c:614-620 | an empty buffer |
| CodeAttribute.ClassBuffer.EnsureCapacity | preverifier/file.c:86-94 | there is room for more bytes and the old ones are kept |
| CodeAttribute.ClassBuffer.WriteU2 | preverifier/file.c:102-107 | appends two bytes, high byte first |
| CodeAttribute.ClassBuffer.WriteU4 | preverifier/file.c:109-116 | appends four bytes, high byte first |
| CodeAttribute.ClassBuffer.WriteStackMap | preverifier/file.c:344-367 | appends the entries, with an index or offset only where their kind has one |
| CodeAttribute.ClassBuffer.WriteStackMaps | preverifier/file.c:522-535 | appends a StackMap attribute whose declared length is the number of bytes that follow it |
| CodeAttribute.ClassBuffer.WriteCodeAttribute | preverifier/file.c:383-555 | appends the Code attribute: name, declared length and a body of exactly that length |

## Left out

- Inflate.Inflate: compLen is at most the file's size, and below 2^31 - 4. Reading behind the end of the file yields 0xFF bytes, as the source's end-of-file value does; the local copies of the inflater's fields are not modelled, and the count of remaining bytes is unbounded.
- CodeTable.MakeCodeTable: over-subscribed code lengths, for which the C code indexes outside its tables, give an outcome of their own; so do code length lists that overrun their array. Inflating fails on both.
- Dataflow.RunDataflow: the effect of an instruction on stack and registers is a parameter that must keep stack heights consistent and types known; branch targets are legal. The source no longer checks either, since its error function is empty (preverifier/check_code.c:3372-3390).
- MergeInto.MergeIntoOneSuccessor: the parts for jsr and ret; code with subroutines, and the pass repeated for it, is not analysed.
- Dataflow.MergeIntoSuccessors: the cases for jsr and ret.
- TypeMerge.AssignableMeansLeq: assignability to interfaces is not transitive, so it is stated beside the order rather than as part of it; interfaces stand directly below Object and every class is loaded.
- LeastFixpoint.LeastOfAll: says nothing about masks, whose merge is the least only in lists of one order (`MaskLists.GreatestIff`); effects of instructions must be monotone below the fixpoint, and a constructor call must be for `this` in both or neither; in fixpoints with interfaces it need not hold (`LeastFixpoint.InterfaceFixpoint`).
- MergeStates.MergedMasksEmbed: states a common subsequence, not a longest one, since the greedy search does not always find the longest (`MaskLists.NotLongest`); `MaskLists.GreatestIff` says when it is the greatest, for lists without repetitions.
- InlineRuns.SameOutcome: the method must be structured: one ret in a subroutine (the source panics otherwise), a jsr's target in the subroutine that it calls and its return point in its own, branches and handlers only outwards, falling through in place (`Placement.SuppliedIff` says that this is what the list needs), handler ranges that end before the code's end (`CodeOffsets.EndInsideIff`); return addresses are only stored (`AddressPaths.SameForAllEffectsIff`); 16-bit displacements must fit (`LongJump.WrittenIff`). Once stored, return addresses are kept as a list of pending calls, not in registers. A jsr that never returns pushes no call. Which instructions have a return address among their operands is the analysis's finding, taken as given.
- ExceptionTable.FixupExceptionHandlers: an entry whose range ends where the code does, for which the source reads past its array.
- CodeOffsets.InitializeExceptionTable: the stack that a handler starts with.
- AfterInlining.NextPassLegal: what the next pass then computes depends on the effects of the new method's instructions, which are parameters; a constructor call is read as an instruction that falls through.
- FallenRuns.FallingOutShows: where the next instruction with effects is the same in both, or the old code never gets to one, the two may end alike after all; these cases are not decided.
- SecondPass.VerifyAgain: the effects of the new method's instructions and the heights of its stacks are parameters, as for the first pass.
- DeadCode.DistancesShrink: for code without switches, whose padding may grow.
- CodeOffsets.NumberInstructions: numbers are unbounded, where the source keeps them in 16 bits.
- Rewriter: the limit on code size, the line-number and local-variable tables, and the byte layout of switches, jsr_w and goto_w.
- StringIds: failing allocation, the caller's parameter table and the variant with 32-bit ids.
- MethodTables.ClassBlock.ResolveMethods: the slot of finalizers and method tables of interfaces; names with types are given as their ids.
- Memory.MemoryList.MemRealloc: a block that is not in the list, and a reallocation for which there is no memory, after which the source keeps a node without a block.
- Memory: the contents of blocks, and closing.
- SymbolFile.RoundTripIffFits: type classes are below 128.
- SymbolFile.File.WriteString: the source also changes the caller's string to lower case in place; here only the file shows it. What the source writes after a negative length is not determined, and no lemma depends on it.
- SymbolFile.File.ReadString: the bytes must be there, with a length that is not negative; the source reads on with whatever its variables hold.
- SymbolFile.File.ReadType: the bytes must be there; entries other than strings and types are not modelled.
- NameTable.Table.Insert: the pointer to the last node is kept in the table rather than in the root node.
- StackMaps: the operand stack that an instruction leaves is a parameter; code has no switches and every line of code ends in a goto or return.
- ConstantPool.Loader.LoadConstantPool: long, double, float and interface entries, and pools above 65535 entries; interface and float entries are looked up and written under differing tags.
- ClassFile.PoolWriter.WriteConstantPool: entries are values, not bytes; files without stack maps, whose pool gets no new entries. When there are new classes, the pool must hold an entry that is not a text.
- ClassFile.PoolWriter.WriteOldEntries: likewise entries and not bytes.
- ClassFile: fields, interfaces and attributes other than Code, and the search for a class's index.
- CodeAttribute.ClassBuffer.WriteCodeAttribute: attribute names are given by their indices, and the method's header is not written.
- Parsing and lexing of Pascal, the search for entries in ZIP directories, file access, and messages.
