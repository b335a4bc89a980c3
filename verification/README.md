# KnShim, verified models

Models in Dafny 4.11 of the five algorithmic cores of KnShim, with proofs that
they do what the program relies on. `dafny verify dfyconfig.toml` checks all of it.

- **The incremental collector of Lua 5.1.4** (`LuaHeap`, `LuaCollector`, `LuaColourBits`).
  `Collector` has the collector's state as fields: objects, colours, gray lists, root list,
  string table, open upvalue lists, sweep positions. `Inv` is kept by every piece of a
  collection (`SingleStep`, `FullGc`) and by every step of the running program (stores with
  their barriers, stack writes, allocation, string interning, upvalue capture and closing),
  so it holds on every interleaving. It says, among other things, that the objects that are
  not dead are closed under references and hold the roots.
- **DEFLATE in miniz.** The lazy LZ77 parser over a mirrored ring window and its code buffer
  (`LzTokens`, `LzCodeBuffer`, `LzWindow`, `LzCompressor`), canonical codes (`HuffmanCode`), the
  two-level decoding tables (`HuffmanTree`, `HuffmanTables`), in-place minimum-redundancy lengths
  (`HuffmanDepths`), length limiting (`HuffmanLimit`), the radix sort (`RadixSort`), the whole way
  from symbol counts to code lengths (`SymbolCounts`, `HuffmanOptimize`) with the proof that the code
  is a shortest one (`HuffmanMerging`), the run-length coding of code lengths (`CodeLengths`), the bits
  of blocks and their two ends (`BitStream`, `LzSymbols`, `DeflateFormat`, `DeflateWriter`,
  `DeflateReader`), what is where in those bits in the numbers of RFC 1951 (`DeflateLayout`), the
  whole way from a buffer to a stream and back (`Deflate`), the archive name
  index (`ZipIndex`) and Adler-32 (`Adler`).
- **The Lua code generator** (`LuaProgram`, `LuaMeaning`, `LuaLists`, `LuaCode`, `LuaOpcodes`,
  `LuaMachine`, `LuaFunction`). Code is emitted and patched in place, with jump lists threaded through the
  jumps. A ghost program beside it has a destination, or none yet, for every jump; the meaning of
  an expression under construction is stated on runs of that program, and `MachineRuns` takes
  what was proved to the machine and the real code.
- **The dictionary and its file** (`DictIndex`, `Dictionary`, `Registry`): open addressing with
  tombstones over insertion-ordered pairs, against an ordered map; saving and loading.
- **The AArch64 block rewriter** (`Aarch64`, `BlockRewriter`, `MovedWords`): the relocated block, run from
  memory, against the block it came from, and both on words given by their fields.

Pure definitions and lemmas are in modules of their own; the methods of a class hide them and use
the lemmas. Ghost fields and ghost parameters carry what the proofs need and the program does not
compute. `*` stands for what the environment decides: whether coding a block would lengthen it, whether it gets
codes of its own, and how much a receiver of the compressor's output takes that does not take all.

The main results:

- No reachable object is freed on any interleaving of the collector with the program, and a full
  collection leaves exactly the reachable and the fixed objects (`LuaCollector.Collector`).
- Compressing, into a receiver that takes the output, and decompressing gives the input, for every
  input, setting and content of the hash chains (`Deflate.CompressAndRestore`); compressing piece by piece stands for exactly the
  input taken (`LzCompressor.Compressor.Compress`).
- The decoding tables agree with canonical decoding (`HuffmanTables.CompleteReads`); the codes of a
  block are shortest ones unless they were cut down to the limit (`HuffmanOptimize.OptimizeTable`).
- A compiled function returns what its source says, and compiling fails only when bounds on code
  or registers are exceeded (`LuaFunction.CompileFunction`).
- The dictionary is an insertion-ordered map, and its file restores it (`Dictionary.Dict`, `Registry.SaveAndLoad`).
- A relocated block does what the original block does (`BlockRewriter.MovedRun`).

Where code and documentation differ, the models follow the code:

- A dictionary with an empty key or value is never saved, because writing nothing counts as a failed
  write (`Registry.Save`).
- The rewriter reads the literal of an LDR (literal) instruction at an address that is off by the
  instruction's index in the block. `BlockRewriter.OneStep` gives the exact condition under which the
  moved instruction still agrees, `BlockRewriter.LaterLiteral` an instance where it does not.
- A block that does not fit the rewriter's streams is cut off without notice (`BlockRewriter.Rewrite`
  says exactly when).

## Model

| member | source | states |
|---|---|---|
| LuaHeap.PathReachable | jni/lua/lgc.c:69-122 | What a chain of references from the roots leads to is reachable, reachability being membership in every closed set with the roots |
| LuaHeap.ReachablePath | jni/lua/lgc.c:69-122 | Conversely every reachable object is at the end of such a chain |
| LuaHeap.RefsHold | jni/lua/lgc.c:69-320 | The references of an object are what its fields hold, kind by kind: a thread its stack values and its globals, an open upvalue its slot of the stack |
| LuaHeap.MarkedIsClosed | jni/lua/lgc.c:525-553 | With the gray lists worked off, what is not white is closed under references: no black object points to a white one |
| LuaHeap.AtomicDone | jni/lua/lgc.c:525-553 | At the end of marking everything reachable is marked and nothing outside a given closed set is |
| LuaHeap.SweptAlive | jni/lua/lgc.c:407-428 | A sweep, however far it has got, keeps the objects that are not dead closed and with the roots |
| LuaHeap.SweptReachable | jni/lua/lgc.c:407-428 | A sweep does not change what is reachable |
| LuaHeap.SweepDone | jni/lua/lgc.c:572-591 | When string table and root list have been gone through, every object is white and alive again |
| LuaHeap.SweptToEnd | jni/lua/lgc.c:407-428 | After a whole sweep exactly the marked and the fixed objects are left |
| LuaHeap.SweptNoneDead | jni/lua/lgc.c:636-647 | A sweep in which no object carries the other white frees nothing |
| LuaHeap.CloseMarking | jni/lua/lgc.c:695-710 | Closing an open upvalue during marking keeps the invariant of the marking |
| LuaHeap.MarkingWrite | jni/lua/lgc.c:662-672 | A store whose referents are marked keeps it |
| LuaHeap.MarkingBack | jni/lua/lgc.c:675-683 | Turning a black table gray again keeps it, whatever the table then holds |
| LuaHeap.InitialHeap | jni/lua/lstate.c:70-85 | The heap of a new state is consistent |
| LuaColourBits.Tests | jni/lua/lgc.h:65-77 | The bit tests for white, black, gray and dead decide the abstract colours |
| LuaColourBits.SweepTest | jni/lua/lgc.c:407-428 | The one mask test of the sweep frees an object exactly when it is dead and not fixed |
| LuaColourBits.Recolourings | jni/lua/lgc.h:72-77 | The bit operations change the abstract colour as their names say |
| LuaColourBits.BytesDecide | jni/lua/lgc.c:407-428 | On the `marked` bytes of a heap the sweep keeps exactly the objects that it keeps on colours, and after the flip exactly what was white is dead |
| LuaColourBits.BytesRecoloured | jni/lua/lgc.h:72-77 | Recolouring a byte recolours that object in the heap the bytes stand for, and nothing else |
| LuaColourBits.BytesFixed | jni/lua/lstring.h:24 | Setting the fixed bit fixes that object only |
| LuaCollector.Collector.constructor | jni/lua/lstate.c:143-190 | A new state satisfies the collector's invariant |
| LuaCollector.Collector.ReallyMarkObject | jni/lua/lgc.c:69-112 | Marking keeps the tri-colour invariant, only takes whiteness away, and lowers the measure 2*whites + gray objects |
| LuaCollector.Collector.PropagateMark | jni/lua/lgc.c:277-320 | The same for traversing one gray object; threads stay gray on the list to be traversed again |
| LuaCollector.Collector.PropagateAll | jni/lua/lgc.c:323-327 | Terminates with no gray object waiting |
| LuaCollector.Collector.MarkRoot | jni/lua/lgc.c:501-512 | Marking starts with main thread, registry and every basic metatable marked |
| LuaCollector.Collector.Atomic | jni/lua/lgc.c:525-553 | After the atomic phase and the flip of the whites main thread, registry, running thread and every basic metatable are marked, what is not dead is closed and has the roots, and nothing but members of any closed set with the roots is alive |
| LuaCollector.Collector.Barrier | jni/lua/lgc.c:662-672 | The forward barrier marks the stored object during marking and makes the parent white in the sweep |
| LuaCollector.Collector.LinkUpval | jni/lua/lgc.c:695-710 | A closed upvalue joins the root list with a colour that keeps the phase's invariant |
| LuaCollector.Collector.Close | jni/lua/lfunc.c:96-112 | Outside marking every open upvalue of a thread at the level or above is freed if dead and gets its slot's value otherwise; no other object changes |
| LuaCollector.Collector.SweepBucket | jni/lua/lgc.c:407-428 | One bucket of the string table: the dead go, the others are made white |
| LuaCollector.Collector.SweepRoot | jni/lua/lgc.c:407-428 | A chunk of the root list, each thread after its open upvalues, with the position it resumes from |
| LuaCollector.Collector.SingleStep | jni/lua/lgc.c:556-607 | Keeps the invariant, moves through the phases in order, frees only in the sweeps and only what is dead, lowers a measure, and leaves what main thread, registry, running thread and basic metatables name in place with its references |
| LuaCollector.Collector.AllLive | jni/lua/lgc.c:556-607 | In pause and marking the whole heap is a closed set with the roots, so a step can be made in every state that keeps the invariant |
| LuaCollector.Collector.Step | jni/lua/lgc.c:556-607 | From every such state: what was reachable and only that is reachable afterwards, is in the heap and has its references, the objects that the fields of the state name among it; what is freed was dead |
| LuaCollector.Collector.FinishSweep | jni/lua/lgc.c:636-651 | An unfinished marking is given up and the following sweep frees nothing |
| LuaCollector.Collector.Collect | jni/lua/lgc.c:652-659 | One whole collection leaves exactly the reachable and the fixed objects |
| LuaCollector.Collector.FullGc | jni/lua/lgc.c:636-659 | From any state: terminates in the pause with exactly the reachable and the fixed objects, their references unchanged; that is, with what a chain of references leads to from main thread, registry, running thread or a basic metatable |
| LuaCollector.Collector.ReachableKept | jni/lua/lgc.c:378-428 | In every state that keeps the invariant each reachable object is in the heap and not dead |
| LuaCollector.Collector.RootsThere | jni/lua/lgc.c:493-512 | In every such state main thread, registry, running thread and every basic metatable are in the heap and not dead |
| LuaCollector.Collector.NothingDangles | jni/lua/lgc.c:69-320 | In every such state nothing that is not dead holds anything dead or freed, field by field: references of tables, closures, prototypes and userdata, stack slots and globals of threads, values of upvalues |
| LuaCollector.Collector.LeadsExactly | jni/lua/lgc.c:501-512 | To be reachable is to be at the end of a chain of references that starts at an object which a field of the state names |
| LuaCollector.Collector.SetObject | jni/lua/lapi.c:1071-1086 | A store into a closure, prototype, userdata or upvalue with its forward barrier keeps the invariant in every phase |
| LuaCollector.Collector.SetTable | jni/lua/lapi.c:671-731 | A store into a table with its backward barrier keeps it |
| LuaCollector.Collector.BarrierBack | jni/lua/lgc.c:675-683 | A black table is gray again and on the list for `atomic`, and the invariant of the marking holds again |
| LuaCollector.Collector.SetStack | jni/lua/lapi.c:203-225 | Stack writes need no barrier |
| LuaCollector.Collector.NewObject | jni/lua/lgc.c:686-692 | A new object is linked with a colour that keeps the invariant and is reachable |
| LuaCollector.Collector.InternString | jni/lua/lstring.c:75-93 | The one string of a text, made white again if found dead, is on top of the stack; the heap is otherwise as it was |
| LuaCollector.Collector.Fix | jni/lua/lstring.h:24 | A string is fixed in every phase |
| LuaCollector.Collector.FindUpval | jni/lua/lfunc.c:53-79 | The one open upvalue of a slot, made white again if found dead; nothing else changes |
| LuaCollector.Collector.NewClosure | jni/lua/lvm.c:719-738 | A closure over the objects given and the open upvalues of slots of the running thread, on top of its stack; nothing else is new but its upvalues, and nothing else has changed |
| LuaCollector.Collector.SetUpval | jni/lua/lvm.c:447-452 | An open upvalue is written by changing its one slot and no colour, a closed one with the barrier |
| LuaCollector.Collector.CloseUpvals | jni/lua/lfunc.c:96-112 | In every phase each open upvalue of the running thread at the level or above gets its slot's value, or is freed if dead; no other object changes |
| LuaCollector.Collector.SwitchThread | jni/lua/ldo.c:417-440 | Another reachable thread may run in every phase, the roots being marked again at the end |
| LuaCollector.Collector.SetBasicMetatables | jni/lua/lapi.c:697-731 | Metatables of basic types need no barrier, being marked again at the end, and are reachable from then on |
| LzTokens.CopyRepeats | jni/extern/miniz.c:1481-1523 | A match over a stretch that repeats what came `dist` bytes before expands to that stretch, overlap included |
| LzTokens.ExpandBehind | jni/extern/miniz.c:1970-1981 | Tokens that are valid on their own mean the same behind any other output |
| LzCodeBuffer.HeldInAll | jni/extern/miniz.c:1271-1272 | Shifting the flags of the open group down, or giving back its empty byte, makes the buffer the plain stream of its codes |
| LzCodeBuffer.ReadingNext | jni/extern/miniz.c:1203-1237 | The lowest flag says of which kind the next code is |
| LzCodeBuffer.FewCodes | jni/extern/miniz.c:1711-1750 | A full buffer has fewer than 65535 codes, so symbol counts fit sixteen bits together |
| LzCodeBuffer.CodeBuffer.RecordLiteral | jni/extern/miniz.c:1711-1722 | Appends a literal to the codes recorded |
| LzCodeBuffer.CodeBuffer.RecordMatch | jni/extern/miniz.c:1724-1750 | Appends a match |
| LzCodeBuffer.CodeBuffer.Drain | jni/extern/miniz.c:1202-1237 | What the coder reads back is what was recorded, in order |
| LzWindow.WindowStored | jni/extern/miniz.c:1773-1775 | Storing a byte in ring and mirror keeps the window of the last 32768 bytes |
| LzWindow.ReadOn | jni/extern/miniz.c:1481-1523 | Reading up to 257 bytes on from a slot gives the following input bytes, past the end of the ring too |
| LzWindow.SlotOfDistance | jni/extern/miniz.c:1497-1500 | A hash chain entry and the 16-bit distance taken from it name the same slot |
| LzWindow.SendEncodes | jni/extern/miniz.c:1256-1408 | A block of the waiting codes, or of the bytes they stand for, extends the output to the input parsed |
| LzCompressor.Compressor.MatchLength | jni/extern/miniz.c:1509-1513 | The length found is of a real repetition of the input |
| LzCompressor.Compressor.FindMatch | jni/extern/miniz.c:1481-1523 | Whatever the hash chains hold: no match, or a longer one that is real, within window and lookahead |
| LzCompressor.Compressor.FindRun | jni/extern/miniz.c:1811-1828 | The run-length setting finds a real run of at least three, or none |
| LzCompressor.Compressor.Parse | jni/extern/miniz.c:1837-1879 | One turn of the lazy parser: codes recorded stand for the input parsed but for a byte of a match put aside, which is real |
| LzCompressor.Compressor.Fill | jni/extern/miniz.c:1762-1802 | Filling the lookahead keeps window and codes and takes the source until lookahead or source is full or empty |
| LzCompressor.Compressor.RawBytes | jni/extern/miniz.c:1320-1327 | A stored block holds exactly the bytes its codes stand for, and no more than 32768 |
| LzCompressor.Compressor.FlushBlock | jni/extern/miniz.c:1256-1408 | The output stands for the input parsed but for a match put aside, with codes or with bytes; a sync or full flush ends it with an empty stored block |
| LzCompressor.Compressor.CompressNormal | jni/extern/miniz.c:1752-1895 | Terminates; unless the receiver stops it, takes the whole source, and under a flush parses all of it |
| LzCompressor.Compressor.Compress | jni/extern/miniz.c:1918-1984 | Over every sequence of calls: a drained or finished stream expands, as a whole, to exactly the input taken, and after a sync or full flush ends with an empty stored block; no block is too large for its counters; with a receiver that takes all a first finishing call is done |
| LzCompressor.Compressor.StartAgain | jni/extern/miniz.c:1975-1980 | After a full flush nothing refers to what came before |
| LzCompressor.WholeOutput | jni/extern/miniz.c:1970-1981 | Sections between full flushes, expanded each on its own, make up the whole |
| HuffmanCode.PrefixFree | jni/extern/miniz.c:908-921 | No canonical code word is the beginning of another |
| HuffmanCode.CompleteIsKraft | jni/extern/miniz.c:2590-2602 | The decoder's check for 65536 passes exactly when the Kraft sum is one |
| HuffmanCode.PlainDecodes | jni/extern/miniz.c:2590-2610 | Decoding bit by bit against the first codes finds the word the bits begin with |
| HuffmanCode.ExactlyOne | jni/extern/miniz.c:2590-2610 | A complete code reads every bit string in exactly one way |
| HuffmanCode.Trimmed | jni/extern/miniz.c:1001-1006 | Zero lengths at the end can be left out without changing a code word |
| HuffmanTree.TrieFinds | jni/extern/miniz.c:2411-2423 | Tables that satisfy the invariant find the symbol, and its length, of the word the bits begin with |
| HuffmanTree.AddedNode | jni/extern/miniz.c:2621-2639 | Making a node for a longer code overwrites no entry in use |
| HuffmanTree.AddedLeaf | jni/extern/miniz.c:2640-2641 | Nor does entering its symbol |
| HuffmanTree.AddedShort | jni/extern/miniz.c:2611-2620 | Nor do the entries of a short code |
| HuffmanTree.NodesFit | jni/extern/miniz.c:2621-2641 | There are no more nodes than symbols, so the tree stays in bounds |
| HuffmanTables.FirstCodes | jni/extern/miniz.c:2590-2602 | The build goes on exactly for complete codes and those with one word at most |
| HuffmanTables.Reverse | jni/extern/miniz.c:2609-2610 | The reversing loop turns a code into its word, first bit lowest |
| HuffmanTables.Tables.AddLong | jni/extern/miniz.c:2621-2641 | Entering a long code keeps the invariant |
| HuffmanTables.Tables.AddShort | jni/extern/miniz.c:2611-2620 | Entering a short code keeps it |
| HuffmanTables.Tables.Decode | jni/extern/miniz.c:2411-2423 | Decoding finds the one symbol whose word the buffer begins with, and its length; for a complete code on every buffer, agreeing with decoding bit by bit |
| HuffmanTables.BuildTables | jni/extern/miniz.c:2577-2642 | Fails exactly for codes that are neither complete nor have at most one word; otherwise the tables are built |
| HuffmanTables.AssignCodes | jni/extern/miniz.c:908-921 | The encoder's codes are the same words, first bit lowest |
| HuffmanTables.CompleteReads | jni/extern/miniz.c:2411-2423 | With a complete code every buffer begins with the word of exactly one symbol, of the length that decoding bit by bit finds |
| HuffmanTables.EncodeReads | jni/extern/miniz.c:2411-2423 | The first symbol written is the first read, and the rest of the bits is left |
| HuffmanTables.ReadText | jni/extern/miniz.c:2411-2423 | Reading with the tables what was written with the codes gives back the text |
| HuffmanDepths.MakeTree | jni/extern/miniz.c:797-816 | The first phase leaves, in bounds, ordered parents named at most twice, whatever the weights; for sorted weights within sixteen bits every node was made of two lightest items, and a parent outweighs child and grandchild together |
| HuffmanDepths.LevelDoubles | jni/extern/miniz.c:820-839 | No level has more than twice the nodes of the one above |
| HuffmanDepths.MakeDepths | jni/extern/miniz.c:817-819 | The second phase leaves the depths of the inner nodes |
| HuffmanDepths.NextLevel | jni/extern/miniz.c:826-830 | Levels have room for their inner nodes and none is skipped |
| HuffmanDepths.MakeLengths | jni/extern/miniz.c:820-839 | The third phase ends in bounds with falling lengths whose Kraft sum is exactly one, each leaf one level below the node it was merged into |
| HuffmanDepths.DepthBound | jni/extern/miniz.c:787-840 | Sixteen bits of weight make at most 21 inner levels |
| HuffmanDepths.MinimumRedundancy | jni/extern/miniz.c:787-840 | Kraft sum exactly one and lengths falling with the index for all weights; for sorted weights within sixteen bits no prefix code makes the text shorter, lengths are at most 22, and a length n needs a text as heavy as Fibonacci number n+2 |
| HuffmanMerging.Exchange | jni/extern/miniz.c:787-840 | Giving the longer word to the lighter item costs no more |
| HuffmanMerging.MergedLeast | jni/extern/miniz.c:800-816 | What the items after merging two lightest cannot be coded in less than, with one bit more for each of the two, the items before cannot either |
| HuffmanMerging.TreeShortest | jni/extern/miniz.c:787-840 | Merging two lightest items again and again leads to a code that no other code is shorter than |
| HuffmanLimit.FoldedExcess | jni/extern/miniz.c:853-856 | Counting longer codes at the limit leaves the sum over by no more than the number of codes there |
| HuffmanLimit.Splittable | jni/extern/miniz.c:857-868 | While the sum is over there is a longest code to take and a shorter one to split |
| HuffmanLimit.EnforceMaxCodeSize | jni/extern/miniz.c:847-869 | A full code of 2 to 2^max symbols becomes one of as many symbols within the limit, and stays as it is when it is within the limit already |
| RadixSort.BucketsOrdered | jni/extern/miniz.c:768-776 | A pass sorts by its digit and keeps the order within a digit |
| RadixSort.TwoPasses | jni/extern/miniz.c:753-784 | Two passes sort by the key and lose nothing |
| RadixSort.Pass | jni/extern/miniz.c:768-776 | The counting loop leaves the buckets one behind the other |
| RadixSort.Sort | jni/extern/miniz.c:753-784 | One of the two arrays holds the symbols sorted by key |
| HuffmanOptimize.CountCodes | jni/extern/miniz.c:896-897 | The counts of the lengths have the number and the Kraft sum of the symbols, for every bound on the length |
| HuffmanOptimize.AssignSizes | jni/extern/miniz.c:901-905 | Every symbol gets a length, each length as often as it was counted, the shortest at the end of the order |
| SymbolCounts.ArrangedText | jni/extern/miniz.c:883-894 | Length of the text and Kraft sum do not depend on the order of the symbols |
| SymbolCounts.ShortestCheapest | jni/extern/miniz.c:883-905 | So a shortest code for the sorted symbols is a cheapest one for the counts |
| HuffmanOptimize.RankedCheapest | jni/extern/miniz.c:896-905 | Lengths handed out by number to the sorted symbols are those of the tree |
| HuffmanOptimize.CutHeavy | jni/extern/miniz.c:847-856 | A code is only cut down to the limit when the text is as heavy as a Fibonacci number says |
| HuffmanOptimize.OptimizeTable | jni/extern/miniz.c:871-922 | Exactly the symbols that occur get a code within the limit, rarer ones no shorter one, the decoder takes the code, and no prefix code makes the text shorter unless codes had to be cut |
| CodeLengths.MeaningAppend | jni/extern/miniz.c:2645-2663 | Symbols mean the same one behind the other |
| CodeLengths.Packer.Pack | jni/extern/miniz.c:1014-1052 | The packed symbols stand for exactly the sizes, every count within its field, and are counted as often as they are used |
| CodeLengths.Unpack | jni/extern/miniz.c:2645-2667 | Reads back any packing of `total` sizes, and never more than the array holds |
| CodeLengths.Sent | jni/extern/miniz.c:1059-1065 | The lengths sent are those of 16, 17, 18 and 0 and then by turns of 8, 7, 9, 6 and so on, and reach to the last that is not zero |
| CodeLengths.Received | jni/extern/miniz.c:2568-2575 | Reading them back restores all nineteen |
| BitStream.LowJoin | jni/extern/miniz.c:924-940 | Or-ing bits in above those of the buffer puts them behind in the stream |
| BitStream.BitWriter.Put | jni/extern/miniz.c:924-940 | Appends the bits to the stream, whole bytes leaving the buffer |
| BitStream.BitWriter.Align | jni/extern/miniz.c:1316-1319 | Fills the last byte with zeros |
| BitStream.BitReader.TakeSymbol | jni/extern/miniz.c:2393-2426 | Reads the symbol whose word the stream begins with, at the end of the input too, and leaves the rest |
| LzSymbols.LargeIs | jni/extern/miniz.c:1217-1226 | From 512 on symbol and extra bits of a distance are given by its upper byte |
| LzSymbols.LenTables | jni/extern/miniz.c:686-703 | The length tables of the compressor have the closed form |
| LzSymbols.SmallDistTables | jni/extern/miniz.c:706-732 | So have its tables for distances up to 512 |
| LzSymbols.LargeDistTables | jni/extern/miniz.c:734-746 | And those for longer ones, by their upper byte |
| LzSymbols.LengthBack | jni/extern/miniz.c:2439-2440 | The decompressor's base and extra bits of the symbol sent for a length give the length |
| LzSymbols.DistanceBack | jni/extern/miniz.c:2441-2442 | The same for distances up to 32768 |
| DeflateFormat.UsesPacked | jni/extern/miniz.c:1067-1074 | Every symbol of the packed lengths has a word when the ones counted have |
| DeflateFormat.StaticComplete | jni/extern/miniz.c:1077-1099 | The fixed codes are complete |
| DeflateFormat.StaticSendable | jni/extern/miniz.c:1077-1099 | They have a word for every literal and match |
| DeflateFormat.StreamAppend | jni/extern/miniz.c:1299-1361 | A block goes behind the stream, its padding depending on where it starts |
| DeflateLayout.ByteAt | jni/extern/miniz.c:924-940 | Eight bits of the stream, the lowest first, are a byte |
| DeflateLayout.BlockStart | jni/extern/miniz.c:1299-1315 | A block starts with a bit that says whether it is the last and two bits that are 0 for stored, 1 for the fixed codes and 2 for codes of its own |
| DeflateLayout.StoredBits | jni/extern/miniz.c:1315-1327 | A stored block is, behind zeros up to a byte, its length in 16 bits, 65535 less its length, and its bytes |
| DeflateLayout.HeadLaidOut | jni/extern/miniz.c:1054-1074 | In the header of a block with codes of its own the places of the counts and of the lengths of 16, 17, 18, 0, 8, 7, 9 and so on, three bits each, and where the packed lengths begin |
| DeflateLayout.RunsAre | jni/extern/miniz.c:1067-1074 | Symbol 16 has two extra bits and repeats the length before three to six times, 17 has three for 3 to 10 zeros, 18 seven for 11 to 138 zeros |
| DeflateLayout.SizeIs | jni/extern/miniz.c:1067-1074 | A symbol below 16 is a length |
| DeflateLayout.StaticWords | jni/extern/miniz.c:1077-1099 | The words of the fixed codes as numbers: 48 to 191 in eight bits, 400 to 511 in nine, 0 to 23 in seven, 192 to 199 in eight; distances in five bits |
| DeflateLayout.WordsInOrder | jni/extern/miniz.c:908-921 | Words of one length are consecutive numbers in the order of their symbols, the first word of the next length is the one after the last with zeros appended, and the first of all is zero |
| DeflateLayout.LengthRows | jni/extern/miniz.c:686-703 | Symbol and number of extra bits of every length, by ranges |
| DeflateLayout.DistanceRows | jni/extern/miniz.c:706-746 | The same of every distance |
| DeflateLayout.MatchBits | jni/extern/miniz.c:1205-1229 | A match is the word for its length, the low bits of the length less 3, the word for its distance, and the low bits of the distance less 1 |
| DeflateLayout.ItemLaidOut | jni/extern/miniz.c:1299-1327 | All this holds of a block wherever it stands in a stream |
| DeflateLayout.StreamLaidOut | jni/extern/miniz.c:1299-1361 | And of every block of a stream, at the end of the blocks before it |
| DeflateWriter.CompressLzCodes | jni/extern/miniz.c:1197-1242 | Appends the codes of a block, and its end, as the format has them |
| DeflateWriter.CountSymbols | jni/extern/miniz.c:1711-1750 | Every symbol a block needs is counted, and the counts fit sixteen bits |
| DeflateWriter.TrimmedBody | jni/extern/miniz.c:1001-1006 | The codes mean the same with the lengths that the decompressor gets |
| DeflateWriter.UsesTotal | jni/extern/miniz.c:1014-1052 | No more symbols are packed than there are lengths |
| DeflateWriter.StartDynamicBlock | jni/extern/miniz.c:990-1075 | The header of a block with codes of its own describes codes that the decompressor takes and that have all the block needs; its counts and lengths are at the places that the format gives them |
| DeflateWriter.CompressBlock | jni/extern/miniz.c:1245-1252 | Appends a block in either form |
| DeflateWriter.StoreBlock | jni/extern/miniz.c:1315-1327 | Appends a stored block: kind 0, zeros up to a byte, length, complement and bytes at their places |
| DeflateWriter.Sender.PutBlock | jni/extern/miniz.c:1299-1335 | The stream sent is that of the blocks so far, the last bit of each header saying whether it is the last |
| DeflateReader.PackedStep | jni/extern/miniz.c:2645-2663 | One symbol of the packed lengths, with its count, and what is left |
| DeflateReader.ReadLengths | jni/extern/miniz.c:2643-2669 | The lengths of a block's codes come out as they were packed |
| DeflateReader.ReadHead | jni/extern/miniz.c:2563-2669 | The whole header of a block is read back |
| DeflateReader.ReadMatch | jni/extern/miniz.c:2758-2776 | Length and distance are those sent |
| DeflateReader.ReadBody | jni/extern/miniz.c:2672-2841 | Gives what the codes expand to, and fails exactly when a match reaches back before the first byte |
| DeflateReader.ReadStored | jni/extern/miniz.c:2497-2537 | A stored block's bytes are read back from the byte they start at |
| DeflateReader.ReadBlock | jni/extern/miniz.c:2495-2841 | One block of any form is read back, and no bit too many |
| DeflateReader.ReadStream | jni/extern/miniz.c:2493-2842 | The bytes that a stream's blocks stand for, up to the block marked as the last |
| Deflate.CompressMemToHeap | jni/extern/miniz.c:2038-2098 | Succeeds whenever the receiver takes all output, for every input, setting and initial window; the bytes are then a stream of blocks that stand for the input, each with its header fields, lengths and bytes at the places of the format |
| Deflate.CompressAndRestore | jni/extern/miniz.c:2924-2960 | Compressing into a receiver that takes all output and decompressing gives the input, for every input, setting and content of the window and the hash chains |
| ZipIndex.LessTotal | jni/extern/miniz.c:3519-3536 | Of two folded names one is less or they are equal |
| ZipIndex.Compare | jni/extern/miniz.c:4352-4367 | The comparison's sign is that of the order |
| ZipIndex.FilenameLess | jni/extern/miniz.c:3519-3536 | The comparison loop decides the order |
| ZipIndex.SiftDown | jni/extern/miniz.c:3565-3575 | Sifting restores the heap and permutes only its part of the array |
| ZipIndex.SortByFilename | jni/extern/miniz.c:3547-3598 | The array ends sorted by folded name and a permutation of what it was |
| ZipIndex.BinarySearch | jni/extern/miniz.c:4369-4407 | Finds an entry with an equal name, or there is none |
| ZipIndex.LinearScan | jni/extern/miniz.c:4446-4478 | Finds the first entry with an equal name, or there is none |
| ZipIndex.FoldIs | jni/extern/miniz.c:3519-3536 | Folded names are equal just when each byte is the same or the other case of a letter from A to Z |
| ZipIndex.LocateBothWays | jni/extern/miniz.c:4369-4478 | Bisection finds a name exactly when the scan does, namely when some entry has that name but for the case of A to Z; what both find is such an entry |
| Adler.BlockFits | jni/extern/miniz.c:43-63 | 5552 is the largest block whose sums cannot overflow 32 bits |
| Adler.RawReduces | jni/extern/miniz.c:48-61 | Reducing once for a block is reducing at every byte |
| Adler.ChecksumAppend | jni/extern/miniz.c:40-66 | The checksum of two buffers is that of the second continued from the first |
| Adler.ChecksumClosed | jni/extern/miniz.c:40-66 | The checksum in closed form: the sum of the bytes and the sum of the bytes weighted by how many are left, modulo 65521 |
| Adler.Adler32 | jni/extern/miniz.c:40-66 | Equals the per-byte checksum, and so the closed form, without overflow, the first block being empty or not |
| LuaProgram.RunSettled | jni/lua/lcode.c:131-160 | What a run does once a set of open jumps has destinations: it goes on there, with the register the test then sets |
| LuaProgram.RunRetested | jni/lua/lcode.c:131-147 | Tests whose jumps are open may stop copying without changing a run |
| LuaProgram.RunShortened | jni/lua/lcode.c:59-66 | Jumps held in the list of another jump may go straight to where it goes |
| LuaMeaning.JoinedMeans | jni/lua/lcode.c:745-760 | Code for a condition, then code for the right operand, is code for `and` or `or` |
| LuaMeaning.NotBranches | jni/lua/lcode.c:524-532 | A pending NOT is replaced by a test for the opposite |
| LuaMeaning.RegBranches | jni/lua/lcode.c:524-536 | Testing a register sorts values into going on and leaving with the value |
| LuaMeaning.ClosedBranches | jni/lua/lcode.c:539-591 | Sending one list to the end of the code leaves the other |
| LuaMeaning.NegJump | jni/lua/lcode.c:594-626 | Inverting the comparison, exchanging the lists and forbidding copies negates |
| LuaMeaning.NegReg | jni/lua/lcode.c:594-626 | So does a NOT instruction with exchanged lists |
| LuaMeaning.ComparedMeans | jni/lua/lcode.c:681-694 | Two operands and a comparison instruction compute the relation, greater as less the other way round |
| LuaMeaning.SentStored | jni/lua/lcode.c:390-411 | Patching both lists leaves the value in the register on every way |
| LuaLists.ChainUnique | jni/lua/lcode.c:100-106 | A jump list has one reading, so it is without cycles |
| LuaLists.ChainConcat | jni/lua/lcode.c:185-196 | Linking the last jump of one list to another makes the list of both |
| LuaLists.RefinesSent | jni/lua/lcode.c:150-160 | Patched code stands for the patched program |
| LuaCode.FuncState.FixJump | jni/lua/lcode.c:80-87 | Fails exactly when the offset does not fit; else only that jump changes |
| LuaCode.FuncState.GetJump | jni/lua/lcode.c:100-106 | On a jump that was fixed it gives the destination, unless that is the jump itself |
| LuaCode.NextOf | jni/lua/lcode.c:100-106 | On a jump of a list it gives the next one, or the end of the list |
| LuaCode.FuncState.Concat | jni/lua/lcode.c:185-196 | List append, changing nothing but the last jump of the first list; succeeds when the code is shorter than the largest offset |
| LuaCode.FuncState.NeedValue | jni/lua/lcode.c:122-128 | Whether some jump of the list leaves without copying |
| LuaCode.FuncState.PatchListAux | jni/lua/lcode.c:150-160 | Every jump whose test copies goes to one target, every other to the other; no other instruction changes but the tests |
| LuaCode.FuncState.DischargeJpc | jni/lua/lcode.c:163-166 | Pending jumps go to the next instruction, and copy nothing |
| LuaCode.FuncState.Emit | jni/lua/lcode.c:797-809 | Appends an instruction after settling the pending jumps |
| LuaCode.FuncState.Jump | jni/lua/lcode.c:59-66 | A new jump heads a list with the jumps that were pending |
| LuaCode.FuncState.PatchToHere | jni/lua/lcode.c:179-182 | The jumps of a list become pending |
| LuaCode.FuncState.Discharge2Reg | jni/lua/lcode.c:343-379 | The value is in the register on every run that does not leave |
| LuaCode.FuncState.Exp2Reg | jni/lua/lcode.c:390-411 | The value is in the register on every run |
| LuaCode.FuncState.Exp2AnyReg | jni/lua/lcode.c:422-433 | The value is in some register that is free or a variable's |
| LuaCode.FuncState.JumpOnCond | jni/lua/lcode.c:524-536 | The jump is taken just when the value has the truth asked for |
| LuaCode.FuncState.GoIfTrue | jni/lua/lcode.c:539-564 | Control goes on just when the value is true and else leaves by the list with it |
| LuaCode.FuncState.GoIfFalse | jni/lua/lcode.c:567-591 | The same for false |
| LuaCode.FuncState.CodeNot | jni/lua/lcode.c:594-626 | Negation |
| LuaCode.FuncState.CodeComp | jni/lua/lcode.c:681-694 | The relation between two operands is computed, by EQ, LT or LE with the operands exchanged for greater and greater-or-equal, and the test inverted for not-equal only |
| LuaCode.FuncState.Joining | jni/lua/lcode.c:745-760 | `and` and `or` |
| LuaCode.FuncState.Expression | jni/lua/lparser.c:828-853 | For every expression over locals, comparisons, `not`, `and` and `or`: the descriptor and the code mean its value, and code before it is left alone. Succeeds when the code and the registers in use leave room for what the expression needs at most |
| LuaCode.FuncState.Conjunction | jni/lua/lparser.c:841-850 | The same for `and` |
| LuaCode.FuncState.Disjunction | jni/lua/lparser.c:841-850 | The same for `or` |
| LuaCode.FuncState.Relation | jni/lua/lparser.c:841-850 | The same for comparisons |
| LuaCode.FuncState.Assignment | jni/lua/lcode.c:472-478 | The variable gets the value, no other changes |
| LuaCode.FuncState.ReturnStat | jni/lua/lparser.c:1238-1268 | The returned register has the value and every jump is settled |
| LuaMachine.MachineRuns | jni/lua/lvm.c:537-581 | Settled code does on the machine what its program does |
| LuaFunction.CompileFunction | jni/lua/lparser.c:931-962 | A compiled function of assignments and a returned expression returns what its source says, for every comparison rule and every initial register. It can only fail when the bounds on its code or its registers, linear in the expressions, exceed those of the machine |
| LuaFunction.OperatorsGive | jni/lua/lcode.c:745-790 | The code of one operator on local variables reaches its return with what the six relations, `not`, `and` and `or` give for the values of the variables, written out with the comparison rules, nil and false |
| LuaFunction.OperandsGive | jni/lua/lcode.c:745-790 | The same with operands of any kind |
| LuaFunction.ExecFirst | jni/lua/lparser.c:931-962 | Assignments are made from the first to the last |
| LuaFunction.AssignmentsGive | jni/lua/lparser.c:931-962 | What the code of two assignments and a returned variable reaches its return with |
| LuaOpcodes.FieldsMake | jni/lua/lopcodes.h:80-111 | A word is made of its fields, for both formats |
| LuaOpcodes.StoredBack | jni/lua/lopcodes.h:95-101 | A jump offset is read back from its 18 bits exactly when it is in range, and the other fields stay |
| LuaOpcodes.FixedWord | jni/lua/lcode.c:80-106 | What passes the test of fixjump is stored so that getjump gives the destination, but for a jump to itself |
| LuaOpcodes.PackFields | jni/lua/lopcodes.h:104-111 | Instructions are packed into words without loss |
| LuaOpcodes.SetPacked | jni/lua/lopcodes.h:85-101 | Patching the fields of a word is patching the instruction |
| LuaOpcodes.PackedNumbers | jni/lua/lopcodes.h:150-198 | The numbers that are in the word of each instruction |
| LuaOpcodes.WordDoes | jni/lua/lvm.c:403-540 | What the machine does on a word with opcode 0, 2, 19, 22 or 30, by the numbers in it |
| LuaOpcodes.WordTests | jni/lua/lvm.c:541-581 | And on the tests, opcodes 23 to 27: what is compared with what, when the jump in the next word is taken, and which register is set |
| DictIndex.AndMask | jni/hashtable.h:119-122 | Masking with a power of two less one is the remainder |
| DictIndex.BusyFew | jni/hashtable.h:124-135 | There are no more live slots than pairs, so the insertion loop ends |
| DictIndex.SlotInserted | jni/hashtable.h:124-135 | Using the first empty or deleted slot keeps the index a bijection without gaps on any probe path |
| DictIndex.SlotsRemoved | jni/hashtable.h:261-299 | So do shifting the indices and leaving a tombstone |
| DictIndex.FurtherOn | jni/hashtable.h:227-259 | A key that a probe has not met lies further on, with no empty slot before it |
| Dictionary.PutLookup | jni/hashtable.h:320-336 | After a put: the new value for the key, the old ones for the others |
| Dictionary.PutPlaces | jni/hashtable.h:320-336 | After a put every pair is at its place with its key, no value has changed but that of the key, and a key that was not there comes last |
| Dictionary.DeleteLookup | jni/hashtable.h:365-381 | After a delete: nothing for the key, the old values for the others |
| Dictionary.DeletedPlaces | jni/hashtable.h:365-381 | After a delete there are the pairs before that of the key and then those behind it; all of them when the key is not there |
| Dictionary.LookupPlaces | jni/hashtable.h:338-353 | The value of the pair that has the key, or none when no pair has it |
| Dictionary.BeforeThreshold | jni/hashtable.h:163-177 | Up to the first null pair the copy loop meets only pairs in use, stale ones lying below the threshold |
| Dictionary.Dict.LookupIndex | jni/hashtable.h:227-259 | Agrees with the ordered map, in an unallocated dictionary too |
| Dictionary.Dict.InsertSlot | jni/hashtable.h:124-135 | Terminates and keeps the index |
| Dictionary.Dict.Resize | jni/hashtable.h:137-190 | Copies exactly the pairs in use and leaves room |
| Dictionary.Dict.Insert | jni/hashtable.h:192-215 | Appends the pair |
| Dictionary.Dict.Remove | jni/hashtable.h:261-299 | Takes the pair out, the others keeping their order |
| Dictionary.Dict.Set | jni/hashtable.h:320-336 | Put on the ordered map: with a known key every pair keeps place and key and only its value changes, a new key comes last |
| Dictionary.Dict.Get | jni/hashtable.h:338-353 | The value of the pair that has the key, or none |
| Dictionary.Dict.Has | jni/hashtable.h:355-363 | Whether the key is there |
| Dictionary.Dict.Delete | jni/hashtable.h:365-381 | Takes out the pair of the key, the pairs before and behind it staying in order, or nothing when no pair has it; says which |
| Dictionary.Dict.At | jni/hashtable.h:383-401 | The pairs in insertion order, then nothing |
| Registry.EncodedBack | jni/reg.c:241-254 | Reading what was written gives the same pairs in the same order |
| Registry.RecordPlace | jni/reg.c:172-227 | Where in the file the record of each pair is: the length of the key in four bytes, lowest first, the key, the length of the value, the value; and how long the file is |
| Registry.Save | jni/reg.c:172-227 | Writes the format, beginning with the bytes K, N, O, T and the number of pairs, lowest byte first; succeeds exactly when no key or value is empty |
| Registry.Load | jni/reg.c:229-259 | Puts the file's records into the dictionary one after the other |
| Registry.SaveAndLoad | jni/reg.c:172-259 | A dictionary that could be saved is loaded again as it was |
| Aarch64.SignExtends | jni/leafhook.h:36-44 | The sign extension macro is two's complement |
| BlockRewriter.Rewrite | jni/leafhook.h:187-256 | The bytes of the new block when everything fits, fewer otherwise |
| BlockRewriter.NewPool | jni/leafhook.h:187-188 | The distance of a load leads to the instruction's own place in the pool |
| BlockRewriter.OneStep | jni/leafhook.h:200-246 | Moved and original instruction leave the same memory, and the same registers exactly when a captured literal is the one that would be loaded |
| BlockRewriter.MovedRun | jni/leafhook.h:190-256 | The new block, run from memory, ends with the old one's registers but x16 and memory, at the old block's end |
| BlockRewriter.HookFits | jni/leafhook.h:265-281 | A block fits just when it has at most 62 instructions and 248 bytes of literals, so blocks of up to 30 instructions always do |
| BlockRewriter.LaterLiteral | jni/leafhook.h:226-241 | A literal load that is second in its block can capture the wrong word, and then leaves another value in its register |
| BlockRewriter.CapturedRight | jni/leafhook.h:226-241 | While its literal is unchanged, a load moves faithfully exactly if it is first, throws the value away, or the word captured equals the right one: a condition on the memory before the move |
| BlockRewriter.CapturedRun | jni/leafhook.h:190-256 | A block that meets this condition does in its new place what it did in the old one, as long as nothing writes over either |
| BlockRewriter.LongJumps | jni/leafhook.h:258-263 | The patch over a hooked function goes to the hook |
| MovedWords.AdrDoes | jni/leafhook.h:47-54 | What the words of ADR and ADRP with given fields do to the registers, for every register and every signed offset of 21 bits |
| MovedWords.LoadDoes | jni/leafhook.h:55-59 | What the word of a literal load with given fields takes from memory |
| MovedWords.BranchDoes | jni/leafhook.h:60-62 | Where the word of a branch to a register goes |
| MovedWords.AdrMoved | jni/leafhook.h:200-225 | In a moved block an ADR or ADRP word with given fields is a load, into its register, of eight bytes of the pool, lowest first, that are the address it made |
| MovedWords.LoadMoved | jni/leafhook.h:226-241 | A literal load word is one of four or eight bytes of the pool, which are those in memory as many literals beyond its own as there are instructions before it |
| MovedWords.OtherMoved | jni/leafhook.h:242-245 | Every other word is at its place unchanged |
| MovedWords.PoolPlace | jni/leafhook.h:187-188 | How much of the pool each word takes |
| MovedWords.EndMoved | jni/leafhook.h:248-252 | The end of the new block: a load of the old block's end into x16, the branch there, and that address behind the pool |
| MovedWords.LongJumpBytes | jni/leafhook.h:258-263 | The sixteen bytes that go over a hooked function |

## Left out

- Weak tables, `__gc` finalizers, resizing of stacks and of the string table, and the pacing of steps in the collector.
- LuaCollector.Collector.SetStack: stacks have no dead part above the top.
- LuaCollector.Collector.constructor: the strings of a new state are made afterwards, by `InternString` and `Fix`.
- The gclist links of gray objects are sequences, so sharing of the link field is not modelled.
- The choice between fixed, own and no codes for a block, which is `*`, the fixed size of the output buffer, and the zlib header and trailer.
- DeflateReader.ReadStream: streams that no compressor sends, calls that split a stream, and refilling of the bit buffer; what is left of the input is one number.
- BitStream.BitReader.TakeSymbol: the bit buffer is not refilled byte by byte, all that is left of the input is in it.
- LzCompressor.Compressor.FlushBlock: whether coding pays, and what a receiver that does not take all answers, is open.
- HuffmanOptimize.TreeLengths: the keys are moved from the sorted entries to an array of their own.
- Constants, upvalues, globals, tables, calls and arithmetic in the code generator; with constants as operands of `and` and `or` bare jumps appear, for which the value claim is not made.
- The limit that the machine's memory sets on code size. Code is a sequence of instructions, of which `LuaOpcodes` gives the words.
- Metamethods of comparisons: a comparison is any function of two values.
- Failing allocation, and dictionaries of more than 2684354560 pairs.
- Registry.Load: truncated files, on which the original reads what it did not get.
- Sharing of key and value blobs between a dictionary and its callers.
- AArch32, and branches and other position-dependent instructions than ADR, ADRP and LDR (literal) inside a moved block.
- The bounds and alignment of the executable memory that moved blocks are put into.
- ZIP reading and writing beyond the name index, PNG, the zlib stream interface and `tdefl_compress_fast`, which this build does not compile.
- Sockets, files, Lua bindings, the ELF loader and game control, which are input and output.
