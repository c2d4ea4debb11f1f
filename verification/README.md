# Proofs about Valgrind's profilers

This project models the parts of Cachegrind, Callgrind and the debuginfo server of
Valgrind whose correctness is least obvious, and proves what they do. Run
`dafny verify dfyconfig.toml` to check it.

| files | what they model |
|---|---|
| `AvlTree`, `AvlNodes`, `AvlMap`, `AvlIter`, `WordFM` | the AVL map of `cg_merge`: trees as values, the same algorithms on heap nodes, the finite map a tree stands for, and the iterator with its explicit stack |
| `Profile`, `CacheProf`, `ProfText`, `ProfFile`, `ProfSums`, `CgMerge` | profiles as finite maps, merging on the two-level map of maps with its ownership, the printed form with its parser, what a file says, and the merging of several files |
| `Arith`, `Lru`, `CacheSim`, `WriteBack`, `UseMask`, `CacheUse`, `CacheAccess`, `CacheTrace` | the three cache simulators: plain, write-back, and with use statistics |
| `EventStream`, `EventQueue`, `EventCounts`, `BlockEffects` | Cachegrind's instrumentation: the event buffer as a compiler pass, what the emitted helper calls mean, and what counters and caches make of a block |
| `ShadowStack`, `BlockEntry`, `ActiveCounts`, `CallStack` | Callgrind's shadow call stack, contexts and handler levels as values, what entering a block records, restores and counts, and the same in place on arrays |
| `Costs`, `CostStack` | inclusive costs of calls, settled at returns and at dumps, printed and reset |
| `Threads`, `ThreadSwitch` | threads and signal handlers as values, and the saving and loading of globals |
| `QuickSort`, `DumpOrder` | the quicksort of Callgrind's dumps, and the order it sorts by |
| `Adler32` | the checksum of the debuginfo server, against section 8.2 of RFC 1950 |

Algorithms that update memory are methods on classes and arrays; each is proved equal to a
function on values, and the theorems are about those functions and their runs. A heap
object that stands for a value carries that value as ghost state (the tree of a map, the
account of a cost stack, the log of all threads), tied to the real fields by `Valid`.

Counters are 64-bit words and wrap around; addresses are 64-bit and accesses do not wrap
around the top of memory. Checksums are 32-bit, and masks are 32-bit vectors. Sizes of
caches, which are powers of two, appear as divisors instead of shifts and masks.

Where code and comments or expectations differ, the model follows the code:

- The iterator's comment says that 2^32 entries can be iterated over; its stack of 32
  suffices below 9,227,464 entries and not always from there on (`SmallMapsFit`, `OverflowAt9227464`).
- Printing shows 64-bit counters as signed, so a profile with a line number, count or sum of
  2^63 or more does not parse again (`ParseShow`). So files may merge at once and not in stages
  (`InStages`, `StagedOverflow`).
- The quicksort's lower block exchange is wrong when more elements equal the pivot than are
  less; the upper one is right for all lengths. So ties may leave the result unsorted
  (`SortedIffFits`, `TiesUnsorted`); without ties it is sorted.
- Callgrind's tag mask is built from a 32-bit word: lines 2^32 bytes apart are confused
  (`SameSetAndTag`). It also tells straddling accesses by their sets, which is wrong for a
  cache of one set (`SetsTellLines`).
- `ensure_stack_size` makes no room for the index asked for if that is the old size doubled
  some times; it is only asked for at most the old size (`EnsureStackSize`).
- With direct recursion set not to count, returning from a toggling function can leave
  collection flipped: `WordRestores` says exactly when, `RecursionFlips` gives a run.
- The size of a context is unsigned where it is computed, so the test for sizes that are not positive
  only catches -1 callers; below that the size is that number plus 1 modulo 2^32, which takes in all
  functions up to the separator (`ContextHolds`). For -1 the code looks a context up by one function
  and records that it has none; here it has that one.
- The assertion that something is skipped, where a function is left by jumping while a skipped
  call is on top, can fail outside handlers (`SetupIs`, `SkippedLeft`).
- A grouped function that begins its level, or is returned to out of it, looks up the group of
  a missing function (`SetupIs`, `FirstGrouped`).
- A return is taken for one without a call whenever the function stack of its level has one function,
  even if calls are left because that function called itself. If it goes on in another function, the
  contexts saved by those calls are no longer those of the function stack (`SetupFits`).
- Unwinding by stack pointer does not know where a handler began. A handler on a stack above the
  interrupted one is taken to have ended at its first block. Its real end then fails an assertion,
  unless the level it fell into handles the same signal; then that handler ends instead
  (`FirstBlockStays`, `NestedEnds`, `AlternateStack`). Everything stays in its level exactly as long
  as the stack pointers compared in `Stays` say so (`SetupStays`). If two nested handlers that began
  at one height are left at once, the code pops a call that belongs to neither; the model stops
  there (`SetupIs`).
- Block records are compared by differences cut to 32 bits, which have the right sign exactly from
  -2^31 up to 2^31 (`MyCmpIsLexIff`); `ThreeAddresses` says of which addresses that is no order. Close
  records are ordered, with ties that leave a dump out of order (`NearInOrder`, `TiedBlocksUnsorted`).
- A dump in a signal handler settles interrupted calls against the cost of the handler, so what it
  prints of them is off, until they settle again (`DumpIsInclusive`, `RunConserved`).
- After the description lines the parser of `cg_merge` compares a line it may not have, which
  counts as a refusal here (`OnlyDescLines`).

## Model

| member | source | states |
|---|---|---|
| `AvlTree.GrewLeft` | cachegrind/cg_merge.c:1091-1103 | after the left subtree has grown, the tree is balanced with correct stored balances; the result is True exactly when the tree itself is one higher, and then its root has not changed and leans |
| `AvlTree.GrewRight` | cachegrind/cg_merge.c:1124-1136 | the same on the right side |
| `AvlTree.ShrankLeft` | cachegrind/cg_merge.c:1176-1203 | after the left subtree has lost a level, the tree is balanced with correct stored balances, and lower by one exactly when the result says so |
| `AvlTree.ShrankRight` | cachegrind/cg_merge.c:1212-1239 | the same on the right side |
| `AvlTree.Insert` | cachegrind/cg_merge.c:1062-1157 | the result is balanced with exact stored balances; its height grew by one exactly when the result is True; a non-empty tree that grew keeps its root |
| `AvlTree.Remove` | cachegrind/cg_merge.c:1162-1247 | the result is balanced with exact stored balances, lower by one exactly when the result is nonzero |
| `AvlTree.RemoveRoot` | cachegrind/cg_merge.c:1252-1286 | the same for the removal of the root |
| `AvlTree.InsertContents` | cachegrind/cg_merge.c:1062-1157 | the in-order listing after an insertion is the listing before with the entry put, or its value replaced, at its place in the search order |
| `AvlTree.RemoveContents` | cachegrind/cg_merge.c:1162-1247 | the in-order listing after a deletion is the listing before without the entry the search ends at |
| `AvlTree.RemoveNeighbour` | cachegrind/cg_merge.c:1270-1285 | removing by key the neighbour on the chosen side: the search leaves the root and ends at that neighbour, the removal keeps the root in place, and the balance test that ends the function agrees with whether the height shrank |
| `AvlMap.SearchSplits` | cachegrind/cg_merge.c:1289-1299 | a search cuts the listing of an ordered tree exactly at the key |
| `AvlMap.SearchCorrect` | cachegrind/cg_merge.c:1289-1299 | a search finds a key exactly when the map binds it, and stops at its binding |
| `AvlMap.InsertCorrect` | cachegrind/cg_merge.c:1448-1462 | insertion into a valid tree gives a valid tree for the map with that one binding changed, the right size, and the right answer about its height |
| `AvlMap.RemoveCorrect` | cachegrind/cg_merge.c:1465-1477 | deletion gives a valid tree for the map without that key, one entry fewer, and the right answer about its height |
| `AvlMap.RunIsFiniteMap` | cachegrind/cg_merge.c:1448-1496 | after any run of additions and deletions the tree is valid for the finite map they describe, searches answer from that map, and there is one entry per key |
| `AvlNodes.AvlSwl` | cachegrind/cg_merge.c:1007-1015 | the rotation on nodes is the rotation of the tree, with the same nodes |
| `AvlNodes.AvlSwr` | cachegrind/cg_merge.c:1017-1025 | the rotation on nodes is the rotation of the tree, with the same nodes |
| `AvlNodes.AvlNasty` | cachegrind/cg_merge.c:1027-1047 | the balances after a double rotation |
| `AvlNodes.AvlGrewLeft` | cachegrind/cg_merge.c:1091-1103 | the node-level steps of an insertion after the left subtree grew compute exactly the rebalanced tree |
| `AvlNodes.AvlGrewRight` | cachegrind/cg_merge.c:1124-1136 | the same on the right side |
| `AvlNodes.AvlExtendLeft` | cachegrind/cg_merge.c:1081-1104 | a left subtree that grew is not stored back, and need not be, as it kept its root |
| `AvlNodes.AvlExtendRight` | cachegrind/cg_merge.c:1114-1137 | a right subtree that grew is not stored back, and need not be, as it kept its root |
| `AvlNodes.AvlInsertWrk` | cachegrind/cg_merge.c:1062-1157 | insertion in place: the nodes form the tree the specification gives, only nodes of the tree and the new one are used, the old value of a known key is handed out, and the result says whether the height grew |
| `AvlNodes.AvlShrankLeft` | cachegrind/cg_merge.c:1176-1203 | the node-level steps of a deletion after the left subtree lost a level compute exactly the rebalanced tree |
| `AvlNodes.AvlShrankRight` | cachegrind/cg_merge.c:1212-1239 | the same on the right side |
| `AvlNodes.AvlReplaceLeft` | cachegrind/cg_merge.c:1174-1203 | what a deletion does with the root once its left subtree is done |
| `AvlNodes.AvlReplaceRight` | cachegrind/cg_merge.c:1210-1239 | what a deletion does with the root once its right subtree is done |
| `AvlNodes.AvlRemoveWrk` | cachegrind/cg_merge.c:1162-1247 | deletion in place terminates although it and the removal of a root call each other on one tree, removes exactly the node given, and returns whether the height shrank |
| `AvlNodes.AvlRemoveRootWrk` | cachegrind/cg_merge.c:1252-1286 | removal of the root in place: re-entering the deletion on the same root and then overwriting the root is correct |
| `AvlNodes.AvlFindNode` | cachegrind/cg_merge.c:1288-1299 | the node found is the one the search of the tree ends at; null exactly when there is none |
| `AvlNodes.SizeAvlNonNull` | cachegrind/cg_merge.c:1049-1054 | the number of entries |
| `WordFMs.WordFM.constructor` | cachegrind/cg_merge.c:1394-1416 | a new map is empty and owns fresh memory |
| `WordFMs.WordFM.AddToFM` | cachegrind/cg_merge.c:1448-1462 | the map gets exactly this binding |
| `WordFMs.WordFM.DelFromFM` | cachegrind/cg_merge.c:1465-1477 | the map loses exactly this key; whether it was bound, and the value it was bound to, are returned |
| `WordFMs.WordFM.LookupFM` | cachegrind/cg_merge.c:1480-1490 | the value bound to the key, if any |
| `WordFMs.WordFM.SizeFM` | cachegrind/cg_merge.c:1492-1496 | the number of bindings |
| `WordFMs.WordFM.StackClear` | cachegrind/cg_merge.c:1302-1311 | the iterator stack is empty, the map unchanged |
| `WordFMs.WordFM.StackPush` | cachegrind/cg_merge.c:1314-1321 | one frame more; the assertion on its size is the precondition |
| `WordFMs.WordFM.StackPop` | cachegrind/cg_merge.c:1324-1339 | the last frame comes off; False exactly when there is none |
| `WordFMs.WordFM.InitIterFM` | cachegrind/cg_merge.c:1499-1505 | all entries, in order, are still to be delivered; the stack has room to the end exactly if no path to a node makes 32 or more left turns |
| `WordFMs.WordFM.NextIterFM` | cachegrind/cg_merge.c:1509-1541 | delivers the next entry in ascending order, each once, then False with an empty stack; the push assertions never fail |
| `AvlIter.StepDelivers` | cachegrind/cg_merge.c:1512-1538 | one visit of the three-visit traversal delivers the next pending entry if it is a second visit, nothing otherwise |
| `AvlIter.StepVisits` | cachegrind/cg_merge.c:1512-1538 | every visit uses up one of the finitely many due, so the loop ends |
| `AvlIter.StackSuffices` | cachegrind/cg_merge.c:1314-1321 | a stack of n cells never overflows during a traversal exactly when no path to a node makes n or more left turns |
| `AvlIter.SmallMapsFit` | cachegrind/cg_merge.c:992-1002 | with fewer than 9,227,464 entries 32 cells suffice; the comment in the source says 2^32 |
| `AvlIter.OverflowAt9227464` | cachegrind/cg_merge.c:992-1002 | the bound is exact: a valid map with 9,227,464 entries whose traversal needs more than 32 cells |
| `Profile.MergeCommutes` | cachegrind/cg_merge.c:766-846 | merging does not depend on which of two profiles is the destination |
| `Profile.MergeAssociates` | cachegrind/cg_merge.c:857-964 | merging many profiles does not depend on how they are grouped |
| `Profile.MergeSummary` | cachegrind/cg_merge.c:839-840 | adding the summaries keeps every summary counter equal, modulo 2^64, to the sum of its column over all lines |
| `Profile.AddCountsSummary` | cachegrind/cg_merge.c:591-592 | accounting for one more counts line keeps every summary counter equal to the sum of its column |
| `Profile.MergeTablesSum` | cachegrind/cg_merge.c:766-846 | column sums of the merged table are the sums of the column sums |
| `Profile.MergeNoEmptyFile` | cachegrind/cg_merge.c:766-846 | merging makes no file without lines, which printing would lose |
| `Profile.EventCountIs` | cachegrind/cg_merge.c:676-681 | the number of events is the number of positions from 6 on at which a letter follows a space |
| `Profile.EventsOfNames` | cachegrind/cg_merge.c:676-681 | a header of k names separated by single spaces has k events |
| `Profile.AddedCounts` | cachegrind/cg_merge.c:577-592 | a counts line adds its counts, modulo 2^64, to those of its own line, and changes no other |
| `Profile.MergedCounts` | cachegrind/cg_merge.c:766-846 | counter by counter merging is addition modulo 2^64, and the merged profile knows exactly the lines that either one does |
| `CacheProf.FileFnOrder` | cachegrind/cg_merge.c:440-449 | the comparison of (file, function) names is a total order |
| `CacheProf.StrcmpIs` | cachegrind/cg_merge.c:440-449 | one name is less than another exactly if at the first place where they differ it has the lesser character, or ends |
| `CacheProf.FileFnOrderIs` | cachegrind/cg_merge.c:440-449 | so files are ordered by name, and the functions of a file by theirs |
| `CacheProf.UWordOrder` | cachegrind/cg_merge.c:451-458 | the comparison of line numbers is a total order, the order of the numbers |
| `CacheProf.AddCountsInto` | cachegrind/cg_merge.c:521-528 | adds column by column modulo 2^64; refused, with nothing changed, if the lengths differ |
| `CacheProf.DopyCounts` | cachegrind/cg_merge.c:334-337 | a copy in memory of its own |
| `CacheProf.AddCountsToMap` | cachegrind/cg_merge.c:530-546 | the line gets the counts added to its own vector, or takes the new vector over; the result tells which |
| `CacheProf.AvlDopy` | cachegrind/cg_merge.c:1341-1390 | a tree of the same shape and contents that shares no node and no vector |
| `CacheProf.DopyInnerMap` | cachegrind/cg_merge.c:361-365 | a line map with the same lines that shares nothing with the original, which is unchanged |
| `CacheProf.AddCountsToTable` | cachegrind/cg_merge.c:577-589 | the table is the one with these counts added under this file, function and line; a new file gets a map of its own |
| `CacheProf.HandleCounts` | cachegrind/cg_merge.c:549-602 | table and running summary both account for the line, so the summary stays the sum of the columns; refused, with nothing changed, on a wrong number of counts |
| `CacheProf.CacheProfFile.constructor` | cachegrind/cg_merge.c:339-359 | a new profile is empty and its summary zero |
| `CacheProf.MergeInner` | cachegrind/cg_merge.c:813-833 | the lines of two maps are merged pointwise; the source map keeps its contents and shares nothing with the destination |
| `CacheProf.MergeOneFile` | cachegrind/cg_merge.c:802-835 | one file of the source is merged into the table; all other files stay as they are |
| `CacheProf.MergeOuter` | cachegrind/cg_merge.c:797-837 | the destination is the pointwise sum over the union of all keys; the source is unchanged and the two share no memory |
| `CacheProf.MergeCacheProfInfo` | cachegrind/cg_merge.c:766-846 | the merged profile is the pointwise sum, its summary the sum of the summaries, the source unchanged, no node or vector shared, and both stay valid; refused exactly when the events lines differ |
| `ProfFile.ParseULong` | cachegrind/cg_merge.c:461-479 | reads the number after any white space, modulo 2^64, and the position after it; fails exactly if there is none |
| `ProfFile.SplitUpCountsLine` | cachegrind/cg_merge.c:487-519 | all numbers of the line; refused on anything else, or with too few of them |
| `ProfFile.ShowInner` | cachegrind/cg_merge.c:422-428 | prints the lines of one file, in ascending order of their numbers, without changing the map |
| `ProfFile.ShowOuter` | cachegrind/cg_merge.c:418-430 | prints all files, in ascending order of file name and function name, without changing the maps |
| `ProfFile.ShowCacheProfFile` | cachegrind/cg_merge.c:404-437 | what is printed is the text form of the profile, files and lines ascending; the profile is not changed |
| `ProfFile.ReadBody` | cachegrind/cg_merge.c:693-721 | reads counts, name and summary lines as the specification of the parser does, and ends with a valid profile or an error |
| `ProfFile.CheckSummary` | cachegrind/cg_merge.c:737-748 | accepts exactly a summary line that states the running sums |
| `ProfFile.ParseCacheProfFile` | cachegrind/cg_merge.c:610-763 | the profile the specification of the parser gives, in fresh memory; null exactly where the parser stops with an error |
| `ProfText.DigitsOfDec` | cachegrind/cg_merge.c:461-479 | decimal digits read back as the number they show |
| `ProfText.NumbersOfCounts` | cachegrind/cg_merge.c:396-402 | a printed counts list reads back as itself exactly when no count is printed with a sign |
| `ProfText.ReadShownLine` | cachegrind/cg_merge.c:428-430 | a printed line reads back exactly when neither its line number nor a count is printed with a sign and there is a count |
| `ProfText.ParseShow` | cachegrind/cg_merge.c:610-763 | parsing what was printed gives back header lines, table and summary exactly when there is an event and no line number, count or sum reaches 2^63 (they are printed as signed); otherwise the parser refuses |
| `ProfText.ParseShowText` | cachegrind/cg_merge.c:404-437 | the same on the text itself, for names and header lines without newline |
| `ProfText.ParsedIsPrintable` | cachegrind/cg_merge.c:610-763 | every parsed profile is one the round trip is about: headers well formed, no file without lines, summary equal to the column sums |
| `ProfSums.NumbersOfWords` | cachegrind/cg_merge.c:461-519 | a line of digits kept apart by white space is read as the numbers the digits show, modulo 2^64 |
| `ProfSums.ShownIs` | cachegrind/cg_merge.c:396-402 | numbers below 2^63 are printed in decimal, larger ones as minus what is missing to 2^64 |
| `ProfSums.PrintedExample` | cachegrind/cg_merge.c:404-437 | a whole printed profile, character by character |
| `ProfSums.Accepted` | cachegrind/cg_merge.c:610-763 | a file is accepted exactly if it is description lines, a command line, an events line, lines of counts of that many events or of names, and a summary line that says the column sums of those counts |
| `ProfSums.AcceptedAt` | cachegrind/cg_merge.c:610-763 | and of such a file the header lines are kept as they are |
| `ProfSums.ParsedCounts` | cachegrind/cg_merge.c:610-763 | and every counter of every source line is the sum, modulo 2^64, of what the counts lines under its file and function say of it; lines of which none says anything are not known |
| `Lru.RunIsRecent` | cachegrind/cg_sim.c:86-120 | after any references a set first filled with a tag holds the tags most recently used, newest first, where the fill counts as one earlier reference |
| `Lru.HitIffFewSince` | cachegrind/cg_sim.c:86-120 | a reference hits exactly when fewer than the associativity of other tags were referenced since the tag was last used |
| `Lru.TouchPrefix` | cachegrind/cg_sim.c:86-120 | the first ways of a set behave as a set with just those ways |
| `CacheSim.CacheT2.constructor` | cachegrind/cg_sim.c:52-78 | an empty cache holds tag 0 in every way |
| `CacheSim.CacheT2.SetrefIsMiss` | cachegrind/cg_sim.c:86-120 | in place on the tag array: the set referenced becomes the move-to-front of itself, all other sets stay, and the result says whether the tag was missing |
| `CacheSim.CacheT2.RefIsMiss` | cachegrind/cg_sim.c:123-161 | an access references every line it touches, in order, and misses if one of them does; an access fitting a line never falls outside the two cases |
| `CacheSim.CacheIsRecent` | cachegrind/cg_sim.c:86-161 | after any trace each set of an empty cache holds its own most recently used blocks, newest first |
| `CacheSim.CacheHitIffFewSince` | cachegrind/cg_sim.c:86-161 | a block hits exactly when fewer than the associativity of other blocks of its set were used since it was |
| `CacheSim.StackInclusion` | cachegrind/cg_sim.c:123-161 | for equal sets and line size and any trace, straddling accesses included, the lower-associativity cache holds at every moment the first ways of the higher one, and misses at least as often |
| `CacheSim.RefsAreBlocks` | cachegrind/cg_sim.c:123-161 | accesses reference the blocks of their bytes in order, so the theorems about blocks hold of accesses |
| `CacheSim.NoXIsGen` | cachegrind/cg_sim.c:186-232 | where the test for the special case holds, the special case leaves the same caches and reports the same misses as the general one |
| `CacheSim.AccessMissIff` | cachegrind/cg_sim.c:123-161 | an access, after any blocks from an empty cache, misses exactly if one of its lines has not been used since fewer other lines of its set than there are ways; of a second line that is after the first |
| `CacheSim.MissesCounted` | cachegrind/cg_sim.c:123-161 | the misses counted over a run are the accesses that miss, each once |
| `CacheSim.Simulator.I1DorefGen` | cachegrind/cg_sim.c:175-184 | looks in I1, and in LL only on a miss; counters rise accordingly |
| `CacheSim.Simulator.I1DorefNoX` | cachegrind/cg_sim.c:186-202 | references one block in I1 and, on a miss, in LL |
| `CacheSim.Simulator.D1Doref` | cachegrind/cg_sim.c:204-213 | looks in D1, and in LL only on a miss; counters rise accordingly |
| `WriteBack.ErasedIsPlain` | callgrind/sim.c:351-387 | with dirty bits erased a write-back reference is a plain one, and hits when it does |
| `WriteBack.SetrefWb` | callgrind/sim.c:351-387 | in place on the tag array: the specification of a write-back reference, other sets unchanged |
| `WriteBack.RunWbIsPlain` | callgrind/sim.c:351-387 | whole runs with dirty bits erased are runs of the plain simulator |
| `WriteBack.DirtyIffWritten` | callgrind/sim.c:351-387 | after any reads and writes a way is dirty exactly when it holds a line written since it was brought in |
| `WriteBack.MissDirtyIffWritten` | callgrind/sim.c:351-387 | MissDirty is returned exactly when the reference misses and the evicted line was written since it was brought in |
| `WriteBack.SameSetAndTag` | callgrind/sim.c:174-186 | two addresses share set and tag exactly when their low 32 bits lie on one line, because the mask is built from a 32-bit word |
| `WriteBack.LinesAliasAbove4G` | callgrind/sim.c:185 | an example of two lines 2^32 bytes apart taken for one another |
| `CacheAccess.SetsTellLines` | callgrind/sim.c:393-411 | comparing sets instead of lines tells the two cases apart exactly when the cache has more than one set; the second set is always the next one, so no access is refused |
| `CacheAccess.SeenArePieces` | callgrind/sim.c:393-411 | what is looked up for an access is exactly its pieces of lines, unless it straddles in a cache of one set, where one line is looked up |
| `CacheAccess.OneSetStraddle` | callgrind/sim.c:698-699 | an example: with one set a straddling access is taken for one within a line |
| `CacheAccess.PiecesAreBytes` | callgrind/sim.c:687-829 | the pieces of lines an access is split into are together exactly its bytes |
| `CacheAccess.TagOfLine` | callgrind/sim.c:689 | all addresses of a line have the same tag, a multiple of the size of a way |
| `CacheAccess.RefWb` | callgrind/sim.c:390-418 | a write-back access references the lines that comparing the sets of its ends makes out, in order, and reports the worse result |
| `CacheAccess.DoRead` | callgrind/sim.c:683-829 | an access with use statistics: the lines that comparing the sets of its ends makes out are referenced in order with exactly the looked-up mask of the part on that line, last level included; the result is the farther one |
| `CacheAccess.MaskOfBytes` | callgrind/sim.c:702-703 | the looked-up masks of the two ends intersect in the mask of the bytes between, and a straddling access needs only one look-up for each line |
| `CacheUse.OwnSlots` | callgrind/sim.c:152-169 | in a valid set the ways own pairwise different slots within the set |
| `CacheUse.TouchUseOk` | callgrind/sim.c:698-743 | a reference keeps the slot numbers a permutation, and without slot bits it is the plain reference |
| `CacheUse.TouchUseAt` | callgrind/sim.c:698-743 | use records travel with their lines; only the referenced line changes its record, afresh on a miss |
| `CacheUse.RunUseIsPlain` | callgrind/sim.c:698-743 | whole runs with slot bits erased are runs of the plain simulator |
| `CacheUse.SlotsRecordUses` | callgrind/sim.c:698-743 | after any references the slot of each way records exactly the uses of its line since it was brought in, count and granules, and the address it was brought in for; other slots are unused |
| `CacheUse.UsesMaskBits` | callgrind/sim.c:709-711 | a bit is set in a record exactly when a use since the line was brought in touched that granule |
| `CacheUse.UsesCounted` | callgrind/sim.c:709-711 | the count in a record is the number of uses since the line was brought in, modulo 2^32 |
| `CacheUse.LossIsUntouched` | callgrind/sim.c:935-955 | the loss charged on eviction is the number of bytes lying in granules no access touched since the line was brought in |
| `CacheUse.UseCache.constructor` | callgrind/sim.c:152-169 | a cleared cache: every way points to its own unused slot |
| `CacheUse.UseCache.AccessLine` | callgrind/sim.c:683-744 | one reference in place, over tags, use records and line addresses: the set referenced changes as specified, all other sets stay; on a miss the evicted record is handed out |
| `CacheUse.UseCache.AccessLL` | callgrind/sim.c:880-930 | the same for the last level, where a hit counts no use and a miss clears the slot |
| `CacheUse.RunLLIsRunUse` | callgrind/sim.c:880-930 | in every run the last level keeps tags, slots and line addresses as the first level does |
| `CacheTrace.CacheDirtyIffWritten` | callgrind/sim.c:351-418 | whole cache: after any trace of reads and writes by address, straddling ones included, each way of each set holds the tag of its place in the recency of the set, and is dirty exactly when that tag was written since it was brought in |
| `CacheTrace.CacheMissDirtyIff` | callgrind/sim.c:351-418 | whole cache: after any trace the next line looked up hits, misses, or misses dirty exactly according to which tags of its set were used and written |
| `CacheTrace.AccessWbIs` | callgrind/sim.c:390-418 | the answer to a whole access after any trace: a dirty miss exactly if one of the lines looked up evicts a written one, a hit exactly if all of them hit |
| `CacheTrace.CacheRecordsUses` | callgrind/sim.c:683-829 | whole first level: after any trace of accesses by address, and whatever the last level holds, the slot of each way records exactly the uses of its line since it was brought in |
| `CacheTrace.AnswerIs` | callgrind/sim.c:683-971 | the answer to a lookup after any lookups from cleared levels: a first-level hit exactly if its tag is in its first-level set; else a last-level hit exactly if it is in its set of the last level, which has seen the lines that missed in the first, or is line 0, which is not looked up there; else an access to memory |
| `CacheTrace.AccessAnswerIs` | callgrind/sim.c:683-829 | the answer to a whole access after any trace: memory exactly if one of its lookups goes to memory, first level exactly if all of them hit there |
| `CacheUse.ChargeEvicted` | callgrind/sim.c:942-960 | nothing is charged for an unused line; otherwise 1000 divided by its uses, and the bytes of its untouched granules |
| `UseMask.CountBits` | callgrind/sim.c:832-848 | the logarithmic count is the number of set bits |
| `UseMask.ShortLineMasks` | callgrind/sim.c:633-647 | the two tables for lines of 16 bytes: all bits from, and up to, those of a byte |
| `UseMask.LongLineMasks` | callgrind/sim.c:648-662 | the two tables for longer lines |
| `UseMask.RangeMaskBits` | callgrind/sim.c:620-632 | the intersection of the two masks has exactly the bits that stand for a byte of the access |
| `UseMask.SpatialLoss` | callgrind/sim.c:942 | the number of bytes in granules without their bit |
| `EventStream.LogAppend` | cachegrind/cg_main.c:305-461 | logging one stream and then another is logging their concatenation |
| `EventCounts.CountersRise` | cachegrind/cg_main.c:305-461 | for every stream and source line: ir, dr, dw, bc and bi have grown by the number of instruction fetches, reads, writes, conditional and indirect branches logged on that line, m1 and mL of each kind by the misses of exactly those lookups in their caches |
| `EventCounts.CachesSee` | cachegrind/cg_main.c:305-461 | with simulated caches the instruction cache has seen exactly the fetches, the data cache the reads and writes, and the last level what missed in one of them, in order |
| `EventCounts.PredictorSees` | cachegrind/cg_main.c:305-461 | the predictor has been consulted for exactly the branches, in order; without simulated caches no cache changes |
| `EventQueue.CgState.PickHelper` | cachegrind/cg_main.c:713-860 | the helper chosen covers one to three events at the front and stands for exactly those; the assertions about instruction nodes hold |
| `EventQueue.CgState.FlushEvents` | cachegrind/cg_main.c:693-873 | everything buffered is emitted in order, nothing else, and the buffer is empty |
| `EventQueue.CgState.AddEventIr` | cachegrind/cg_main.c:875-892 | an instruction fetch is appended to what is logged or pending |
| `EventQueue.CgState.AddEventDr` | cachegrind/cg_main.c:894-912 | a read is appended; nothing without cache simulation |
| `EventQueue.CgState.AddEventDw` | cachegrind/cg_main.c:914-949 | a write is appended, or folds into a read of the same place just before it |
| `EventQueue.CgState.AddEventDGuarded` | cachegrind/cg_main.c:951-994 | a guarded access is emitted after everything buffered, under its guard |
| `EventQueue.CgState.AddEventBc` | cachegrind/cg_main.c:997-1015 | a conditional branch is appended if branches are simulated |
| `EventQueue.CgState.AddEventBi` | cachegrind/cg_main.c:1017-1035 | an indirect branch is appended if branches are simulated |
| `EventQueue.CgState.AddExit` | cachegrind/cg_main.c:1236-1298 | the branch event, if any, is posted and everything is emitted before the exit |
| `EventQueue.CgState.Process` | cachegrind/cg_main.c:1099-1305 | each kind of statement posts exactly its events |
| `EventQueue.CgState.Finish` | cachegrind/cg_main.c:1316-1340 | at the end of the block everything is emitted |
| `EventQueue.CgInstrument` | cachegrind/cg_main.c:1041-1351 | for every block and buffer capacity: the emitted calls, flattened, are the canonical event stream; the original statements are kept in order; everything before an exit is emitted before it |
| `EventQueue.NoXLogs` | cachegrind/cg_main.c:339-347 | where the instrumenter chose the special helper it logs what the general one does |
| `EventQueue.HelperLogsFlat` | cachegrind/cg_main.c:305-461 | each helper logs exactly its events, one after the other |
| `EventQueue.RunLogsEmitted` | cachegrind/cg_main.c:305-461 | running the emitted code leaves caches, counters and predictor as logging the stream one event at a time does, whatever the guards |
| `EventQueue.ExitMeaning` | cachegrind/cg_main.c:1295-1297 | up to any exit taken, the code has logged exactly the canonical stream of everything before it |
| `BlockEffects.BlockLogsWhatItDoes` | cachegrind/cg_main.c:1110-1340 | the stream posted for a whole block logs exactly what executing the block does: which fetch, read, write or branch, of which instruction, and under which guard |
| `BlockEffects.BlockCounts` | cachegrind/cg_main.c:1110-1340 | so logging a block adds to the counters of each source line the number of fetches, reads, writes and branches it executes there |
| `BlockEffects.BlockRuns` | cachegrind/cg_main.c:1110-1340 | and so does running the instrumented code, however the events were buffered |
| `QuickSort.QSortRearranges` | callgrind/dump.c:909-1009 | for any comparison that finds elements equal to themselves the sort terminates, permutes its range and touches nothing else |
| `QuickSort.PartitionSorts` | callgrind/dump.c:946-971 | after the scans the range is in four parts, equal, less, greater, equal, compared with the pivot |
| `QuickSort.UpperExchange` | callgrind/dump.c:975-976 | the second block exchange is right for blocks of any lengths |
| `QuickSort.UnfitExchange` | callgrind/dump.c:973-974 | where the blocks do not fit, an element equal to the pivot ends up before a lesser one |
| `QuickSort.NoTiesFit` | callgrind/dump.c:973-976 | without ties the blocks always fit |
| `QuickSort.NoTiesSorted` | callgrind/dump.c:909-1009 | so without ties the result is sorted |
| `QuickSort.PartsShrink` | callgrind/dump.c:1007-1008 | both recursive calls are on shorter ranges |
| `QuickSort.InsertionSortInPlace` | callgrind/dump.c:917-921 | ranges of fewer than seven elements |
| `QuickSort.ChoosePivot` | callgrind/dump.c:932-943 | the position of the middle, a median of three, or a pseudo-median of nine |
| `QuickSort.PivotOfFew` | callgrind/dump.c:901-943 | the pivot of seven elements is the middle one, of up to forty the median of the first, middle and last |
| `QuickSort.PivotOfMany` | callgrind/dump.c:932-943 | of more elements it is the median of three medians, of three elements each an eighth of the range apart, at the start, around the middle and at the end |
| `QuickSort.Med3Ties` | callgrind/dump.c:901-905 | which of several medians it is when elements tie |
| `QuickSort.PartitionInPlace` | callgrind/dump.c:950-971 | the scans with their moving indices compute the specified partitioning |
| `QuickSort.ExchangeInPlace` | callgrind/dump.c:973-976 | the element-wise swap of two blocks |
| `QuickSort.QuickSortInPlace` | callgrind/dump.c:909-1009 | the array afterwards is the specified sort of the array before |
| `Adler32.UpdateAppend` | auxprogs/valgrind-di-server.c:719-722 | checksumming in two calls is checksumming the concatenation |
| `Adler32.PlainIsSums` | auxprogs/valgrind-di-server.c:326-351 | reducing at the end of a block is the definition in section 8.2 of RFC 1950, which reduces at every byte |
| `Adler32.Mod` | auxprogs/valgrind-di-server.c:261-282 | the reduction by conditional subtractions is exact for every 32-bit value |
| `Adler32.Mod4` | auxprogs/valgrind-di-server.c:283-290 | the short reduction is exact exactly below 65521*32 |
| `Adler32.SumBlock` | auxprogs/valgrind-di-server.c:326-346 | sixteen at a time and then singly, a block is summed without overflow |
| `Adler32.ShortSums` | auxprogs/valgrind-di-server.c:314-324 | for fewer than sixteen bytes one subtraction and the short reduction suffice |
| `Adler32.Adler32` | auxprogs/valgrind-di-server.c:248-365 | the checksum is that of section 8.2 of RFC 1950 for every string, and the initial value if there is no buffer |
| `Adler32.ClosedForm` | auxprogs/valgrind-di-server.c:248-365 | in closed form: for n bytes b from halves s1 and s2 the low half is s1 plus the sum of b[i], the high half s2 + n * s1 plus the sum of (n - i) * b[i], modulo 65521 |
| `Adler32.FrameChecksum` | auxprogs/valgrind-di-server.c:886-895 | the checksum of a frame is that of its four length bytes followed by its data |
| `Costs.Telescope` | callgrind/events.c:353-373 | the differences of successive settlements add up to the difference over all of them |
| `Costs.AddDiffCost` | callgrind/events.c:353-373 | the destination gains the difference modulo 2^64, the old vector becomes the new cost, and the result says whether they differed |
| `Costs.AddDiffCostLz` | callgrind/events.c:375-398 | the same for a destination that may not exist yet |
| `Costs.RunPaidUp` | callgrind/callstack.c:343-347 | in every run each call has added to its arc exactly the cost between its entry and its last settlement |
| `Costs.ReturnPaysTheCall` | callgrind/callstack.c:343-347 | a call that returns has added, over all dumps, exactly the cost at its return less the cost at its entry |
| `Costs.CallPays` | callgrind/callstack.c:343-347 | whatever happens between the entry of a call and its return, calls, dumps and handlers, its arc has been charged exactly what its level has cost meanwhile |
| `Costs.DumpIsInclusive` | callgrind/dump.c:1034-1060 | in every run with handlers, what a dump has settled of a call is the inclusive cost of the call exactly if the level running has the cost of the call's own level, as it has for calls of the level running |
| `Costs.DumpInHandler` | callgrind/dump.c:1046-1047 | an example: a dump in a handler settles a call it interrupted at 2^64 - 3 instead of nothing |
| `CostStack.Stack.Increment` | callgrind/sim.c:1020-1044 | one counter of the current cost rises |
| `CostStack.Stack.Settle` | callgrind/events.c:375-398 | one entry settles with its arc, in place; the other entries and arcs stay |
| `CostStack.Stack.Push` | callgrind/callstack.c:209-213 | the entry remembers the current cost in a vector of its own |
| `CostStack.Stack.Pop` | callgrind/callstack.c:343-355 | the innermost entry settles and goes |
| `CostStack.Stack.AddCount` | callgrind/dump.c:1034-1060 | at a dump every active entry settles, the outermost first; entries without an arc are passed over |
| `ProfText.OnlyDescLines` | cachegrind/cg_merge.c:625-657 | a file of description lines only, which leaves the code no line to compare with the command line, is refused here; such are exactly the files in which every line is a description line |
| `QuickSort.QSortAgree` | callgrind/dump.c:909-1009 | sorting a range depends on nothing outside it |
| `QuickSort.LayeredIffFits` | callgrind/dump.c:973-976 | the two block exchanges put lesser, equal and greater elements in this order exactly when the equal block at the start is no longer than the lesser one, or there is no lesser one |
| `QuickSort.SortedIffFits` | callgrind/dump.c:909-1009 | for any consistent comparison the result is sorted exactly when the lower blocks fit in the partitioning of the range and of all its parts |
| `QuickSort.TiesUnsorted` | callgrind/dump.c:909-1009 | seven elements that tie but for one lesser, in the fifth place, end up out of order, whatever they are |
| `DumpOrder.MyCmpReflexive` | callgrind/dump.c:841-878 | the comparison of block records finds every record equal to itself, so the sort of a dump ends and permutes |
| `DumpOrder.MyCmpIsCut` | callgrind/dump.c:841-878 | the comparison is the first difference in the lexical order of object, file, function, level, callers, number of callers and address, cut to 32 bits |
| `DumpOrder.MyCmpKeepsSign` | callgrind/dump.c:841-878 | so for any records it has the sign of that difference exactly if its low 32 bits, read as signed, have |
| `DumpOrder.MyCmpIsLexIff` | callgrind/dump.c:841-878 | for numbers below 2^32 the comparison has the sign of the lexical order if and only if the first difference is at least -2^31 and less than 2^31 |
| `DumpOrder.ThreeAddresses` | callgrind/dump.c:876-876 | of three records that agree but for addresses a < b < c below 2^32 the order is that of the addresses if and only if c - a < 2^31; it is a consistent order if and only if that holds or an inner difference exceeds 2^31 |
| `DumpOrder.NearInOrder` | callgrind/dump.c:841-878 | on records whose numbers are all below 2^31 the comparison is a consistent order, with ties |
| `DumpOrder.FarOutOfOrder` | callgrind/dump.c:876-876 | an example: three addresses each before the next and the last before the first |
| `DumpOrder.TiedBlocksUnsorted` | callgrind/dump.c:841-1009 | seven different block records, six of them with the same address in different objects, that a dump does not put in order |
| `Adler32.BlockFits` | auxprogs/valgrind-di-server.c:250-253 | the unreduced sums of any block of at most 5552 bytes, from any 16-bit starts, fit 32 bits |
| `Adler32.NmaxIsTight` | auxprogs/valgrind-di-server.c:250-253 | one byte more can overflow: 5553 bytes of 255 from the largest reduced start do |
| `Costs.CopyCostLz` | callgrind/events.c:252-270 | a copy, into a new vector if there was none; without a source the vector, if any, is zeroed |
| `Costs.AddAndZeroCost` | callgrind/events.c:301-319 | the destination gains the source, the source becomes zero; False and no change without a source |
| `Costs.IsZeroCost` | callgrind/events.c:226-236 | whether all counters are zero; True where there is no vector |
| `Costs.RunConserved` | callgrind/dump.c:648-663 | in every run, whatever calls share an arc, however handlers nest and dumps fall, and whichever arcs they print and reset, what has been printed of an arc and what is still on it are together the sum of what its calls added |
| `Costs.PrintingIs` | callgrind/dump.c:648-663 | printing an arc prints all that is on it, leaves nothing, and touches no other |
| `Costs.PrintsAll` | callgrind/dump.c:648-663 | so once an arc has been printed, after any run, all that its calls have added has been printed |
| `CostStack.Stack.PrintArc` | callgrind/dump.c:650-662 | an arc with a nonzero cost is printed and reset, in place; other arcs and all entries stay |
| `ShadowStack.PushCxt` | callgrind/context.c:272-322 | entering a function saves the context for the coming call, keeps the function stack as a prefix, and gives a context on top of it |
| `ShadowStack.ContextHolds` | callgrind/context.c:222-260 | a context holds the functions above the last separator from the top down: callers + 1 of them if there are as many, where that sum is an unsigned 32-bit word, so one for -1 |
| `ShadowStack.EnterFn` | callgrind/context.c:289-290 | the group of a missing function is looked up exactly when a function of a group is entered on top of a separator |
| `ShadowStack.WordRestores` | callgrind/callstack.c:184-392 | any properly nested calls and returns restore calls, context, function stack, skipping and activation counts, and restore collection exactly if the number of calls in them that flip it is even |
| `ShadowStack.NothingFlips` | callgrind/callstack.c:148-174 | when direct recursion counts, no call flips collection |
| `ShadowStack.RecursionFlips` | callgrind/callstack.c:237-243 | a run that flips it when direct recursion does not count: a function that toggles collection calls itself and returns |
| `ShadowStack.PostFns` | callgrind/threads.c:268-280 | at most one function is left above the separator when a handler ends, as asserted; taking both off gives the function stack the handler found |
| `ShadowStack.UnwindIs` | callgrind/callstack.c:312-435 | unwinding pops the calls its test says one after the other, ends the handlers that began above, and goes on popping below a level exactly if it ends two handlers that began at one height |
| `ShadowStack.KeptSplits` | callgrind/callstack.c:405-435 | the calls of a level that unwinding keeps lie at or above the stack pointer, those it removes at or below it |
| `ShadowStack.UnwindExact` | callgrind/callstack.c:405-435 | of the calls of the current level unwinding to a stack pointer removes exactly those recorded below it |
| `ShadowStack.KeptAbove` | callgrind/callstack.c:405-435 | unwinding stays above a height exactly if there is nothing below it, or the call just below or just above it is kept, by comparing two stack pointers |
| `ShadowStack.UnderflowDepth` | callgrind/bbcc.c:748-758 | a return taken for an underflow finds exactly one function above the separator of its level |
| `ShadowStack.PopCountIs` | callgrind/bbcc.c:641-675 | how many calls a return leaves: one if the stack pointer is above that of the innermost call, none if it is below, and at the same height those down to the first one that is to return to the block |
| `ShadowStack.UnderflowKeeps` | callgrind/bbcc.c:487-552 | the made-up call can be popped, which leaves the calls there were and all levels in order |
| `ShadowStack.LevelledIs` | callgrind/bbcc.c:827-859 | the recursion level is one less than the activations counted, up to the last level; a function found inactive is made active once |
| `ShadowStack.PushedKeeps` | callgrind/bbcc.c:861-870 | pushing the call of a block keeps all levels in order: stack pointers descend, the context was saved, the arc comes from the last block not skipped |
| `ShadowStack.Setup` | callgrind/bbcc.c:561-917 | entering a block keeps all levels in order, or goes wrong in one of three named ways |
| `ShadowStack.SetupIs` | callgrind/bbcc.c:561-917 | which calls and levels a block entry leaves, and exactly when it goes wrong: an assertion fails if a function left by jumps is left while a skipped call is on top and nothing is skipped; a missing function is looked up if a grouped function begins its level or is returned to; a call of another level is popped if two handlers that began at one height are left |
| `BlockEntry.TakenIs` | callgrind/bbcc.c:612-721 | what a jump is taken for, by cases on how the last block ended and where this one is |
| `BlockEntry.SetupCalls` | callgrind/bbcc.c:561-917 | entering a block pushes a call exactly if it is a call, or a jump taken for one, and nothing lies below its stack pointer; the whole record: calling block and jump, stack pointer, return address, context saved; and the block goes on in the context of its function |
| `BlockEntry.SetupReturns` | callgrind/bbcc.c:641-760 | a return within its level goes back to the context, the functions and the skipping of before the outermost call it leaves |
| `BlockEntry.UnwindRestores` | callgrind/callstack.c:405-435 | so does unwinding within a level |
| `BlockEntry.PushTallies` | callgrind/callstack.c:148-243 | pushing a call that counts adds one activation of its function, and of no other |
| `BlockEntry.UnwindTallies` | callgrind/callstack.c:405-435 | however many calls unwinding removes, the activations of each function go down by its calls among them that count |
| `ActiveCounts.RunCounts` | callgrind/bbcc.c:487-917 | in every run of a thread, however signals nest, in which no return leaves the first function of a level for another one while calls of that level stay: the context of each level is that of its function stack, and the activation count of a function whose recursion levels are not kept apart is, modulo 2^32, the number of its calls on the stack that count and of levels that began in it |
| `ActiveCounts.SetupFits` | callgrind/bbcc.c:561-917 | entering a block keeps every context that of its function stack if and only if it is no such return |
| `ActiveCounts.SetupCounts` | callgrind/bbcc.c:561-917 | and then it keeps every activation count, except that a function whose recursion levels are kept apart is made active once if it is found inactive |
| `ActiveCounts.SignalFits` | callgrind/threads.c:197-220 | a signal begins a level in which nothing is counted, and keeps what is counted below |
| `ActiveCounts.EndFits` | callgrind/threads.c:237-296 | the end of a handler, whatever calls of it are left, takes back exactly what is counted of its level |
| `ActiveCounts.ReplacedCounts` | callgrind/bbcc.c:507-531 | a return out of the function a level began in puts the function returned to in its place: one activation more of the one and one less of the other |
| `ActiveCounts.MadeUpCounts` | callgrind/bbcc.c:533-545 | the call made up for it lies above every stack pointer, and once left again has changed no count, context or function |
| `ActiveCounts.LevelIsActivations` | callgrind/bbcc.c:827-859 | the recursion level of a block is one less than what the activation count of its function is then, up to the last level |
| `ShadowStack.StaysKeeps` | callgrind/bbcc.c:704-780 | a block stays in its level exactly if the comparison of at most two recorded stack pointers says so |
| `ShadowStack.SetupStays` | callgrind/bbcc.c:561-917 | entering a block keeps the levels below as they were exactly if the block stays in its level; otherwise handlers are gone |
| `ShadowStack.SkippedLeft` | callgrind/bbcc.c:704-721 | four block entries outside handlers after which the assertion about skipping fails |
| `ShadowStack.FirstGrouped` | callgrind/context.c:289-290 | a thread that begins in a grouped function looks up the group of a missing function |
| `ShadowStack.PreSignal` | callgrind/threads.c:197-220 | a signal opens a level from which the interrupted one is exactly recoverable |
| `ShadowStack.HandlerRestores` | callgrind/threads.c:237-296 | whatever a handler does that stays in its level, its end restores what its signal interrupted, but for activation counts; all assertions on the way hold |
| `ShadowStack.FirstBlockStays` | callgrind/callstack.c:312-322 | the first block of a handler stays in it exactly if the innermost interrupted call is not below its stack pointer; if it is, the handler is taken to have ended at its beginning, and its real end is refused exactly if the level reached is that of the thread or handles another signal |
| `ShadowStack.FirstBlockOfMain` | callgrind/callstack.c:312-322 | so if it interrupted the level of the thread, its real end always fails the assertion on the signal number |
| `ShadowStack.NestedEnds` | callgrind/threads.c:237-296 | and if it interrupted, and its first block goes on in, a handler of the same signal, its real end is accepted: it ends that handler, and restores what that one had interrupted |
| `ShadowStack.NestedStack` | callgrind/threads.c:237-296 | such a run: a handler in a handler of the same signal, on a stack above |
| `ShadowStack.AlternateStack` | callgrind/callstack.c:312-322 | such a run: a handler on a stack above that of the thread |
| `CallStack.CallStack.constructor` | callgrind/callstack.c:46-59 | an empty stack with room |
| `CallStack.CallStack.EnsureStackSize` | callgrind/callstack.c:87-110 | contents are kept; no room is made for entry i exactly if i is the old size doubled at least once |
| `CallStack.CallStack.PushContext` | callgrind/context.c:272-322 | in place: the specified change of context, or the lookup of the group of a missing function |
| `CallStack.CallStack.GrowFnStack` | callgrind/context.c:293-309 | doubling the array keeps the function stack |
| `CallStack.CallStack.PushCallStack` | callgrind/callstack.c:184-268 | in place: the specified push of a call that is not skipped |
| `CallStack.CallStack.PushSkippedCall` | callgrind/callstack.c:184-268 | in place: the specified push of a skipped call |
| `CallStack.CallStack.PopCallStack` | callgrind/callstack.c:312-392 | in place: the specified pop, with the end of the handler first if all its calls are gone; the entry is left blank, as the next push asserts |
| `CallStack.CallStack.PostSignal` | callgrind/threads.c:237-296 | in place: the end of a handler without calls, on function stack, counts and execution states |
| `CallStack.CallStack.UnwindCallStack` | callgrind/callstack.c:405-435 | in place: the specified unwinding, through handlers too, and the number of calls removed |
| `CallStack.CallStack.CountPops` | callgrind/bbcc.c:655-670 | how many calls a return leaves |
| `CallStack.CallStack.TakeJump` | callgrind/bbcc.c:641-675 | a return that matches no call is taken for a jump |
| `CallStack.CallStack.ConvertJump` | callgrind/bbcc.c:704-721 | a function left by jumping is left first, or the assertion about skipping fails |
| `CallStack.CallStack.HandleUnderflow` | callgrind/bbcc.c:487-552 | in place: the specified made-up call, or the lookup of the group of a missing function |
| `CallStack.CallStack.UnwindFor` | callgrind/bbcc.c:746-780 | in place: the stack is brought in line with the stack pointer |
| `CallStack.CallStack.FindLevel` | callgrind/bbcc.c:827-859 | in place: the recursion level, with the forced count of one |
| `CallStack.CallStack.PushBlock` | callgrind/bbcc.c:861-905 | in place: the call of the block, and the block made the last one |
| `CallStack.CallStack.EnterBlock` | callgrind/bbcc.c:782-905 | in place: the context of the block, its recursion level and its call |
| `CallStack.CallStack.SetupBbcc` | callgrind/bbcc.c:561-917 | in place: the state after entering a block is the specified one and in order, or it goes wrong in the specified way |
| `Threads.HandlerReturns` | callgrind/threads.c:237-296 | after anything that stays in a handler its end is accepted and restores the thread: stacks, context, blocks and costs; only activation counts have changed, and the costs of the handler are added to those of finished ones |
| `Threads.SignalsAccepted` | callgrind/threads.c:197-250 | a signal is accepted exactly if its number is from 1 to 64 and at most eight handlers are running, the end of a handler exactly if it is that of the one running |
| `Threads.DoWithin` | callgrind/threads.c:197-296 | in every run in which blocks stay in their levels, however handlers nest, the levels below keep stacks and costs |
| `Threads.RunUnwindsExactly` | callgrind/bbcc.c:561-917 | in every run of one thread, with whatever signals, recorded stack pointers of the current level do not increase inward, so unwinding to a stack pointer that stays in the level removes exactly its calls below it |
| `Threads.NoCostLost` | callgrind/threads.c:282-288 | in every run what levels and finished handlers of a thread have cost is what its blocks have spent, also when blocks leave handlers without their end |
| `Threads.EachAsIfAlone` | callgrind/threads.c:128-176 | however threads interleave, each is as if it had taken its own steps alone |
| `ThreadSwitch.ExecState.constructor` | callgrind/threads.c:322-338 | a fresh execution state with zero costs |
| `ThreadSwitch.ThreadInfo.constructor` | callgrind/threads.c:100-125 | a new thread has one fresh execution state and empty stacks |
| `ThreadSwitch.Profiler.constructor` | callgrind/threads.c:74-83 | no thread is known and none is running |
| `ThreadSwitch.Profiler.ExecStateSave` | callgrind/threads.c:408-432 | the top execution state holds the live one; the assertions about cost vector and signal hold |
| `ThreadSwitch.Profiler.ExecStateRestore` | callgrind/threads.c:434-456 | the live state is the one on top |
| `ThreadSwitch.Profiler.SwitchThread` | callgrind/threads.c:128-176 | switching threads, with all its saving and loading, changes the state of no thread |
| `ThreadSwitch.Profiler.PushExecState` | callgrind/threads.c:386-406 | the state for a handler is a new one or one used before, owned by no other level or thread |
| `ThreadSwitch.Profiler.PreSignal` | callgrind/threads.c:197-220 | exactly the interrupted thread changes, as specified for a signal; the assertions on its number and on nesting fail exactly if that is out of bounds |
| `ThreadSwitch.Profiler.PostSignal` | callgrind/threads.c:237-296 | exactly the thread of the handler changes, as specified for the end of a handler; the assertion fails exactly if no handler of this signal is running |
| `ThreadSwitch.Profiler.RunPostSignalOnCallStackBottom` | callgrind/threads.c:227-235 | a handler whose calls are all popped is left, and otherwise nothing happens |
| `ThreadSwitch.Profiler.PopHandlerState` | callgrind/threads.c:282-291 | the costs of the level left are added to those of finished handlers, in place, and its execution state is free |
| `ThreadSwitch.Profiler.EnterBlock` | callgrind/threads.c:227-296 | a block entry changes exactly the running thread, as specified; of handlers left on the way the costs are summed up and the states freed |
| `ThreadSwitch.Profiler.RunBlock` | callgrind/sim.c:1020-1044 | what a block costs is added to the vector of the running level, and to no other |
| `ThreadSwitch.Profiler.ForallThreads` | callgrind/threads.c:85-96 | each thread with a record is visited once, none changes, and the current one stays current |
| `ThreadSwitch.Profiler.Play` | callgrind/threads.c:128-296 | any interleaving of block entries, costs, signals and handler ends on the shared globals leaves every thread as its own steps alone would |
| `CgMerge.MergedIs` | cachegrind/cg_merge.c:891-930 | several files are merged exactly if all of them parse and name the same events; the result has the header of the first and the tables of all |
| `CgMerge.AnyOrder` | cachegrind/cg_merge.c:891-930 | the order in which files are given makes no difference to whether they merge, nor to the merged counts and summary |
| `CgMerge.InStages` | cachegrind/cg_merge.c:891-930 | merging in stages, over a profile printed and read again: exactly if the printed profile names an event and no line number, count or sum of it reaches 2^63 it reads back, and the result is that of merging all at once; otherwise the second stage is refused |
| `CgMerge.StagedOverflow` | cachegrind/cg_merge.c:404-437 | an input: files with single counts 2^63 - 1 and 1 merge with a third at once, and not in stages |
| `CgMerge.MergeNext` | cachegrind/cg_merge.c:916-928 | in place: a file is parsed and merged into the profile, or refused |
| `CgMerge.MergeFiles` | cachegrind/cg_merge.c:891-930 | in place: the loop over files yields the merged profile, nothing if there is no file, or a refusal |

## Left out

- Files, sockets and processes: the parser reads a sequence of lines and the printer writes one; LZO, launchers and monitor commands are not part of this model.
- NUL bytes: lines are strings of characters other than newline, where the C code also ends a line at a NUL.
- Allocation failure, freeing, and exits: a parse error is an absent result.
- CgMerge.MergeFiles: requires files of fewer than 9,227,464 lines, from which the iterator's stack suffices; options and the writing of the result are left out.
- CacheAccess.DoRead: cost arrays the loss is charged to (`use_base`) and the merging of a line's uses into the last level on eviction (`dep_use`) are not modelled, so last-level use records are only shown to be cleared on a miss.
- CacheUse.UseCache.AccessLL: the link from a first-level record to its slot in the last level (`dep_use`) is left out, as above.
- CacheUse.ChargeEvicted: whether collection is on, and the `use_base` arrays that receive the charge, are left out.
- CacheSim.CacheT2.RefIsMiss: an access is at most a line long and does not wrap around the top of memory.
- CacheSim.Simulator.D1Doref: the hardware-prefetch variants, write-back lookups over two levels and the plain simulator of Callgrind, which is the same algorithm, have no model of their own.
- The statistics printed at the end, cache auto-detection and option parsing.
- The branch predictor: it is an arbitrary state machine, so results hold for every predictor.
- Debug information: the source line a counter belongs to is a parameter of each instruction.
- EventQueue.CgInstrument: expressions are atoms and types are sizes; flatness of the input, the sanity check on instruction sizes and the table of instruction nodes per block are not modelled beyond the order and number of nodes used.
- Callgrind's own event queue in `callgrind/main.c`, a near copy of Cachegrind's.
- QuickSort.QuickSortInPlace: elements are compared by a function of two elements, so comparisons that look at positions or change state are not covered.
- DumpOrder.MyCmp: records of objects, files and functions are numbered by their place in memory, in whole records.
- Adler32.Adler32: reading the frame from the network and the little-endian encoding of the length are parameters.
- ShadowStack.PushCxt: contexts are functions of the function stack; the hash table that finds them, which trusts equal hashes, is not part of this model.
- ShadowStack.Setup: the lookup and creation of block records, the assertion that the jumps passed are within the block, execution counters, jump records, and the cost of made-up calls are left out; the return address of a call and the source block of a made-up call are inputs.
- CostStack.Stack.AddCount: which arcs a dump prints is an input; zeroing all costs before a function is left out. In place there is one level with one cost vector; the levels of handlers are in `Costs` on values, and their vectors in place in `ThreadSwitch`.
- ThreadSwitch.Profiler.SwitchThread: the hash tables of blocks and arcs kept per thread, and whether threads share them, are left out; so is the periodic dump before a switch.
- ThreadSwitch.Profiler.EnterBlock: the stacks of a thread are values here, and become what `Setup` says in one assignment; the steps in between are in place in `CallStack`.
- Requests to start, stop or zero collection at run time.
