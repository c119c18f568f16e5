# Mirus kernel verification

A Dafny model of the parts of the Mirus kernel that carry state or arithmetic worth proving
things about: the buddy allocator and the physical memory manager on top of it, the JEMS
streaming JSON writer and the log records made with it, the scrolling terminal, and two
arithmetic pieces of the kernel library. `dafny verify dfyconfig.toml` checks everything.

## The buddy allocator

`BuddyAllocator` is the allocator as the kernel runs it: an array of twelve list heads and the
header words (`next`, `size`) at the base of every page of the pool. Its operations are proved
against sequences of block addresses (`BuddyModel`), and those against sets of blocks
(`Blocks`, `BuddyInvariant`). Three kinds of result follow.

* For any page-aligned start: free and live blocks partition the pool after every run of requests
  and releases, no two buddies below the top order are both free, every list is threaded through
  memory without repetition, bytes are conserved, and writes of clients into their own blocks
  change nothing. The merge rests on `addr ^ size` being one of the two neighbours. `Xor` is defined
  bit by bit on the unsigned numbers, and operands and results are shown to be 64-bit words.
* For pools whose largest fitting block is naturally aligned at the start (`AlignedStart`): the free set is
  exactly the set of maximal unused aligned blocks. History independence, restoring the initial free sets once
  everything is released, undoing a request by the release right after it, and "a request fails if and only
  if no aligned run of its order is unused" all hold in every reachable state exactly for these pools.
* Completeness, "a request fails only if no aligned run of its order is unused", holds for more pools than that:
  exactly for those where, whenever an aligned run of order k fits, the start is aligned to order k - 1
  (`CompleteIff`). `FineCheckDecides` gives the condition as one comparison per order. For every other
  pool the proof builds a run that ends in a failing request; `MisalignedPoolIncomplete` is such a run in full.

A single request from any reachable state is undone exactly when the head it is cut from has a clear address bit
at every order of the split.

Conditions on the caller: the start is page aligned and the pool lies in the address space; a pool
that has a page does not start at address 0, which stands for "no block"; releases name live blocks;
clients leave the size word at the base of a live block alone, because `buddy_allocator_free` reads it.

`buddy.c` lines 66-68 say that a request can be too large. `find_order` never exceeds the top
order, so that guard never fires, and a larger request receives a top-order block that does not cover it
(`AllocationFits` gives the exact bound, `OversizedGranted` a pool and such a request). The model follows the code.

`BuddyReports` puts allocator, writer and logger together: `buddy_allocator_debug_state` walks the lists and
streams them as it goes, and each sink of the logger receives three records from which the log viewer
reads the entries back. When the format of addresses gives different addresses different texts, the records
determine the free lists, the free total and the allocated total; the reported value tells all lists apart
exactly for these formats (`TellsListsIff`).

## JSON and logging

`Json` holds values over byte strings, their compact print and a parser. `JemsModel` is the
writer's state as a value. Within the depth bound the calls for a value print exactly its compact form,
which parses back to the value. Beyond the bound `push_level` does nothing while `pop_level`
still pops. A level array prints every value nested up to d deep correctly if and only if it has more than d
levels. A single value comes out right if and only if, counting levels alone, each of its items gets the
separator that it gets with as many levels as it needs (`FitsLevels`, `PrintsIff`). That fails whenever the first
container past the last level holds something; an empty one there can come out right (`EmptyTooDeep`).
Item counters wrap at 64 bits, as `size_t` does, and the statements bound the number of items of one
container accordingly. The writer function hands every character on as it is emitted: after each call, the
sinks have received exactly what was written so far.
A log record is one printable line; reading a log line by line as `ktracer` does gives every entry back. The
record in three parts, whose closing brace comes from a writer that never saw the opening one, is
one four-field object.

## Terminal and library

The terminal's buffer is a window on an unbounded canvas whose rows never change once they have scrolled
out. `round_to_nearest_pow2` is characterised on all 64-bit words, including the wrap to 0 above 2^63;
`itoa` reads back as the number in every base it supports. The comment at `string.c` lines 137-138 says that
negative numbers outside base 10 are considered unsigned; the code divides the negative number
instead, and the digits come out as characters below `0`. The model follows the code, and `UnsignedIff` says when the promise is kept.

## Model

| member | source | states |
|---|---|---|
| Bits.XorFlip | src/kernel/memory/buddy.c:60-62 | exclusive or with a power of two adds it where the bit is clear and subtracts it where it is set |
| Bits.XorInverse | src/kernel/memory/buddy.c:60-62 | exclusive or with the same size leads back |
| Bits.XorWidth | src/kernel/memory/buddy.c:60-62 | exclusive or of n-bit words is an n-bit word |
| Blocks.BuddyIsAdjacent | src/kernel/memory/buddy.c:60-62 | for any alignment the buddy is a different block right above or right below, the relation is symmetric, and both buddies have the same parent |
| Blocks.TilesSplit | src/kernel/memory/buddy.c:38-55 | replacing a block by its halves keeps an exact tiling |
| Blocks.TilesMerge | src/kernel/memory/buddy.c:123-130 | replacing two buddies by their parent keeps an exact tiling |
| BuddyModel.OrderFor | src/kernel/memory/buddy.c:23-33 | the order is the least whose block covers the request, or the top order |
| BuddyTheorems.OrderOfSize | src/kernel/memory/buddy.c:91 | the order of a block is recovered from its size word |
| BuddyAllocators.FindOrder | src/kernel/memory/buddy.c:23-33 | the loop computes that order |
| BuddyInvariant.SplitDownShape | src/kernel/memory/buddy.c:71-82 | splitting through empty lists leaves one upper half on each list in between and touches no other list |
| BuddyInvariant.SplitDownSound | src/kernel/memory/buddy.c:73-77 | splitting down keeps the tiling and puts no block on a list twice |
| BuddyInvariant.SplitKeepsCoalesced | src/kernel/memory/buddy.c:71-84 | after the split and the removal of the head no two buddies below the top order are free |
| BuddyInvariant.MergeRound | src/kernel/memory/buddy.c:97-130 | one merge takes exactly the buddy off its list and keeps the tiling with the parent in hand |
| BuddyInvariant.CoalesceSound | src/kernel/memory/buddy.c:93-131 | the merge loop keeps the tiling and stops only where the buddy is not free or at the top order |
| BuddyInvariant.AllocateKeeps | src/kernel/memory/buddy.c:64-87 | a request keeps partition and coalescing, returns a block inside the pool that was not live, and fails only when every sufficient list is empty |
| BuddyInvariant.FreeKeeps | src/kernel/memory/buddy.c:89-136 | a release keeps partition and coalescing |
| BuddyInvariant.RunKeeps | src/kernel/memory/buddy.c:64-136 | the invariant survives every run of requests and releases |
| BuddyInit.CarveSound | src/kernel/memory/buddy.c:182-211 | carving tiles the pool's whole pages without gaps and leaves less than a page |
| BuddyInit.InitIsBinaryDecomposition | src/kernel/memory/buddy.c:170-211 | each list below the top gets the binary digit of the page count, the top list all higher digits |
| BuddyInit.InitInvariant | src/kernel/memory/buddy.c:138-221 | the initial state satisfies the invariant |
| BuddyInit.ReachableInvariant | src/kernel/memory/buddy.c:64-221 | every state reachable from initialisation satisfies the invariant, for any page-aligned start |
| BuddyAccounting.BytesConserved | src/kernel/memory/buddy.c:291-315 | free and live bytes add up to the pool's whole pages in every reachable state |
| BuddyAccounting.CoalesceTotal | src/kernel/memory/buddy.c:123-130 | merging moves bytes from the lists to the merged block and loses none |
| Alignment.DyadicNest | src/kernel/memory/buddy.c:38-62 | naturally aligned blocks that overlap are nested |
| BuddyGrid.RunDyadic | src/kernel/memory/buddy.c:64-136 | requests and releases keep every block naturally aligned |
| BuddyGrid.InitDyadic | src/kernel/memory/buddy.c:182-211 | an aligned start makes every carved block naturally aligned |
| BuddyGrid.InitCarved | src/kernel/memory/buddy.c:182-211 | carving puts every block at a multiple of its size from the start, with the low orders at the very end of the pool |
| BuddyGrid.InitOnGrid | src/kernel/memory/buddy.c:182-211 | a start aligned to order n puts blocks up to order n on their natural grid and larger ones on the grid of order n |
| BuddyGrid.RunOnGrid | src/kernel/memory/buddy.c:64-136 | requests and releases keep to those grids |
| BuddyGrid.AllocateOnGrid | src/kernel/memory/buddy.c:64-87 | requests also keep to the grids that begin at the start of the pool |
| BuddyCanonical.UnusedInsideFree | src/kernel/memory/buddy.c:93-131 | where the free blocks are aligned, an unused aligned run lies inside one free block at least as large |
| BuddyCanonical.FreeSetIsCanonical | src/kernel/memory/buddy.c:64-136 | the free blocks are exactly the maximal unused aligned ranges up to the top order |
| BuddyTheorems.ExactlyOneBlock | src/kernel/memory/buddy.c:64-136 | every byte of the pool's whole pages is in exactly one block, free or live |
| BuddyTheorems.ListedOnce | src/kernel/memory/buddy.c:97-121 | no address is on two lists, twice on one list, or both listed and live |
| BuddyTheorems.BuddyIsWord | src/kernel/memory/buddy.c:60-62 | a buddy's address is a 64-bit word |
| BuddyTheorems.HistoryIndependence | src/kernel/memory/buddy.c:64-136 | with an aligned start, runs that end with the same live blocks end with the same blocks on every list |
| BuddyTheorems.HistoryIndependentIffAligned | src/kernel/memory/buddy.c:64-136 | the free blocks depend on the live blocks alone exactly for aligned starts |
| BuddyTheorems.RestoresInitIffAligned | src/kernel/memory/buddy.c:182-211 | releasing everything restores the initial free sets exactly for aligned starts |
| BuddyTheorems.FreeUndoesAllocateIff | src/kernel/memory/buddy.c:64-136 | releasing a block right after its request restores the lists in order exactly when the head of the first sufficient list has a clear bit at every split order |
| BuddyTheorems.FreeUndoesAllocate | src/kernel/memory/buddy.c:64-136 | with aligned blocks it always does |
| BuddyTheorems.AllocationComplete | src/kernel/memory/buddy.c:64-87 | with aligned blocks a request fails exactly when no aligned run of its order is unused |
| BuddyTheorems.CompleteInAlignedPools | src/kernel/memory/buddy.c:64-136 | the same in every state reachable from an aligned start |
| BuddyCompleteness.CompleteIff | src/kernel/memory/buddy.c:64-211 | in every reachable state requests fail only when no aligned run of their order is unused, exactly for pools whose start is aligned to order k - 1 wherever an aligned run of order k fits |
| BuddyCompleteness.FineStartComplete | src/kernel/memory/buddy.c:64-136 | with such a start no reachable state has a failing request and an unused aligned run of its order |
| BuddyCompleteness.CoarseStartFails | src/kernel/memory/buddy.c:64-211 | any other start has a reachable state with an unused aligned run whose request fails |
| BuddyCompleteness.FineCheckDecides | src/kernel/memory/buddy.c:138-221 | the condition is one comparison for each order |
| BuddyCompleteness.AlignedStartIsFine | src/kernel/memory/buddy.c:182-211 | aligned starts satisfy it |
| BuddyCompleteness.FineStartNeedNotBeAligned | src/kernel/memory/buddy.c:182-211 | a pool that satisfies it without an aligned start |
| BuddyCompleteness.ExactIffAligned | src/kernel/memory/buddy.c:64-211 | requests fail if and only if no aligned run of their order is unused, in every reachable state, exactly for aligned starts |
| BuddyCompleteness.UndoesIffAligned | src/kernel/memory/buddy.c:64-211 | every granted request in every reachable state is undone by its release exactly for aligned starts |
| BuddyTheorems.AllocationFits | src/kernel/memory/buddy.c:64-87 | the block has the least sufficient order, comes from the head of the first non-empty sufficient list, and covers the request exactly when that is within the top size |
| BuddyTheorems.OversizedGranted | src/kernel/memory/buddy.c:64-87 | in a pool of 8 MiB a request for one byte more is granted with a block of 8 MiB |
| BuddyTheorems.MisalignedPoolIncomplete | src/kernel/memory/buddy.c:60-87 | a misaligned pool in which an aligned unused run exists and the request still fails |
| BuddyLinks.WiredPop | src/kernel/memory/buddy.c:79-82 | advancing a head takes exactly the first block off its list |
| BuddyLinks.WiredPush | src/kernel/memory/buddy.c:133-135 | storing the old head in next and moving the head puts the block in front |
| BuddyLinks.WiredHalve | src/kernel/memory/buddy.c:46-50 | writing the half size at both halves turns one held block into two and disturbs no list |
| BuddyLinks.WiredUnlink | src/kernel/memory/buddy.c:116-121 | bypassing a node at the head or in the middle takes exactly that block off its list |
| BuddyLinks.WiredGrow | src/kernel/memory/buddy.c:123-130 | doubling the size word at the lower address gives the parent its size and disturbs no list |
| BuddyLinks.WiredClientStore | src/kernel/memory/buddy.c:90-91 | a client write in a live block, except to its size word, leaves every link and size in place |
| BuddyLinks.CarvingStep | src/kernel/memory/buddy.c:192-210 | one round of carving keeps links, sizes and tiling and leaves the same lists to reach |
| BuddyAllocators.BuddyAllocator.constructor | src/kernel/memory/buddy.c:138-221 | initialisation on arbitrary memory reaches the greedy carving's state |
| BuddyAllocators.BuddyAllocator.CarvePool | src/kernel/memory/buddy.c:170-211 | the carving loops end in the specified lists, threaded through memory |
| BuddyAllocators.BuddyAllocator.SplitBlock | src/kernel/memory/buddy.c:38-55 | the six stores split the head block and keep memory and lists in step |
| BuddyAllocators.BuddyAllocator.TakeHead | src/kernel/memory/buddy.c:79-82 | advancing the head hands over exactly the first block of the list |
| BuddyAllocators.BuddyAllocator.SplitAndTake | src/kernel/memory/buddy.c:73-82 | splitting down and taking the head hands over exactly the specified block |
| BuddyAllocators.BuddyAllocator.TakeFirstFit | src/kernel/memory/buddy.c:71-86 | the scan takes from the first non-empty sufficient list, or changes nothing |
| BuddyAllocators.BuddyAllocator.Allocate | src/kernel/memory/buddy.c:64-87 | state and result are those of the specified request, and the state stays one of a run from initialisation |
| BuddyAllocators.BuddyAllocator.Free | src/kernel/memory/buddy.c:89-136 | the state is that of the specified release, and stays one of a run from initialisation |
| BuddyAllocators.BuddyAllocator.MergeAndInsert | src/kernel/memory/buddy.c:91-135 | the merge loop reading size words in memory performs the specified coalescing |
| BuddyAllocators.BuddyAllocator.Search | src/kernel/memory/buddy.c:97-110 | the walk terminates, finds the buddy exactly when it is listed, and gives the node before it |
| BuddyAllocators.BuddyAllocator.Unlink | src/kernel/memory/buddy.c:116-121 | removes exactly the block found |
| BuddyAllocators.BuddyAllocator.ClientStore | src/kernel/memory/buddy.c:46-54 | a client's write keeps the whole allocator state |
| BuddyAllocators.BuddyAllocator.Execute | src/kernel/memory/buddy.c:64-136 | requests and releases interleaved with any client writes give the state and the addresses of the run without the writes |
| BuddyAllocators.RunsExecute | src/kernel/memory/buddy.c:64-136 | every run of requests and releases is such a program |
| BuddyAllocators.StoreExecutes | src/kernel/memory/buddy.c:90-91 | and at any point it may write to any page of a live block but over its size word |
| BuddyAllocators.BuddyAllocator.WalkList | src/kernel/memory/buddy.c:250-279 | the walk counts, adds up and lists exactly the blocks of one order |
| BuddyAllocators.BuddyAllocator.TotalFree | src/kernel/memory/buddy.c:291-299 | the loop's sum is the free total, and the pool size less it is the live total plus the partial page |
| BuddyReports.EmitOrder | src/kernel/memory/buddy.c:250-282 | the calls for one order print its object: order, block size, count, bytes and addresses of exactly its list |
| BuddyReports.OrderReads | src/kernel/memory/buddy.c:250-282 | looked up by key, the object of an order holds its number and block size, the length of the list, the bytes on it, and the address of each block |
| BuddyReports.StateReads | src/kernel/memory/buddy.c:244-286 | looked up by key, the report holds the pool's size and pages and one object for each list, and the reported bytes add up to the free total |
| BuddyReports.TotalReads | src/kernel/memory/buddy.c:301-314 | the digits in a total's message have its value |
| BuddyReports.ReportReads | src/kernel/memory/buddy.c:223-315 | level, component, message and data of the three entries |
| BuddyReports.EmitState | src/kernel/memory/buddy.c:244-286 | the calls of the report are those of the value that holds the pool size, the page count and all twelve lists |
| BuddyReports.StateFits | src/kernel/memory/buddy.c:12-12 | the report's nesting and item counts stay within the writer's bounds in every reachable state |
| BuddyReports.DebugState | src/kernel/memory/buddy.c:223-315 | every sink receives three records, from which the viewer reads the entries back; with different texts for different addresses they determine the free lists, the free total, and the live total plus the pool's partial page |
| BuddyReports.ReportDetermines | src/kernel/memory/buddy.c:244-315 | with such a format, states that log the same text have the same lists and the same totals |
| BuddyReports.TellsListsIff | src/kernel/memory/buddy.c:250-282 | the reported value tells all lists apart exactly when the format tells all addresses apart |
| BuddyReports.ReportTotals | src/kernel/memory/buddy.c:291-315 | the two totals logged are the free total, and the live total plus the partial page |
| Pmm.FirstUsable | src/kernel/memory/pmm.c:223-231 | the region taken is the first usable one |
| Pmm.LiveBlocksConfined | src/kernel/memory/pmm.c:219-249 | after any run every block handed out lies in the first usable region, hence overlaps no region that one does not overlap, and the blocks are disjoint |
| Pmm.NoUsableRegion | src/kernel/memory/pmm.c:219-249 | without a usable region every request returns 0 |
| Pmm.PhysicalMemory.OwnBlocksConfined | src/kernel/memory/pmm.c:219-292 | so it is for the manager's own allocator after any of its calls |
| Pmm.PhysicalMemory.OwnBlocksCover | src/kernel/memory/pmm.c:219-255 | every byte of the whole pages of the first usable region is in exactly one block |
| Pmm.PhysicalMemory.Initialize | src/kernel/memory/pmm.c:164-284 | totals of the map, kernel end rounded up to a page as a 64-bit word, allocator started on the first usable region |
| Pmm.PhysicalMemory.TotalLengths | src/kernel/memory/pmm.c:193-206 | both totals, as 64-bit counters |
| Pmm.OneRegionTotal | src/kernel/memory/pmm.c:193-206 | a region counts with its length, in the usable total only if it is usable |
| Pmm.TotalsAdd | src/kernel/memory/pmm.c:193-206 | the totals of two parts of a map add up as 64-bit words |
| Pmm.UsableShare | src/kernel/memory/pmm.c:203-205 | both totals agree on usable regions only, and nothing is usable without one |
| Pmm.PhysicalMemory.FindUsable | src/kernel/memory/pmm.c:219-231 | base and length of the first usable region, zeros without one |
| Pmm.PhysicalMemory.Alloc | src/kernel/memory/pmm.c:286-288 | the allocator's answer, confined to the first usable region |
| Pmm.PhysicalMemory.Free | src/kernel/memory/pmm.c:290-292 | the allocator's release |
| JsonRoundTrip.ParseEscapedByte | src/libs/jems/src/jems.c:249-261 | every byte's escape is read back as that byte |
| JsonRoundTrip.ParseOtherForms | src/apps/ktracer/src/main.rs:162-172 | the reader also takes short escapes and capital hexadecimal digits |
| JsonRoundTrip.EscapeText | src/libs/jems/src/jems.c:249-261 | four lower-case hexadecimal digits for control bytes and those from 127 on, a backslash before quote and backslash, every other byte itself |
| JsonRoundTrip.DecimalSign | src/libs/jems/src/jems.c:120-125 | a sign stands in front of negative numbers only |
| JsonRoundTrip.IntTexts | src/libs/jems/src/jems.c:120-125 | the only texts read as an integer are its print and, for 0, -0 |
| JsonRoundTrip.PrintSample | src/libs/jems/src/jems.c:85-159 | objects, arrays, words, numbers and keys in two concrete texts |
| JsonRoundTrip.RoundTrip | src/libs/jems/src/jems.c:85-159 | parsing a printed value followed by any text that does not extend it gives the value and that text |
| JsonRoundTrip.ParsePrint | src/libs/jems/src/jems.c:85-159 | parsing the compact print gives the value |
| JsonRoundTrip.PrintPrintable | src/libs/jems/src/jems.c:249-261 | the print holds printable ASCII only |
| JsonRoundTrip.EscapePrintable | src/libs/jems/src/jems.c:249-285 | string bodies are printable, at most six characters per byte |
| JemsModel.ValueWrote | src/libs/jems/src/jems.c:85-159 | within the depth bound the calls for a value print separator and compact form, add one item to the open level and leave the lower levels alone |
| JemsModel.StreamRoundTrip | src/libs/jems/src/jems.c:78-159 | after a reset the calls for a value print exactly its compact form, which parses back |
| JemsModel.LiteralWrote | src/libs/jems/src/jems.c:161-168 | a literal is one item, copied as it is |
| JemsModel.StringEndsAtNul | src/libs/jems/src/jems.c:127-139 | a C string ends at its first NUL, a byte string does not |
| JemsModel.CounterWraps | src/libs/jems/src/jems.c:287-308 | the item after number 2^64 - 1 makes the counter 0, and the next one comes without a separator |
| JemsDepth.ValueLegal | src/libs/jems/src/jems.c:85-105 | the calls for a value are a well-bracketed run wherever its nesting has room, and add one item |
| JemsDepth.RunFollows | src/libs/jems/src/jems.c:221-242 | along every well-bracketed run the levels are the open containers with their kinds and item counts, and the current level is the number of open containers |
| JemsDepth.ValueOverflows | src/libs/jems/src/jems.c:228-242 | a value whose first container past the last level holds something comes out as different text |
| JemsDepth.NoEmptySpills | src/libs/jems/src/jems.c:228-242 | every value without empty containers nested past the levels is such a value |
| JemsDepth.PrintsExactlyWithinDepth | src/libs/jems/src/jems.c:228-242 | for values without empty containers the output is right exactly when the nesting stays below the number of levels |
| JemsDepth.PrintsAllIff | src/libs/jems/src/jems.c:228-242 | all values nested at most d deep, whatever they hold, come out right exactly when there are more than d levels |
| JemsDepth.PrintsIff | src/libs/jems/src/jems.c:221-308 | a value comes out right exactly when its items get the separators that they get with enough levels, which is decided on the level counters alone |
| JemsDepth.EmptyTooDeep | src/libs/jems/src/jems.c:228-242 | [[],[1]] needs three levels and comes out right with two |
| JemsWriters.Jems.constructor | src/libs/jems/src/jems.c:64-83 | the writer starts at level 0 with no item, whatever the level array held |
| JemsWriters.Jems.EmitChar | src/libs/jems/src/jems.c:244-247 | the character reaches every sink of the writer function at once |
| JemsWriters.Jems.Reset | src/libs/jems/src/jems.c:78-83 | back to level 0 |
| JemsWriters.Jems.EmitQuotedByte | src/libs/jems/src/jems.c:249-261 | emits the byte's escape |
| JemsWriters.Jems.EmitQuotedString | src/libs/jems/src/jems.c:270-275 | emits the escapes of the bytes before the first NUL |
| JemsWriters.Jems.EmitQuotedBytes | src/libs/jems/src/jems.c:277-285 | emits the escapes of all the bytes |
| JemsWriters.Jems.Commify | src/libs/jems/src/jems.c:287-308 | emits the separator due and counts the item |
| JemsWriters.Jems.PushLevel | src/libs/jems/src/jems.c:228-235 | opens a level, or does nothing at the last one |
| JemsWriters.Jems.PopLevel | src/libs/jems/src/jems.c:237-242 | closes a level, or does nothing at level 0 |
| JemsWriters.Jems.ObjectOpen | src/libs/jems/src/jems.c:85-89 | separator and brace are one item of the current level, then an empty object level opens if one is left |
| JemsWriters.Jems.ObjectClose | src/libs/jems/src/jems.c:91-94 | the brace comes without separator and counts nowhere; the level below becomes current |
| JemsWriters.Jems.ArrayOpen | src/libs/jems/src/jems.c:96-100 | separator and bracket are one item of the current level, then an empty array level opens if one is left |
| JemsWriters.Jems.ArrayClose | src/libs/jems/src/jems.c:102-105 | the bracket comes without separator and counts nowhere; the level below becomes current |
| JemsWriters.Jems.Integer | src/libs/jems/src/jems.c:120-125 | one item, printed in decimal |
| JemsWriters.Jems.String | src/libs/jems/src/jems.c:127-132 | one item, the quoted C string |
| JemsWriters.Jems.Bytes | src/libs/jems/src/jems.c:134-139 | one item, the quoted bytes |
| JemsWriters.Jems.Boolean | src/libs/jems/src/jems.c:141-154 | one item, true or false |
| JemsWriters.Jems.Null | src/libs/jems/src/jems.c:156-159 | one item, null |
| JemsWriters.Jems.Literal | src/libs/jems/src/jems.c:161-168 | one item, the text as it is |
| JemsWriters.Jems.KeyString | src/libs/jems/src/jems.c:189-191 | a key's string call followed by the value's string call |
| JemsWriters.Jems.KeyLiteral | src/libs/jems/src/jems.c:215-219 | a key's string call followed by a literal |
| JemsWriters.Jems.KeyInteger | src/libs/jems/src/jems.c:185-187 | a key's string call followed by an integer |
| JemsWriters.Jems.KeyArrayOpen | src/libs/jems/src/jems.c:177-179 | a key's string call followed by an array opening |
| JemsWriters.Jems.KeyObjectOpen | src/libs/jems/src/jems.c:173-175 | a key's string call followed by an object opening |
| JemsWriters.Jems.Play | src/libs/jems/src/jems.c:85-219 | any call sequence does to the writer what the specified sequence does |
| LogRecords.RecordLength | src/libs/logger/src/logger.c:88-99 | a record takes at most 48 characters plus six per input byte |
| LogRecords.TrimmedIs | src/libs/logger/src/logger.c:81-85 | only a newline at the very end is dropped, and only one |
| LogRecords.LevelTexts | src/libs/logger/src/logger.c:18-33 | the text of each level, and UNKNOWN for any other number |
| LogRecords.PlainRecord | src/libs/logger/src/logger.c:48-67 | the record of plain texts, character by character |
| LogRecords.PlainOpening | src/libs/logger/src/logger.c:120-129 | the opening of a streamed record, character by character |
| LogRecords.SplitRecord | src/libs/logger/src/logger.c:106-159 | opening, printed value, closing brace and newline are the record of one four-field object |
| LogRecords.EntryRoundTrip | src/apps/ktracer/src/main.rs:162-172 | a record's line is printable and the viewer reads the entry from it |
| LogRecords.LogRoundTrip | src/apps/ktracer/src/main.rs:174-194 | splitting a log at newlines and reading each line gives every entry back |
| Loggers.HeadWritten | src/libs/logger/src/logger.c:55-58 | the three fields' calls print the three members and leave six items at the object's level |
| Loggers.MessageWritten | src/libs/logger/src/logger.c:48-67 | the calls of a plain record print its three-field object |
| Loggers.OpeningWritten | src/libs/logger/src/logger.c:120-129 | the calls of a stream start print the object up to the data value |
| Loggers.SplitWritersCompose | src/libs/logger/src/logger.c:106-159 | start, separately streamed value and an end from a fresh writer concatenate to one record that the viewer reads back |
| Loggers.Logger.CreateJsonLog | src/libs/logger/src/logger.c:48-67 | the record's call sequence, with or without the data field |
| Loggers.Logger.LogMessage | src/libs/logger/src/logger.c:69-104 | every sink receives the record of the message without its trailing newline |
| Loggers.ShortFits | src/libs/logger/src/logger.c:69-104 | messages of few enough bytes fit the buffers |
| Loggers.Logger.LogAll | src/libs/logger/src/logger.c:69-104 | any sequence of messages whose records fit the buffer gives a log with one line for each, from which the viewer reads its level, its component and its text less one final newline |
| Loggers.Logger.LogStreamStart | src/libs/logger/src/logger.c:106-134 | every sink receives the opening part |
| Loggers.Logger.LogStreamData | src/libs/logger/src/logger.c:136-140 | every sink receives the text, whatever the length argument |
| Loggers.Logger.LogStreamEnd | src/libs/logger/src/logger.c:142-159 | every sink receives the closing brace and the newline |
| Sinks.RelayedWithoutNul | src/kernel/memory/buddy.c:14-18 | a NUL is lost on the way and nothing else |
| Sinks.RelayedWhole | src/kernel/memory/buddy.c:14-18 | text without NUL arrives whole when relayed one character at a time |
| Loggers.Logger.StreamValue | src/kernel/memory/buddy.c:14-18 | a value whose characters are relayed during each call reaches every sink as its compact print |
| Loggers.Logger.StreamRecord | src/kernel/memory/buddy.c:228-289 | a start, a streamed value and an end give every sink one four-field record |
| Canvases.PutProper | src/kernel/drivers/terminal.c:95-134 | every character keeps the cursor in the grid, the window never moves up, and rows above it stay as they are |
| Canvases.RowsAboveFrozen | src/kernel/drivers/terminal.c:95-167 | rows above the window never change again, whatever is written |
| Canvases.NewlineMovesDown | src/kernel/drivers/terminal.c:96-103 | a newline changes no cell, moves to the start of the next canvas row, and adds a row exactly at the bottom |
| Canvases.BackspaceUndoes | src/kernel/drivers/terminal.c:106-116 | a backspace after a character returns to its cell and blanks it, except when a one-row window has just scrolled |
| Canvases.BackspaceInFull | src/kernel/drivers/terminal.c:106-116 | wherever the cursor is, one step back unless at the first cell, that cell shows a space, nothing else changes |
| Canvases.NewRowsBlank | src/kernel/drivers/terminal.c:157-163 | rows that scroll in are white spaces on black |
| Canvases.BlankRestored | src/kernel/drivers/terminal.c:106-121 | typing in white on a blank cell and a backspace give the blank screen back |
| Canvases.PlainTextWraps | src/kernel/drivers/terminal.c:117-133 | the cells of the canvas from a cleared screen, read row by row, are the text in the current colour and blanks after it, and the cursor is on the cell after the text |
| Terminals.Terminal.constructor | src/kernel/drivers/terminal.c:29-53 | a new terminal shows a cleared canvas |
| Terminals.Terminal.Clear | src/kernel/drivers/terminal.c:13-22 | the buffer shows a cleared canvas |
| Terminals.Terminal.SetColor | src/kernel/drivers/terminal.c:24-24 | only the colour changes |
| Terminals.Terminal.MoveRows | src/kernel/drivers/terminal.c:148-157 | every row but the first replaces the one above it, in place |
| Terminals.Terminal.Scroll | src/kernel/drivers/terminal.c:148-167 | in place, every row moves up one, the last row is blank, the cursor goes with them |
| Terminals.Terminal.WriteChar | src/kernel/drivers/terminal.c:95-134 | buffer and cursor show the canvas after the character |
| Terminals.CodesAt | src/kernel/drivers/terminal.c:142-146 | the characters are the bytes of the string, sign-extended to 32 bits |
| Terminals.Terminal.WriteString | src/kernel/drivers/terminal.c:142-146 | buffer and cursor show the canvas after the whole text; on a cleared screen the buffer holds a plain string's bytes in the current colour from its first row still visible, and blanks after it |
| Bits.ShrIsQuotient | src/libs/libk/include/libk/math.h:9-14 | shifting right bit by bit is division by the power of two |
| Libk.SmearStep | src/libs/libk/include/libk/math.h:9-14 | one shift-and-or doubles the run of ones below the highest set bit |
| Libk.RoundToNearestPow2 | src/libs/libk/include/libk/math.h:5-17 | the least power of two from n on for n up to 2^63, 0 above |
| Libk.DigitText | src/libs/libk/src/string.c:144-149 | digits from ten on are lower-case letters |
| Libk.FormattedSample | src/libs/libk/src/string.c:125-162 | concrete numbers in bases 2, 10 and 16 |
| Libk.FormattedReads | src/libs/libk/src/string.c:125-162 | the text reads back as the number and has no superfluous leading zero |
| Libk.UnsignedIff | src/libs/libk/src/string.c:137-149 | outside base 10 the text is that of the unsigned word exactly for numbers that are not negative |
| Libk.NegativeNotUnsigned | src/libs/libk/src/string.c:137-149 | a negative number outside base 10 never comes out as the unsigned word would |
| Libk.FormattedLength | src/libs/libk/src/string.c:125-162 | at most 32 characters in any base, at most 11 in base 10 |
| Libk.ReversedAt | src/libs/libk/src/string.c:104-123 | position k of a reversed text is position n - 1 - k of the text |
| Libk.Reverse | src/libs/libk/src/string.c:104-123 | the C string is reversed in place, its NUL and what follows it stay |
| Libk.WriteDigits | src/libs/libk/src/string.c:144-149 | the digits, least significant first, with the sign of the number |
| Libk.Itoa | src/libs/libk/src/string.c:125-162 | the buffer holds the specified text and its NUL |

## Left out

- ValueOverflows: for values whose first container past the last level holds something; `PrintsIff` covers all values.
- PrintsExactlyWithinDepth: for values without empty containers; `PrintsIff` covers all values.
- LogMessage: demands that the record fits its 4096-byte buffer, which the code does not check; `RecordLength` bounds it from the inputs. Formatting with `vsnprintf_` is not modelled: the message is taken after formatting.
- LogStreamStart: demands that the opening fits the 4096-byte buffer, which the code does not check.
- LogAll: the same as `LogMessage`, for each message.
- StreamRecord: the same, for its opening.
- Jems: the writer function and its argument are modelled as the sinks it hands each character to, none for a writer that only fills a buffer.
- ParseValue: whitespace between tokens, fractions and exponents, code units above 255 and raw characters outside printable ASCII are not read; the writer emits none of them. A byte stands for the code point of that number: the viewer gets U+0080 to U+00FF for bytes from 128 on.
- Integer: decimal printing is a function on unbounded integers; the 64-bit argument range and the 22-byte buffer are not modelled.
- BuddyAllocator: only the two header words at the base of each page are modelled as memory; other words are never read by the allocator. Double releases and releases of foreign addresses are excluded.
- SplitBlock: its four header stores are collected in a local map that is stored once.
- ClientStore: one write replaces both header words of a page.
- Execute: a client program made for the statement about interleaved writes; the kernel has no such function.
- Initialize: the log calls and the size formatting are left out; the first usable region must be page aligned, which the code does not check, and the higher-half offset must keep it inside the 64-bit range.
- DebugState: the formatting of addresses is a parameter; the 32-bit block counter is not modelled as such; the logger is a parameter instead of a global.
- Terminal: `terminal_render` and the frame buffer are left out, so a newline has no visible effect beyond the cell buffer. Its constructor demands a non-empty window that fits the buffer, which `terminal_initialize` does not check.
- Itoa: the least 32-bit integer in base 10, whose negation C leaves undefined.
- `jems_number` (floating point), the other `jems_key_*` pairs (compositions like those modelled), `jems_curr_level` and `jems_item_count` (they read a field), `log_complex` (its chunks ignore their length), `checkStringEndsWith` and the memory primitives of the library.
- System calls, interrupts, descriptor tables, serial port, boot sequence and concurrency.
