# A verified model of the sri-glibc allocator

This project models the allocator in `src/sri-glibc/malloc`, in which the metadata of chunks lives outside of the
client's memory, and proves what it promises. Four parts build on each other.

**The heap of one arena** (`Layout`, `BinIndex`, `BinMap`, `WordBits`, `Records`, `HeapState`, `Arena`, `HeapFacts`,
`Runs`). `Arena` has the operations of `malloc.c` as methods that change records, table, lists, bin map and top step
by step. `layout`, a ghost map, says for every chunk of the region how large it is and what it is for; `HeapState`
says when the rest of the state agrees with it (`Ok`), and each primitive step comes with a lemma that the agreement
survives it. `Valid` is what holds between operations. What follows from it is in `HeapFacts`, and `Runs` lets a
client make any calls and stores, and says which chunks it has, what is in them and what every call answers; calls
with an address or alignment that no client may pass are not made. Large bins, with their skip ring at the level of
pointers, are in `LargeBin`, `Rings` and `LargeBinRuns`.

**The expanding lock-free table** (`ProbeTable`, `Lfht`, `LfhtRuns`, `LfhtThreads`, `LfhtSafety`, `LfhtValues`,
`LfhtHistory`, `LfhtCalls`, `LfhtOrders`, `LfhtStretches`, `LfhtOrderly`, `LfhtRaces`, `LfhtGrowth`, `LfhtAsserts`,
`LfhtSingle`, `LfhtAlone`, `LfhtRefused`, `LfhtRefusals`). `Lfht` is the table as one thread sees it: a class that
refines a partial map through any number of growths, with the bookkeeping that shows that three moves per access are
enough. `LfhtThreads` has any number of threads, with one read, store, compare-and-swap or fetch-and-add to a step,
and proves what every interleaving keeps (`LfhtSafety`) and that no value is made up (`LfhtValues`, `LfhtHistory`);
a single thread, step by step, finds what it would find in a map (`LfhtSingle`, `LfhtAlone`); `LfhtCalls` and
`LfhtOrderly` say for how many keys calls that overlap have an order that explains their answers, and `LfhtGrowth`
and `LfhtAsserts` for how many the assertions about growing tables hold. `Lookup` puts two such tables to use: how
heaps get their aligned blocks, how mapped chunks and regions come and go beside them, and why every pointer is
attributed to its arena.

**The linear hash table of records** (`Chains`, `Binning`, `Directory`, `Metadata`, `TableRuns`, `Registry`). Bins
are chains linked through the records, in segments that a growing directory holds and that are recycled; the table
refines a map from keys to stacks of records, and over any sequence of calls its resizes are apart (`TableRuns`).
`Registry` closes the gap to the heap, whose table is a map from chunks to records: with one record per chunk that
is what this table is. `lphash.c` is the same table with a pool of its own.

**Pools and guard bytes** (`Pools`, `GuardBytes`). Slots of pools by bit masks, as in `memcxt.c` and, with the same
loops, in `src/lphash/lphash.c:1287-1380`; and the chain of guard bytes that `hooks.c` writes and reads.

Constants are those of the default 64-bit build: no headers, 16-byte alignment, MINSIZE 32; `GuardBytes` alone has
the build with headers, in which writer and reader count from the same byte. The hash is any function. Numbers are
unbounded; where `size_t` wraps it is written out (`AddSize`, `SIZE_LIMIT`), and words of bit masks are numbers
below a power of two. The 0.6 of the resize ratio is 3/5: for powers of two both round down to the same number.

Where the code and its documentation part, the model follows the code. `src/sri-glibc/malloc/metadata.h:127` allows
adding the same bucket twice; the code would link it to itself, so `Add` asks for a record that is in no chain,
which is exactly what it takes (`PushNeedsUnlinked`); two records with the same key are fine. `lookup` moves a
record to the front only from the third place of a chain on, although its comment speaks of any place but the first.
The assertion of `src/sri-glibc/malloc/metadata.c:515` on the length of the directory is not part of the model,
which goes on up to the largest number of bins, as a build without assertions does.

Some promises hold only under conditions, which are stated exactly, with an input or a run where each fails:
memalign's padded request (`MemalignWraps`), the order of a large bin, which can be lost once the bin is on its own
skip ring (`LargeBin.Unlink` says when it gets there and when it is off it again), adds to a table of the largest
size (`Lfht.Add`), an order of the calls of several threads (`OrderlyExactly`), or of one that is refused memory
(`OrderlyWithoutRefusals`), and the assertions about growing tables (`AssertedExactly`). `Sequences`, `Wrappers` and
`Arithmetic` hold what the parts have in common.

## Model

| member | source | states |
|---|---|---|
| Runs.Run | src/sri-glibc/malloc/malloc.c:4456-5047 | over any sequence of malloc, free, realloc, memalign and stores, with a system that grants or refuses memory at will: there is one answer for each call, at every moment the heap is well formed and the client has exactly the chunks that calls and answers so far say, with the bytes that were last in them, every answer is right (`Right`), no byte belongs to two chunks, and client, fastbin, bin and top bytes add up to what the system gave |
| Runs.DoMalloc | src/sri-glibc/malloc/malloc.c:4456-5047 | malloc answers with a chunk that the client did not have, of at least the normalised size and less than MINSIZE more; all other chunks have their bytes as before; a chunk of just that size on its fastbin, or else in its small bin, is the one that is answered, and otherwise the best fit or top, as `WellChosen` says; it fails only if the request is out of range, or fastbins and bins have nothing for it, top is too small and the system does not extend it far enough |
| Runs.DoFree | src/sri-glibc/malloc/malloc.c:5143-5372 | free takes the chunk, and no other, from the client, and all others have their bytes as before; a small chunk is first on its fastbin; a larger one is coalesced with exactly its free neighbours, and if 65536 bytes result the fastbins are emptied, while otherwise they are as they were and the result is top or the first unsorted chunk |
| Runs.DoRealloc | src/sri-glibc/malloc/malloc.c:5616-5894 | realloc answers with a chunk of at least the normalised size and less than MINSIZE more, where the old one was or at a place that the client did not have, with the first min(old size, nb) bytes of the old one; every other chunk has its bytes as before; it is the old chunk whenever that is large enough, or is with the successor, free or top; it fails only if the request is out of range, or neither is so and the padded one cannot be served |
| Runs.DoMemalign | src/sri-glibc/malloc/malloc.c:4176-4249 | memalign with any alignment answers with a chunk that the client did not have, at a multiple of the alignment rounded up to a power of two, of at least the normalised size and at most MINSIZE more, and changes no other chunk; it fails only if the alignment is too large, the request does not pass the guard or is out of range, or the padded one cannot be served; requests that pass the guard and wrap are not made |
| Runs.OthersKeepContents | src/sri-glibc/malloc/malloc.c:5760-5850 | copying during a move touches no byte of another client chunk |
| Arenas.Arena.Malloc | src/sri-glibc/malloc/malloc.c:4456-5047 | a request is served by a chunk that the client did not hold, of at least the normalised size and less than MINSIZE more, in at most two rounds: the first chunk of its fastbin, or else the last of its small bin, if there is one; otherwise, with nothing unsorted and no fastbin chunks to empty first, the best fit, and if there is none top if that is large enough; top is taken only when no bin has a chunk, and the system is asked only when no fastbin has one, either; before a large request is searched for the fastbins are emptied, and for a small one only if top is too small; it fails only if it is out of range, or bins, fastbins and top have nothing and the system does not extend top far enough; bins that have nothing include the request's own, up to chunks left unsorted after 10000 of them |
| Arenas.Arena.SearchRound | src/sri-glibc/malloc/malloc.c:4626-5047 | a round that is repeated has found top too small, and has emptied the fastbins, so that it is not repeated again; any other round has found a chunk, or has asked the system, which it does only when bins and fastbins have nothing (`NothingListed`); with nothing unsorted the best fit of the bins is taken, and top only without one |
| Arenas.Arena.SearchLists | src/sri-glibc/malloc/malloc.c:4626-4989 | after sorting, a large request is served from its own bin, and else the request by the lowest bin above that is not empty; without a chunk no bin has one for the request, and with nothing unsorted the state is as it was |
| Arenas.Arena.Search | src/sri-glibc/malloc/malloc.c:4624-5047 | the loop ends after at most two rounds; a chunk below top was taken only with no bin left that has one, and failure means that bins, fastbins and top have nothing and the system gives nothing |
| Arenas.Arena.SortUnsorted | src/sri-glibc/malloc/malloc.c:4626-4772 | without a chunk to serve, the loop ends with no unsorted chunk left, or after at least 10000 of them, and the bin of a small request is as empty as it was |
| Arenas.Arena.TryFastbin | src/sri-glibc/malloc/malloc.c:4527-4555 | the most recently freed chunk of exactly the requested size is served, if there is one, and nothing changes otherwise |
| Arenas.Arena.TrySmallbin | src/sri-glibc/malloc/malloc.c:4565-4593 | the oldest chunk of the exact size class is served, if there is one, and nothing changes otherwise |
| Arenas.Arena.SortOne | src/sri-glibc/malloc/malloc.c:4628-4772 | the oldest unsorted chunk is served exactly if it fits exactly or, for a small request, is the lone last remainder and larger than nb + MINSIZE, and then what is left becomes the last remainder; otherwise it goes to the bin of its size and the unsorted bin gets shorter |
| Arenas.Arena.ScanLargeBin | src/sri-glibc/malloc/malloc.c:4779-4860 | a large request is served from its own bin exactly if the first chunk there is large enough |
| Arenas.Arena.ScanBins | src/sri-glibc/malloc/malloc.c:4862-4989 | the request is served by the last chunk of the lowest non-empty bin above its own, and fails exactly if all of those are empty; what is left over becomes the last remainder exactly for a small request |
| Arenas.Arena.Carve | src/sri-glibc/malloc/malloc.c:4799-4860 | what is left over is a chunk of its own, in front of the unsorted bin, exactly if it has MINSIZE bytes |
| Arenas.Arena.ServeFromTop | src/sri-glibc/malloc/malloc.c:5007-5021 | the bottom of top becomes the client's and the rest is the new top |
| Arenas.Arena.Sysmalloc | src/sri-glibc/malloc/malloc.c:3036-3640 | the region grows to the computed end, or begins, exactly if the system can give that much; then the request is served from top, and otherwise nothing changes |
| Arenas.GrowthIsLeast | src/sri-glibc/malloc/malloc.c:3355-3374 | the system is asked for the least number of whole pages that gives top nb + top_pad + MINSIZE bytes |
| Arenas.EndIsLeast | src/sri-glibc/malloc/malloc.c:3530-3537 | a corrected first region ends at the least multiple of the page size that is enough, any other where the system put it |
| Arenas.Arena.Free | src/sri-glibc/malloc/malloc.c:5143-5372 | the freed chunk, and no other, is no longer the client's; a small one is in front of its fastbin; a larger one becomes one chunk with its free neighbours, and with top if that follows; if this has 65536 bytes the fastbins are emptied and the flag for them is cleared, and otherwise both are as they were; every byte of it is in a bin or in top afterwards |
| Arenas.Arena.FreeChunk | src/sri-glibc/malloc/malloc.c:5252-5347 | a chunk coalesces with its free neighbours on both sides, and with top: the result starts and ends where these do in the old layout, and is the first unsorted chunk, or top; no bin but the unsorted one comes to hold a chunk |
| HeapState.CoalescesToOne | src/sri-glibc/malloc/malloc.c:5252-5347 | what a freed chunk coalesces to is determined by the layout |
| Arenas.Arena.CoalesceBackward | src/sri-glibc/malloc/malloc.c:5252-5276 | merging with a free predecessor keeps every invariant and all chunks in use; the merged chunk starts with that predecessor, if there is one, follows a used chunk and ends where the freed one did |
| Arenas.Arena.CoalesceForward | src/sri-glibc/malloc/malloc.c:5278-5331 | merging with a free successor, or clearing the in-use bit, leaves one free chunk that is not yet on a list and ends where free memory ended |
| Arenas.Arena.Consolidate | src/sri-glibc/malloc/malloc.c:5441-5591 | every fastbin is empty, the client's chunks are what they were, and no bin but the unsorted one comes to hold a chunk; with nothing on the fastbins the heap stays as it is |
| Arenas.Arena.Realloc | src/sri-glibc/malloc/malloc.c:5616-5894 | on every path the chunk is replaced by one of at least nb bytes and less than MINSIZE more, the first min(oldsize, nb) bytes are carried over and no other byte of memory changes; it stays where it is if it has nb bytes, giving back the surplus if that makes a chunk, or has them with a free successor, or with top and MINSIZE more; it fails only if none of these is so and the padded request cannot be served, and then nothing the client has changes |
| Arenas.Arena.Move | src/sri-glibc/malloc/malloc.c:5752-5850 | the inner request normalises back to nb; if the new chunk is the next one they are joined, otherwise the contents are copied and the old chunk freed, so that the answer is never the chunk behind the old one |
| Arenas.Arena.ShiftTop | src/sri-glibc/malloc/malloc.c:5700-5722 | growing into top makes the chunk fit, leaves the rest to top, nb bytes behind the start of the chunk, under a new record, and changes no other chunk of the client |
| Arenas.Arena.GrowIntoNext | src/sri-glibc/malloc/malloc.c:5726-5748 | growing into the free successor makes the chunk fit, gives back the surplus and changes no other chunk of the client |
| Arenas.Arena.Memalign | src/sri-glibc/malloc/malloc.c:5908-6053 | the chunk starts at a multiple of the alignment, has at least the normalised size and at most MINSIZE more, and was not held before |
| Arenas.Arena.MidMemalign | src/sri-glibc/malloc/malloc.c:4176-4249 | the alignment is checked, the request guarded, and then the alignment rounded to the least power of two from MINSIZE on; small alignments are served by malloc |
| Arenas.Arena.RoundAlignment | src/sri-glibc/malloc/malloc.c:4212-4218 | the loop doubles MINSIZE up to the least power of two that is at least the alignment |
| Arenas.Arena.CutAligned | src/sri-glibc/malloc/malloc.c:5947-6053 | leader and tail are given back as chunks of their own, so that exactly the aligned chunk is left to the client |
| Layout.AlignedSpotFacts | src/sri-glibc/malloc/malloc.c:5950-5965 | the spot is aligned and the leader is empty or has at least MINSIZE and less than alignment + MINSIZE bytes |
| Layout.AlignedSpotIsLeast | src/sri-glibc/malloc/malloc.c:5950-5965 | it is the first such spot, and an aligned chunk is its own |
| BinIndex.RequestToSizeIsLeast | src/sri-glibc/malloc/malloc.c:1198-1224 | for requests in range the padding does not wrap and the result is the least aligned size of at least 32 bytes that can hold the request |
| BinIndex.RequestToSizeOfPadded | src/sri-glibc/malloc/malloc.c:5752-5756 | the request that realloc passes on is normalised to exactly what realloc wants |
| BinIndex.PaddedRequestFits | src/sri-glibc/malloc/malloc.c:5940-5944 | the padded request is the sum it should be if and only if the request is at most 2^64 - 16 - alignment - MINSIZE; otherwise it is that sum less 2^64, and no chunk that serves such a request has room for the one that was made |
| BinIndex.MemalignWrapsMeans | src/sri-glibc/malloc/malloc.c:4204-4218 | after the guard, which comes before the rounding, the padded request is the sum it should be if and only if the request is at most 2^64 - 16 - MINSIZE less the alignment rounded up |
| BinIndex.RoundedAlignmentFacts | src/sri-glibc/malloc/malloc.c:4196-4218 | rounding gives the least power of two that is at least MINSIZE and the alignment |
| BinIndex.PaddedRequestCanWrap | src/sri-glibc/malloc/malloc.c:4204-4218 | requests that pass the guard and wrap: to zero with alignment 64, to 16 bytes with alignment 48, which is rounded to 64, and to about a megabyte with alignment 0x100010 |
| BinIndex.BinOfMonotone | src/sri-glibc/malloc/malloc.c:1883-1952 | larger chunks go to the same or a higher bin, also across the boundary between small and large bins |
| BinIndex.BinHasSizes | src/sri-glibc/malloc/malloc.c:1883-1952 | which sizes are in a bin: bounds for each of them, 16 bytes apart below 1024 and then 64, 512, 4096, 32768 and 262144 |
| BinIndex.BinSearchFits | src/sri-glibc/malloc/malloc.c:4917-4918 | a chunk from a higher bin, or from the same small bin, is large enough |
| BinIndex.FastbinExact | src/sri-glibc/malloc/malloc.c:1590-1597 | the fastbin index is in range, fastbin i has chunks of 16 (i + 1) bytes and two sizes share a fastbin only if they are equal |
| BinMap.FindBin | src/sri-glibc/malloc/malloc.c:4870-4910 | skipping words and bits finds the lowest non-empty bin from the start on, or proves that all of them are empty; bits cleared on the way were those of empty bins |
| BinMap.MarkKeepsCovers | src/sri-glibc/malloc/malloc.c:1954-1957 | marking a bin when a chunk is put in it keeps the bit of every non-empty bin set |
| BinMap.ClearKeepsCovers | src/sri-glibc/malloc/malloc.c:4903-4909 | clearing the bit of an empty bin keeps the bits of all non-empty bins |
| WordBits.BitsAddUp | src/sri-glibc/malloc/malloc.c:1954-1968 | setting and clearing a bit add and subtract its value, or nothing |
| HeapFacts.HeldChunksAreDisjoint | src/sri-glibc/malloc/malloc.c:2745-2770 | no byte is in two chunks of the client |
| HeapFacts.RegionIsTiled | src/sri-glibc/malloc/malloc.c:1298-1317 | every byte of the region is in exactly one chunk |
| HeapFacts.WalkCoversAll | src/sri-glibc/malloc/malloc.c:1298-1303 | stepping from chunk to chunk by their sizes reaches every chunk and then the end of the region |
| HeapFacts.MetadataAgrees | src/sri-glibc/malloc/malloc.c:1319-1341 | the records of the chunks form one chain through md_next and md_prev in address order, from the first chunk to top; looking up the end of a chunk gives what its record says is next; and table and pool have no other record but that of the initial top |
| HeapFacts.RecordsAreRegistered | src/sri-glibc/malloc/malloc.c:1319-1341 | the pool has no record but those in the table, so that no record is lost when chunks are joined |
| HeapFacts.ReturnedIsFree | src/sri-glibc/malloc/malloc.c:5143-5372 | when a chunk is no longer the client's and no fastbin chunks are pending, each of its bytes is in a binned chunk or in top |
| HeapFacts.BinnedChunk | src/sri-glibc/malloc/malloc.c:1422-1425 | a binned chunk is on the one list for its size, once, borders neither a binned chunk nor top, and its successor's record has PREV_INUSE clear and its size as footer |
| HeapFacts.Conservation | src/sri-glibc/malloc/malloc.c:6236-6268 | client bytes are the bytes of the region less top, fastbin and bin bytes |
| HeapFacts.FreeBytesPreserved | src/sri-glibc/malloc/malloc.c:5472-5591 | as long as the client's chunks are the same, fastbin, bin and top bytes add up to the same, as in consolidation |
| HeapFacts.ConsolidatedNeighbours | src/sri-glibc/malloc/malloc.c:5472-5591 | with empty fastbins, of two neighbouring chunks at least one is the client's, and so is the one below top |
| HeapState.JoinStepOk | src/sri-glibc/malloc/malloc.c:5262-5275 | joining two chunks, with the record of the upper one unlinked and out of the table, keeps layout, records, links, table and lists in agreement |
| HeapState.CutStepOk | src/sri-glibc/malloc/malloc.c:2993-3027 | splitting a chunk, with a new record linked in and registered, keeps all of them in agreement |
| HeapState.MarkStepOk | src/sri-glibc/malloc/malloc.c:1344-1400 | changing an in-use bit, and the footer with it, keeps all of them in agreement |
| HeapState.InsertStepOk | src/sri-glibc/malloc/malloc.c:4763-4767 | linking a chunk into a list keeps all of them in agreement |
| HeapState.RemoveStepOk | src/sri-glibc/malloc/malloc.c:1849-1857 | taking a chunk off a list keeps all of them in agreement |
| HeapState.ShiftTopStepOk | src/sri-glibc/malloc/malloc.c:5700-5722 | moving top, with its old record unregistered and a new one registered, keeps all of them in agreement |
| HeapState.GrowStepOk | src/sri-glibc/malloc/malloc.c:3458-3465 | extending top keeps all of them in agreement |
| LargeBins.LargeBin.Insert | src/sri-glibc/malloc/malloc.c:4711-4767 | in every state of the bin the search ends and the chunk goes behind a ring entry of its size or in front of the first smaller one (`Goes`); the first chunk of every run of equal sizes is on the ring; as long as the bin itself is not on it, chunks are sorted and the ring goes through the first chunk of each size and no other record; and insertion never puts the bin there |
| LargeBins.LargeBin.Unlink | src/sri-glibc/malloc/malloc.c:1849-1879 | the chunk, and no other, leaves the list, and what holds of list and ring in every state is kept; the bin itself is on its ring afterwards if and only if a chunk is left and either it was before, or its own fd_nextsize is NULL and the chunk is the last of the list, on the ring and not alone there |
| LargeBins.LargeBin.Scan | src/sri-glibc/malloc/malloc.c:4782-4798 | in every state of the bin the scan ends with a chunk that is large enough; as long as the bin itself is not on the ring it is the smallest such chunk, and not a ring entry if there is another of its size |
| LargeBins.LargeBin.Recycle | src/sri-glibc/malloc/malloc.c:5316-5320 | a freed chunk does not claim to be on a ring any more, so that it can be sorted into the bin again |
| LargeBinRuns.Run | src/sri-glibc/malloc/malloc.c:4628-4860 | over any sequence of freeing chunks into the bin, taking them off it and serving requests from it or from its end, the bin has exactly the chunks that were put there and not taken, all that is served is large enough, and as long as the bin is not on its own ring it is the smallest such chunk, and requests are refused only if there is none |
| LargeBins.TailOfNewBin | src/sri-glibc/malloc/malloc.c:2065-2070 | in a newly initialised bin with chunks of 1056 and 1008 bytes, which belong in the same bin, unlinking the smaller puts the bin itself on the ring |
| LargeBins.OrderCanBeLost | src/sri-glibc/malloc/malloc.c:4711-4761 | two insertions of 1008 and 1024 bytes later, which belong there too, that bin is out of order |
| LargeBins.OnRingIsUntidy | src/sri-glibc/malloc/malloc.c:1864-1872 | with the bin itself on it, the ring is not the one through the first chunk of each size |
| LargeBins.OnRingMeans | src/sri-glibc/malloc/malloc.c:1862-1872 | the bin is on its ring exactly if its fd_nextsize is neither NULL nor itself |
| LargeBins.LeadersInserted | src/sri-glibc/malloc/malloc.c:4729-4761 | what a new chunk means for the ring: nothing if its size is there already, else a new entry at its place |
| LargeBins.LeadersRemoved | src/sri-glibc/malloc/malloc.c:1857-1877 | what a removed chunk means for the ring: nothing, replacement by its follower, or one entry less |
| LargeBins.LeadersDecrease | src/sri-glibc/malloc/malloc.c:4711-4761 | ring sizes strictly decrease |
| LargeBins.ReplacedLeaves | src/sri-glibc/malloc/malloc.c:1864-1872 | handing the ring entry to the record behind keeps the ring, also if that record is the bin |
| Rings.InsertKeepsRing | src/sri-glibc/malloc/malloc.c:4751-4767 | four stores link a record into a circular list |
| Rings.RemoveKeepsRing | src/sri-glibc/malloc/malloc.c:1850-1877 | two stores take a record out of a circular list |
| Rings.ReplaceKeepsRing | src/sri-glibc/malloc/malloc.c:1868-1871 | four stores put a record in the place of another |
| Lfht.Lfht.Add | src/sri-glibc/malloc/lfht.c:227-316 | the map is updated at the key, and only there; it fails if and only if the table has the largest size, is full and has no slot for the key; a table grows only when its own predecessor has been assimilated |
| Lfht.FillUp | src/sri-glibc/malloc/lfht.c:257-314 | a table of the largest size, filled by adds, is valid, full and without a slot for some key, so that the add of this key returns false |
| Lfht.Lfht.Remove | src/sri-glibc/malloc/lfht.c:319-384 | the key, and only the key, is unbound; the answer is true exactly if the key has a slot in the current table |
| Lfht.Lfht.Find | src/sri-glibc/malloc/lfht.c:387-451 | the value of the key is found, TOMBSTONE counting as absent, and the map does not change |
| Lfht.Lfht.Assimilate | src/sri-glibc/malloc/lfht.c:467-523 | the map does not change, the requested key is no longer in the old table, and a result below the count means that the old table has nothing left to move |
| Lfht.Lfht.MigrateTable | src/sri-glibc/malloc/lfht.c:196-224 | paying the tax leaves the current table alone responsible for the requested key; a migration that ends leaves the old table flagged as assimilated, and one that goes on leaves room for one more key |
| Lfht.Lfht.Put | src/sri-glibc/malloc/lfht.c:250-300 | an add to the current table, which grows when the threshold is passed; an internal one below the threshold never makes the table grow |
| Lfht.Lfht.Grow | src/sri-glibc/malloc/lfht.c:152-192 | a table of double size comes in front; the two together stand for the same map; its predecessor's predecessor is assimilated |
| Lfht.Lfht.MigrationEnds | src/sri-glibc/malloc/lfht.c:45-56 | while a migration goes on at most floor((T+1)/3) accesses have paid for it, so that it is over with the next one at the latest |
| LfhtRuns.Run | src/sri-glibc/malloc/lfht.c:45-56 | over any sequence of calls the table answers like a map; after a growth the old table is empty again, or another one has come in front, at the latest one call after floor((T + 1) / 3) calls |
| Lfht.RoomWhileMigrating | src/sri-glibc/malloc/lfht.c:45-56 | with three moves per access the new table stays within its threshold until the old one is empty, from any initial size |
| Arithmetic.DoublingFits | src/sri-glibc/malloc/lfht.c:162-168 | doubling a power of two below the largest size stays within it |
| Lfht.Table.Probe | src/sri-glibc/malloc/lfht.c:257-295 | linear probing stops at the key or at the first unused slot, or has seen every slot |
| Lfht.SoundInsert | src/sri-glibc/malloc/lfht.c:264-268 | claiming the slot that probing found binds the key in the union of the two tables |
| Lfht.SoundStore | src/sri-glibc/malloc/lfht.c:281-284 | storing in the slot of a key rebinds it in the union |
| Lfht.SoundMark | src/sri-glibc/malloc/lfht.c:503-508 | marking an entry of the old table takes its key, and no other, out of the union |
| Lfht.SoundGrow | src/sri-glibc/malloc/lfht.c:166-177 | an empty table in front of the current one does not change the union |
| Lfht.SoundFinish | src/sri-glibc/malloc/lfht.c:206-213 | an old table without unmarked entries can be forgotten |
| ProbeTable.InsertKeepsWellFormed | src/sri-glibc/malloc/lfht.c:257-295 | claiming the first unused slot keeps all probe paths unbroken and keys distinct |
| LfhtSafety.EveryRunIsSafe | src/sri-glibc/malloc/lfht.c:152-523 | for any number of threads and any interleaving of single accesses: no step leaves its array or follows a missing table, tables form a chain of doubling sizes, every key has an unbroken probe path, each table has at most one unmarked slot per key, and used slots are the count plus the threads between their claim and their increment |
| LfhtSafety.SlotHistory | src/sri-glibc/malloc/lfht.c:59-83 | between any two moments of a run a slot's key is the same or has gone from 0 to a key, or to the mark of a key, or from a key to its mark |
| LfhtSafety.CallsTakeTurns | src/sri-glibc/malloc/lfht.c:227-451 | in every run each thread begins a call only when it has none and returns from the one it has: a call that has to start over because its table was flagged meanwhile still returns, once, before the next begins |
| LfhtSafety.NobodyJoins | src/sri-glibc/malloc/lfht.c:481-485 | once a table is flagged as assimilated, no thread that was not moving entries out of it ever does again, whatever the schedule |
| LfhtHistory.ValuesWereAdded | src/sri-glibc/malloc/lfht.c:152-523 | for any number of threads, any interleaving and any number of growths: every value that a find answers was added for its key by a call that had begun before the find returned, and so was every value in a slot, in a move that is under way, and in a call, for the key that it is there for |
| LfhtValues.StepFrom | src/sri-glibc/malloc/lfht.c:490-508 | no step makes up a value: what a scan reads is what it adds to the new table, and what a call began with is what it stores |
| LfhtThreads.StepKept | src/sri-glibc/malloc/lfht.c:152-523 | each step keeps the memory invariant and what the thread knows, and balances used slots against the count |
| LfhtThreads.PcStays | src/sri-glibc/malloc/lfht.c:152-523 | what a thread knows is not invalidated by the steps of others |
| LfhtThreads.ClaimOk | src/sri-glibc/malloc/lfht.c:264-266 | the winner of a claim does not duplicate an unmarked key, because it has seen every slot before it in use by others |
| LfhtRaces.UpdateCanBeLost | src/sri-glibc/malloc/lfht.c:281-285 | a thread adds a value to a key that only it adds, and when this add has returned finds the value from before; nothing explains this, because another thread that pays the tax has read and marked the old entry before the value was stored there |
| LfhtRaces.FindTakes | src/sri-glibc/malloc/lfht.c:490-508 | a find that pays the tax reads the old value and marks the entry before it adds the value to the new table |
| LfhtRaces.UpdateEnds | src/sri-glibc/malloc/lfht.c:281-311 | the swap succeeds although the entry is marked, and nothing makes the add try again before the old table is flagged |
| LfhtAlone.AloneIsLikeAMap | src/sri-glibc/malloc/lfht.c:152-523 | whatever a single thread calls, with any number of keys and growths, as long as memory is granted: step by step its calls answer what they would with a map, and an add fails only if more keys were to be added than the largest table has slots |
| LfhtAlone.OrderlyAloneExactly | src/sri-glibc/malloc/lfht.c:152-523 | the calls of all such runs of a single thread that add at most k keys have an order in which every add succeeds if and only if k is at most the size of the largest table |
| LfhtSingle.MarkAgrees | src/sri-glibc/malloc/lfht.c:503-508 | when an entry has been marked, the tables stand for the map without its key until the value is added to the new table |
| LfhtSingle.RunAgrees | src/sri-glibc/malloc/lfht.c:152-523 | from any moment at which the tables stand for a map and the thread is where its call is, the run goes on like that |
| LfhtRefused.RefusalCanLoseAKey | src/sri-glibc/malloc/lfht.c:152-183 | with one refusal a single thread can lose a key: a table of four slots is not allowed to grow at the third key and grows at the fourth; the fifth leaves one entry unmoved; and the find of the fifth moves that one, makes the second table grow and looks in the third, which is empty |
| LfhtRefusals.OrderlyWithoutRefusals | src/sri-glibc/malloc/lfht.c:152-183 | with up to r refusals of memory, and no more keys than the largest table has slots, the calls of all runs of a single thread have an order if and only if r is zero |
| LfhtRefused.FifthIsLost | src/sri-glibc/malloc/lfht.c:195-213 | such a find flags the first table but not the second, and goes on in the table in front |
| LfhtOrderly.OrderlyExactly | src/sri-glibc/malloc/lfht.c:152-451 | the calls of all runs that add at most k different keys, by any number of threads and with any hash, have an order that explains their answers, if and only if the first table has room for k keys before it grows, or is of the largest size and has k slots |
| LfhtOrderly.CallsHaveAnOrder | src/sri-glibc/malloc/lfht.c:227-451 | with no more keys than that each call takes effect at one step between its begin and its return, and answers what is right at that step |
| LfhtOrderly.FindsGoBack | src/sri-glibc/malloc/lfht.c:152-183 | with one more key: a thread finds it while it is added, and does not find it any more when the new table is in front and not announced yet |
| LfhtOrderly.AddReturnsFalse | src/sri-glibc/malloc/lfht.c:257-314 | with one more key than the largest table has slots an add returns false |
| LfhtOrders.NoOrderForFinds | src/sri-glibc/malloc/lfht.c:387-451 | no order explains that a thread finds a key and later does not, if nothing is removed |
| LfhtOrders.NoOrderForUpdates | src/sri-glibc/malloc/lfht.c:227-451 | no order explains that a thread adds a value, alone, and later finds another |
| LfhtAsserts.AssertedExactly | src/sri-glibc/malloc/lfht.c:173-181 | the assertions about growing tables hold in all runs that add at most k different keys if and only if the second table has room for k keys before it grows, or there can be no third one |
| LfhtAsserts.AssertionsHold | src/sri-glibc/malloc/lfht.c:173-181 | with no more keys than that no assertion fails, whatever the schedule |
| LfhtAsserts.AssertionsFail | src/sri-glibc/malloc/lfht.c:173-181 | with one more: a thread puts the second table in front and another one the third before the first has looked at the state, so that one finds it EXPANDING and the other a table before that is not assimilated |
| LinearHash.Metadata.Add | src/sri-glibc/malloc/metadata.c:665-683 | the record is pushed on the stack of its key and no other stack changes, through any split and directory growth; there is one bin more exactly if the load has reached max_load + 1 and there can be more bins |
| LinearHash.PushNeedsUnlinked | src/sri-glibc/malloc/metadata.c:665-683 | pushing a record leaves a table in which every record has its place, once, if and only if the record was in no chain before |
| LinearHash.Metadata.Lookup | src/sri-glibc/malloc/metadata.c:685-729 | the record on top of the stack of the key is returned, and no stack changes, although the chain may |
| LinearHash.Metadata.Delete | src/sri-glibc/malloc/metadata.c:731-773 | the stack of the key is popped if it is not empty, and no other changes; there is one bin less exactly if a record was deleted, the table is larger than at first and the load is below min_load; if that follows an expansion to b bins, at least 2b - 3 records were deleted in between |
| LinearHash.Metadata.DeleteAll | src/sri-glibc/malloc/metadata.c:775-817 | the stack of the key is emptied, its size returned, and no other stack changes; bins are merged under the same condition, once, and at the same distance from the last expansion |
| TableRuns.Run | src/sri-glibc/malloc/metadata.c:665-817 | over any sequence of add, lookup, delete and delete_all the table answers like a map from keys to stacks, and expansions and contractions are apart |
| TableRuns.ResizesAreApart | src/sri-glibc/malloc/metadata.c:823-857 | over any sequence of calls, between an expansion to b bins and the next contraction at least 2b - 3 records are deleted |
| LinearHash.Metadata.ExpandTable | src/sri-glibc/malloc/metadata.c:552-656 | one more bin, and every stack as it was |
| LinearHash.Metadata.ContractTable | src/sri-glibc/malloc/metadata.c:954-1027 | one bin less, and every stack as it was |
| LinearHash.Metadata.ExpandCheck | src/sri-glibc/malloc/metadata.c:490-495 | afterwards the table has fewer than (max_load + 1) * bincount records, unless there can be no more bins, and it has grown by one bin exactly if it had not |
| LinearHash.Metadata.ContractCheck | src/sri-glibc/malloc/metadata.c:852-857 | the table keeps that bound; it loses a bin exactly if it has more than at first and fewer than min_load * bincount records, at least 2 * bincount - 3 deletions after the last expansion |
| LinearHash.Metadata.SplitChain | src/sri-glibc/malloc/metadata.c:617-652 | the loop leaves in either bin exactly the records that belong there, in their old order, and touches no other record |
| LinearHash.Metadata.MoveBuckets | src/sri-glibc/malloc/metadata.c:923-952 | the source chain follows the target chain, the source bin is empty, and no other bin changes |
| LinearHash.Metadata.MakeRoom | src/sri-glibc/malloc/metadata.c:575-602 | there is a segment for the next bin, the directory doubling only when it is full, and no bin changes |
| LinearHash.Metadata.GiveBackRoom | src/sri-glibc/malloc/metadata.c:1004-1014 | the last segment is given back exactly when its first bin is dropped, and all its bins are empty then |
| Binning.GrowKeepsDims | src/sri-glibc/malloc/metadata.c:607-615 | maxp = N * 2^L, p < maxp and bincount = maxp + p are kept, and contraction would undo it |
| Binning.ShrinkKeepsDims | src/sri-glibc/malloc/metadata.c:1016-1025 | the same for contraction, which takes the counters back to what expansion started from |
| Binning.SplitBindex | src/sri-glibc/malloc/metadata.c:425-450 | a split moves keys from bin p to the new last bin and moves no other key, also when the number of bins is near its limit |
| Binning.SplitKeepsStacks | src/sri-glibc/malloc/metadata.c:617-652 | a split changes no stack |
| Binning.MergeKeepsStacks | src/sri-glibc/malloc/metadata.c:994-1001 | a merge changes no stack, because the two bins have no key in common |
| Binning.MergeUndoesSplit | src/sri-glibc/malloc/metadata.c:954-1027 | a merge right after a split gives back the counters and the records of the bin, up to order |
| Chains.MoveKeepsSplitting | src/sri-glibc/malloc/metadata.c:626-645 | the stores of one round move one record from one chain to the end of the other |
| Chains.SpliceKeepsChain | src/sri-glibc/malloc/metadata.c:944-950 | one store splices two chains |
| Directories.Directory.AddSegment | src/sri-glibc/malloc/metadata.c:593-602 | a new or recycled segment adds empty bins at the end |
| Directories.Directory.DropSegment | src/sri-glibc/malloc/metadata.c:1009-1014 | an empty last segment goes back to the pool, and every recycled segment is empty |
| Directories.Directory.Resize | src/sri-glibc/malloc/metadata.c:531-537 | copying the directory keeps all bins |
| Registry.ChunkIndex.RegisterChunk | src/sri-glibc/malloc/malloc.c:2228-2246 | with one record per chunk the table is a map from chunks to records, to which the chunk is added |
| Registry.ChunkIndex.LookupChunk | src/sri-glibc/malloc/malloc.c:2188-2194 | the record of the chunk is found, NULL if there is none |
| Registry.ChunkIndex.UnregisterChunk | src/sri-glibc/malloc/malloc.c:2198-2211 | the chunk is taken out of the map; false if it was not there |
| Pools.PoolChain.Alloc | src/sri-glibc/malloc/memcxt.c:323-379 | the slot handed out was not live; it is now, and so are all that were; a new pool is made only when all others are full |
| Pools.PoolChain.Free | src/sri-glibc/malloc/memcxt.c:381-414 | the slot, and no other, stops being live |
| Pools.Pool.Take | src/sri-glibc/malloc/memcxt.c:335-354 | with a positive free_count the scan always finds a mask that is not full, so that the loop over the pools ends, and takes the lowest free slot |
| Pools.GetFreeBit | src/sri-glibc/malloc/memcxt.c:292-302 | the lowest zero bit of a mask that is not full |
| Pools.MarkFacts | src/sri-glibc/malloc/memcxt.c:311-321 | setting or clearing the bit of a slot changes the use of that slot only, and the number of zero bits by one |
| Pools.FreeSlotsExist | src/sri-glibc/malloc/memcxt.c:335-340 | there are zero bits exactly if some mask is below its maximum |
| GuardBytes.Mem2MemCheck | src/sri-glibc/malloc/hooks.c:139-168 | reading from the top byte of the chunk gives back exactly the requested size, no byte on the way is the guard byte, and the requested bytes are untouched |
| GuardBytes.MallocCheckGetSize | src/sri-glibc/malloc/hooks.c:110-134 | the walk ends for any contents, with a size or with corruption noticed |
| GuardBytes.AfterOverrun | src/sri-glibc/malloc/hooks.c:104-134 | what the walk finds when the guard byte is overwritten with c: corruption if c is zero or larger than the requested size, and otherwise what it finds c bytes below; never the requested size |
| GuardBytes.MagicByte | src/sri-glibc/malloc/hooks.c:91-101 | the guard byte is a byte and is never 1 |
| GuardBytes.MagicByteFolds | src/sri-glibc/malloc/hooks.c:91-101 | bit k of the guard byte is set exactly if bits k + 3 and k + 11 of the address differ, unless that gives 1, in place of which it is 2 |
| HeapLookup.AddressSpace.NewHeap | src/sri-glibc/malloc/arena.c:589-661 | whatever mmap answers, the mapped memory grows by exactly one aligned block that was not mapped before, or not at all; which of the two, and where the block is, follows from the answers; the size of the heap is the one that fits the request (`HeapSizeFits`) |
| HeapLookup.HeapSize | src/sri-glibc/malloc/arena.c:596-604 | zero, for failure, exactly if the wrapped sum and the size are above the largest heap; otherwise the least number of whole pages from the sum on, but the least heap for a smaller sum, and the largest for a larger one |
| HeapLookup.Lookup.LookupArenaIndex | src/sri-glibc/malloc/lookup.c:111-146 | in every state that calls can reach: a pointer into a region belongs to the main arena, the start of a mapped chunk to none, a pointer into a heap to the arena that created it, and one further into a mapped chunk or into nothing of these is not found |
| HeapLookup.EveryRunIsAttributed | src/sri-glibc/malloc/arena.c:114-115 | after any sequence of creating and deleting heaps, mapping, shifting and unmapping chunks and growing and shrinking regions, whatever the system answers: heaps, mapped chunks and regions do not overlap; pointers into regions are attributed to the main arena, those into heaps to their arena, and the pointer that was handed out for a mapped chunk to none; all others, also further into mapped chunks, are not found |
| HeapLookup.StepKeepsInv | src/sri-glibc/malloc/arena.c:589-661 | each of these steps keeps owners mapped and apart, a new heap because its block was unmapped before |
| HeapLookup.Lookup.CreateHeap | src/sri-glibc/malloc/lookup.c:202-207 | the heap that new_heap yields is registered for its arena, with nothing else changed |
| HeapLookup.Lookup.MapChunk | src/sri-glibc/malloc/lookup.c:216-221 | a mapped chunk is registered, in an area that was not mapped before |
| HeapLookup.Lookup.ShiftChunk | src/sri-glibc/malloc/malloc.c:5993-5994 | an aligned part of a mapped chunk takes its place in the table |
| HeapLookup.Lookup.UnmapChunk | src/sri-glibc/malloc/malloc.c:3829-3836 | the chunk is forgotten, and all of the area that it came in is unmapped |
| HeapLookup.Lookup.GrowSbrk | src/sri-glibc/malloc/lookup.c:178-194 | the first region begins where the system put it, or grows |
| HeapLookup.Lookup.ShrinkSbrk | src/sri-glibc/malloc/lookup.c:197-200 | the first region shrinks and the memory is given back |
| HeapLookup.Lookup.AddRegion | src/sri-glibc/malloc/lookup.c:148-176 | a mapped region is added to the list |
| HeapLookup.Lookup.DeleteHeap | src/sri-glibc/malloc/arena.c:723-728 | the heap, and no other, is forgotten, and its block is unmapped |

## Left out

- Arenas.Arena.Memalign: asks for a request of at most 2^64 - 16 - alignment - MINSIZE bytes, if it is in range at all, because beyond that the padded request wraps and the promise is false (`BinIndex.PaddedRequestFits`).
- Arenas.Arena.MidMemalign: asks for a request that does not pass the guard and wrap (`BinIndex.MemalignWraps`): up to 15 bytes less than the guard lets through if the alignment is a power of two, and otherwise also what rounding adds to the alignment (`BinIndex.PaddedRequestCanWrap`). The chunk that the code gets then is too small, and what it cuts off it may lie outside.
- Runs.DoMemalign: answers such requests with Failed, without making them.
- Arenas.Arena.ScanLargeBin: leaves open which of the chunks that fit is taken, and `Place` where in a large bin a chunk goes; `LargeBins` has the pointers that decide it and what holds of the choice in every state.
- Arenas.Arena.Sysmalloc: models one contiguous region whose end the system moves up or not; fenceposts, foreign sbrk calls, mmapped chunks, heaps of other arenas and trimming depend on the system. The sum nb + top_pad + MINSIZE does not wrap here; in the code it does for nb near 2^64, and then a region that the system extends by the wrapped amount has changed although the request fails.
- Arenas.Arena.Malloc: takes it that there is a record for every new chunk; the code sets some aside beforehand, and malloc, realloc and memalign also fail when it cannot get them.
- Arenas.Arena: records are values in a map from handles, which is the memory that they live in, rather than objects of their own; the flag bits of the size word are fields.
- Arenas.Arena.Place: the table of records is a map here and large bins are sequences; that `Registry` is such a table, `Pools` such a memory and `LargeBins` such bins is proved in these modules, and not used by a model of all of them together.
- Arenas.Arena: bins and fastbins are sequences of records; the stores to fd and bk behind a bin are in `Rings` and `LargeBins`.
- Arenas.Arena: the sanity checks that stop the program on a corrupted heap, filling of freed memory with a pattern, and the initialisation on the first call.
- LinearHash.Metadata.Add: memory for segments and directories is taken to be granted; on failure the code returns false with the record already linked.
- LinearHash.Metadata: the two fields of a bucket that matter are maps from handles, which are updated where the code stores through pointers.
- LinearHash.Metadata: deletion of the whole table, which gives segments back without clearing their bins, and the two-entry cache, which is off by default.
- Directories.Directory.AllocSegment: leaves open which recycled segment the pool hands out, because all of them are empty; `Pools` has the choice.
- Lfht.Lfht.Add: memory for a new table is taken to be granted; in `LfhtThreads` it can also be refused.
- LfhtAlone.AloneIsLikeAMap: asks for memory to be granted whenever a table is to grow, because one refusal can lose a key (`LfhtRefusals.OrderlyWithoutRefusals`).
- LfhtHistory.ValuesWereAdded: a find of a key that is not aligned can meet the mark of the aligned key below it, and then its value is one of that key.
- LfhtThreads: which schedules have an order although more keys are added; the condition is on the number of keys, which is what a caller can know.
- HeapLookup.Lookup.GrowSbrk: leaves out sbrk calls by others, which make the code add a region or move the first one, and the growth of the array of regions, which is a sequence here.
- HeapLookup.Lookup.MapChunk: leaves out mremap, which the code records as a deletion and an addition, and requests of the main arena that fall back to mmap for their first region.
- HeapLookup.Lookup.CreateHeap: says nothing of the state when the table of heaps is full, because the code aborts then; that the arena's own index is right is up to its caller.
- GuardBytes.Mem2MemCheck: the default build without headers, where writer and reader start at different bytes.
- `malloc_usable_size`, the copy in the fallback of `__libc_realloc`, the arena free list, fork handlers, locking, statistics, dumps and state saving: system code, or without a promise to prove.
