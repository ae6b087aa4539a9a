# A verified model of the two-tier allocator

The allocator serves large requests from a buddy list of power-of-two blocks and small requests from a
TLSF list of boundary-tag blocks that live in fixed sheets.  A sheet is itself a block of the buddy list,
tagged as such; a region joins the two tiers over one range of memory, keeping at most one empty sheet in
reserve.  A heap dispatches over several regions, and the malloc interface adds red zones and `resize`.

This project models all of that in Dafny, from bit arithmetic to `resize`, and proves what every
operation does and keeps.  The two lists, the region and the heap are classes whose methods follow the
source's methods branch by branch and change arrays and fields in place; what they mean is stated on
values:

- `Tiling` describes a buddy list as a map of tiles, `TlsfState` a TLSF list as a map of blocks, each with
  the predicate that ties it to tags, headers, links, bitmaps and counters (`Represents`, `Rep`).
- `RegionState.Loans` is the abstract state of a region: which small and large blocks callers hold.
  `HeapState.Find` is that of a heap: where each pointer leads.
- Contracts say how that abstract state changes, that the memory of every other live block is untouched
  (`Kept`, `Spared`, `Intact`, `KeptBut`), and exactly when an operation fails.

Since every method requires and ensures the validity of its object, each statement holds in every state
that any run can reach.

Memory is an array of sixteen-byte granules of four words.  Positions and block sizes inside a region are
granules from its base; sizes asked for, and the addresses of the heap, are bytes.  Block sizes, sheet
size, small class, second-level width, numbers of sheets, orders and regions are parameters, constrained
only as the source's static assertions constrain them (`Mapping.Sound`, `Extent.Sensible`).

| file | models |
|---|---|
| `Bits.dfy`, `Sums.dfy`, `Granules.dfy` | bit operations as arithmetic, byte counters, memory words, bytes and linked lists |
| `Tiling.dfy`, `BuddyState.dfy`, `BuddyTier.dfy` | `src/free_list.hpp` |
| `Setup.dfy` | `__setup` of `src/free_list.hpp` |
| `Mapping.dfy`, `TlsfState.dfy`, `TlsfTier.dfy` | `src/cache_list.hpp` |
| `RegionState.dfy`, `FreshSheets.dfy`, `RegionTier.dfy` | `src/region.hpp` |
| `HeapState.dfy`, `HeapBytes.dfy`, `HeapTier.dfy` | `src/heap.hpp` |
| `MallocTier.dfy` | `src/malloc.hpp` |
| `Extent.dfy`, `Overstated.dfy` | `src/__bb.hpp` |

One property that might be expected is false of the code: `bb_allocator::resize` reports the extent of the
request whatever block it ends up with.  `Extent.ResizeReported` proves that the report is sound if and only if
`Extent.Sufficient` holds of the state before the call; `Extent.OrdinarySufficient` says what that comes to at the
ordinary alignment.  `Overstated.ResizeOverstates` gives a block for which the report is too large in every heap
that has it, and `Overstated.Run` a run from a fresh heap that ends in such a report.

## Model

| member | source | states |
|---|---|---|
| `Bits.BuddyBits` | src/free_list.hpp:281-290 | On an offset that is a multiple of the block size, XOR gives the buddy, OR the upper and AND-NOT the lower of the pair; the lower one is aligned to twice the size exactly as bit `k` says. |
| `Bits.CtzIsLowest` | src/metadata.hpp:105-115 | Count-trailing-zeros of a non-zero mask is its lowest set bit. |
| `Bits.FlsIsHighest` | src/metadata.hpp:90-103 | Find-last-set of a non-zero mask is its highest set bit. |
| `Bits.Log2` | src/metadata.hpp:79-88 | The shift loop finds the highest set bit, and 0 for 0. |
| `Bits.IsPow2Iff` | src/metadata.hpp:61-65 | The power-of-two test accepts exactly the powers of two. |
| `Bits.KeepUnique` | src/cache_list.hpp:107-111 | Masking off the low bits of a position inside an aligned sheet gives that sheet and no other. |
| `Granules.GranuleBits` | src/cache_list.hpp:284-314 | Setting or clearing one bit of the sixteen bytes of a granule changes that bit and no other. |
| `Links.LinkedPush` | src/free_list.hpp:180-191 | Pushing in front of one list of an array of lists keeps all of them linked, although the `prev` of heads is never repaired. |
| `Links.LinkedPop` | src/free_list.hpp:245-258 | Popping a head writes no link and keeps every list linked; the rest of the list is empty exactly when the head had no successor. |
| `Links.LinkedRemove` | src/cache_list.hpp:253-274 | Joining the neighbours of an inner node removes that node, and only it, from its list. |
| `Tiling.RunInFreeTile` | src/free_list.hpp:272-294 | In every reachable state an aligned power-of-two run that meets no lent block lies inside one free block. |
| `Tiling.FreeIffMaximalRun` | src/free_list.hpp:272-294 | The free blocks are exactly the maximal naturally aligned power-of-two runs not covered by lent blocks. |
| `Tiling.HistoryIndependent` | src/free_list.hpp:272-294 | Two reachable states that have lent the same blocks have the same free blocks, whatever led to them. |
| `Tiling.ServableIffRun` | src/free_list.hpp:437-466 | Some free block is of the order or above exactly when an aligned run of that order is free. |
| `Tiling.UpperBuddiesFreeIff` | src/free_list.hpp:566-595 | All upper buddies on the way are free exactly when the grown block fits the region and meets no other lent block. |
| `Tiling.HalveKeeps` | src/free_list.hpp:260-266 | Splitting a block in hand keeps the region tiled, aligned and without two free buddies. |
| `Tiling.JoinKeeps` | src/free_list.hpp:280-292 | Merging a block in hand with its free buddy keeps the region tiled, aligned and without two free buddies. |
| `Tiling.SeedIsTiled` | src/free_list.hpp:312-328 | The binary expansion of the unit count tiles a region of any length with aligned blocks, no two of them free buddies. |
| `Tiling.DrainedIsSeed` | src/free_list.hpp:272-328 | A state in which nothing is lent is the seed, in whatever order the blocks came back. |
| `Sums.SumBound` | src/cache_list.hpp:339-346 | Lengths of disjoint intervals below a bound add up to at most the bound: the byte counters cannot overflow the region. |
| `BuddyState.MaskComplete` | src/free_list.hpp:173-178 | Given that mask bits agree with list emptiness, a set bit at or above an order exists exactly when an aligned run of that order is free. |
| `BuddyState.MaskFinds` | src/free_list.hpp:451-461 | The order found by the mask is a valid one exactly when the request is servable; its list is not empty and no free block of an order in between exists. |
| `BuddyState.TagDecodes` | src/free_list.hpp:496-505 | The tag of a unit says whether a lent block starts there, whether it is a sheet, and of which order it is. |
| `BuddyState.JoinStep` | src/free_list.hpp:280-292 | One merge carries tags, lists and tiling along together. |
| `BuddyState.HalveStep` | src/free_list.hpp:262-266 | One split carries tags, lists and tiling along together. |
| `BuddyTier.OrderForSizeIsLeast` | src/free_list.hpp:97-102 | The order computed for a size is the least one whose blocks hold it. |
| `BuddyTier.AlignedGrant` | src/free_list.hpp:476-488 | A block of the order chosen for an aligned request starts at a multiple of the alignment. |
| `BuddyTier.AlignedOrderHolds` | src/free_list.hpp:476-488 | The order used for an aligned request is the least one whose blocks hold both the size and the alignment. |
| `BuddyTier.CouldServeIff` | src/free_list.hpp:520-536 | A request is worth flushing for exactly when the largest order of the region holds its size, and its alignment. |
| `BuddyTier.GrowIff` | src/free_list.hpp:575-586 | For a block aligned to the wanted order, the first pass of in-place growth succeeds exactly when the grown block fits and is clear. |
| `BuddyTier.Buddy.constructor` | src/free_list.hpp:395-404 | Set-up of a zeroed tier ends in the seeded decomposition, with a valid representation. |
| `BuddyTier.Buddy.Seed` | src/free_list.hpp:312-328 | Pushing the binary expansion largest first yields exactly the decomposition, with nothing lent. |
| `BuddyTier.Buddy.LinkFront` | src/free_list.hpp:180-191 | The block becomes the head of its list and its tag says free; only that block and members of the list are written. |
| `BuddyTier.Buddy.UnlinkCheck` | src/free_list.hpp:200-219 | The link check is true of every free block of every reachable state, so checked and unchecked builds take the same steps. |
| `BuddyTier.Buddy.UnlinkDo` | src/free_list.hpp:221-233 | Exactly that block leaves its list, and the mask bit is cleared exactly when the list becomes empty. |
| `BuddyTier.Buddy.PushFree` | src/free_list.hpp:193-198 | The block in hand becomes free; every other lent block and its memory stay. |
| `BuddyTier.Buddy.FindFreeOrder` | src/free_list.hpp:173-178 | The result is the lowest order at or above the one asked whose mask bit is set, or none is. |
| `BuddyTier.Buddy.TakeAndSplit` | src/free_list.hpp:245-270 | A head of the found order is split down to the target; the mask written at the end agrees with the lists, and no lent memory changes. |
| `BuddyTier.Buddy.MergeAndFree` | src/free_list.hpp:272-294 | Freeing merges upwards until no free buddy is left; exactly that block is given up and no other lent memory changes. |
| `BuddyTier.Buddy.AllocateOrder` | src/free_list.hpp:437-466 | Fails exactly when no aligned run of the order is free; otherwise grants the front of a best-fitting free block and changes nothing else that is lent. |
| `BuddyTier.Buddy.Allocate` | src/free_list.hpp:468-474 | The same for a size in bytes; zero bytes are refused. |
| `BuddyTier.Buddy.AllocateAligned` | src/free_list.hpp:476-488 | Fails exactly for bad or too large alignments or when no run is free; a grant is aligned and of the least order for size and alignment. |
| `BuddyTier.Buddy.OrderAt` | src/free_list.hpp:496-505 | The answer is the order of the lent block that starts at the byte offset, and -1 for every other offset, whatever memory holds. |
| `BuddyTier.Buddy.DeallocateOrder` | src/free_list.hpp:538-554 | The block is given up, the byte count falls by its size and the memory of all other lent blocks stays. |
| `BuddyTier.Buddy.Deallocate` | src/free_list.hpp:556-564 | Refused, unchanged, exactly when no lent block starts at the offset. |
| `BuddyTier.Buddy.Grow` | src/free_list.hpp:566-595 | All or nothing: succeeds exactly when the block is large enough already, or is aligned to the wanted order and the grown block meets no other lent block. |
| `BuddyTier.Buddy.GrowUp` | src/free_list.hpp:587-594 | The second pass never invalidates what the first pass checked; tiling, tags and byte count are conserved. |
| `BuddyTier.Buddy.LargestFree` | src/free_list.hpp:615-622 | The size of the largest servable order, 0 exactly when nothing is servable. |
| `BuddyTier.Buddy.MarkSheet` | src/free_list.hpp:146-151 | The kind bits of the tag say sheet; order, tiling and every other block stay. |
| `BuddyTier.Buddy.UnmarkSheet` | src/free_list.hpp:153-158 | The inverse of marking a sheet. |
| `BuddyTier.Buddy.IsSheetAt` | src/free_list.hpp:140-144 | True exactly when a sheet starts at the unit. |
| `BuddyTier.Buddy.Used` | src/free_list.hpp:603-607 | The counter is the sum of the sizes of lent blocks and never exceeds the region. |
| `Mapping.IndexMono` | src/cache_list.hpp:163-168 | The insert mapping is monotone, so the lists partition the sizes in increasing order. |
| `Mapping.IndexStrict` | src/cache_list.hpp:163-168 | A higher list holds only larger sizes. |
| `Mapping.RoundedBucket` | src/cache_list.hpp:170-178 | Rounding up either stays in the power of two and moves at most one class, or moves from its last class to the first of the next. |
| `Mapping.SearchIsRounded` | src/cache_list.hpp:170-178 | The search mapping is the insert mapping of the rounded-up size. |
| `Mapping.GoodFit` | src/cache_list.hpp:195-220 | A block from the search class or above is never smaller than asked. |
| `Mapping.SearchAtMostNext` | src/cache_list.hpp:170-193 | The search class is the size's own class or the next one. |
| `Mapping.BelowSearchIsTight` | src/cache_list.hpp:195-220 | A block below the search class exceeds the request by less than one part in `2^SlLog2` of it. |
| `Mapping.IndexInRange` | src/cache_list.hpp:53-57 | Every block that can exist in a sheet has a list, and the largest one is in the last level. |
| `Mapping.SearchInRange` | src/cache_list.hpp:198-203 | In the range of the table the search class is a list that exists. |
| `TlsfState.SplitStep` | src/cache_list.hpp:332-341 | Cutting a block keeps its sheet tiled from sentinel to sentinel, the back links inverting the sizes, and the marks and lists right. |
| `TlsfState.MergeStep` | src/cache_list.hpp:388-403 | Merging two neighbours keeps the same. |
| `TlsfState.InsertStep` | src/cache_list.hpp:234-251 | Filing a block in the list of its own class keeps lists and both bitmap levels in agreement and no two free blocks adjacent. |
| `TlsfState.DropStep` | src/cache_list.hpp:253-274 | Taking a block off its list keeps lists and both bitmap levels in agreement. |
| `TlsfState.MarkStep` | src/cache_list.hpp:293-307 | Setting or clearing the mark keeps the bitmap true of exactly the live payload starts. |
| `TlsfState.AddSheetStep` | src/cache_list.hpp:489-511 | A sheet laid out between its sentinels is one free block, and nothing outside it has changed. |
| `TlsfState.EmptyIffNoLive` | src/cache_list.hpp:482-487 | A sheet is one whole free block exactly when no live block lies in it. |
| `TlsfState.BlocksByLive` | src/cache_list.hpp:380-408 | Between the same sheets and live blocks there is only one layout of free blocks: merging on every free leaves no trace of the order of calls. |
| `TlsfState.BitsDrop` | src/cache_list.hpp:222-232 | Clearing a second-level bit, and the first-level bit when the level is then empty, keeps both levels in agreement with the lists. |
| `TlsfTier.TableEntry` | src/cache_list.hpp:74-92 | The formula of the table and the computed mapping agree for every size. |
| `TlsfTier.MakeTable` | src/cache_list.hpp:74-92 | Every entry of the precomputed table is the search class of its size. |
| `TlsfTier.Tlsf.InsertFree` | src/cache_list.hpp:234-251 | The block becomes vacant and heads the list of its size; no size word, back link or live payload changes. |
| `TlsfTier.Tlsf.RemoveFree` | src/cache_list.hpp:253-274 | The block leaves its list; no size word, back link or live payload changes. |
| `TlsfTier.Tlsf.ClearIfEmpty` | src/cache_list.hpp:222-232 | Both bitmap levels agree with the lists again after a list became shorter. |
| `TlsfTier.Tlsf.FindExact` | src/cache_list.hpp:180-193 | Finds the head of the size's own list exactly when that head is large enough. |
| `TlsfTier.Tlsf.FindFree` | src/cache_list.hpp:195-220 | Finds a block exactly when a list at or above the search class is non-empty or the exact fallback applies; a hit is the lowest such list. |
| `TlsfTier.Tlsf.SearchClass` | src/cache_list.hpp:198-207 | Table and computation give the same class. |
| `TlsfTier.FailedSearch` | src/cache_list.hpp:195-220 | After a failed search every free block lies below the search class and is hardly larger than the request. |
| `TlsfTier.Tlsf.Allocate` | src/cache_list.hpp:316-346 | Fails exactly when the search does; a grant holds the request with at most one granule to spare, was free, heads the list found, and no live payload changes. |
| `TlsfTier.Tlsf.OwnsLen` | src/cache_list.hpp:348-366 | The answer is the header and payload of the live block whose payload starts at the pointer, and nothing for any other pointer, whatever payloads hold. |
| `TlsfTier.OwnDecide` | src/cache_list.hpp:348-366 | The bitmap bit, flag and range tests decide whether a pointer is the payload start of a live block. |
| `TlsfTier.Tlsf.MergeNext` | src/cache_list.hpp:388-394 | A block in hand takes in exactly a free block behind it; its neighbour is then not free. |
| `TlsfTier.Tlsf.MergePrev` | src/cache_list.hpp:395-403 | A block in hand is taken in by exactly a free block before it; neither neighbour is then free. |
| `TlsfTier.Tlsf.Deallocate` | src/cache_list.hpp:380-408 | Exactly that block stops being live; the sheet is reported exactly when it has become empty; all other live payloads stay. |
| `TlsfTier.Tlsf.Shrink` | src/cache_list.hpp:410-441 | Succeeds exactly when the request fits the block. It ends with the granules that are needed, or unchanged because it had at most one more. |
| `TlsfTier.Tlsf.Grow` | src/cache_list.hpp:443-480 | Succeeds exactly when the block is large enough or a free block behind it makes it so; a grown block has the granules that are needed, or one more, and nothing changes on failure. |
| `TlsfTier.GrowsIntoRoom` | src/cache_list.hpp:443-480 | Told from the live blocks alone: growth succeeds exactly when there is room behind the block, and it takes one granule more than needed exactly when that is all the room there is. |
| `TlsfTier.Tlsf.SheetEmpty` | src/cache_list.hpp:482-487 | True exactly when the sheet holds no live block. |
| `TlsfTier.Tlsf.AddSheet` | src/cache_list.hpp:489-511 | Refused exactly at the sheet limit; otherwise the sheet is one free block at the head of the top class and nothing else changes. |
| `TlsfTier.Tlsf.RemoveSheet` | src/cache_list.hpp:513-521 | Refused exactly when the sheet holds a live block. |
| `TlsfTier.Tlsf.LargestFree` | src/cache_list.hpp:523-537 | Exactly the requests up to the answer can be met, and the answer is 0 exactly when nothing is free. |
| `TlsfTier.TopLevel` | src/cache_list.hpp:526-532 | The highest bits of both levels lead to the last non-empty list. |
| `TlsfTier.TopFits` | src/cache_list.hpp:180-220 | A request no larger than the head of the last non-empty list is met, by the search or by the exact fallback. |
| `TlsfTier.FitsTop` | src/cache_list.hpp:180-220 | No request larger than the head of the last non-empty list is met. |
| `TlsfTier.Tlsf.Reset` | src/cache_list.hpp:140-154 | An empty tier without sheets is a valid state. |
| `TlsfTier.Tlsf.Payload` | src/cache_list.hpp:374-378 | The payload of a live block is its size less the header. |
| `FreshSheets.SheetAsked` | src/region.hpp:132-134 | The order the buddy tier computes for a sheet is that of a sheet. |
| `FreshSheets.EmptyIsAbove` | src/region.hpp:142-147 | An empty sheet is filed at or above the search class of every small request. |
| `FreshSheets.EmptyFits` | src/region.hpp:142-147 | Every small request is met while some sheet is empty. |
| `FreshSheets.GrantIsFresh` | src/region.hpp:142-147 | A request that could not be met before is granted from the sheet just added. |
| `RegionState.TlsfFrame` | src/region.hpp:46-47 | The TLSF tier depends on its headers, sentinels and bitmaps alone. |
| `RegionState.BuddyFrame` | src/region.hpp:46-47 | The buddy tier depends on the memory of its free blocks alone. |
| `RegionState.WriteFrame` | src/region.hpp:46-47 | A write into a lent block changes nothing that either tier depends on. |
| `RegionState.GrantKeeps` | src/region.hpp:186-193 | A block lent by the buddy tier leaves sheets, loans and their memory as they were. |
| `RegionState.FreeKeeps` | src/region.hpp:117-121 | A block taken back by the buddy tier leaves sheets, other loans and their memory as they were. |
| `RegionState.PinnedIs` | src/region.hpp:71-80 | The blocks lent by the buddy tier are the large loans and the sheets in use, plus the spare when it is empty. |
| `RegionState.ServableLess` | src/region.hpp:177-184 | Giving back an empty sheet never makes a request harder to serve. |
| `RegionState.BusyWeight` | src/region.hpp:216-224 | Bytes lent by the buddy tier are the large loans and one sheet size per sheet. |
| `RegionState.UsageBound` | src/region.hpp:206-224 | Large loans, small loans and the overhead of sheets in use never exceed the region. |
| `RegionTier.Region.constructor` | src/region.hpp:51-60 | An attached region lends nothing and is in a valid state. |
| `RegionTier.Region.ReleaseSheet` | src/region.hpp:106-125 | The sheet goes back exactly when it holds no small loan; loans and their memory stay; the branch that puts it back is never taken. |
| `RegionTier.Region.FlushSpare` | src/region.hpp:71-80 | No loan changes, and afterwards there is no spare and every sheet is in use. |
| `RegionTier.Region.AcquireSheet` | src/region.hpp:127-141 | A buddy block becomes an empty sheet, filed first, exactly when there may be another sheet and a block can host it. |
| `RegionTier.Region.SmallAllocSlow` | src/region.hpp:127-148 | Fails exactly when no sheet can be acquired; otherwise the grant comes from the one fresh sheet, so the release branch is unreachable. |
| `RegionTier.Region.SmallAlloc` | src/region.hpp:150-157 | Fails exactly when neither the sheets nor one more could serve the request; the grant is new and no loan changes. |
| `RegionTier.Region.SheetEmptied` | src/region.hpp:159-167 | The sheet becomes the spare unless there is an empty spare already, in which case it goes back; every empty sheet is then the spare. |
| `RegionTier.Region.SmallFree` | src/region.hpp:169-175 | Exactly that loan ends; what happens to a sheet it empties is exact. |
| `RegionTier.Region.LargeAllocSlow` | src/region.hpp:177-184 | With a spare, fails exactly when the loans leave no run of the order. |
| `RegionTier.Region.LargeAlloc` | src/region.hpp:186-193 | Fails exactly when the loans leave no aligned run of the order, and keeps the spare when it is not needed. |
| `RegionTier.Region.LargeAllocAligned` | src/region.hpp:195-204 | The same for aligned requests; the address granted is a multiple of the alignment. |
| `RegionTier.Region.LargeFree` | src/heap.hpp:282-285 | Exactly that loan ends and the memory of all others stays. |
| `RegionTier.Region.Available` | src/region.hpp:206-214 | Used and available add up to the region, and with nothing lent everything is available. |
| `RegionTier.Region.Used` | src/region.hpp:216-224 | Exact: large loans, small loans with headers and the overhead of each sheet in use, a function of the loans alone; the clamps change nothing. |
| `RegionTier.Accounts` | src/region.hpp:216-224 | The counters of both tiers less the credit are the usage, and the credit never exceeds what the buddy tier has lent. |
| `RegionTier.NoUsage` | src/region.hpp:206-224 | Nothing lent, nothing used. |
| `RegionState.UsageSmall` | src/region.hpp:216-224 | A new small loan adds its granules, and what its sheet takes for itself if it is the first loan there. |
| `RegionState.UsageLarge` | src/region.hpp:216-224 | A new large loan adds its block, a resized one the difference. |
| `RegionTier.Region.BlankOpens` | src/region.hpp:127-157 | A region without sheets meets no small request as it is, and any if it has room for a sheet. |
| `RegionTier.Region.LargestFree` | src/region.hpp:226-235 | Exactly the requests up to the answer can be met: as things stand, and with a fresh sheet or an aligned run. |
| `RegionTier.Region.MeetIsServe` | src/region.hpp:226-235 | Without a spare, what can be served at all can be served as things stand: where a sheet could be opened, a whole block of that size is free. |
| `RegionTier.FlushedByLoans` | src/region.hpp:71-80 | With the spare flushed, sheets, free and live blocks of both tiers are a function of the loans alone: two regions that lend the same are in the same state, whatever calls led there. |
| `RegionTier.Region.SpareFlushed` | src/region.hpp:71-80 | Every valid region without a spare is in a state of that kind. |
| `RegionTier.Region.Drained` | src/free_list.hpp:272-328 | With nothing lent and the spare flushed the buddy tier is the seed again. |
| `RegionTier.Region.Locate` | src/heap.hpp:142-159 | The answer is a function of the loans: tier, header or order, and length of the loan that starts there, and nothing for any other pointer. |
| `RegionTier.WhoseBySheet` | src/heap.hpp:149-158 | In a sheet only small loans start, elsewhere only large ones, so one tag decides which tier to ask. |
| `RegionTier.Region.ShrinkAt` | src/heap.hpp:314-322 | Succeeds exactly when the request is no larger than the block; a small loan ends less than 16 bytes above the request, or less than 32 and as it was; the kept bytes stay. |
| `RegionTier.Region.GrowAt` | src/heap.hpp:324-335 | Succeeds exactly when the tier can grow the block in place, for a small loan told from the loans alone; a grown small loan is less than 32 bytes longer than asked, a grown whole block the least that holds the request; on failure nothing changes. |
| `RegionTier.Region.Store` | src/heap.hpp:142-159 | Writing a byte of a loan keeps both tiers valid and all loans as they were. |
| `RegionTier.Region.LoansApart` | src/region.hpp:88-98 | Loans of both tiers lie inside the region and share no granule. |
| `Setup.SetUp` | src/free_list.hpp:330-393 | For any range, succeeds exactly when there are four units of memory and room for a tag. The base is the first aligned place behind the tags; no larger alignment up to the one wanted has a place with that much room; data and tags fit, and no more units could be had. |
| `Setup.FirstAlignIs` | src/free_list.hpp:344-348 | The first alignment tried is the largest power of two that is no larger than the one wanted, or one unit. |
| `Setup.FitsIff` | src/free_list.hpp:358-366 | The test of the loop is true exactly when there is an aligned place with room, although the rounding may wrap around. |
| `Setup.TagAreaIsLeast` | src/free_list.hpp:350-355 | The tag area is the least number of bytes that, with as many units, takes up the whole range. |
| `Setup.SmallestFits` | src/free_list.hpp:341-366 | At the smallest alignment the loop always finds room, so it ends. |
| `Setup.HalfAlign` | src/free_list.hpp:357-366 | Each halving keeps the alignment a power of two no smaller than the unit, and no larger alignment fits. |
| `Setup.UnitsIs` | src/free_list.hpp:369-388 | The unit count fits the orders, 32-bit offsets and, when tags are internal, the tag area in front of the data. |
| `HeapState.RegionUnique` | src/heap.hpp:134-140 | At most one region contains a pointer. |
| `HeapState.GainedBy` | src/heap.hpp:181-207 | A grant by one region changes where exactly one pointer leads. |
| `HeapTier.Heap.ClearOfAll` | src/heap.hpp:54-61 | True exactly when no address of the given range lies in an attached one. |
| `HeapState.OverlapsIff` | src/region.hpp:88-98 | Two ranges overlap exactly when some address lies in both. |
| `HeapTier.Heap.Attach` | src/heap.hpp:63-89 | Accepted exactly when there is room for a region, nothing wraps or overlaps and the range is large enough; the new region lies as set-up planned and lends nothing, and nothing attached before changes. |
| `HeapTier.Heap.FindRegion` | src/heap.hpp:123-140 | The first region that contains the pointer, or none. |
| `HeapTier.Heap.Locate` | src/heap.hpp:142-159 | A tier and length are returned exactly for the start of a live block; foreign, interior, freed and metadata pointers lead nowhere. |
| `HeapTier.Heap.AllocScanSmall` | src/heap.hpp:181-200 | A fresh sheet in the first region, then the small tiers of the others in order, then whole blocks in order. |
| `HeapTier.Heap.AllocScanLarge` | src/heap.hpp:201-206 | The first region once more with its spare flushed, then the others in order. |
| `HeapTier.Heap.Alloc` | src/heap.hpp:222-237 | Fails exactly when no region can serve the request; otherwise grants from the first region and tier in the fallback order, and no live byte changes. A small request that needs a sheet of the first region becomes the first block there. |
| `HeapTier.Heap.AllocAligned` | src/heap.hpp:261-274 | The same for aligned requests; what is granted is aligned. |
| `HeapTier.Heap.NativelyAligned` | src/heap.hpp:265-266 | Every grant is aligned to 16 bytes, hence to any smaller power of two. |
| `HeapTier.Heap.Release` | src/heap.hpp:276-288 | The block located ends, every other pointer leads where it led, and no other live byte changes; a refusal changes nothing. |
| `HeapTier.Heap.Dealloc` | src/heap.hpp:290-294 | Succeeds exactly for the start of a live block; a refusal changes nothing. |
| `HeapTier.Heap.ShrinkAt` | src/heap.hpp:314-322 | Succeeds exactly when the request is no larger than the block, with the same bounds on its new length. |
| `HeapTier.Heap.GrowAt` | src/heap.hpp:324-335 | Succeeds exactly when the region can grow the block in place, with the same bounds on its new length, and changes nothing otherwise. |
| `HeapTier.Heap.Available` | src/heap.hpp:343-351 | With the usage it makes up the total, which it is once every block is given back. |
| `HeapTier.Heap.Used` | src/heap.hpp:353-361 | The sum over regions, a function of the live blocks alone. |
| `HeapTier.Heap.Total` | src/heap.hpp:376-384 | The sum of the regions' data lengths. |
| `HeapTier.Heap.LargestFree` | src/heap.hpp:363-374 | Exactly the requests up to the answer can be served. |
| `HeapTier.Heap.TakeLargest` | src/heap.hpp:363-374 | Allocating exactly the largest free size always succeeds; if that is 0, there is nothing. |
| `HeapTier.Heap.Store` | src/heap.hpp:142-159 | A caller may write any byte of a live block: the heap stays valid and no other byte changes. |
| `HeapBytes.BlocksApart` | src/heap.hpp:222-237 | No byte belongs to two live blocks. |
| `HeapBytes.IntactBytes` | src/heap.hpp:222-237 | Memory that the tiers leave alone reads the same through pointers. |
| `MallocTier.Balloc` | src/malloc.hpp:110-122 | Fails exactly for zero bytes, on overflow with the red zone or when the heap cannot serve; otherwise a new block with that many usable bytes. |
| `MallocTier.AlignedBalloc` | src/malloc.hpp:124-138 | The same at an alignment. |
| `MallocTier.Dealloc` | src/malloc.hpp:209-221 | Refuses whatever is not the start of a live block that can hold a red zone, and then changes nothing at all. |
| `MallocTier.Copy` | src/malloc.hpp:336-337 | The bytes of one live block arrive in another and no other byte changes. |
| `MallocTier.Resize` | src/malloc.hpp:283-340 | Fails exactly for bad alignments, zero bytes, pointers that are not live blocks, or when the block must move and none is to be had; refused pointers change nothing, zero bytes end the block. Otherwise the block is replaced by one that is aligned, large enough and has the same bytes as far as the old chunk, the old and the new block and the count to preserve all reach, in place exactly when the state before allows it and then of exactly that length; all other blocks keep their places and bytes. |
| `MallocTier.ResizeLive` | src/malloc.hpp:294-340 | It stays in place exactly when it is placed right and is large enough or can grow there, with its new length exact; it fails exactly when it must move and no block can be had. |
| `MallocTier.ResizeDown` | src/malloc.hpp:306-316 | Shrinking in place always succeeds and keeps the address; a small block ends less than 16 bytes above the request, or less than 32 and as it was. |
| `MallocTier.ResizeUp` | src/malloc.hpp:317-325 | Growing in place succeeds exactly when the heap can; a small block becomes less than 32 bytes longer than asked, a whole one the least that holds the request; otherwise nothing has changed. |
| `MallocTier.ResizeAway` | src/malloc.hpp:326-339 | Moving fails exactly when no block can be had; it copies what is preserved before the old block ends, and the place located before the new allocation is still right. |
| `MallocTier.InPlace` | src/malloc.hpp:306-325 | An in-place resize keeps the preserved bytes and every other live byte. |
| `MallocTier.MovedAway` | src/malloc.hpp:326-339 | A move keeps the preserved bytes and every other live byte. |
| `Extent.AllocationExtent` | src/__bb.hpp:103-128 | The bit-counting loop computes the smallest power of two that holds the request. |
| `Extent.ExtentHolds` | src/__bb.hpp:103-128 | The extent is never below the request and fits a word. |
| `Extent.ExtentIsLeast` | src/__bb.hpp:103-128 | With its red zone, the extent is the least multiple of 16 that holds a small request, and otherwise the least power of two that holds the request, the smallest block and the alignment. |
| `Extent.ExtentMono` | src/__bb.hpp:103-128 | The extent is monotone in the request. |
| `Extent.ExtentIdempotent` | src/__bb.hpp:103-128 | The extent of an extent is itself. |
| `Extent.ExtentOfItems` | src/__bb.hpp:103-128 | For a request that is a multiple of the item size, rounding its extent down to whole items has the same extent. |
| `Extent.Create` | src/__bb.hpp:136-145 | The extent reported never exceeds the usable length of the block obtained, also when a small request falls back to the buddy tier. |
| `Extent.LeastBlock` | src/__bb.hpp:118-127 | The extent assumed beyond the small class is the length of the least buddy block that holds the request. |
| `Extent.KeptCovers` | src/__bb.hpp:174-185 | For a block that stays in place the condition on the state before the call decides whether the extent fits the length it will have. |
| `Extent.ResizeReported` | src/__bb.hpp:174-185 | The extent that `resize` reports fits the block if and only if the state before the call says so: always when the block must move; for a whole block kept in place, when the alignment is at most its length or the power of two; for a small one, when the request is small and the alignment ordinary, or its length in place reaches both the power of two and the alignment. |
| `Extent.OrdinarySufficient` | src/__bb.hpp:174-185 | At the ordinary alignment the report is too large exactly for a small block kept for a request above the small class that does not reach the next power of two. |
| `Overstated.ResizeOverstates` | src/__bb.hpp:174-185 | In every heap with the default small class a live small block of 1040 bytes resized to 1030 stays as it is and is reported to hold 2048. |
| `Overstated.Run` | src/__bb.hpp:136-185 | A run of the default configuration on a fresh heap over any range of at least four sheets that ends in a report larger than the block: 65 bytes created, then resized to 65 at an alignment of 32. |
| `Overstated.KeptShort` | src/__bb.hpp:174-185 | The block of that run stays where it is, does not meet the condition, and the extent reported is 128. |
| `Overstated.OpensEven` | src/cache_list.hpp:44-45 | The first payload of a sheet of the default size lies at a multiple of 32. |

## Left out

- Pools, `init`, lazy initialisation and `__grow` (`src/pool.hpp`, `src/heap.hpp:97-112`, `src/heap.hpp:161-179`): memory is handed to `Attach`; a heap without regions refuses every request.
- The order cache of the buddy list, which is empty by default.
- `BB_SEED_TOP_ONLY`, which breaks the tiling on purpose.
- Recovery from corrupted lists: callers are taken to write only to what they hold, and then the link checks never fail, so their failure branches, and the branches that guard against an empty list under a set bit, are not taken and are not written out.
- `reset` of regions and heaps: it is set-up once more.
- Statistics, printing, poisoning, zeroing, reports and halting (`src/stats.hpp`, `src/printing.hpp`, `src/harden.hpp`).
- The bytes of red zones: a red zone is a number of bytes added to a request.
- The C wrappers, `calloc`, `realloc`, `aligned_alloc` and the typed overloads, which forward to what is modelled, and `__bb_allocator`; `destroy` is `dealloc`.
- Failure by exception or halt: a failed request returns nothing.
- The two links of a free buddy block are positions in the first two words of its first granule, not native pointers; address arithmetic on them is not modelled.
- Tag arrays are arrays of their own; that internal tags fit in front of the data is proved of addresses in `Setup`.
- Byte sizes stored in headers are natural numbers; regions are bounded to less than 2^32 bytes, so 32-bit words never wrap.
- `__scratch` nodes, which make writes unconditional in the source, are `if` statements here.
- TlsfTier.Tlsf.Grow: the size word of the grown block is written after the header of the rest, in the order of the split in `allocate`; the source writes it one statement earlier.
- HeapTier.Heap.Attach: the region's arrays are created here, where the source uses the memory attached.
- Setup.SetUp: addresses are those of a 64-bit machine.
