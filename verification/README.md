# A verified model of the fluxos allocator, name space, process table and libc helpers

This project models the parts of the fluxos kernel and C library whose correctness hangs on
state kept by hand, and proves what they promise about every input and every run.

**The heap** (`src/libc/malloc.c`, in the configuration the repository compiles: no mmap,
`sbrk` as MORECORE, no footers, no locks, 4-byte `size_t`). Memory is a map from word addresses
to words. The class `Table` holds the small bins, the tree bins and the two bitmaps and works on
that memory with the same loads and stores as the macros; the class `Allocator` adds the
designated victim, top, the segment and the system break. The invariant is the one that the debug
checkers of the source walk through: the chunks tile the segment, every head and foot tells the
truth, no two free chunks are neighbours, every free chunk is the victim, top or on the ring of
its size, and the bitmaps mark exactly the nonempty bins. `Session` states what this is for: over
any run of malloc, memalign, realloc, free and client writes, the client's blocks behave like
separate arrays.

| files | what they hold |
|---|---|
| Arithmetic, Sequences, Wrappers | helpers |
| SizeClass, Alignment, Bytes, Bitmap | sizes, bin indices, the shifted key of a tree walk, alignments, bytes in words, bit tricks |
| Trie, TreeLinks, Rings, Bins | the tries and rings as values: what insertion, removal and replacement keep |
| ChunkMemory, BinStores, BinUnlink, BestFit, BinSearch, BinTable | the same in raw memory, and the searches |
| Tiling, Tags, HeapState, HeapSteps, HeapMoves, HeapFree, HeapTop, HeapGrow | the row of chunks, boundary tags, and each change an operation makes |
| Malloc, Session | the allocator and its clients |

**The name space** (`vfs.cpp`, `vnodemanager.cpp`): path resolution with mounts, links and
reference counts, and path printing (Paths, Namespace, Symlinks, Mounting, Balances, Vfs). A file system is given by
its `lookup`, `readlink` and `name`.

**The process table** (`task.cpp`, Processes) with its linked list, hash table and counts.

**Smaller cores**: the pipe (Pipes), `gmtime_r` (Calendar), `memmove` (Memmove), the timer list
(Timers) and `getopt` (Getopt).

Members named after functions of the source are their models; a method is proved against a
function or predicate that does not mention how it works, and lemmas relate those to each other.

Where the code does not do what one would expect, the model follows the code and the exact
condition is proved:

- a path printed for a directory leads back to it if and only if nothing is mounted on it or
  above it (`RoundTrip`; `CoveredLeadsElsewhere` is an example where it does not);
- a resolution gives back every reference it took if and only if it follows no link and meets no
  regular file before the last component (`NothingLost`; `LinkLoses` is a run that loses one);
- p/q resolves like q from where p leads, except when p ends in a regular file (`Composition`;
  `FileInside` is an example);
- with leaf links not followed, the text of a link in the middle of a path is resolved without
  following its last link either (`InnerLaw` says what that comes to, `MiddleLinkStops` is the
  case that shows it);
- removing the process at the tail of the list leaves one count too many on its neighbour
  (`RemovePid`, through `holds`);
- when the terminal or the root directory cannot be found, `CreateNewTask` leaves a table entry
  that is on no list (`CreateNewTask`);
- the sweep of the timer list steps over the element behind each removed one, yet every expired
  timer goes within its index plus one ticks, and for each index one stays that long
  (`GoneInTime`, `BoundReached`); a deadline is kept if and only if it fits in 32 bits
  (`DeadlineKept`);
- from any break, a successful extension serves the request; but a first segment whose break lies
  off a word, asked for after a refused request, gets a top whose head cannot hold its size: a
  call leaves a sound heap if and only if it fails or the heap was steady before it, that is, had
  a segment, a break at a word, or trust in a contiguous break (`FirstTop`, `SysAlloc`, `Malloc`;
  `SpoilHeap` runs into the bad case; a top of four bytes more than a multiple of eight is sound,
  as the source's own check of top at malloc.c:3243-3254 has it);
- for alignments above 2^31, and only for those, the rounding loop of memalign never ends
  (`RoundingEndsIff`).

## Model

| member | source | states |
|---|---|---|
| SizeClass.RequestFits | src/libc/malloc.c:2243-2262 | a padded request is a multiple of 8 and holds the bytes and the head; it is the least such multiple, or the minimum; it is small exactly up to MAX_SMALL_REQUEST |
| SizeClass.TreeIndexRange | src/libc/malloc.c:2891-2938 | tree index i holds exactly the sizes from minsize(i) up to minsize(i+1) |
| SizeClass.TreeOrder | src/libc/malloc.c:2891-2938 | every size of a later tree exceeds every size of an earlier one |
| SizeClass.KeyTurn | src/libc/malloc.c:2926-2933 | the top bit of the shifted key is, at every depth, the size bit that the trie branches on there |
| Bitmap.UpdateBits | src/libc/malloc.c:2940-2962 | marking and clearing change one bin's bit only; left_bits selects the bins above |
| Bitmap.FirstBitSpec | src/libc/malloc.c:2955-3004 | bit2idx of least_bit is the bin that a scan from 0 finds first |
| Bitmap.ShiftedBits | src/libc/malloc.c:4595-4618 | the shifted map and the recovered left bits tell, bin by bin, what the map says at and above idx |
| Malloc.SmallSearch | src/libc/malloc.c:4595-4618 | the bit tests of dlmalloc find the exact bin, the next one, or the first nonempty one above, with none skipped |
| Trie.WalkStep | src/libc/malloc.c:3405-3438 | a walk by key bits keeps the node of that size below it until it reaches it |
| Trie.UnderSplit | src/libc/malloc.c:3319-3366 | every node below another is below exactly the child that its next size bit selects |
| Trie.InsertLeaf | src/libc/malloc.c:3666-3715 | a new size hung at the empty slot of its walk keeps "each position is a prefix of the size" and one node per position |
| Trie.InsertRoot | src/libc/malloc.c:3673-3678 | the first size of a tree keeps the trie well formed |
| Trie.RemoveLeaf | src/libc/malloc.c:3734-3803 | cutting off a leaf keeps the trie well formed |
| Trie.Rename | src/libc/malloc.c:3734-3803 | a size from below, once cut off, may take over an interior position |
| TreeLinks.AttachLeaf | src/libc/malloc.c:3682-3693 | linking a leaf in keeps child, parent and root fields agreeing with the trie |
| TreeLinks.AttachRoot | src/libc/malloc.c:3673-3678 | the same for the first chunk of a tree |
| TreeLinks.DetachLeaf | src/libc/malloc.c:3748-3778 | the same for cutting off a leaf |
| TreeLinks.Rehang | src/libc/malloc.c:3764-3803 | the same for replacing a node by another chunk, which takes its parent and children |
| Rings.CycleInsert | src/libc/malloc.c:3588-3604 | linking in after the head gives the ring with the chunk at place one |
| Rings.CycleRemove | src/libc/malloc.c:3607-3630 | joining the neighbours gives the ring without the chunk |
| Bins.InsertSmall | src/libc/malloc.c:3588-3604 | all bins keep their invariant when a small chunk is inserted |
| Bins.UnlinkSmall | src/libc/malloc.c:3607-3650 | all bins keep their invariant when a small chunk is unlinked |
| Bins.InsertChained | src/libc/malloc.c:3699-3707 | all bins keep their invariant when a large chunk joins the ring of its size |
| Bins.InsertNode | src/libc/malloc.c:3671-3693 | all bins keep their invariant when a large chunk of a new size becomes a tree node |
| Bins.UnlinkChained | src/libc/malloc.c:3737-3747 | all bins keep their invariant when a chunk that is no tree node leaves its ring |
| Bins.UnlinkHead | src/libc/malloc.c:3734-3803 | all bins keep their invariant when a tree node hands its place to the last chunk of its ring |
| Bins.UnlinkNode | src/libc/malloc.c:3748-3803 | all bins keep their invariant when the only chunk of a size leaves |
| BinUnlink.UnlinkInnerTable | src/libc/malloc.c:3748-3803 | the stores that replace an interior node by a leaf below it leave memory, bitmaps and bins in agreement, without the chunk |
| BinUnlink.UnlinkLeafTable | src/libc/malloc.c:3748-3778 | the same when the node is a leaf, the tree bit cleared if it was the root |
| BinUnlink.UnlinkHeadTable | src/libc/malloc.c:3734-3803 | the same when the next of its size replaces the node |
| ChunkMemory.Store | src/libc/malloc.c:2213-2222 | a store to one link field changes that link of that chunk and no other |
| BinTable.Table.InitBins | src/libc/malloc.c:3929-3936 | every small bin header is linked to itself, nothing else is written |
| BinTable.Table.InsertSmallChunk | src/libc/malloc.c:3588-3604 | the binned set gains exactly this chunk; only link words of binned chunks and headers are written |
| BinTable.Table.UnlinkSmallChunk | src/libc/malloc.c:3607-3630 | the binned set loses exactly this chunk; only link words are written |
| BinTable.Table.UnlinkFirstSmallChunk | src/libc/malloc.c:3633-3648 | the first chunk of a marked bin leaves it |
| BinTable.Table.InsertLargeChunk | src/libc/malloc.c:3666-3715 | the binned set gains exactly this chunk, whichever of the three cases applies |
| BinTable.Table.RightmostLeaf | src/libc/malloc.c:3750-3757 | the loop ends at a leaf strictly below the node, in the slot it reports |
| BinTable.Table.UnlinkLargeChunk | src/libc/malloc.c:3734-3803 | the binned set loses exactly this chunk, in all cases |
| BinTable.Table.InsertChunk | src/libc/malloc.c:3807-3809 | small or large, the binned set gains exactly this chunk |
| BinTable.Table.UnlinkChunk | src/libc/malloc.c:3811-3813 | small or large, the binned set loses exactly this chunk |
| BinTable.Table.BinFind | src/libc/malloc.c:3405-3438 | bin_find says yes exactly for the chunks that are binned |
| BinTable.Table.FindNode | src/libc/malloc.c:3420-3429 | the walk finds the tree node of a size exactly if the size is stored |
| BinSearch.RemainderCompare | src/libc/malloc.c:4452-4494 | the unsigned comparisons that start from rsize = -nb accept exactly the better fits |
| BestFit.StepLeft | src/libc/malloc.c:4460-4477 | going left, all that may still fit better lies below the child taken or below the deepest right subtree passed by |
| BestFit.StepRight | src/libc/malloc.c:4460-4477 | going right, what is left behind is too small |
| BestFit.WalkDone | src/libc/malloc.c:4470-4475 | when the walk ends, the remembered right subtree covers all better fits, and all of it fits |
| BestFit.NextTree | src/libc/malloc.c:4479-4487 | with nothing in its own tree, the next nonempty tree covers all fits |
| BestFit.StepLeftmost | src/libc/malloc.c:4489-4496 | the leftmost walk leaves nothing better behind |
| BinSearch.SearchAbove | src/libc/malloc.c:4479-4487 | the bitmap test chooses the lowest nonempty tree above, or there is no fit |
| BinSearch.SearchFirst | src/libc/malloc.c:4521-4536 | the lowest nonempty tree holds the smallest chunk of all trees |
| BinTable.Table.FindBestFit | src/libc/malloc.c:4450-4496 | the search finds the smallest tree chunk of size at least nb, and none only if there is none |
| BinTable.Table.FindSmallest | src/libc/malloc.c:4521-4536 | the search finds the smallest of all tree chunks |
| HeapFree.PrevRead | src/libc/malloc.c:4381-4402 | the foot read through prev_foot gives the free chunk before, which is the victim or binned under that size |
| HeapFree.NextRead | src/libc/malloc.c:4409-4437 | the head word of what follows tells top, victim, binned or in use |
| HeapFree.FreeNextUsed | src/libc/malloc.c:4437-4440 | freeing next to a chunk in use keeps the heap and every other chunk in use |
| HeapFree.FreeNextFree | src/libc/malloc.c:4420-4435 | the same, joined with the free chunk behind |
| HeapFree.FreeNextTop | src/libc/malloc.c:4410-4419 | the same, joined with top |
| HeapGrow.Absorb | src/libc/malloc.c:4872-4889 | a chunk in use takes in the free chunk behind it; its words and all other chunks stay |
| HeapGrow.CutInTwo | src/libc/malloc.c:4839-4844 | a chunk in use is cut in two; words and other chunks stay |
| HeapGrow.TakePart | src/libc/malloc.c:4863-4871 | a chunk takes part of the victim, the rest stays free with its foot in place |
| HeapGrow.ReachTop | src/libc/malloc.c:4847-4858 | a chunk grows into top; words and other chunks stay |
| HeapTop.MoveEnd | src/libc/malloc.c:4220-4226 | moving the end of the segment changes top alone |
| HeapTop.FirstHeap | src/libc/malloc.c:4193-4212 | the first segment, all of it top, is a sound heap |
| HeapTop.PaddedRequest | src/libc/malloc.c:4070-4072 | the rounded padded request is the least whole number of pages that covers it, and the comparison with the request notices exactly the requests for which that leaves 32 bits |
| HeapTop.FirstTop | src/libc/malloc.c:4103-4125 | from any break, the first top is aligned and larger than the request, thanks to the padding; its size is in whole words exactly if the break is trusted to be contiguous or is at a word, and a multiple of 8 exactly if trusted or aligned |
| HeapTop.TrimLeaves | src/libc/malloc.c:4315-4346 | what sys_trim computes leaves more than the overhead and at most a page beyond it, by a multiple of the page size, unless as much goes as fits in a positive number; there is one such amount |
| Malloc.Allocator.TmallocLarge | src/libc/malloc.c:4450-4518 | the chunk used is the smallest fitting tree chunk and better than the victim; null only if none fits or the victim fits at least as well |
| Malloc.Allocator.TmallocSmall | src/libc/malloc.c:4521-4553 | with any tree chunk there, the request is served, from the smallest of them |
| Malloc.Allocator.ReplaceDv | src/libc/malloc.c:3652-3661 | the remainder becomes the victim, the old victim is binned |
| Malloc.Allocator.AllocExactSmall | src/libc/malloc.c:4598-4609 | a remainderless fit is used whole |
| Malloc.Allocator.AllocSplitSmall | src/libc/malloc.c:4610-4636 | a larger small chunk is split, the rest is the victim |
| Malloc.Allocator.AllocFromDv | src/libc/malloc.c:4654-4672 | the victim serves any request it can, split or used up |
| Malloc.Allocator.AllocFromTop | src/libc/malloc.c:4674-4684 | top serves any smaller request |
| Malloc.Allocator.MallocSmall | src/libc/malloc.c:4591-4643 | a small request takes the smallest chunk that holds it from the bins, unless the victim holds it and no chunk has its size or the next; null exactly then or if none fits |
| Malloc.Allocator.MallocLarge | src/libc/malloc.c:4646-4652 | a large request takes the smallest chunk that holds it from the bins, unless the victim holds it and is no larger; null exactly then or if none fits |
| Malloc.Allocator.Morecore | src/libc/malloc.c:5992-6011 | the contract of MORECORE: break reported, extended contiguously, or refused, as the round decides |
| Malloc.Allocator.MissingLeast | src/libc/malloc.c:4101-4156 | the core asked for is the least that does: for an extension the least whole number of pages that, with what top has, holds the padded request; for the first segment also up to a page border; for a distrusted break without deduction |
| Malloc.Allocator.DeniedMeans | src/libc/malloc.c:4134-4186 | an extension fails exactly if the system grants no number of pages, below half the address space, that would leave room for the request |
| Malloc.Allocator.ContiguousCore | src/libc/malloc.c:4100-4156 | asks for exactly the core that is missing (`MissingLeast`); nothing comes exactly if that is too much or refused |
| Malloc.Allocator.ObtainCore | src/libc/malloc.c:4070-4186 | both ways of asking together: the missing core (`MissingLeast`) is appended, or nothing changed, exactly if the padded request wraps around or the system refuses just that core; after a refusal the break is no longer trusted |
| Malloc.Allocator.InitTop | src/libc/malloc.c:3914-3927 | top at the next aligned place, less by the bytes skipped, its head and the fencepost behind it |
| Malloc.Allocator.SysAlloc | src/libc/malloc.c:4055-4260 | it serves the request from the grown or first top, the break having risen by exactly the missing core, or fails exactly if the system gives no core, and then nothing changes; the heap it leaves is sound exactly if it was steady |
| Malloc.Allocator.SysTrim | src/libc/malloc.c:4312-4372 | if the system takes pages back, more than the overhead and at most a page beyond it stays in top (or as many pages go as fit in a positive number), and the break falls by whole pages; if it refuses, nothing moves; a threshold that was exceeded in vain is switched off |
| Malloc.Allocator.Malloc | src/libc/malloc.c:4560-4690 | a block is new, 8-aligned, large enough with less than MIN_CHUNK_SIZE slack, and no word of any block in use changes; it is the smallest binned chunk that holds the request if the victim does not, or if the request is small and that chunk is of its size or the next, or if it is large and that chunk is smaller than the victim; else the victim; else the bottom of top; null exactly if the request is too large, or no free chunk serves and the system refuses the missing core, and then nothing changes; the break moves only by that core |
| Malloc.Allocator.SpoiledUnsound | src/libc/malloc.c:3243-3254 | a top whose size is not in whole words is not sound |
| Malloc.SpoilHeap | src/libc/malloc.c:4100-4204 | a run into a spoiled heap: break off a word, one request refused, the next one served |
| Malloc.Allocator.DisposeChunk | src/libc/malloc.c:4379-4445 | exactly this chunk stops being in use; no other block's word changes; it goes to top exactly if it borders top, which then starts at the free chunk before it, if any |
| Malloc.Allocator.AllJoined | src/libc/malloc.c:3282-3302 | between calls no two free chunks are neighbours and none borders top |
| Malloc.Allocator.Free | src/libc/malloc.c:4698-4805 | exactly this block stops being in use; no other block's word changes; a chunk that borders top joins it, with the free chunk before it, and exactly if top is then above the threshold its end is offered back, with the bounds of SysTrim; else the break stays; null does nothing |
| Malloc.Allocator.GrowIntoTop | src/libc/malloc.c:4847-4858 | growing in place keeps the chunk's words and all other blocks |
| Malloc.Allocator.GrowIntoDv | src/libc/malloc.c:4859-4880 | the same over the victim, split or used up |
| Malloc.Allocator.GrowIntoBinned | src/libc/malloc.c:4881-4898 | the same over a binned chunk, its rest given back |
| Malloc.Allocator.TryRealloc | src/libc/malloc.c:4827-4904 | the chunk fits where it is, its words kept; null exactly if it is too small with all that is free behind it, and then nothing changes |
| Malloc.Allocator.CopyBytes | src/libc/malloc.c:5236-5237 | the bytes of one block arrive in the other, all else stays |
| Malloc.Allocator.Realloc | src/libc/malloc.c:5201-5244 | the first min(old, new) bytes are kept; the block stays where it is exactly if it fits with what is free behind it, else it moves; other blocks stay; it fails exactly if the request is too large or both growing in place and malloc fail, and then nothing changes |
| Alignment.UsedLeast | src/libc/malloc.c:4906-4914 | the alignment used is the least power of two that is at least the one asked for and 16 |
| Alignment.RoundAlignment | src/libc/malloc.c:4906-4914 | the loop computes that alignment |
| Alignment.RoundingEndsIff | src/libc/malloc.c:4906-4914 | the rounding ends exactly for alignments up to 2^31: above, every power it steps through stays below |
| Alignment.SpotFits | src/libc/malloc.c:4928-4944 | the aligned spot leaves a legal chunk before it and lies within the extra room |
| Malloc.Allocator.GiveBackLead | src/libc/malloc.c:4928-4956 | the lead given back is a legal chunk and the block moves to the aligned spot |
| Malloc.Allocator.AlignedBlock | src/libc/malloc.c:4915-4972 | the block malloc returns always has room for the aligned one; lead and tail are legal chunks |
| Malloc.Allocator.Memalign | src/libc/malloc.c:5277-5282 | the block is a multiple of the rounded alignment, holds the request with at most MIN_CHUNK_SIZE slack, no other block changes; it fails exactly if malloc fails for the padded request plus the alignment plus 12, or the sum is too large |
| Session.BlocksApart | src/libc/malloc.c:2147-2187 | two blocks of a client share no byte |
| Session.Client.Perform | src/libc/malloc.c:4560-4805 | one call acts on the blocks as on separate arrays |
| Session.Client.Run | src/libc/malloc.c:3473-3499 | over every run, from any break and with any refusals, the heap invariant holds, blocks are disjoint and hold what separate arrays would, and every address handed out was aligned, new and large enough; a run stops early only where the next call might spoil the heap, never from a break at a word |
| Paths.ComponentsJoin | src/kernel/filesystem/vfs.cpp:213-226 | the components of p/q are those of p and those of q |
| Paths.PrintedComponents | src/kernel/filesystem/vfs.cpp:352-366 | the printed form of a list of names splits into that list |
| Paths.CutComponent | src/kernel/filesystem/vfs.cpp:218-226 | overwriting a slash in the copy cuts off exactly the next component |
| Paths.PrintedFits | src/kernel/filesystem/vfs.cpp:318-352 | the size computed while climbing is that of the text with its end, and two or three bytes more |
| Paths.PrintNames | src/kernel/filesystem/vfs.cpp:352-366 | the last loop writes exactly the printed form, within the buffer |
| Namespace.Composition | src/kernel/filesystem/vfs.cpp:205-306 | resolving p/q equals resolving q from the result of p, exactly unless p ends in a regular file |
| Namespace.NothingLost | src/kernel/filesystem/vfs.cpp:240-306 | all references are given back exactly if no link is followed and no regular file met before the end |
| Namespace.NamesLead | src/kernel/filesystem/vfs.cpp:314-350 | the names collected by climbing lead down to the directory, through mounts |
| Namespace.SeenWalk | src/kernel/filesystem/vfs.cpp:205-306 | a walk that starts in sight never ends in a directory hidden under a mount |
| Namespace.RoundTrip | src/kernel/filesystem/vfs.cpp:314-370 | a printed path leads back to its directory if and only if nothing is mounted on it or above it |
| Mounting.MountKeepsForest | src/kernel/filesystem/vfs.cpp:114-135 | mounting on an uncovered directory that is no mounted root keeps the name space a forest |
| Mounting.CoveredLeadsElsewhere | src/kernel/filesystem/vfs.cpp:296-301 | an example: the path of a covered directory leads to the root mounted there |
| Balances.LinkLoses | src/kernel/filesystem/vfs.cpp:268-294 | an example: following a link loses the reference on the link |
| Balances.FileInside | src/kernel/filesystem/vfs.cpp:260-265 | an example: a path through a regular file fails in another way than its second part |
| Symlinks.Beginnings | src/kernel/filesystem/vfs.cpp:188-216 | the empty path is the place itself, a path with a slash in front starts at the root from wherever, a relative one from nowhere is EINVAL, and with 256 links followed it is ELOOP |
| Symlinks.LeafLaw | src/kernel/filesystem/vfs.cpp:228-306 | a name alone resolves to its entry and what is mounted there, a link (if leaf links are followed) to what its text leads to from its own directory, ".." of a mounted root to that of the covered directory; and which references are lost |
| Symlinks.InnerLaw | src/kernel/filesystem/vfs.cpp:228-306 | a name with more path behind it: a regular file is ENOTDIR, a link is followed in any case, and the rest resolves from there; and which references are lost |
| Symlinks.RelativeLink | src/kernel/filesystem/vfs.cpp:267-301 | if p leads to d and d's entry l is a link with a relative text x, p/l resolves as p/x does unless the links run out, and exactly as x from d with one link used up |
| Symlinks.AbsoluteLink | src/kernel/filesystem/vfs.cpp:267-301 | a link with an absolute text resolves as that text does, in the same sense |
| Symlinks.FewerLinks | src/kernel/filesystem/vfs.cpp:205-212 | what resolves after one more link resolves alike without it |
| Symlinks.ChainLaw | src/kernel/filesystem/vfs.cpp:205-301 | a chain of links leads to its end exactly if fewer than 256 are followed in all, else it is ELOOP |
| Symlinks.SelfLoop | src/kernel/filesystem/vfs.cpp:205-301 | a link to itself is ELOOP |
| Symlinks.MiddleLinkStops | src/kernel/filesystem/vfs.cpp:267-284 | with leaf links not followed, a link in the middle of a path whose text names another link leads to that link itself, where the rest of the path is looked up |
| Vfs.VNodeManager.GetVnode | src/kernel/filesystem/vnodemanager.cpp:58-72 | one count more, for this node only, in the table exactly with positive count |
| Vfs.VNodeManager.ReferenceVnode | src/kernel/filesystem/vnodemanager.cpp:115-122 | one count more, for this node only |
| Vfs.VNodeManager.PutVnode | src/kernel/filesystem/vnodemanager.cpp:75-113 | one count less, for this node only; it leaves the table with its last reference |
| Vfs.Vfs.EnterComponent | src/kernel/filesystem/vfs.cpp:228-306 | one turn of the loop: the next node, and the counts it takes and gives back |
| Vfs.Vfs.FollowLink | src/kernel/filesystem/vfs.cpp:258-294 | the text is resolved from the directory that holds the link, leaf links as before, with one link more counted; errors pass through; what is mounted on the node found is entered; the reference on the link is lost |
| Vfs.Vfs.RelativePathToVnode | src/kernel/filesystem/vfs.cpp:181-312 | the loop over the cut copy ends, also on link cycles, with the node the path denotes (`LeafLaw`, `InnerLaw`); counts grow by one on it and by exactly what is lost |
| Vfs.Vfs.GetDirPathFromVnode | src/kernel/filesystem/vfs.cpp:314-370 | the buffer holds the printed names; every count is unchanged on every exit |
| Vfs.Vfs.Mount | src/kernel/filesystem/vfs.cpp:114-145 | both nodes are linked over each other and stay referenced; on failure nothing is mounted |
| Processes.Task.CreateNewTask | src/kernel/task/task.cpp:99-164 | the first process; the table is sound exactly if terminal and root were found |
| Processes.Task.NewProcess | src/kernel/task/task.cpp:166-214 | a child in front of the list, all counts still equal to the pointers |
| Processes.Task.GetProcess | src/kernel/task/task.cpp:301-306 | the process of that pid, held once more, or null |
| Processes.Task.DropHold | src/kernel/task/task.cpp:308-321 | one hold less; a listed process is never deleted by it |
| Processes.Task.RemovePid | src/kernel/task/task.cpp:251-284 | list and table lose exactly this process, every count stays what its pointers say; the tail leaves one hold behind |
| Processes.Task.Run | src/kernel/task/task.cpp:99-331 | over every run the list is well linked and holds exactly the table's processes, newest first, and each count equals its pointers and holds |
| Pipes.Pipe.Read | src/kernel/filesystem/pipe.cpp:154-180 | exactly min(size, count) of the oldest bytes come out, in order, and nothing else is written |
| Pipes.Pipe.Write | src/kernel/filesystem/pipe.cpp:188-214 | exactly min(size, free) bytes are appended |
| Pipes.Pipe.Run | src/kernel/filesystem/pipe.cpp:154-214 | over every run the answers and the contents are those of a bounded queue |
| Pipes.Conserved | src/kernel/filesystem/pipe.cpp:154-214 | what comes out and what is left is what was there and what was accepted, in order |
| Calendar.GmtimeIsCalendar | src/libc/time/gmtime_r.c:48-98 | for every time, the result is a proper Gregorian date and time with its weekday and day of the year, and lies that many seconds from the epoch |
| Calendar.CalendarIsGmtime | src/libc/time/gmtime_r.c:48-98 | every proper date and time is what gmtime_r gives for its seconds |
| Calendar.DateIs | src/libc/time/gmtime_r.c:80-93 | the era arithmetic gives the date of the day, for every day of every era |
| Calendar.EraIs | src/libc/time/gmtime_r.c:78-79 | the truncating division, adjusted, is the floor, also before year 0 |
| Calendar.PosixFormula | src/libc/time/gmtime_r.c:48-98 | from 1970 on, the formula of section 4.16 of IEEE Std 1003.1-2017 Base Definitions gives the time back |
| Memmove.CopyBackward | src/libc/string/memmove.c:96-105 | the backward loop moves the bytes when the destination starts inside the source |
| Memmove.CopyWords | src/libc/string/memmove.c:113-131 | copying four words, then one, at a time never overwrites source bytes still to be read |
| Memmove.MemMove | src/libc/string/memmove.c:65-146 | the destination holds what the source held and nothing else changes, for every overlap and alignment |
| Memmove.MovedAt | src/libc/string/memmove.c:65-146 | what that means for each byte of memory |
| Timers.PlaceIs | src/kernel/core/systemtimer.cpp:81-93 | a timer is removed only if expired, else it is found again at its place |
| Timers.RemovedIff | src/kernel/core/systemtimer.cpp:81-93 | a timer goes at a tick exactly if it has expired and the one in front of it does not go at the same tick |
| Timers.OrderKept | src/kernel/core/systemtimer.cpp:86-92 | those left keep their order |
| Timers.SweepConserves | src/kernel/core/systemtimer.cpp:86-92 | every timer is left or woken, none twice |
| Timers.WokenExpired | src/kernel/core/systemtimer.cpp:86-92 | no thread is woken before its timer expires |
| Timers.GoneInTime | src/kernel/core/systemtimer.cpp:81-93 | an expired timer at index k is gone within k + 1 ticks, whatever is appended meanwhile |
| Timers.GoneAfterExpiry | src/kernel/core/systemtimer.cpp:81-93 | from any moment on, a timer at index k is gone k + 1 ticks after its expiry at the latest |
| Timers.SteppedOver | src/kernel/core/systemtimer.cpp:86-92 | an expired timer can outlive a tick |
| Timers.DeadlineKept | src/kernel/core/systemtimer.cpp:40-50 | a stored deadline never wakes early exactly if the deadline fits in 32 bits |
| Timers.SystemTimer.Run | src/kernel/core/systemtimer.cpp:40-93 | over every run of sleeps and ticks, each call is pending or was answered by one waking of its thread; unless the deadline leaves 32 bits, a thread is woken only after more ticks than the milliseconds it asked for, counted from its call, and a pending timer is expired exactly from then on; the list goes through the states the other lemmas speak of |
| Timers.BoundReached | src/kernel/core/systemtimer.cpp:81-93 | for every index k, an expired timer can stay k ticks and go at the next |
| Timers.SystemTimer.TimerTick | src/kernel/core/systemtimer.cpp:81-93 | the loop with removals computes the sweep and wakes whom it removes |
| Getopt.Parser.Getopt | src/libc/getopt-susv3.c:62-137 | one call takes the next character of an option word: ':' or one not in optstring is answered 63 with optopt, a missing argument 58 or 63 with optopt, a complaint is printed exactly if opterr is set and optstring does not start with ':', any other is answered by itself with its argument; -1 comes exactly at the first operand; the items still to come are those read at once, less one |
| Getopt.Parser.TakeOne | src/libc/getopt-susv3.c:92-134 | the same at the cursor inside a word |
| Getopt.Parser.TakeArg | src/libc/getopt-susv3.c:100-133 | the argument is the rest of the word or the next word, or is missing |
| Getopt.Parser.Drain | src/libc/getopt-susv3.c:62-137 | repeated calls reach -1; answers, messages and the final optind are those of one pass; an answer without optopt is a character of optstring, one with it is 63, or 58 if optstring starts with ':' |
| Getopt.ReadBack | src/libc/getopt-susv3.c:62-137 | options written in any grouping, arguments attached or apart, with characters in between that are no options and a last word lacking its argument, are read back as written |
| Getopt.EveryLine | src/libc/getopt-susv3.c:62-137 | every command line is such a sequence of words, up to a word that is no option word, and is read as those words say; optind ends there, behind "--" |
| Getopt.CommandLine | src/libc/getopt-susv3.c:72-87 | with "--" behind them, exactly the operands are left |

## Left out

- malloc.c: mmap, mspaces, locks, footers, statistics, mallopt, calloc, bulk operations and footprint limits, which this configuration does not use or which add no invariant.
- malloc.c: corruption and usage-error aborts; callers are correct ones.
- malloc.c: more than one segment (add_segment, prepend_alloc, release_unused_segments); the break is moved by the allocator alone, so every extension is contiguous.
- Malloc.Allocator.Morecore: grants all or nothing; how much is granted may change from one sys_alloc or sys_trim to the next in any way, but a call refused and repeated at once by the same sys_alloc is refused again, because core granted then could become a second segment; words above a lowered break keep stale values.
- Malloc.Allocator.InitTop: the stores are stated for a top in whole words; an unaligned store, as a spoiled heap makes, is not shown by a memory of words.
- malloc.c: what a spoiled heap does after the call that spoiled it.
- Malloc.Allocator.Memalign: requires an alignment of at most 2^31, for which alone the rounding ends (`RoundingEndsIff`), and a steady heap (`Malloc` states what an unsteady one leads to).
- Alignment.RoundAlignment: requires an alignment of at most 2^31, for which alone the loop ends (`RoundingEndsIff`).
- malloc.c: addresses and words are integers; head bits are added and taken by arithmetic instead of masks, and the bin headers lie below the heap.
- Bitmap.FirstBitSpec: models the portable form of compute_bit2idx; the processor's own bit scan is not part of this model.
- vfs.cpp: Umount, concrete file systems, running out of memory while copying strings, a null RootNode, and the access check that the build leaves out.
- Vfs.Vfs.GetDirPathFromVnode: requires that climbing from a node gets nearer to some top; a file system whose ".." runs in a circle would make the source loop.
- vfs.cpp: the length a file system reports for a name is that of its string.
- Vfs.Vfs.Mount: begins with the second file system; the first one, which sets RootNode, and the block device that a source names are left out.
- Vfs.VNodeManager.GetVnode: counts do not wrap around at 32 bits, and the file system's own vnode data is not modelled.
- Processes.Task.RemovePid: requires another process on the list, because removing the only one dereferences a null pointer in the source.
- task.cpp: file descriptors, memory contexts, iterators and locks; every function is one step.
- Pipes.Pipe.Read: requires that size plus position does not wrap around at 32 bits; the capacity is a parameter, PIPE_SIZE is not part of this model.
- Pipes.Pipe.Write: requires that size plus position does not wrap around at 32 bits.
- Pipes.Pipe.Run: requires sizes for which that holds at every position, up to 2^32 less the capacity.
- Timers.SystemTimer.Run: requires that millis times frequency does not overflow an int; the sleep that takes a timespec is not modelled.
- gmtime_r.c: integers are unbounded, so a time near the end of a 32-bit long is handled like any other.
- getopt-susv3.c: the text of the messages, and callers that change optind or argv in the middle of a word.
- memory paging, the network, terminals, drivers, program loading, the system calls and the rest of libc.
