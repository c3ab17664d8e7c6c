# The MLton garbage collector, verified

This project models the runtime garbage collector of MLton (`runtime/gc/`) in the
64-bit native representation and proves what it promises its users: whatever
collection happens, the program sees the same heap.

## How the model is built

Memory is an array of words. A word is an object header (type index, counter,
mark), an object pointer, or plain data; `HeaderBits` relates the header word to
its bits and what the collectors do to the one to what they do to the other. Objects are the source's four kinds: normal objects, sequences, stacks
made of frames, and weak objects. `Layout.IsObject` says how an object is read
from memory, `Tiling.Tiles` that a space is one contiguous run of objects.

The collectors are methods that update this array in place: the statements that
store to memory are those of the C code, and everything else in them is ghost.
Sharing one memory, the algorithms share one specification:

* `Collection.HeapOk` is the heap a collection may start from. `Sample` exhibits
  one with every kind of object, a cycle and garbage, for a major collection
  (`SampleIsOk`, and `CopyingIsOk` with a secondary heap) and with a nursery for a
  minor one (`GenerationsAreOk`, `SecondaryIsApart`).
* `Collection.Collected` is what a collection achieves: exactly the objects
  reachable from the roots are in the new old generation, side by side, each with
  its words, its references and the roots redirected to new addresses, stacks
  shrunk as the sizing rules say, and weak pointers kept or cleared.
* `Preserved` draws the consequences once for all collectors: every walk from
  every root meets the same words, all that is in the new heap is reachable, weak
  pointers are right. `Collection.HeapStaysOk` closes the circle: the result is a
  heap from which the next collection may start.
* `MinorThenMajor` composes them as `performGC` does: the minor collection and then
  either major one, in the very state the first leaves. Every walk from every root
  ends at the same word, up to the two moves (`MinorThenMajorGC`).
* `KeptStacks` says what any collection does to the size of a stack, in terms of
  the words of memory before and after and of the ratios of the command line: the
  current stack keeps its room, the others are shrunk.

Both major collectors (`MarkCompact.MajorMarkCompact`, Jonkers' algorithm, and
`MajorCopy.MajorCheneyCopy`) end in `Collected`; the minor collector
(`MinorCopy.MinorCheneyCopy`) does so for the nursery, with the globals and the
slots of the old generation as roots, of which it visits only those on marked
cards.

Around the collectors stand the parts that make them safe to call: pointer-reversal
marking (`DfsMark`), the cross map and card scan (`CrossMap`, `CardScan`), stack
and heap sizing (`StackSize`, `MapSizes`, `HeapDesired`, `HeapSearch`,
`HeapResize`), the driver that guarantees space after `performGC` (`Driver`), the
signal protocol (`Signals`), and four self-contained cores: the hash-cons table,
`IntInf` tagging, profiling counts and the region stack.

| files | content |
|---|---|
| Layout, Heap, Graph, State, Tiling, HeaderBits | memory, objects, reachability, the collector's state |
| Cursor, DfsInvariant, DfsSteps, DfsMark, Roots, Size | marking by pointer reversal; `GC_size` |
| Threading, CompactSpec, CompactForward, CompactBackward, MarkWeaks, CompactSetup, MarkCompact | mark-compact |
| Copying, CopyStep, CopyScan, Forward, Cheney, CopyDone, MajorCopy, CopySizes, MemoryCopy | copying |
| CrossMap, OldScan, CardScan, MinorHeap, MinorCopy, MinorThenMajor | generations |
| Collection, Preserved, KeptStacks, Relocate, Foreach, ObjectSize, Sample | the shared specification and its consequences |
| Align, Modular, StackSize, StackObject, MapSizes, HeapDesired, HeapSearch, HeapResize, SequenceSize, Driver | sizes and space |
| Signals, HashCons, IntInf, Profiling, Regions | the other cores |

## What was found

* `updateCrossMap` casts before it divides for the last card, so an old generation
  that ends on a card boundary gets entry 0 there; `CrossMap.LastEntryRight` says
  exactly when the entry is right. Its comparison in `isCrossMapOk` stops below
  that card, and so does `CrossMap.MapOk`.
* `sizeofHeapDesired` may keep the current size although it is smaller than the
  live data when `ratios.live` or `ratios.copy` is below 1.1, which the argument
  parser admits (`HeapDesired.KeepsTooSmallHappens` has the numbers).
  `HeapDesired.KeepsTooSmall` is the exact condition. If the live data fits, the
  program then dies always under `maxHeap`, and under `fixedHeap` exactly when the
  live data needs more than half of it and the kept size does not
  (`HeapDesired.KeptDies`); `HeapDesired.KeptTooSmallUnderLimits` has an input for
  each outcome.
* A current stack that must grow is never shrunk by the major collection in
  between (`StackSize.NoRoomNoShrink`), so the space computed before the collection
  is not only enough but exact. That matters: without minor collections any space
  left over would be a gap between old generation and nursery, and the next
  collection takes the two for contiguous.
* `growHashTableMaybe` does not reset `elementsLengthCur` when it re-inserts. The
  table still keeps a free slot, since the counter never falls below the number of
  entries (`HashCons.Load`), but it grows again at the next call exactly if counter
  and entries together exceed the old length, as they do after the first growth
  (`HashCons.GrowsAgain`).
* Hash-consing compares sequences in whole 8-byte units. Allocation does not clear
  the bytes after the data, so two vectors of equal length and data may stay apart
  (`HashCons.PaddingSeparates`); objects are shared exactly if data and padding
  agree (`HashCons.SharedExactly`).
* `createHeapSecondary` checks `fixedHeap` and `maxHeap` for the desired size
  only; `createHeap` may go above it, up to the old generation's size. Both heaps
  then stay within the limit exactly if the desired size covers the old generation
  or the least size fits; `HeapResize.SecondaryBeyondLimit` is a case where neither
  holds.
* The assertion at `runtime/gc/heap.c:474` fails in a debug build when the live
  data is a multiple of 32M, nothing included: shrinking to nothing has then
  cleared `start`. `HeapResize.MoveLive` says so for every size.
* Between the decrement of `atomicState` in `endAtomic` and its last statement a
  signal may be pending with `limit` not zero: exactly if it arrived before the
  decrement (`Signals.LimitExactly`). One that arrives in between zeroes `limit`
  itself (`Signals.ArrivesInWindow`).
* The two kinds of major collector differ on a weak pointer whose target lies
  outside the heap: copying clears it, marking keeps it
  (`Preserved.WeakPointer`).

## Model

| member | source | states |
|---|---|---|
| Layout.ObjectStable | runtime/gc/object.h:60-69 | an object is read the same way as long as only its slots and its scratch words (header counter and mark, sequence counter, markTop and markIndex, weak link) change |
| Layout.SlotsInside | runtime/gc/foreach.c:43-168 | the pointer slots of an object of any kind are distinct data words, never metadata |
| HeaderBits.ReadParts | runtime/gc/object.h:60-69 | type index, counter and mark are read back from a header by the masks |
| HeaderBits.PartsMakeHeader | runtime/gc/object.c:45-60 | every odd word with a clear upper half is the header of its parts |
| HeaderBits.SetCounter | runtime/gc/dfs-mark.c:166 | the counter store of dfsMark leaves type index and mark alone |
| HeaderBits.FlipMark | runtime/gc/dfs-mark.c:119 | flipping the mark leaves type index and counter alone |
| HeaderBits.ClearMark | runtime/gc/mark-compact.c:340 | clearing the mark leaves type index and counter alone |
| HeaderBits.MarkUpdate | runtime/gc/dfs-mark.c:119 | flipping the mark in the bits is flipping it in the model's header word |
| HeaderBits.CounterUpdate | runtime/gc/dfs-mark.c:166 | the counter store in the bits sets the counter of the model's header word |
| ObjectSize.SizeofObjectAux | runtime/gc/object-size.c:27-46 | metadata and data bytes of an object of any kind are the extent that the tiling gives it |
| ObjectSize.AdvanceToObjectData | runtime/gc/object.c:97-114 | given the first word of an object in the heap, as the walkers are, the address of that object's data, whether a normal object, sequence, stack or weak |
| Foreach.ObjectSlots | runtime/gc/foreach.c:43-168 | exactly the slots of the object in order, none for a weak object to be skipped |
| Graph.ReachUnique | runtime/gc/dfs-mark.c:42-367 | a closed set of visited objects that contains the roots and only reachable objects is the reachable set |
| DfsMark.DfsMark | runtime/gc/dfs-mark.c:42-367 | on any graph, cyclic or not, marking ends and marks exactly what is reachable without passing marked objects; every reversed pointer is restored, counters are zero, the size is that of the marked non-weak objects, and the weak list gains exactly the linkable weak objects marked |
| DfsMark.Enter | runtime/gc/dfs-mark.c:105-240 | first visit of an object: mark, size, weak link, and the first slot, keeping the pointer-reversal invariant |
| DfsMark.Follow | runtime/gc/dfs-mark.c:79-104 | going down a pointer reverses it and keeps the invariant |
| DfsMark.Return | runtime/gc/dfs-mark.c:303-367 | coming back restores the pointer, resumes at the next slot and keeps the invariant |
| DfsSteps.EndVisited | runtime/gc/dfs-mark.c:303-318 | when marking is back at the root everything reachable has been visited |
| Cursor.SaveCursor | runtime/gc/dfs-mark.c:148-300 | the position in an object is parked in header counter, sequence counter or markTop and markIndex without touching anything else |
| Cursor.LoadCursor | runtime/gc/dfs-mark.c:303-366 | the parked position is read back exactly |
| Roots.MarkAll | runtime/gc/mark-compact.c:394-418 | marking from all global roots marks exactly what they reach, adds up the sizes and lists the weak objects |
| Size.GCSize | runtime/gc/size.c:10-34 | the sum of the sizes of the distinct reachable non-weak objects; afterwards every word is as before but markTop and markIndex of stacks |
| Size.GCSizeAll | runtime/gc/size.c:36-60 | the same for all roots together |
| Threading.ThreadSlots | runtime/gc/mark-compact.c:48-69 | threading any set of slots keeps the invariant that each header chain holds exactly the threaded slots and the original header is at its end |
| Threading.Unthread | runtime/gc/mark-compact.c:210-252 | unwinding a chain points every slot on it to the new address and puts the header back |
| CompactForward.UpdateForwardPointers | runtime/gc/mark-compact.c:95-256 | pass one: all forward references resolved to new addresses, backward ones still threaded, dead runs overwritten by one byte sequence each, and the gap is the dead and shrunk bytes below |
| CompactForward.Compress | runtime/gc/mark-compact.c:132-195 | a run of dead objects becomes one unmarked Word8 sequence of the same extent, read as an object, and every other word stays |
| CompactBackward.UpdateBackwardPointersAndSlide | runtime/gc/mark-compact.c:258-392 | pass two computes the same gaps over the overwritten heap, resolves the backward references, clears the marks, and slides every live object to its new address |
| CompactBackward.SlideLive | runtime/gc/mark-compact.c:287-348 | one object is moved, a stack with its new reserved size, without destroying anything not yet moved |
| MarkWeaks.UpdateWeaks | runtime/gc/mark-compact.c:71-93 | exactly the listed weak objects with unmarked targets become gone |
| MarkCompact.MajorMarkCompact | runtime/gc/mark-compact.c:394-451 | the reachable objects, in their original order and side by side, are the new old generation: `Collected`, and again a heap to start from; stacks are resized as `KeptStacks.StackResized` says |
| MarkCompact.OrderAscending | runtime/gc/mark-compact.c:258-392 | sliding keeps the address order |
| StackObject.CopyFits | runtime/gc/forward.c:81-112 | the used part of a stack and the reserved part kept fit in the old stack |
| CopySizes.SizesToCopy | runtime/gc/forward.c:81-112 | bytes to copy and bytes to reserve for an object of any kind; the size of a stack is the one of which `KeptStacks.StackResized` is proved |
| Forward.CopyObject | runtime/gc/forward.c:54-150 | the object is copied once to the end of the to-space, a forwarding pointer is left, weak objects are listed, and the copying invariant holds |
| Cheney.ForwardIfInRange | runtime/gc/forward.c:152-187 | a slot or root is redirected to the only copy of its target; other words stay |
| Cheney.ForwardRoots | runtime/gc/foreach.c:19-41 | all roots are redirected |
| Cheney.ScanRange | runtime/gc/foreach.c:171-196 | the scan that chases the growing end stops, with every slot of every copy redirected |
| Copying.BackInside | runtime/gc/cheney-copy.c:76-92 | the copies never exceed the limit of the to-space |
| CopyDone.UpdateWeaks | runtime/gc/cheney-copy.c:14-37 | listed weak objects follow forwarded targets, the others become gone |
| CopyDone.AllCopied | runtime/gc/cheney-copy.c:48-100 | when the scan has ended exactly the reachable objects were copied |
| MajorCopy.MajorCheneyCopy | runtime/gc/cheney-copy.c:48-100 | given a secondary heap as large as the old generation: `Collected` into it, no larger than the old generation was, heaps swapped, and again a heap to start from; stacks are resized as `KeptStacks.StackResized` says |
| Collection.HeapStaysOk | runtime/gc/invariant.c:43-138 | any collection leaves a heap from which the next may start |
| Preserved.WalkPreserved | runtime/gc/cheney-copy.c:48-100 | following any path of slots from any word ends at the same word, up to new addresses |
| Preserved.RootWalkPreserved | runtime/gc/garbage-collection.c:14-51 | the program sees the same heap after a collection: every walk from every root is preserved |
| Preserved.AllReachable | runtime/gc/garbage-collection.c:14-51 | the new heap holds nothing that the roots do not reach |
| Preserved.DataPreserved | runtime/gc/forward.c:81-150 | every object kept has its type and every word of its data that is no pointer, a stack what is on it |
| Preserved.WeakPointer | runtime/gc/forward.c:116-134 | a kept weak object holds its target's new address if the target was kept and is gone with a bogus pointer if the target was in the heap and was not; the two ways targets outside the heap are treated |
| Relocate.MovedObject | runtime/gc/mark-compact.c:336-348 | an object whose plain words were copied is the same object at its new place, a stack with less reserved space |
| CrossMap.UpdateCrossMap | runtime/gc/generational.c:325-395 | extends a right map to a right map of the whole old generation, without looking at what it has seen before |
| CrossMap.EntryMeans | runtime/gc/generational.c:294-322 | an entry is empty exactly if no object boundary is in the card, and else the offset of the last one |
| CrossMap.LastEntryRight | runtime/gc/generational.c:385-386 | the entry stored for the last card is right exactly if the old generation does not end on a card boundary |
| CrossMap.MapOkExtends | runtime/gc/generational.c:287-322 | growth of the old generation leaves a right map right |
| CrossMap.ClearCrossMap | runtime/gc/generational.c:175-181 | the cleared map is right for an old generation of which nothing was seen |
| CardScan.ForwardInterGenerational | runtime/gc/forward.c:192-273 | with the cross map and marked cards right, scanning the marked cards redirects every slot of the old generation, as a scan of all of it would |
| CardScan.VisitRange | runtime/gc/forward.c:226-253 | the objects from one boundary to the end of a card are visited whole and once |
| OldScan.PassObjects | runtime/gc/forward.c:255-268 | objects on no marked card have no slot that needs forwarding |
| MinorCopy.MinorCheneyCopy | runtime/gc/cheney-copy.c:106-162 | the reachable nursery objects are appended to the old generation, which is one run of objects again with a right cross map and no more than the nursery larger; the to-space ends before the nursery; stacks are resized as `KeptStacks.CopiedStackResized` says |
| MinorCopy.AbsorbNursery | runtime/gc/cheney-copy.c:119-121 | without minor collections the nursery becomes part of the old generation |
| MinorCopy.NoYoungPointers | runtime/gc/cheney-copy.c:142-162 | no slot of an old object points to anything left behind in the nursery |
| MinorCopy.MinorHeapOk | runtime/gc/cheney-copy.c:142-162 | after a minor collection old objects and copies are a heap from which the next collection may start, with any bounds that enclose it: nursery and frontier as the collection leaves them, or the whole used heap, for either major collector |
| MinorThenMajor.MinorRootWalk | runtime/gc/cheney-copy.c:106-162 | the program sees the same heap after a minor collection: every walk from every root, through young and old objects, is preserved |
| MinorThenMajor.OldWordStays | runtime/gc/cheney-copy.c:106-162 | old objects stay where they are, and of their words only pointers change |
| MinorThenMajor.BothRootWalk | runtime/gc/garbage-collection.c:136-148 | every walk from every root ends at the same word after a minor and a major collection, up to both moves |
| MinorThenMajor.MajorByMarkCompact | runtime/gc/garbage-collection.c:27-36 | mark-compact started in the state a minor collection leaves: walks preserved, the result a heap to start from |
| MinorThenMajor.MajorByCopying | runtime/gc/garbage-collection.c:27-36 | the same for copying, given a secondary heap as large as the old generation and apart from the heap before the minor collection |
| MinorThenMajor.MinorThenMajorGC | runtime/gc/garbage-collection.c:136-148 | minor and major collection in a row, with the choice of the major one: walks preserved, sizes bounded by old generation and nursery |
| MinorThenMajor.AbsorbedHeapOk | runtime/gc/cheney-copy.c:119-121 | without minor collections the heap with the nursery absorbed is again one to start from |
| MinorThenMajor.SizesPossible | runtime/gc/garbage-collection.c:14-51 | the sizes that the collectors arrive at are among those for which the driver is proved |
| StackSize.ShrinkFits | runtime/gc/stack.c:171-223 | a shrunk stack is aligned and still holds its contents |
| StackSize.ShrinkKeepsRoom | runtime/gc/stack.c:171-223 | shrinking the current stack never breaks the mutator's stack invariant |
| StackSize.NoRoomNoShrink | runtime/gc/stack.c:208-222 | a current stack without room keeps its size |
| StackSize.GrowGivesRoom | runtime/gc/stack.c:150-169 | a grown stack holds the old contents and satisfies the mutator's stack invariant |
| StackSize.GrowMonotone | runtime/gc/stack.c:150-169 | a smaller stack asks for no more space to grow |
| KeptStacks.StackResized | runtime/gc/stack.c:171-223 | after any collection, from the words before and after: the current stack has room if it had, is unchanged if it had none or if its size is within both its ratios, and is otherwise within a word of what its ratios and its need ask for; every other stack is within a word of its own ratios or its contents |
| KeptStacks.CopiedStackResized | runtime/gc/forward.c:86-112 | the same for the stacks that a minor collection copies |
| KeptStacks.OldStackStays | runtime/gc/cheney-copy.c:106-162 | stacks of the old generation keep their sizes through a minor collection |
| KeptStacks.DriverStack | runtime/gc/garbage-collection.c:136-164 | the size with which the driver continues is that of the current stack in the collected heap |
| KeptStacks.GrowRule | runtime/gc/stack.c:150-169 | a stack that grows gets what it needs or what its ratio asks for, whichever is more, to within a word |
| MapSizes.GuessFits | runtime/gc/generational.c:206-224 | the closed-form start of the search never overshoots |
| MapSizes.MapsCover | runtime/gc/generational.c:112-156 | each map has an entry for the card of every byte of the heap, and less than a page to spare |
| MapSizes.InvertSizeofMaps | runtime/gc/generational.c:198-251 | the largest multiple of the page size that fits with its maps: a multiple fits exactly if it is at most the result |
| HeapDesired.ResWithMaps | runtime/gc/heap.c:62-119 | whole pages within the address space, at least the live data exactly unless a smaller current heap is kept, and that heap's size then; and the size that the ratios ask for in each of the five situations of RAM, to the page (`Asked`) |
| HeapDesired.SizeofHeapDesired | runtime/gc/heap.c:40-146 | fails exactly if the live data with its maps exceeds the limit of the controls, and else gives whole pages, at least the live size, within the limit; the largest heap that with its maps fits in what the ratios ask for, cut to the controls (`Sought`); when a too small heap is kept, fails exactly as `KeptDies` says, and falls short of the live size exactly without fixed and maximal heap |
| HeapDesired.LiveRatioMet | runtime/gc/heap.c:66-79 | with ample RAM the live ratio is met up to 10%, and exceeded by less than a page unless a current heap of at most twice the size is kept |
| HeapDesired.RatiosSuffice | runtime/gc/heap.c:66-103 | with live and copy ratios of at least 1.1 no too small heap is kept |
| HeapDesired.KeepsTooSmallHappens | runtime/gc/heap.c:66-79 | with a live ratio of 1.05 it happens |
| HeapDesired.KeptTooSmallUnderLimits | runtime/gc/heap.c:121-139 | with the same ratios: an input that dies under a maximal heap, one that dies under a fixed heap and one that does not, though the live data fits in each |
| HeapSearch.ProbeBetween | runtime/gc/heap.c:273-274 | every probe is whole pages between the bounds, for any factor that divides the page size, and leaves out one part in factor of what lies between, to the page |
| HeapSearch.GCHeap.CreateHeap | runtime/gc/heap.c:201-290 | ends whatever the system answers; the desired size is tried first, at all addresses; success gives an accepted size, failure means the least acceptable size was refused at all 32 addresses |
| HeapSearch.GCHeap.RemapHeap | runtime/gc/heap.c:321-407 | ends whatever the system answers, with the contents kept, after trying the desired size first; success gives a size that was granted; on a system with a limit it succeeds exactly if the least size is feasible and ends with the largest feasible size |
| HeapResize.ShrinkHeap | runtime/gc/heap.c:163-192 | a prefix of the heap in whole pages |
| HeapResize.MoveLive | runtime/gc/heap.c:464-488 | copying down in chunks, each released once copied, brings over all live bytes and reads no released page; the assertion of the loop holds at every pass exactly if the live size is no multiple of the chunk size (or the heap lies at address 0) |
| HeapResize.MoveOneChunk | runtime/gc/heap.c:474-484 | with live data of exactly one chunk the assertion of the loop fails |
| HeapResize.GrowHeap | runtime/gc/heap.c:417-537 | the live bytes are kept and the size is between the bounds; the desired size is tried first, the heap is left as it is only if it could be neither remapped nor replaced, and the disk is used only if allowed; it never fails if the current heap suffices, and else only if the system refused the least size |
| HeapResize.ResizeHeap | runtime/gc/heap.c:541-559 | room for the bytes asked for, within the limit of the controls, with the old generation kept; the size sought if that is smaller, and else as much of it as was granted, all of it being tried first; the reasons for which it fails |
| HeapResize.ResizeHeapSecondary | runtime/gc/heap.c:563-584 | no secondary heap, or one as large as the primary that does not exceed RAM with it; given up only if it might cause paging or could not be enlarged |
| HeapResize.CreateHeapSecondary | runtime/gc/heap.c:295-310 | room for the whole old generation; under a fixed or maximal heap both heaps are within the limit exactly if the desired size covers the old generation or the least size fits; the reasons for which it fails |
| HeapResize.SecondaryBeyondLimit | runtime/gc/heap.c:295-310 | a primary heap of 60 pages, a maximal heap of 100 and a desired size of 30: success with both heaps beyond the limit |
| SequenceSize.SequenceSizeAligned | runtime/gc/sequence-allocate.c:22-43 | the overflow checks fail exactly if the size is no 64-bit number; else the size is the one the heap walkers compute |
| Driver.HeapState.SetCurrentHeap | runtime/gc/gc_state.c:49-106 | dies exactly if the requests do not fit; else both fit, counting a generational nursery twice; a generational nursery is chosen exactly under the conditions on cards, request, ratios and last collection, and is then half of the space in whole words |
| Driver.HeapState.NewObject | runtime/gc/new-object.c:15-49 | guarded allocation in either generation keeps the space invariant |
| Driver.HeapState.GrowStackCurrent | runtime/gc/garbage-collection.c:53-69 | the space computed before the collection is exactly what growing takes, and the new stack has room and the size of the growing rule |
| Driver.HeapState.MinorGC | runtime/gc/cheney-copy.c:106-162 | at every minor collection the to-space ends before the nursery; the old generation grows by what is copied, or by the nursery |
| Driver.HeapState.Collect | runtime/gc/garbage-collection.c:27-36 | mark-compact if hash-consing asks for it or the heap is as large as RAM, and else copying, with a secondary heap as large as the old generation, unless none could be had, for a reason stated; the heaps are swapped exactly by copying |
| Driver.HeapState.MajorGC | runtime/gc/garbage-collection.c:14-51 | dies exactly if the estimate of the live data exceeds the limits, or else only if the system refused; otherwise old generation and request fit in a heap within the limits, the live data is what survived, the size is the one resizing aims at, unchanged without resizing, and the secondary heap is absent or equally large |
| Driver.HeapState.PerformGC | runtime/gc/garbage-collection.c:93-196 | ends with both requests free and room on the stack, or dies for want of heap space; the death for want of nursery is unreachable; a forced collection is a major one, an unforced one is major exactly if the requests do not fit beside what the minor collection left, and otherwise nothing else changes; what old generation and stack are in each case |
| Driver.HeapState.EnsureHasHeapBytesFree | runtime/gc/garbage-collection.c:211-219 | the bytes are free afterwards, with no collection if they were before |
| Driver.HeapState.SequenceAllocate | runtime/gc/sequence-allocate.c:49-72 | the sequence gets its space in the generation its size calls for, the bytes to ensure are free, and old generation plus twice the nursery stay within the heap |
| Driver.HeapState.EnsureInvariantForMutator | runtime/gc/garbage-collection.c:198-207 | the mutator's frontier and stack invariants hold afterwards; if forced a major collection was made, and if neither forced nor needed nothing changed |
| Driver.HeapState.GCCollect | runtime/gc/garbage-collection.c:221-234 | a collection asked for by the program: the bytes it needs, or the slop if it names none, are free, and a forced one is major |
| Signals.Safe | runtime/gc/handler.c:19-71 | in every state of every run, with signals arriving between any two statements: outside atomic sections a pending signal has zeroed limit, but for one left over from the section that endAtomic is leaving; inside them limit is the heap's; pending means arrived since the last handler start; the handler is in progress exactly from its start until it has finished |
| Signals.MutatorLimit | runtime/gc/atomic.c:9-20 | outside atomic sections a pending signal has zeroed limit, inside them limit is what the heap says |
| Signals.LimitExactly | runtime/gc/atomic.c:9-20 | outside atomic sections with a signal pending, limit is zero exactly unless endAtomic has yet to act on a signal from before its decrement |
| Signals.ArrivesInWindow | runtime/gc/handler.c:44-71 | a signal that arrives after the decrement is not lost: the handler has zeroed limit |
| Signals.WindowIsReal | runtime/gc/atomic.c:15-20 | a run through all three last statements of endAtomic with a pending signal and a nonzero limit, zero after them |
| Signals.OnlyStartClears | runtime/gc/handler.c:19-37 | a signal stays pending until the handler is started |
| Signals.NestingSteps | runtime/gc/switch-thread.c:26-68 | the mutator's nesting of atomic sections is changed by its own steps only, as they say, and by a handler start |
| Signals.CallNesting | runtime/gc/garbage-collection.c:221-234 | a runtime call that starts no handler returns at the nesting it was made at |
| Signals.HandlerIsAtomic | runtime/gc/handler.c:19-37 | in every run the mutator goes on after a handler start in the handler and in exactly one atomic section, or in two if it asked for the start and is about to switch |
| Signals.NoNestedStart | runtime/gc/handler.c:46-52 | while the mutator stays in an atomic section the runtime starts no handler, so none inside another |
| Signals.OwnSignal | runtime/gc/garbage-collection.c:182-189 | the collector's own signal is raised exactly outside the handler, and nothing else in the program raises one |
| Signals.Delivered | runtime/gc/garbage-collection.c:221-234 | a pending signal makes the next heap check fail, and GC_collect starts the handler before it returns, into the handler and one atomic section |
| Signals.CallEnds | runtime/gc/switch-thread.c:26-68 | a runtime call takes at most 16 statements, however many signals arrive |
| HashCons.ProbesDistinct | runtime/gc/hash-cons.c:132-156 | double hashing visits every slot of the table before any twice |
| HashCons.NotPast | runtime/gc/hash-cons.c:131-183 | an equal object is met before a free slot |
| HashCons.ObjectHashTable.constructor | runtime/gc/hash-cons.c:29-91 | an empty table of the largest power of two that fits, at least 64 slots |
| HashCons.ObjectHashTable.Equal | runtime/gc/hash-cons.c:163-181 | equality of header, all 32-bit words up to the aligned size, padding included, and length |
| HashCons.ObjectHashTable.Insert | runtime/gc/hash-cons.c:99-185 | probing ends; the result is the equal entry if there is one, and else the object, entered if insertion is allowed |
| HashCons.ObjectHashTable.GrowMaybe | runtime/gc/hash-cons.c:187-227 | grows exactly if more than half full by the counter, insertion is allowed and the allocator gives; growing loses no entry and leaves the counter at its value plus the entries; failing to grow loses none either and ends insertion |
| HashCons.GrowsAgain | runtime/gc/hash-cons.c:187-227 | a table that has grown grows again at the next call exactly if counter and entries exceed the old length, always after the first time |
| HashCons.ObjectHashTable.HashConsPointer | runtime/gc/hash-cons.c:229-280 | an equal object, the object itself if it has identity; the table keeps its invariant |
| HashCons.Canonical | runtime/gc/hash-cons.c:229-280 | in any run with insertion allowed, two calls return the same pointer exactly for equal objects |
| HashCons.SameIs | runtime/gc/hash-cons.c:163-181 | the source's comparison is equality of header, length, data and the padding up to the aligned size |
| HashCons.SharedExactly | runtime/gc/hash-cons.c:229-280 | in any run with insertion allowed, two calls return the same pointer exactly if data and padding are equal |
| HashCons.PaddingSeparates | runtime/gc/hash-cons.c:251-259 | two vectors of the same three bytes with different padding keep different pointers |
| IntInf.IntInfState.FillIntInfArg | runtime/gc/int-inf.c:42-101 | GNU MP gets the value that the word or the bignum stands for |
| IntInf.IntInfState.FiniIntInfRes | runtime/gc/int-inf.c:134-183 | stands for the same value, as a tagged word exactly from -2^62 to 2^62 - 1, with the frontier rolled back, and else as a new bignum that ends at the frontier |
| IntInf.OneRepresentation | runtime/gc/int-inf.c:134-216 | equal values have equal representations |
| IntInf.EveryValue | runtime/gc/int-inf.c:42-101 | every integer has a representation |
| IntInf.LimbsUnique | runtime/gc/int-inf.c:93-96 | limbs without a leading zero are determined by their value |
| IntInf.IntInfState.BinOp | runtime/gc/int-inf.c:219-235 | computes on the values represented, takes exactly the words of a new bignum, and disturbs no other |
| IntInf.IntInfState.UnOp | runtime/gc/int-inf.c:237-252 | likewise for one argument |
| IntInf.IntInfState.CmpOp | runtime/gc/int-inf.c:273-290 | compares the values represented |
| Profiling.ProfileData.IncForProfiling | runtime/gc/profiling.c:164-192 | after any run of enter, leave and increment, every row agrees with the events, and every count on top is the ticks made while that source, or one with that master, was innermost |
| Profiling.ProfileData.ProfileEnter | runtime/gc/profiling.c:65-109 | entering with recursion keeps the account |
| Profiling.ProfileData.ProfileLeave | runtime/gc/profiling.c:111-161 | leaving charges the ticks since the outermost entry |
| Profiling.ProfileData.ProfileDone | runtime/gc/profiling.c:434-459 | every function has the ticks, and the collector ticks, made while it was on the stack; every count on top is the ticks made while it was innermost, and these add up to all ticks, over sources and over masters |
| Profiling.DueBounded | runtime/gc/profiling.h:17-38 | a recursive function is charged each tick once |
| Regions.PopMatchesPush | runtime/gc/regions.c:1-47 | after any balanced run a pop restores exactly the base and top of its push |
| Regions.Descending | runtime/gc/regions.c:1-13 | the saved bases descend strictly to the start of the buffer |
| Regions.RegionState.RegionPush | runtime/gc/regions.c:1-13 | one more region, its predecessor's base saved below it |
| Regions.RegionState.RegionPop | runtime/gc/regions.c:15-47 | back to the enclosing region as saved; bytes popped and in use make up all bytes allocated and pushed, until an outermost reset |

## Left out

- Static heaps as roots and the region buffer as roots: pointers out of the heap are ignored as the code does, but the collectors' roots are the globals only.
- Hash-consing during marking (`shouldHashCons`): it may share an object that is still on the mark stack; the table is proved alone, on objects whose words do not change.
- Alignment of 4 bytes and other representations than 64-bit native: memory is addressed in words.
- Contents of the heap while it is resized beyond being kept: the translation of pointers to a moved heap (`translateHeap`) is not part of this model, nor are disk and operating system, which are arbitrary answers.
- Statistics, messages, timing, DEBUG branches, command-line parsing and world files.
- The compiled program itself: it is represented by guarded allocation, the card-marking condition and its frames.
- Rounding: floating-point ratios are exact reals; where a branch compares a quotient, the product is compared instead.
- Foreach.ObjectSlots: the walk collects an object's slots before they are visited, where the source calls the closure slot by slot; the closures do not change what the walk reads.
- DfsMark.DfsMark: objects have at most 2^11 pointers per object or element, as the counter field requires, and hash-consing is off.
- Forward.CopyObject: the current stack is known by its address at the start of the collection, where the source follows the current thread each time; only the first copy of the stack asks.
- StackObject.CopyFits: a stack with nothing used has a top frame of size 0.
- CrossMap.UpdateCrossMap: says nothing good of the last card's entry, which the source gets wrong on card boundaries; no later step relies on it.
- MinorCopy.MinorCheneyCopy: the nursery starts above the end of the old generation (if the two coincide the heap is full, nothing is in the nursery, and the source returns at once); a weak object already in the old generation keeps its target alive through a minor collection, because its slot is visited like any other old slot, as in the source.
- Driver.HeapState.MinorGC: sizes only; the bytes copied are a number within the bounds of `Possible`, which the collector meets by `MinorThenMajor.SizesPossible`.
- Driver.HeapState.Collect: sizes only, in the same way.
- Driver.HeapState.MajorGC: sizes only, in the same way; contents are proved in `MinorThenMajor`, without the resizing in between.
- Driver.HeapState.PerformGC: sizes only, in the same way; without resizing only calls like that of GC_pack are covered, and requests are small enough for their sum to be a 64-bit number.
- MinorThenMajor.MinorThenMajorGC: the current stack found after the minor collection is an argument; the secondary heap exists from the start, where the source may create it in between.
- HeapSearch.GCHeap.CreateHeap: how the factor of the search grows after 64 failures is not pinned; it affects only how many sizes are tried.
- HeapDesired.SizeofHeapDesired: live sizes within one page of the address space are not covered.
- HashCons.ObjectHashTable.HashConsPointer: tables below 2^31 slots, since the doubled length must be a 32-bit number; equality is on all 32-bit words that the source compares, the padding of a sequence included, so that equal data alone is not enough for sharing.
- HashCons.ObjectHashTable.constructor: the choice between heap space and the allocator is not modelled, only the resulting length.
- IntInf.IntInfState.FillIntInfArg: the branch for pointers wider than a limb, not taken in this representation.
- IntInf.IntInfState.BinOp: GNU MP computes exactly, and the caller asked for enough bytes for the result; shifts and string conversion are not modelled.
- Profiling.ProfileData.IncForProfiling: with stack profiling on and one data record; counters do not wrap around.
- Regions.RegionState.RegionPush: pushes and allocations stay inside the buffer, which the source does not check.
- Signals.Safe: a handler runs to completion, and memory is sequentially consistent.
