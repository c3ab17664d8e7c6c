// Driving the collectors: the split of the heap into old generation and nursery,
// guarded allocation, and performGC, which leaves the space it was asked for.
// Addresses are offsets from the start of the heap.

module Driver {
  import opened Align
  import opened MapSizes
  import opened HeapDesired
  import opened HeapSearch
  import opened HeapResize
  import opened StackSize

  const GC_HEAP_LIMIT_SLOP: nat := 512

  datatype GenerationRatios = GenerationRatios(nursery: real, copyGenerational: real, markCompactGenerational: real)

  // What one collection meets: bytes a minor collection copies, whether it moves
  // the current stack, bytes that survive a major collection, whether hash-consing
  // asks for mark-compact, and the answers of the operating system.
  datatype World = World(
    copied: nat,
    stackMoves: bool,
    survives: nat,
    hashCons: bool,
    mayPageHeap: bool,
    mmapSecondary: Answers,
    mremap: Answers,
    mmap: Answers,
    mmapAgain: Answers,
    mremapSecondary: Answers)

  // How a collection ends: well, or with one of the ways to die.
  datatype Outcome = Done | LiveTooLarge | NoHeap | NurseryFull

  function SizeofStackWithMetaData(reserved: nat): nat {
    STACK_METADATA_SIZE + STACK_STRUCT_SIZE + reserved
  }

  class HeapState {
    const k: Sizing
    const y: System
    const stackControls: StackControls
    const ratios: GenerationRatios
    const oldGenSequenceSize: nat
    const heap: GCHeap
    const secondaryHeap: GCHeap
    var nursery: nat
    var frontier: nat
    var limitPlusSlop: nat
    var limit: int
    var canMinor: bool
    var bytesLive: nat
    var lastMajorWasMarkCompact: bool
    var stack: StackInfo

    constructor (k: Sizing, y: System, stackControls: StackControls, ratios: GenerationRatios, oldGenSequenceSize: nat,
                 heap: GCHeap, secondaryHeap: GCHeap, stack: StackInfo)
      ensures this.k == k && this.y == y && this.stackControls == stackControls && this.heap == heap
      ensures this.secondaryHeap == secondaryHeap && this.stack == stack &&
        this.oldGenSequenceSize == oldGenSequenceSize
      ensures nursery == frontier == limitPlusSlop == bytesLive == 0 && !canMinor
    {
      this.k, this.y, this.stackControls, this.ratios, this.oldGenSequenceSize :=
        k, y, stackControls, ratios, oldGenSequenceSize;
      this.heap, this.secondaryHeap, this.stack := heap, secondaryHeap, stack;
      nursery, frontier, limitPlusSlop, limit, bytesLive := 0, 0, 0, 0, 0;
      canMinor, lastMajorWasMarkCompact := false, false;
    }

    // The fixed parts: consistent controls, and ratios with which no heap is kept
    // too small.
    predicate Configured() {
      && SameSystem(k, y) && k.live >= 1.1 && k.copy >= 1.1
      && ValidControls(stackControls) && heap != secondaryHeap
    }

    predicate HasHeapBytesFree(oldGen: nat, nurseryBytes: nat)
      reads this, heap
    {
      && heap.oldGenSize + oldGen + (if canMinor then 2 else 1) * (limitPlusSlop - nursery) <= heap.size
      && nurseryBytes <= limitPlusSlop - frontier
    }

    // The heaps and the current stack.
    predicate HeapsOk()
      reads this, heap, secondaryHeap
    {
      && heap.Valid(y) && secondaryHeap.Valid(y)
      && heap.oldGenSize <= heap.size && heap.oldGenSize % 8 == 0 && bytesLive <= heap.oldGenSize
      && Fits(heap.size)
      && ValidStack(stackControls, stack)
    }

    predicate Fits(size: nat) {
      k.page > 0 && Total(y, size) <= AlignDown(SIZE_MAX, k.page)
    }

    // The invariant between steps of the mutator, when the next `pending` bytes of
    // the old generation are spoken for.  While there are no minor collections the
    // nursery directly follows the old generation and those bytes.
    predicate Room(pending: nat)
      reads this, heap, secondaryHeap
    {
      && HeapsOk()
      && heap.oldGenSize + pending <= nursery <= frontier <= limitPlusSlop == heap.size
      && nursery % 8 == 0 && frontier % 8 == 0 && pending % 8 == 0
      && HasHeapBytesFree(pending, 0)
      && (!canMinor ==> nursery == heap.oldGenSize + pending)
    }

    // alignFrontier of an offset.
    function AlignFrontier(p: nat): int { AlignWithExtra(p, NORMAL_METADATA_SIZE) }

    // The nursery is large enough to be worth it.
    predicate NurseryLargeEnough(nurserySize: nat)
      reads `bytesLive, heap
    {
      nurserySize > 0 && (heap.size - bytesLive) as real <= ratios.nursery * nurserySize as real
    }

    predicate LiveRatioLow()
      reads `bytesLive, heap
    {
      && bytesLive > 0
      && heap.size as real <= bytesLive as real *
         (if heap.withMapsSize < k.ram then ratios.copyGenerational else ratios.markCompactGenerational)
    }

    // When the space left should be a nursery for minor collections: cards are
    // marked, the request fits in half of it in whole words, it is a large enough
    // part of what was not live, and either the last major collection was by
    // mark-compact or the heap is not too large for the live data.
    predicate Generational(space: nat, nurseryBytesRequested: nat)
      reads `bytesLive, `lastMajorWasMarkCompact, heap
    {
      && k.marksCards && nurseryBytesRequested <= space / 16 * 8
      && space > 0 && heap.size as real <= bytesLive as real + ratios.nursery * space as real
      && (|| lastMajorWasMarkCompact
          || (bytesLive > 0 && heap.withMapsSize < k.ram &&
                heap.size as real <= ratios.copyGenerational * bytesLive as real)
          || (bytesLive > 0 && heap.withMapsSize >= k.ram &&
                heap.size as real <= ratios.markCompactGenerational * bytesLive as real))
    }

    lemma GenerationalIs(space: nat, nurseryBytesRequested: nat)
      requires bytesLive <= heap.size
      ensures Generational(space, nurseryBytesRequested) <==>
        && k.marksCards && nurseryBytesRequested <= space / 16 * 8
        && NurseryLargeEnough(space) && (lastMajorWasMarkCompact || LiveRatioLow())
    {
    }

    // Half of the space, from an aligned frontier on.
    lemma HalfNursery(end: nat, space: nat)
      requires space <= end && end % 8 == 0 && space % 8 == 0
      ensures end - AlignFrontier(end - space / 2) == space / 16 * 8
    {
      var e, q, r := end / 8, space / 16, space / 8 % 2;
      assert end == 8 * e && space == 16 * q + 8 * r;
      assert (end - space / 2 + 8 + 7) / 8 == e - q + 1;
    }

    // setGCStateCurrentHeap: it dies exactly when the requests do not fit, and
    // else leaves room for both, whether minor collections will be used or not.
    method SetCurrentHeap(oldGenBytesRequested: nat, nurseryBytesRequested: nat) returns (ok: bool)
      requires Configured() && HeapsOk() && oldGenBytesRequested % 8 == 0
      requires heap.oldGenSize + oldGenBytesRequested <= heap.size
      modifies `nursery, `frontier, `limitPlusSlop, `limit, `canMinor
      ensures ok <==> heap.oldGenSize + oldGenBytesRequested + nurseryBytesRequested <= heap.size
      ensures ok ==> Room(oldGenBytesRequested) && HasHeapBytesFree(oldGenBytesRequested, nurseryBytesRequested)
      ensures ok ==> frontier == nursery && limit == limitPlusSlop - GC_HEAP_LIMIT_SLOP
      ensures ok && canMinor ==>
        k.marksCards && 2 * (heap.size - nursery) <= heap.size - heap.oldGenSize - oldGenBytesRequested
      ensures ok ==>
        (canMinor <==> Generational(heap.size - heap.oldGenSize - oldGenBytesRequested, nurseryBytesRequested))
      ensures ok && canMinor ==> heap.size - nursery == (heap.size - heap.oldGenSize - oldGenBytesRequested) / 16 * 8
    {
      hide *;
      HeapsParts();
      SlopIs();
      GenerationalIs(heap.size - heap.oldGenSize - oldGenBytesRequested, nurseryBytesRequested);
      HalfNursery(heap.size, heap.size - heap.oldGenSize - oldGenBytesRequested);
      limitPlusSlop := heap.size;
      limit := limitPlusSlop - GC_HEAP_LIMIT_SLOP;
      var nurserySize := heap.size - (heap.oldGenSize + oldGenBytesRequested);
      var newNursery := limitPlusSlop - nurserySize;
      FrontierIs(limitPlusSlop - nurserySize / 2, limitPlusSlop);
      var genNursery := AlignFrontier(limitPlusSlop - nurserySize / 2);
      var genNurserySize := limitPlusSlop - genNursery;
      if k.marksCards && nurseryBytesRequested <= genNurserySize
        && NurseryLargeEnough(nurserySize) && (lastMajorWasMarkCompact || LiveRatioLow()) {
        canMinor := true;
        newNursery := genNursery;
        nurserySize := genNurserySize;
      } else {
        if nurseryBytesRequested > nurserySize { return false; }
        canMinor := false;
      }
      nursery := newNursery;
      frontier := newNursery;
      HeapsIntro();
      RoomIntro(oldGenBytesRequested, nurseryBytesRequested);
      return true;
    }

    // newObject in the old generation, guarded as its assertion says.  What is left
    // of the bytes spoken for stays spoken for.
    method NewOldObject(bytesRequested: nat, ghost pending: nat) returns (at: nat)
      requires Configured() && Room(pending) && bytesRequested % 8 == 0
      requires HasHeapBytesFree(bytesRequested, 0)
      modifies heap`oldGenSize
      ensures at == old(heap.oldGenSize) && heap.oldGenSize == at + bytesRequested
      ensures Room(Left(pending, bytesRequested))
    {
      hide *;
      RoomParts(pending);
      HeapsParts();
      FreeIs(bytesRequested, 0);
      ValidIs(y, heap);
      LeftIs(pending, bytesRequested);
      at := heap.oldGenSize;
      heap.oldGenSize := heap.oldGenSize + bytesRequested;
      ValidIntro(y, heap);
      HeapsIntro();
      RoomIntro(Left(pending, bytesRequested), 0);
    }

    // newObject in the nursery.
    method NewYoungObject(bytesRequested: nat, ghost pending: nat) returns (at: nat)
      requires Configured() && Room(pending) && bytesRequested % 8 == 0
      requires HasHeapBytesFree(0, bytesRequested)
      modifies `frontier
      ensures at == old(frontier) && frontier == at + bytesRequested
      ensures Room(pending)
    {
      hide *;
      RoomParts(pending);
      HeapsParts();
      FreeIs(0, bytesRequested);
      at := frontier;
      frontier := frontier + bytesRequested;
      HeapsIntro();
      RoomIntro(pending, 0);
    }

    method NewObject(bytesRequested: nat, allocInOldGen: bool, ghost pending: nat) returns (at: nat)
      requires Configured() && Room(pending) && bytesRequested % 8 == 0
      requires if allocInOldGen then HasHeapBytesFree(bytesRequested, 0) else HasHeapBytesFree(0, bytesRequested)
      modifies heap`oldGenSize, `frontier
      ensures allocInOldGen ==>
        at == old(heap.oldGenSize) && heap.oldGenSize == at + bytesRequested && frontier == old(frontier)
      ensures !allocInOldGen ==>
        at == old(frontier) && frontier == at + bytesRequested && heap.oldGenSize == old(heap.oldGenSize)
      ensures Room(if allocInOldGen then Left(pending, bytesRequested) else pending)
    {
      hide *;
      if allocInOldGen {
        at := NewOldObject(bytesRequested, pending);
      } else {
        at := NewYoungObject(bytesRequested, pending);
      }
    }

    // A stack with the size it is given when it has no room.
    function Grown(st: StackInfo): StackInfo { st.(reserved := NatOf(GrowReserved(stackControls, st))) }

    lemma GrownIs(st: StackInfo)
      ensures Grown(st) == st.(reserved := NatOf(GrowReserved(stackControls, st)))
    {
    }

    // growStackCurrent: the space asked for was computed from the same stack.
    method GrowStackCurrent(ghost pending: nat)
      requires Configured() && Room(pending + SizeofStackWithMetaData(NatOf(GrowReserved(stackControls, stack))))
      requires pending % 8 == 0
      modifies heap`oldGenSize, `frontier, `stack
      ensures Room(pending) && StackRoom(stackControls, stack) && frontier == old(frontier)
      ensures stack == old(Grown(stack)) && stack.used == old(stack.used) && stack.topFrame == old(stack.topFrame)
      ensures heap.oldGenSize == old(heap.oldGenSize) + old(SizeofStackWithMetaData(Grown(stack).reserved))
    {
      hide *;
      GrownIs(stack);
      HeapsOfRoom(pending + SizeofStackWithMetaData(NatOf(GrowReserved(stackControls, stack))));
      HeapsParts();
      GrowGivesRoom(stackControls, stack);
      NatIs(GrowReserved(stackControls, stack));
      GrownValid(stackControls, stack);
      var reserved := NatOf(GrowReserved(stackControls, stack));
      StackBytes(reserved);
      PendingFree(pending, SizeofStackWithMetaData(reserved));
      LeftIs(pending + SizeofStackWithMetaData(reserved), SizeofStackWithMetaData(reserved));
      var _ := NewObject(SizeofStackWithMetaData(reserved), true, pending + SizeofStackWithMetaData(reserved));
      RoomParts(pending);
      stack := stack.(reserved := reserved);
      HeapsIntro();
      RoomIntro(pending, 0);
    }

    // A current stack as a collection resizes it.
    function Shrunken(st: StackInfo): StackInfo {
      st.(reserved := NatOf(ShrinkReserved(stackControls, st, true)))
    }

    lemma ShrunkenIs(st: StackInfo)
      ensures Shrunken(st) == st.(reserved := NatOf(ShrinkReserved(stackControls, st, true)))
    {
    }

    // The current stack after a minor collection: one in the nursery is resized.
    function StackAfterMinorGC(w: World): StackInfo
      reads this
    {
      if nursery < frontier && canMinor && w.stackMoves then
        stack.(reserved := NatOf(ShrinkReserved(stackControls, stack, true)))
      else stack
    }

    lemma StackAfterMinorIs(w: World)
      ensures StackAfterMinorGC(w) ==
        if nursery < frontier && canMinor && w.stackMoves then
          stack.(reserved := NatOf(ShrinkReserved(stackControls, stack, true)))
        else stack
    {
    }

    // minorGC: the to-space ends before the nursery it copies from.
    method MinorGC(w: World)
      requires Configured() && Room(0) && w.copied % 8 == 0 && w.copied <= frontier - nursery
      modifies heap`oldGenSize, `stack
      ensures HeapsOk() && heap.oldGenSize <= old(heap.oldGenSize) + (frontier - nursery) &&
        old(heap.oldGenSize) <= heap.oldGenSize
      ensures canMinor ==> old(heap.oldGenSize) + (frontier - nursery) <= nursery
      ensures heap.oldGenSize == old(heap.oldGenSize) + if canMinor then w.copied else frontier - nursery
      ensures stack == old(StackAfterMinorGC(w))
      ensures heap.size == old(heap.size) && heap.withMapsSize == old(heap.withMapsSize)
    {
      hide *;
      HeapsOfRoom(0);
      HeapsParts();
      RoomParts(0);
      ValidIs(y, heap);
      ShrinkFits(stackControls, stack, true);
      NatIs(ShrinkReserved(stackControls, stack, true));
      ShrunkValid(stackControls, stack);
      StackAfterMinorIs(w);
      var bytesAllocated := frontier - nursery;
      if bytesAllocated == 0 { return; }
      if !canMinor {
        heap.oldGenSize := heap.oldGenSize + bytesAllocated;
      } else {
        var toStart := heap.oldGenSize;
        assert toStart + bytesAllocated <= nursery;
        if w.stackMoves { stack := stack.(reserved := NatOf(ShrinkReserved(stackControls, stack, true))); }
        heap.oldGenSize := heap.oldGenSize + w.copied;
      }
      ValidIntro(y, heap);
      HeapsIntro();
    }

    // swapHeapsForCheneyCopy, after the survivors were copied.
    method SwapHeaps(survives: nat)
      requires Configured() && survives <= secondaryHeap.size
      modifies heap, secondaryHeap
      ensures heap.size == old(secondaryHeap.size) && heap.withMapsSize == old(secondaryHeap.withMapsSize) &&
        |heap.bytes| == old(|secondaryHeap.bytes|)
      ensures secondaryHeap.size == old(heap.size) && secondaryHeap.withMapsSize == old(heap.withMapsSize) &&
        |secondaryHeap.bytes| == old(|heap.bytes|)
      ensures heap.start == old(secondaryHeap.start) && secondaryHeap.start == old(heap.start)
      ensures heap.bytes == old(secondaryHeap.bytes) && secondaryHeap.bytes == old(heap.bytes)
      ensures secondaryHeap.oldGenSize == 0
      ensures heap.oldGenSize == survives
    {
      heap.start, secondaryHeap.start := secondaryHeap.start, heap.start;
      heap.size, secondaryHeap.size := secondaryHeap.size, heap.size;
      heap.withMapsSize, secondaryHeap.withMapsSize := secondaryHeap.withMapsSize, heap.withMapsSize;
      heap.bytes, secondaryHeap.bytes := secondaryHeap.bytes, heap.bytes;
      heap.oldGenSize, secondaryHeap.oldGenSize := survives, 0;
    }

    // Why there is no secondary heap to copy to: with it the heaps would exceed the
    // limit, or its size is no number, or the system refused the least size.
    ghost predicate SecondaryRefused(desiredSize: nat, mmap: Answers)
      reads heap
    {
      || (k.fixedHeap > 0 && heap.withMapsSize + Total(y, desiredSize) > k.fixedHeap)
      || (k.maxHeap > 0 && heap.withMapsSize + Total(y, desiredSize) > k.maxHeap)
      || (y.page > 0 && heap.withMapsSize + Total(y, AlignTo(heap.oldGenSize, y.page)) > SIZE_MAX)
      || (y.page > 0 && exists n :: RefusedAll(mmap, n, Total(y, AlignTo(heap.oldGenSize, y.page))))
    }

    lemma SecondaryRefusedIs(desiredSize: nat, mmap: Answers)
      requires y.page > 0
      ensures SecondaryRefused(desiredSize, mmap) <==>
        || (k.fixedHeap > 0 && heap.withMapsSize + Total(y, desiredSize) > k.fixedHeap)
        || (k.maxHeap > 0 && heap.withMapsSize + Total(y, desiredSize) > k.maxHeap)
        || heap.withMapsSize + Total(y, AlignTo(heap.oldGenSize, y.page)) > SIZE_MAX
        || exists n :: RefusedAll(mmap, n, Total(y, AlignTo(heap.oldGenSize, y.page)))
    {
      hide Total, AlignTo, RefusedAll;
    }

    // The choice of a collector in majorGC, and its effect on sizes.  A copying
    // collection always has a secondary heap as large as the old generation.
    method Collect(w: World, desiredSize: nat)
      requires Configured() && HeapsOk() && SecondaryOk() && Pages(y, desiredSize) && Fits(desiredSize)
      requires 0 < w.survives <= heap.oldGenSize && w.survives % 8 == 0
      modifies heap, secondaryHeap, `lastMajorWasMarkCompact, `stack, `bytesLive
      ensures HeapsOk() && heap.oldGenSize == w.survives == bytesLive
      ensures stack == old(stack).(reserved := NatOf(ShrinkReserved(stackControls, old(stack), true)))
      ensures w.hashCons || old(heap.withMapsSize) >= k.ram ==> lastMajorWasMarkCompact
      ensures !w.hashCons && old(heap.withMapsSize) < k.ram && old(secondaryHeap.size) > 0 ==> !lastMajorWasMarkCompact
      ensures !w.hashCons && old(heap.withMapsSize) < k.ram && lastMajorWasMarkCompact ==>
        old(SecondaryRefused(desiredSize, w.mmapSecondary))
      ensures lastMajorWasMarkCompact ==> heap.size == old(heap.size) && secondaryHeap.size == old(secondaryHeap.size)
      ensures !lastMajorWasMarkCompact ==> secondaryHeap.size == old(heap.size) && heap.size >= old(heap.oldGenSize)
      ensures !lastMajorWasMarkCompact && old(secondaryHeap.size) > 0 ==> heap.size == old(secondaryHeap.size)
    {
      hide *;
      HeapsParts();
      ValidIs(y, heap);
      SecondaryIs();
      ShrunkValid(stackControls, stack);
      NatIs(ShrinkReserved(stackControls, stack, true));
      PagesAre(y, desiredSize);
      SecondaryRefusedIs(desiredSize, w.mmapSecondary);
      var copying := false;
      if !w.hashCons && heap.withMapsSize < k.ram {
        if secondaryHeap.size != 0 {
          copying := true;
        } else {
          copying := CreateHeapSecondary(k, y, heap, secondaryHeap, desiredSize, w.mmapSecondary);
          EitherFits(secondaryHeap.size, desiredSize, heap.size);
        }
      }
      ValidIs(y, heap);
      ValidIs(y, secondaryHeap);
      if copying {
        assert secondaryHeap.size >= heap.oldGenSize;
        SwapHeaps(w.survives);
        lastMajorWasMarkCompact := false;
      } else {
        heap.oldGenSize := w.survives;
        lastMajorWasMarkCompact := true;
      }
      stack := stack.(reserved := NatOf(ShrinkReserved(stackControls, stack, true)));
      bytesLive := heap.oldGenSize;
      ValidIntro(y, heap);
      ValidIntro(y, secondaryHeap);
      HeapsIntro();
    }

    ghost predicate NoHeapFor(size: nat, w: World) {
      k.page > 0 && y.page > 0 &&
      var least := Total(y, AlignTo(size, y.page));
      || least > Limit(k)
      || (w.mayPageHeap && exists n :: RefusedAll(w.mmapAgain, n, least))
      || (!w.mayPageHeap && RefusedOnce(w.mremap, least))
    }

    lemma NoHeapIntro(size: nat, w: World)
      requires k.page > 0 && y.page > 0
      requires Total(y, AlignTo(size, y.page)) <= Limit(k) ==>
        if w.mayPageHeap then exists n :: RefusedAll(w.mmapAgain, n, Total(y, AlignTo(size, y.page)))
        else RefusedOnce(w.mremap, Total(y, AlignTo(size, y.page)))
      ensures NoHeapFor(size, w)
    {
      hide Total, AlignTo, Limit, RefusedAll, RefusedOnce;
    }

    // majorGC.  Unless it dies there is room for the bytes requested.
    method MajorGC(bytesRequested: nat, mayResize: bool, w: World) returns (r: Outcome)
      requires Configured() && HeapsOk() && SecondaryOk()
      requires 0 < w.survives <= heap.oldGenSize && w.survives % 8 == 0
      requires heap.size + bytesRequested + k.page <= SIZE_MAX
      modifies heap, secondaryHeap, `lastMajorWasMarkCompact, `stack, `bytesLive
      ensures r == Done || r == LiveTooLarge || r == NoHeap
      ensures r.Done? ==> HeapsOk() && SecondaryOk() && heap.oldGenSize == w.survives
      ensures r.Done? ==> stack == old(stack).(reserved := NatOf(ShrinkReserved(stackControls, old(stack), true)))
      ensures r.Done? && mayResize ==> heap.oldGenSize + bytesRequested <= heap.size && Total(y, heap.size) <= Limit(k)
      // dying: the estimate of the live data or the live data itself is too large
      // for the controls, or the system refuses the least size
      ensures r.LiveTooLarge? <==> old(Total(y, AlignTo(bytesLive + bytesRequested, y.page))) > Limit(k)
      ensures r.NoHeap? ==> mayResize && NoHeapFor(w.survives + bytesRequested, w)
      ensures r.Done? ==> bytesLive == w.survives
      ensures r.Done? && (w.hashCons || old(heap.withMapsSize) >= k.ram) ==> lastMajorWasMarkCompact
      ensures r.Done? && !w.hashCons && old(heap.withMapsSize) < k.ram && old(secondaryHeap.size) > 0 ==>
        !lastMajorWasMarkCompact
      ensures r.Done? && mayResize && (lastMajorWasMarkCompact || old(secondaryHeap.size) > 0) ==>
        ResizeAims(k, y, w.survives + bytesRequested, old(heap.size), heap.size, w.mremap)
      ensures r.Done? && !w.hashCons && old(heap.withMapsSize) < k.ram && lastMajorWasMarkCompact ==>
        exists desired: nat :: Sought(k, old(bytesLive) + bytesRequested, 0, desired) &&
          old(SecondaryRefused(desired, w.mmapSecondary))
      ensures r.Done? && !mayResize && lastMajorWasMarkCompact ==> heap.size == old(heap.size)
      ensures r.Done? && !mayResize && old(secondaryHeap.size) > 0 ==> heap.size == old(heap.size)
    {
      hide *;
      HeapsParts();
      SecondaryIs();
      SameSystemParts(k, y);
      NoHeapFits();
      RatiosAre();
      RatiosSuffice(k, WithMaps(k.marksCards, k.page, AlignTo(bytesLive + bytesRequested, k.page)),
        WithMaps(k.marksCards, k.page, 0));
      TooSmallIs(k, bytesLive + bytesRequested, 0);
      var desired := SizeofHeapDesired(k, bytesLive + bytesRequested, 0);
      if desired.OutOfMemory? { return LiveTooLarge; }
      LimitFits(desired.size);
      PagesAre(y, desired.size);
      Collect(w, desired.size);
      HeapsParts();
      ValidIs(y, heap);
      PagesAre(y, heap.size);
      if mayResize {
        RatiosAre();
        RatiosSuffice(k, WithMaps(k.marksCards, k.page, AlignTo(bytesLive + bytesRequested, k.page)),
          WithMaps(k.marksCards, k.page, heap.size));
        TooSmallIs(k, bytesLive + bytesRequested, heap.size);
        FitsIs(heap.size);
        var ok := ResizeHeap(k, y, heap, secondaryHeap, bytesLive + bytesRequested, w.mayPageHeap, w.mremap, w.mmap,
          w.mmapAgain);
        if !ok {
          NoHeapIntro(bytesLive + bytesRequested, w);
          return NoHeap;
        }
        LimitFits(heap.size);
      }
      ResizeHeapSecondary(y, k.ram, heap, secondaryHeap, w.mremapSecondary);
      HeapsIntro();
      SecondaryIs();
      return Done;
    }

    // What a collection meets: sizes in whole words, no more survivors than
    // objects, and at least the current stack survives.
    predicate Possible(w: World)
      reads this, heap
    {
      && nursery <= frontier
      && w.copied % 8 == 0 && w.copied <= frontier - nursery
      && w.survives % 8 == 0 && 0 < w.survives <= heap.oldGenSize + (if canMinor then w.copied else frontier - nursery)
    }

    // No size computed for a collection overflows.
    predicate Representable(oldGenBytesRequested: nat, nurseryBytesRequested: nat)
      reads this, heap
    {
      heap.size + oldGenBytesRequested + nurseryBytesRequested
      + SizeofStackWithMetaData(NatOf(GrowReserved(stackControls, stack))) + k.page <= SIZE_MAX
    }

    function OldGenAfterMinor(w: World): nat
      requires nursery <= frontier
      reads this, heap
    {
      heap.oldGenSize + if canMinor then w.copied else frontier - nursery
    }

    // Bytes for a stack without room, with the room it will have.
    function StackBytesAsked(): nat
      reads this
    {
      if StackRoom(stackControls, stack) then 0 else SizeofStackWithMetaData(Grown(stack).reserved)
    }

    // What is asked for does not fit beside the old generation that a minor
    // collection leaves.
    predicate TooMuch(oldGenBytesRequested: nat, nurseryBytesRequested: nat, w: World)
      requires nursery <= frontier
      reads this, heap
    {
      OldGenAfterMinor(w) + oldGenBytesRequested + nurseryBytesRequested + StackBytesAsked() > heap.size
    }

    lemma TooMuchIs(oldGenBytesRequested: nat, nurseryBytesRequested: nat, w: World)
      requires nursery <= frontier
      ensures OldGenAfterMinor(w) == heap.oldGenSize + if canMinor then w.copied else frontier - nursery
      ensures StackBytesAsked() ==
        if StackRoom(stackControls, stack) then 0
        else SizeofStackWithMetaData(NatOf(GrowReserved(stackControls, stack)))
      ensures TooMuch(oldGenBytesRequested, nurseryBytesRequested, w) <==>
        OldGenAfterMinor(w) + oldGenBytesRequested + nurseryBytesRequested + StackBytesAsked() > heap.size
    {
    }

    // A minor collection leaves a stack without room alone.
    lemma StackWithoutRoom(w: World)
      requires ValidStack(stackControls, stack)
      ensures StackRoom(stackControls, stack) <==> StackRoom(stackControls, StackAfterMinorGC(w))
      ensures !StackRoom(stackControls, stack) ==> StackAfterMinorGC(w) == stack
    {
      hide ShrinkReserved, StackRoom;
      StackThroughMajor(stackControls, stack);
    }

    // performGC.  It dies only for want of heap space, never because the nursery is
    // too small; otherwise the requests can be met and the current stack has room.
    // Without resizing it is only called as GC_pack does.
    method PerformGC(oldGenBytesRequested: nat, nurseryBytesRequested: nat, forceMajor: bool, mayResize: bool, w: World)
      returns (r: Outcome)
      requires Configured() && Room(0) && SecondaryOk() && Possible(w)
      requires oldGenBytesRequested % 8 == 0 && Representable(oldGenBytesRequested, nurseryBytesRequested)
      requires !mayResize ==> oldGenBytesRequested == nurseryBytesRequested == 0 && StackRoom(stackControls, stack)
      modifies heap, secondaryHeap, `nursery, `frontier, `limitPlusSlop, `limit, `canMinor, `lastMajorWasMarkCompact,
        `stack, `bytesLive
      ensures r == Done || r == LiveTooLarge || r == NoHeap
      ensures r.Done? ==> Room(oldGenBytesRequested) && SecondaryOk()
      ensures r.Done? ==> HasHeapBytesFree(oldGenBytesRequested, nurseryBytesRequested)
      ensures r.Done? ==>
        StackRoom(stackControls, stack) && stack.used == old(stack.used) && stack.topFrame == old(stack.topFrame)
      // with a major collection, live data and old generation are what survived it
      ensures r.Done? && forceMajor ==> bytesLive == w.survives
      ensures r.Done? && old(TooMuch(oldGenBytesRequested, nurseryBytesRequested, w)) ==> bytesLive == w.survives
      // and without one they are what the minor collection left
      ensures !forceMajor && old(!TooMuch(oldGenBytesRequested, nurseryBytesRequested, w)) ==>
        && r.Done? && unchanged(`bytesLive) && unchanged(`lastMajorWasMarkCompact) && unchanged(secondaryHeap)
        && heap.size == old(heap.size)
      ensures r.Done? ==>
        heap.oldGenSize == old(StackBytesAsked())
          + if forceMajor || old(TooMuch(oldGenBytesRequested, nurseryBytesRequested, w)) then w.survives
            else old(OldGenAfterMinor(w))
      ensures r.Done? && old(!StackRoom(stackControls, stack)) ==> stack == old(Grown(stack))
      ensures r.Done? && old(StackRoom(stackControls, stack)) ==>
        stack == if forceMajor || old(TooMuch(oldGenBytesRequested, nurseryBytesRequested, w))
          then old(Shrunken(StackAfterMinorGC(w))) else old(StackAfterMinorGC(w))
    {
      hide *;
      RoomParts(0);
      HeapsParts();
      PossibleIs(w);
      RepresentableIs(oldGenBytesRequested, nurseryBytesRequested);
      SecondaryIs();
      ghost var before := stack;
      StackAfterMinorIs(w);
      StackWithoutRoom(w);
      TooMuchIs(oldGenBytesRequested, nurseryBytesRequested, w);
      GrownIs(stack);
      MinorGC(w);
      HeapsParts();
      SecondaryIs();
      StackAfterMinor(before);
      var stackTopOk := StackRoom(stackControls, stack);
      StackRequest(stackControls, stack);
      var stackBytesRequested := if stackTopOk then 0
        else SizeofStackWithMetaData(NatOf(GrowReserved(stackControls, stack)));
      var totalBytesRequested := oldGenBytesRequested + nurseryBytesRequested + stackBytesRequested;
      if forceMajor || totalBytesRequested > heap.size - heap.oldGenSize {
        StackThroughMajor(stackControls, stack);
        ShrunkenIs(stack);
        r := MajorGC(totalBytesRequested, mayResize, w);
        if !r.Done? { return; }
        HeapsParts();
        SecondaryIs();
      }
      r := SetSpace(oldGenBytesRequested, nurseryBytesRequested, stackTopOk, stackBytesRequested);
    }

    // The end of performGC: nursery and stack are set up in the space there is.
    method SetSpace(oldGenBytesRequested: nat, nurseryBytesRequested: nat, stackTopOk: bool, stackBytesRequested: nat)
      returns (r: Outcome)
      requires Configured() && HeapsOk() && SecondaryOk() && oldGenBytesRequested % 8 == 0
      requires stackTopOk <==> StackRoom(stackControls, stack)
      requires stackBytesRequested == if stackTopOk then 0
        else SizeofStackWithMetaData(NatOf(GrowReserved(stackControls, stack)))
      requires heap.oldGenSize + oldGenBytesRequested + nurseryBytesRequested + stackBytesRequested <= heap.size
      modifies heap`oldGenSize, `nursery, `frontier, `limitPlusSlop, `limit, `canMinor, `stack
      ensures r == Done && Room(oldGenBytesRequested) && SecondaryOk()
      ensures HasHeapBytesFree(oldGenBytesRequested, nurseryBytesRequested)
      ensures StackRoom(stackControls, stack) && stack.used == old(stack.used) && stack.topFrame == old(stack.topFrame)
      ensures stack == if stackTopOk then old(stack) else old(Grown(stack))
      ensures heap.oldGenSize == old(heap.oldGenSize) + stackBytesRequested
      ensures heap.size == old(heap.size) && heap.withMapsSize == old(heap.withMapsSize)
    {
      hide *;
      HeapsParts();
      SecondaryIs();
      GrownIs(stack);
      StackRequest(stackControls, stack);
      var ok := SetCurrentHeap(oldGenBytesRequested + stackBytesRequested, nurseryBytesRequested);
      if !ok { return NurseryFull; }
      RoomParts(oldGenBytesRequested + stackBytesRequested);
      FreeIs(oldGenBytesRequested + stackBytesRequested, nurseryBytesRequested);
      if !stackTopOk { GrowStackCurrent(oldGenBytesRequested); }
      RoomParts(oldGenBytesRequested);
      FreeIs(oldGenBytesRequested, nurseryBytesRequested);
      SecondaryIs();
      return Done;
    }

    // ensureHasHeapBytesFree.
    method EnsureHasHeapBytesFree(oldGenBytesRequested: nat, nurseryBytesRequested: nat, w: World) returns (r: Outcome)
      requires Configured() && Room(0) && SecondaryOk() && Possible(w)
      requires oldGenBytesRequested % 8 == 0 && Representable(oldGenBytesRequested, nurseryBytesRequested)
      modifies heap, secondaryHeap, `nursery, `frontier, `limitPlusSlop, `limit, `canMinor, `lastMajorWasMarkCompact,
        `stack, `bytesLive
      ensures r == Done || r == LiveTooLarge || r == NoHeap
      ensures r.Done? ==>
        Room(oldGenBytesRequested) && SecondaryOk() && HasHeapBytesFree(oldGenBytesRequested, nurseryBytesRequested)
      ensures old(HasHeapBytesFree(oldGenBytesRequested, nurseryBytesRequested)) ==>
        r == Done && unchanged(this) && unchanged(heap)
    {
      hide *;
      if !HasHeapBytesFree(oldGenBytesRequested, nurseryBytesRequested) {
        r := PerformGC(oldGenBytesRequested, nurseryBytesRequested, false, true, w);
        return;
      }
      FreeIsPending(oldGenBytesRequested, nurseryBytesRequested);
      return Done;
    }

    lemma FreeIsPending(oldGen: nat, nurseryBytes: nat)
      requires Room(0) && HasHeapBytesFree(oldGen, nurseryBytes) && oldGen % 8 == 0
      ensures Room(oldGen)
    {
    }

    // The allocation of GC_sequenceAllocate, of a size already aligned: large
    // sequences in the old generation, others in the nursery, and afterwards the
    // bytes to ensure are free in the nursery.
    method SequenceAllocate(sequenceSizeAligned: nat, ensureBytesFree: nat, w: World) returns (r: Outcome, at: nat)
      requires Configured() && Room(0) && SecondaryOk() && Possible(w)
      requires sequenceSizeAligned % 8 == 0 && Representable(sequenceSizeAligned, ensureBytesFree)
      modifies heap, secondaryHeap, `nursery, `frontier, `limitPlusSlop, `limit, `canMinor, `lastMajorWasMarkCompact,
        `stack, `bytesLive
      ensures r == Done || r == LiveTooLarge || r == NoHeap
      ensures r.Done? ==> Room(0) && SecondaryOk() && ensureBytesFree <= limitPlusSlop - frontier
      ensures r.Done? ==>
        at + sequenceSizeAligned == if sequenceSizeAligned >= oldGenSequenceSize then heap.oldGenSize else frontier
    {
      hide *;
      at := 0;
      if sequenceSizeAligned >= oldGenSequenceSize {
        r := EnsureHasHeapBytesFree(sequenceSizeAligned, ensureBytesFree, w);
        if !r.Done? { return; }
        RoomParts(sequenceSizeAligned);
        FreeIs(sequenceSizeAligned, ensureBytesFree);
        FreeIs(sequenceSizeAligned, 0);
        LeftIs(sequenceSizeAligned, sequenceSizeAligned);
        SecondaryIs();
        at := NewOldObject(sequenceSizeAligned, sequenceSizeAligned);
      } else {
        var bytesRequested := sequenceSizeAligned + ensureBytesFree;
        RepresentableIs(sequenceSizeAligned, ensureBytesFree);
        RepresentableIs(0, bytesRequested);
        r := EnsureHasHeapBytesFree(0, bytesRequested, w);
        if !r.Done? { return; }
        RoomParts(0);
        FreeIs(0, bytesRequested);
        FreeIs(0, sequenceSizeAligned);
        SecondaryIs();
        at := NewYoungObject(sequenceSizeAligned, 0);
      }
      SecondaryIs();
      RoomParts(0);
    }

    // ensureInvariantForMutator: afterwards the bytes the thread needs are free and
    // its stack has room.
    method EnsureInvariantForMutator(force: bool, bytesNeeded: nat, w: World) returns (r: Outcome)
      requires Configured() && Room(0) && SecondaryOk() && Possible(w) && Representable(0, bytesNeeded)
      modifies heap, secondaryHeap, `nursery, `frontier, `limitPlusSlop, `limit, `canMinor, `lastMajorWasMarkCompact,
        `stack, `bytesLive
      ensures r == Done || r == LiveTooLarge || r == NoHeap
      ensures r.Done? ==>
        Room(0) && SecondaryOk() && bytesNeeded <= limitPlusSlop - frontier && StackRoom(stackControls, stack)
      ensures r.Done? && force ==> bytesLive == w.survives
      ensures !force && old(bytesNeeded <= limitPlusSlop - frontier && StackRoom(stackControls, stack)) ==>
        r.Done? && unchanged(this) && unchanged(heap) && unchanged(secondaryHeap)
    {
      hide *;
      RoomParts(0);
      if force || bytesNeeded > limitPlusSlop - frontier || !StackRoom(stackControls, stack) {
        r := PerformGC(0, bytesNeeded, force, true, w);
        if !r.Done? { return; }
        RoomParts(0);
        FreeIs(0, bytesNeeded);
      }
      return Done;
    }

    // GC_collect, but for profiling and signals: the mutator that requests nothing
    // needs the slop.
    method GCCollect(bytesRequested: nat, force: bool, w: World) returns (r: Outcome)
      requires Configured() && Room(0) && SecondaryOk() && Possible(w)
      requires Representable(0, if bytesRequested == 0 then 512 else bytesRequested)
      modifies heap, secondaryHeap, `nursery, `frontier, `limitPlusSlop, `limit, `canMinor, `lastMajorWasMarkCompact,
        `stack, `bytesLive
      ensures r == Done || r == LiveTooLarge || r == NoHeap
      ensures r.Done? ==> Room(0) && SecondaryOk() && StackRoom(stackControls, stack)
      ensures r.Done? ==> limitPlusSlop - frontier >= if bytesRequested == 0 then 512 else bytesRequested
      ensures r.Done? && force ==> bytesLive == w.survives
    {
      hide *;
      SlopIs();
      var bytesNeeded := if bytesRequested == 0 then GC_HEAP_LIMIT_SLOP else bytesRequested;
      r := EnsureInvariantForMutator(force, bytesNeeded, w);
    }

    // The current stack after a minor collection, which may have moved it.
    lemma StackAfterMinor(before: StackInfo)
      requires Configured() && HeapsOk() && ValidStack(stackControls, before)
      requires stack == before || stack == before.(reserved := NatOf(ShrinkReserved(stackControls, before, true)))
      ensures stack.used == before.used && stack.topFrame == before.topFrame
      ensures StackRoom(stackControls, before) ==> StackRoom(stackControls, stack)
      ensures SizeofStackWithMetaData(NatOf(GrowReserved(stackControls, stack))) <=
        SizeofStackWithMetaData(NatOf(GrowReserved(stackControls, before)))
    {
      hide ShrinkReserved, GrowReserved, StackRoom, HeapsOk;
      ShrinkFits(stackControls, before, true);
      if StackRoom(stackControls, before) { ShrinkKeepsRoom(stackControls, before); }
      GrowMonotone(stackControls, before, stack.reserved);
    }

    lemma PossibleIs(w: World)
      ensures Possible(w) <==>
        && nursery <= frontier
        && w.copied % 8 == 0 && w.copied <= frontier - nursery
        && w.survives % 8 == 0 &&
           0 < w.survives <= heap.oldGenSize + (if canMinor then w.copied else frontier - nursery)
    {
    }

    lemma RepresentableIs(oldGen: nat, nurseryBytes: nat)
      ensures Representable(oldGen, nurseryBytes) <==>
        heap.size + oldGen + nurseryBytes + SizeofStackWithMetaData(NatOf(GrowReserved(stackControls, stack))) +
          k.page <= SIZE_MAX
    {
    }

    lemma HeapsParts()
      requires Configured() && HeapsOk()
      ensures heap.Valid(y) && secondaryHeap.Valid(y) && heap != secondaryHeap && SameSystem(k, y) && Fits(heap.size)
      ensures heap.oldGenSize <= heap.size && heap.oldGenSize % 8 == 0 && heap.size % 8 == 0 &&
        bytesLive <= heap.oldGenSize
      ensures ValidStack(stackControls, stack) && ValidControls(stackControls)
    {
      hide WithMaps, PageOk;
      SystemIs(y);
      EightDivides(heap.size, y.page);
    }

    // A secondary heap has the size of the primary.
    predicate SecondaryOk()
      reads heap, secondaryHeap
    {
      secondaryHeap.size == 0 || secondaryHeap.size == heap.size
    }

    lemma SecondaryIs()
      ensures SecondaryOk() <==> secondaryHeap.size == 0 || secondaryHeap.size == heap.size
    {
    }

    lemma FitsIs(size: nat)
      requires SameSystem(k, y)
      ensures Fits(size) <==> k.page > 0 && WithMaps(k.marksCards, k.page, size) <= AlignDown(SIZE_MAX, k.page)
    {
      hide WithMaps, AlignDown;
    }

    lemma EitherFits(size: nat, x: nat, z: nat)
      requires Fits(x) && Fits(z)
      ensures size <= x || size <= z ==> Fits(size)
    {
      MoreTotal(y, size, x);
      MoreTotal(y, size, z);
    }

    lemma LimitFits(size: nat)
      requires SameSystem(k, y)
      ensures WithMaps(k.marksCards, k.page, size) <= Limit(k) ==> Fits(size)
    {
      hide WithMaps, Limit, AlignDown;
      SysLimit(k);
    }

    lemma NoHeapFits()
      requires SameSystem(k, y)
      ensures 0 % k.page == 0 && WithMaps(k.marksCards, k.page, 0) <= AlignDown(SIZE_MAX, k.page)
    {
      hide AlignDown;
      EmptyHeap(y);
      PagesAre(y, 0);
      FitsIs(0);
    }

    lemma RatiosAre()
      requires Configured()
      ensures k.live >= 1.1 && k.copy >= 1.1 && k.grow > 1.0
    {
    }

    lemma HeapsOfRoom(pending: nat)
      requires Room(pending)
      ensures HeapsOk() && pending % 8 == 0
    {
    }

    lemma RoomParts(pending: nat)
      requires Room(pending)
      ensures heap.oldGenSize + pending <= nursery <= frontier <= limitPlusSlop == heap.size
      ensures HeapsOk() && nursery % 8 == 0 && frontier % 8 == 0 && pending % 8 == 0
      ensures canMinor ==> heap.oldGenSize + pending + 2 * (heap.size - nursery) <= heap.size
      ensures !canMinor ==> nursery == heap.oldGenSize + pending
    {
    }

    lemma FreeIs(oldGen: nat, nurseryBytes: nat)
      requires nursery <= frontier <= limitPlusSlop == heap.size
      ensures HasHeapBytesFree(oldGen, nurseryBytes) <==>
        nurseryBytes <= heap.size - frontier
        && (if canMinor then heap.oldGenSize + oldGen + 2 * (heap.size - nursery) <= heap.size
            else heap.oldGenSize + oldGen <= nursery)
    {
    }

    // Bytes spoken for may be allocated.
    lemma PendingFree(pending: nat, bytes: nat)
      requires Room(pending + bytes)
      ensures HasHeapBytesFree(bytes, 0)
    {
    }

    lemma HeapsIntro()
      requires heap.Valid(y) && secondaryHeap.Valid(y) && heap.oldGenSize <= heap.size && heap.oldGenSize % 8 == 0
      requires bytesLive <= heap.oldGenSize && Fits(heap.size) && ValidStack(stackControls, stack)
      ensures HeapsOk()
    {
    }

    lemma FrontierIs(p: nat, end: nat)
      requires p <= end && end % 8 == 0
      ensures p <= AlignFrontier(p) <= end && AlignFrontier(p) % 8 == 0
    {
    }

    // Space for the requests, counted twice for a nursery that minor collections
    // will copy.
    lemma RoomIntro(pending: nat, nurseryBytes: nat)
      requires HeapsOk() && heap.oldGenSize + pending <= nursery <= frontier <= limitPlusSlop == heap.size
      requires nursery % 8 == 0 && frontier % 8 == 0 && pending % 8 == 0
      requires canMinor ==> heap.oldGenSize + pending + 2 * (heap.size - nursery) <= heap.size
      requires !canMinor ==> nursery == heap.oldGenSize + pending
      requires nurseryBytes <= limitPlusSlop - frontier
      ensures Room(pending) && HasHeapBytesFree(pending, nurseryBytes)
    {
    }
  }

  // What stays spoken for after an allocation.
  function Left(pending: nat, bytes: nat): nat { if bytes <= pending then pending - bytes else 0 }

  lemma LeftIs(pending: nat, bytes: nat)
    ensures Left(pending, bytes) == if bytes <= pending then pending - bytes else 0
    ensures pending % 8 == 0 && bytes % 8 == 0 ==> Left(pending, bytes) % 8 == 0
  {
  }

  function NatOf(n: int): nat { if n < 0 then 0 else n }

  lemma NatIs(n: int)
    ensures n >= 0 ==> NatOf(n) == n
  {
  }

  lemma StackBytes(reserved: nat)
    ensures SizeofStackWithMetaData(reserved) == reserved + 40
  {
  }

  lemma StackRequest(k: StackControls, st: StackInfo)
    requires ValidStack(k, st)
    ensures SizeofStackWithMetaData(NatOf(GrowReserved(k, st))) % 8 == 0
  {
    hide GrowReserved;
    GrowGivesRoom(k, st);
  }

  // A major collection keeps a stack's room, and leaves one without room alone.
  lemma StackThroughMajor(k: StackControls, st: StackInfo)
    requires ValidStack(k, st)
    ensures var st' := st.(reserved := NatOf(ShrinkReserved(k, st, true)));
      st'.used == st.used && st'.topFrame == st.topFrame && if StackRoom(k, st) then StackRoom(k, st') else st' == st
  {
    hide ShrinkReserved, StackRoom;
    ShrinkFits(k, st, true);
    if StackRoom(k, st) { ShrinkKeepsRoom(k, st); } else { NoRoomNoShrink(k, st); }
  }

  lemma GrownValid(k: StackControls, st: StackInfo)
    requires ValidStack(k, st)
    ensures GrowReserved(k, st) >= 0 && ValidStack(k, st.(reserved := GrowReserved(k, st)))
  {
    hide GrowReserved;
    GrowGivesRoom(k, st);
  }

  lemma ShrunkValid(k: StackControls, st: StackInfo)
    requires ValidStack(k, st)
    ensures ShrinkReserved(k, st, true) >= 0 && ValidStack(k, st.(reserved := ShrinkReserved(k, st, true)))
  {
    hide ShrinkReserved;
    ShrinkFits(k, st, true);
  }

  lemma SlopIs()
    ensures GC_HEAP_LIMIT_SLOP == 512
  {
  }

  lemma EightDivides(size: nat, page: nat)
    requires PageOk(page) && size % page == 0
    ensures size % 8 == 0
  {
    var q, c := size / page, page / 256;
    assert size == page * q && page == 256 * c;
    assert size == 8 * (32 * c * q);
  }
}
