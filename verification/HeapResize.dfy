// Shrinking, growing and replacing the heap, keeping the live data.

module HeapResize {
  import opened Align
  import opened Modular
  import opened MapSizes
  import opened HeapDesired
  import opened HeapSearch

  // 32M
  const COPY_CHUNK_SIZE: nat := 0x200_0000

  method ReleaseHeap(h: GCHeap)
    modifies h
    ensures h.size == 0 && h.withMapsSize == 0 && h.oldGenSize == 0 && h.start == 0 && h.bytes == []
  {
    h.start, h.size, h.withMapsSize, h.oldGenSize, h.bytes := 0, 0, 0, 0, [];
  }

  // shrinkHeap: keeps the first keepSize bytes, in whole pages.
  method ShrinkHeap(y: System, h: GCHeap, keepSize0: nat)
    requires SystemOk(y) && h.Valid(y) && keepSize0 <= h.size
    modifies h
    ensures h.Valid(y) && h.bytes <= old(h.bytes) && h.size <= old(h.size)
    ensures keepSize0 > 0 ==> h.size == AlignTo(keepSize0, y.page) >= keepSize0
    ensures keepSize0 > 0 ==> h.oldGenSize == old(h.oldGenSize) && h.start == old(h.start)
    ensures keepSize0 == 0 ==> h.size == 0 && h.oldGenSize == 0 && h.start == 0
  {
    hide *;
    SystemIs(y);
    ValidIs(y, h);
    EmptyHeap(y);
    if keepSize0 == 0 {
      ReleaseHeap(h);
      ValidIntro(y, h);
      return;
    }
    Rounds(y, keepSize0, keepSize0);
    PagesAre(y, h.size);
    AlignBelow(keepSize0, h.size, y.page);
    AlignIs(keepSize0, y.page);
    var keepSize := AlignTo(keepSize0, y.page);
    if keepSize < h.size {
      var keepWithMapsSize := Total(y, keepSize);
      h.size, h.withMapsSize := keepSize, keepWithMapsSize;
      h.bytes := h.bytes[..keepSize];
    }
    ValidIntro(y, h);
  }

  lemma ValidIs(y: System, h: GCHeap)
    ensures h.Valid(y) <==> Pages(y, h.size) && |h.bytes| == h.size && h.withMapsSize == Total(y, h.size)
  {
  }

  lemma ValidIntro(y: System, h: GCHeap)
    requires Pages(y, h.size) && |h.bytes| == h.size && h.withMapsSize == Total(y, h.size)
    ensures h.Valid(y)
  {
  }

  lemma EmptyHeap(y: System)
    requires y.page > 0
    ensures Pages(y, 0) && Total(y, 0) == 0
  {
    SmallMod(0, y.page);
    AlignIs(0, y.page);
  }

  lemma PagesAre(y: System, size: nat)
    ensures Pages(y, size) <==> y.page > 0 && size % y.page == 0
  {
  }

  lemma ChunkIs()
    ensures COPY_CHUNK_SIZE == 0x200_0000
  {
  }

  // The copying loop of growHeap, downward in chunks; the pages of a chunk are
  // released as soon as it is copied.  All live bytes arrive.  asserted tells
  // whether the assertion of the loop, that what remains is what lies between the
  // start of the heap and from, holds at every pass.
  method MoveLive(y: System, heap: GCHeap, to: GCHeap, liveSize: nat) returns (asserted: bool)
    requires SystemOk(y) && heap.Valid(y) && to.Valid(y) && heap != to
    requires liveSize <= heap.size && liveSize <= to.size
    modifies heap, to`bytes
    ensures to.Valid(y) && to.bytes[..liveSize] == old(heap.bytes)[..liveSize]
    ensures heap.size == 0
    ensures asserted <==> liveSize % COPY_CHUNK_SIZE != 0 || old(heap.start) == 0
  {
    hide *;
    ChunkIs();
    ValidIs(y, heap);
    ValidIs(y, to);
    ghost var bytes, start := heap.bytes, heap.start;
    var from := heap.start + liveSize;
    var remaining: nat := liveSize;
    ShrinkHeap(y, heap, remaining);
    asserted := remaining == from - heap.start;
    while remaining >= COPY_CHUNK_SIZE
      invariant remaining <= liveSize && heap.Valid(y) && heap.bytes <= bytes && remaining <= heap.size
      invariant |to.bytes| == to.size && liveSize <= |bytes|
      invariant to.bytes[remaining..liveSize] == bytes[remaining..liveSize]
      invariant to.size == old(to.size) && to.withMapsSize == old(to.withMapsSize) && to.start == old(to.start) &&
        to.oldGenSize == old(to.oldGenSize)
      invariant from == start + remaining && heap.start == (if remaining > 0 then start else 0)
      invariant asserted <==> remaining > 0 || start == 0
      invariant remaining % COPY_CHUNK_SIZE == liveSize % COPY_CHUNK_SIZE
    {
      ValidIs(y, heap);
      var low := remaining - COPY_CHUNK_SIZE;
      Chunk(bytes, heap.bytes, to.bytes, low, remaining, liveSize);
      OneChunkLess(remaining);
      from := from - COPY_CHUNK_SIZE;
      to.bytes := to.bytes[..low] + heap.bytes[low..remaining] + to.bytes[remaining..];
      remaining := low;
      ShrinkHeap(y, heap, remaining);
      asserted := asserted && remaining == from - heap.start;
    }
    LastChunk(remaining);
    ValidIs(y, heap);
    Chunk(bytes, heap.bytes, to.bytes, 0, remaining, liveSize);
    to.bytes := to.bytes[..0] + heap.bytes[0..remaining] + to.bytes[remaining..];
    ReleaseHeap(heap);
    ValidIntro(y, to);
    assert to.bytes[..liveSize] == to.bytes[0..liveSize] == bytes[0..liveSize] == bytes[..liveSize];
  }

  lemma OneChunkLess(remaining: nat)
    requires remaining >= COPY_CHUNK_SIZE
    ensures (remaining - COPY_CHUNK_SIZE) % COPY_CHUNK_SIZE == remaining % COPY_CHUNK_SIZE
  {
  }

  lemma LastChunk(remaining: nat)
    ensures remaining < COPY_CHUNK_SIZE ==> remaining % COPY_CHUNK_SIZE == remaining
  {
  }

  // The assertion fails with one whole chunk of live data.
  method MoveOneChunk(y: System, heap: GCHeap, to: GCHeap) returns (asserted: bool)
    requires SystemOk(y) && heap.Valid(y) && to.Valid(y) && heap != to && heap.start != 0
    requires COPY_CHUNK_SIZE <= heap.size && COPY_CHUNK_SIZE <= to.size
    modifies heap, to`bytes
    ensures !asserted
  {
    asserted := MoveLive(y, heap, to, COPY_CHUNK_SIZE);
  }

  lemma Chunk(bytes: seq<nat>, source: seq<nat>, target: seq<nat>, low: nat, high: nat, live: nat)
    requires low <= high <= live <= |bytes| && high <= |source| && source <= bytes && live <= |target|
    requires target[high..live] == bytes[high..live]
    ensures var t := target[..low] + source[low..high] + target[high..];
      |t| == |target| && t[low..live] == bytes[low..live]
  {
    var t := target[..low] + source[low..high] + target[high..];
    assert t[low..live] == source[low..high] + target[high..live];
    assert source[low..high] == bytes[low..high];
    assert bytes[low..live] == bytes[low..high] + bytes[high..live];
  }

  // The part of growHeap that creates another heap and copies the live data.
  method CopyToNewHeap(y: System, h: GCHeap, desiredSize: nat, minSize: nat, mmap: Answers) returns (created: bool)
    requires SystemOk(y) && h.Valid(y) && Pages(y, desiredSize) && 0 < minSize <= desiredSize
    requires h.oldGenSize <= h.size && h.oldGenSize <= minSize
    modifies h
    ensures h.Valid(y) && h.oldGenSize == old(h.oldGenSize) <= h.size &&
      h.bytes[..h.oldGenSize] == old(h.bytes[..h.oldGenSize])
    ensures created ==> minSize <= h.size <= desiredSize
    ensures !created ==> unchanged(h)
    ensures !created || h.size != desiredSize ==> RefusedAll(mmap, 0, Total(y, desiredSize))
    ensures created ==> Granted(mmap, h.withMapsSize)
  {
    hide *;
    SystemIs(y);
    ValidIs(y, h);
    PagesAre(y, desiredSize);
    AlignIs(desiredSize, y.page);
    var liveSize := h.oldGenSize;
    var newHeap := new GCHeap();
    var ok, n := newHeap.CreateHeap(y, desiredSize, minSize, mmap);
    if !ok { return false; }
    GrantedAt(mmap, n, newHeap.withMapsSize);
    ValidIntro(y, newHeap);
    var _ := MoveLive(y, h, newHeap, liveSize);
    ValidIs(y, newHeap);
    h.start, h.size, h.withMapsSize, h.oldGenSize, h.bytes :=
      newHeap.start, newHeap.size, newHeap.withMapsSize, liveSize, newHeap.bytes;
    ValidIntro(y, h);
    return true;
  }

  // The part of growHeap that writes the heap to disk and tries again.
  method PageHeap(y: System, h: GCHeap, desiredSize: nat, minSize: nat, mmap: Answers) returns (ok: bool)
    requires SystemOk(y) && h.Valid(y) && Pages(y, desiredSize) && Pages(y, minSize) && 0 < minSize <= desiredSize
    requires h.oldGenSize <= h.size && h.oldGenSize <= minSize
    modifies h
    ensures ok ==>
      h.Valid(y) && h.oldGenSize == old(h.oldGenSize) <= h.size &&
      h.bytes[..h.oldGenSize] == old(h.bytes[..h.oldGenSize])
    ensures ok ==> minSize <= h.size <= desiredSize
    ensures !ok ==> exists n :: RefusedAll(mmap, n, Total(y, minSize))
    ensures !ok || h.size != desiredSize ==> RefusedAll(mmap, 0, Total(y, desiredSize))
    ensures ok ==> Granted(mmap, h.withMapsSize)
  {
    hide *;
    SystemIs(y);
    ValidIs(y, h);
    PagesAre(y, minSize);
    PagesAre(y, desiredSize);
    AlignIs(minSize, y.page);
    AlignIs(desiredSize, y.page);
    var liveSize := h.oldGenSize;
    var data := h.bytes[..liveSize];
    ReleaseHeap(h);
    var created, n := h.CreateHeap(y, desiredSize, minSize, mmap);
    if !created { return false; }
    GrantedAt(mmap, n, h.withMapsSize);
    h.bytes := data + h.bytes[liveSize..];
    h.oldGenSize := liveSize;
    ValidIntro(y, h);
    assert h.bytes[..liveSize] == data;
    return true;
  }

  ghost predicate RefusedOnce(answers: Answers, size: nat) { exists n: nat :: answers(n, size) == REFUSED }

  lemma RefusedOnceIs(answers: Answers, size: nat)
    ensures RefusedOnce(answers, size) <==> exists n: nat :: answers(n, size) == REFUSED
  {
  }

  // growHeap.  The live data is kept; it fails only if not even minSize could be
  // found, and never if the current heap is large enough.
  method GrowHeap(y: System, h: GCHeap, desiredSize: nat, minSize0: nat, mayPageHeap: bool,
                  mremap: Answers, mmap: Answers, mmapAgain: Answers)
    returns (ok: bool)
    requires SystemOk(y) && h.Valid(y) && Pages(y, desiredSize) && Pages(y, minSize0)
    requires h.size < desiredSize && minSize0 <= desiredSize && h.oldGenSize <= h.size
    modifies h
    ensures ok ==> h.Valid(y) && minSize0 <= h.size <= desiredSize
    ensures ok ==>
      h.oldGenSize == old(h.oldGenSize) <= h.size &&
      h.bytes[..h.oldGenSize] == old(h.bytes[..h.oldGenSize])
    ensures minSize0 <= old(h.size) ==> ok && old(h.size) <= h.size
    ensures !ok ==> !mayPageHeap || exists n :: RefusedAll(mmapAgain, n, Total(y, minSize0))
    ensures !ok && !mayPageHeap ==> exists n :: mremap(n, Total(y, minSize0)) == REFUSED
    // what is used is the heap there was or one that the system granted, after
    // paging to disk only if that is allowed and the heap is too small
    ensures ok ==>
      || h.size == old(h.size)
      || Granted(mremap, h.withMapsSize) || Granted(mmap, h.withMapsSize)
      || (mayPageHeap && old(h.size) < minSize0 && Granted(mmapAgain, h.withMapsSize))
    // the desired size is tried first, and the heap is left as it is only if it
    // could be neither remapped nor replaced by a larger one
    ensures !ok || h.size != desiredSize ==> mremap(0, Total(y, desiredSize)) == REFUSED
    ensures ok && h.size == old(h.size) ==>
      && RefusedOnce(mremap, Total(y, old(h.size) + y.page))
      && (RefusedAll(mmap, 0, Total(y, desiredSize))
          || Total(y, old(h.size) + y.page) > SIZE_MAX - old(h.withMapsSize))
  {
    hide *;
    SystemIs(y);
    ValidIs(y, h);
    EmptyHeap(y);
    PagesAre(y, minSize0);
    PagesAre(y, desiredSize);
    AlignIs(minSize0, y.page);
    AlignIs(desiredSize, y.page);
    PageMore(y, h.size, desiredSize);
    PagesAre(y, h.size + y.page);
    AlignIs(h.size + y.page, y.page);
    var useCurrent := minSize0 <= h.size;
    var minSize := if useCurrent then h.size + y.page else minSize0;
    var liveSize := h.oldGenSize;
    ghost var bytes := h.bytes;
    var remapped := h.RemapHeap(y, desiredSize, minSize, mremap, 0);
    if remapped {
      ValidIntro(y, h);
      return true;
    }
    RefusedOnceIs(mremap, Total(y, minSize));
    if !useCurrent { ShrinkHeap(y, h, liveSize); }
    ValidIs(y, h);
    PrefixOf(bytes, h.bytes, liveSize);
    ghost var live := h.bytes[..liveSize];
    if Total(y, minSize) <= SIZE_MAX - h.withMapsSize {
      var created := CopyToNewHeap(y, h, desiredSize, minSize, mmap);
      if created { return true; }
    }
    if useCurrent { return true; }
    if mayPageHeap {
      ok := PageHeap(y, h, desiredSize, minSize, mmapAgain);
      return ok;
    }
    return false;
  }

  // The controls describe the same system.
  predicate SameSystem(k: Sizing, y: System) {
    ValidSizing(k) && SystemOk(y) && k.page == y.page && k.marksCards == y.marksCards
  }

  lemma SameSystemParts(k: Sizing, y: System)
    requires SameSystem(k, y)
    ensures ValidSizing(k) && SystemOk(y) && k.page == y.page >= 16
    ensures forall size: nat :: Total(y, size) == WithMaps(k.marksCards, k.page, size)
  {
    SystemIs(y);
  }

  // What resizing a heap of size before comes to: the size sought if that is
  // smaller, else as much of it as the system gives, trying all of it first.
  ghost predicate ResizeAims(k: Sizing, y: System, minSize: nat, before: nat, size: nat, mremap: Answers) {
    exists sought: nat :: Sought(k, minSize, before, sought) && AimedAt(y, sought, before, size, mremap)
  }

  predicate AimedAt(y: System, sought: nat, before: nat, size: nat, mremap: Answers) {
    && size <= sought
    && (sought <= before ==> size == sought)
    && (size < sought ==> mremap(0, Total(y, sought)) == REFUSED)
  }

  lemma AimsIntro(k: Sizing, y: System, minSize: nat, before: nat, sought: nat, size: nat, mremap: Answers)
    requires Sought(k, minSize, before, sought) && size <= sought
    requires size != sought ==> before < sought && mremap(0, Total(y, sought)) == REFUSED
    ensures ResizeAims(k, y, minSize, before, size, mremap)
  {
    hide Sought, Total;
    assert AimedAt(y, sought, before, size, mremap);
  }

  // resizeHeap.  Unless it runs out of memory there is room for minSize, and the
  // old generation is kept.
  method ResizeHeap(k: Sizing, y: System, h: GCHeap, secondary: GCHeap, minSize0: nat, mayPageHeap: bool,
                    mremap: Answers, mmap: Answers, mmapAgain: Answers)
    returns (ok: bool)
    requires SameSystem(k, y) && h.Valid(y) && secondary.Valid(y) && h != secondary
    requires h.oldGenSize <= minSize0 && h.oldGenSize <= h.size && 0 < minSize0 <= SIZE_MAX - y.page
    requires WithMaps(k.marksCards, k.page, h.size) <= AlignDown(SIZE_MAX, k.page)
    requires !TooSmallFor(k, minSize0, h.size)
    modifies h, secondary
    ensures ok ==> h.Valid(y) && secondary.Valid(y) && minSize0 <= h.size && Total(y, h.size) <= Limit(k)
    ensures ok ==> h.oldGenSize == old(h.oldGenSize) && h.bytes[..h.oldGenSize] == old(h.bytes[..h.oldGenSize])
    ensures ok ==> ResizeAims(k, y, minSize0, old(h.size), h.size, mremap)
    ensures ok ==> unchanged(secondary) || secondary.size == 0
    ensures ok && h.size <= old(h.size) && secondary.size != old(secondary.size) ==>
      RefusedOnce(mremap, Total(y, old(h.size) + y.page))
    ensures Total(y, AlignTo(minSize0, y.page)) > Limit(k) ==> !ok
    ensures !ok && Total(y, AlignTo(minSize0, y.page)) <= Limit(k) ==>
      if mayPageHeap then exists n :: RefusedAll(mmapAgain, n, Total(y, AlignTo(minSize0, y.page)))
      else RefusedOnce(mremap, Total(y, AlignTo(minSize0, y.page)))
  {
    hide *;
    SameSystemParts(k, y);
    ValidIs(y, h);
    ValidIs(y, secondary);
    EmptyHeap(y);
    PagesAre(y, h.size);
    ghost var bytes, before := h.bytes, h.size;
    var r := SizeofHeapDesired(k, minSize0, h.size);
    match r {
      case OutOfMemory => return false;
      case Size(desiredSize) =>
        PagesAre(y, desiredSize);
        AlignIs(minSize0, y.page);
        AlignIs(desiredSize, y.page);
        var minSize := AlignTo(minSize0, y.page);
        PagesAre(y, minSize);
        if desiredSize <= h.size {
          ShrinkHeap(y, h, desiredSize);
          ValidIs(y, h);
          PrefixOf(bytes, h.bytes, h.oldGenSize);
        } else {
          ReleaseHeap(secondary);
          ValidIntro(y, secondary);
          ok := GrowHeap(y, h, desiredSize, minSize, mayPageHeap, mremap, mmap, mmapAgain);
          RefusedOnceIs(mremap, Total(y, minSize));
          if !ok { return false; }
          ValidIs(y, h);
          MoreTotal(y, h.size, desiredSize);
        }
        AimsIntro(k, y, minSize0, before, desiredSize, h.size, mremap);
        return true;
    }
  }

  lemma PrefixOf(bytes: seq<nat>, kept: seq<nat>, n: nat)
    requires kept <= bytes && n <= |kept|
    ensures kept[..n] == bytes[..n]
  {
  }

  // resizeHeapSecondary: afterwards there is no secondary heap, or one of the
  // same size as the primary.
  method ResizeHeapSecondary(y: System, ram: nat, h: GCHeap, secondary: GCHeap, mremap: Answers)
    requires SystemOk(y) && h.Valid(y) && secondary.Valid(y) && h != secondary && h.size > 0
    modifies secondary
    ensures secondary.Valid(y) && (secondary.size == 0 || secondary.size == h.size)
    ensures secondary.size == 0 || 2 * h.withMapsSize <= ram
    ensures old(secondary.size) == 0 ==> unchanged(secondary)
    // it is given up only if it may cause paging or cannot be made larger
    ensures old(secondary.size) > 0 && secondary.size == 0 ==>
      2 * h.withMapsSize > ram || (old(secondary.size) < h.size && mremap(0, Total(y, h.size)) == REFUSED)
  {
    hide *;
    SystemIs(y);
    ValidIs(y, h);
    ValidIs(y, secondary);
    EmptyHeap(y);
    PagesAre(y, h.size);
    AlignIs(h.size, y.page);
    var primarySize, primaryWithMapsSize, secondarySize := h.size, h.withMapsSize, secondary.size;
    if secondarySize == 0 { return; }
    if 2 * primaryWithMapsSize > ram {
      ReleaseHeap(secondary);
    } else if secondarySize < primarySize {
      var remapped := secondary.RemapHeap(y, primarySize, primarySize, mremap, 0);
      if !remapped { ReleaseHeap(secondary); }
    } else if secondarySize > primarySize {
      ShrinkHeap(y, secondary, primarySize);
      ValidIs(y, secondary);
    }
    ValidIntro(y, secondary);
  }

  // createHeapSecondary: room for everything in the old generation, within the
  // limits of the controls together with the primary heap.
  method CreateHeapSecondary(k: Sizing, y: System, h: GCHeap, secondary: GCHeap, desiredSize: nat, mmap: Answers)
    returns (ok: bool)
    requires SameSystem(k, y) && h.Valid(y) && secondary.size == 0 && h != secondary
    requires 0 < h.oldGenSize <= h.size && Pages(y, desiredSize)
    modifies secondary
    ensures ok ==>
      secondary.Valid(y) && h.oldGenSize <= secondary.size &&
      (secondary.size <= desiredSize || secondary.size <= h.size)
    ensures ok && (k.fixedHeap > 0 || k.maxHeap > 0) ==>
      (h.withMapsSize + secondary.withMapsSize <= Limit(k) <==>
        h.oldGenSize <= desiredSize || h.withMapsSize + Total(y, AlignTo(h.oldGenSize, y.page)) <= Limit(k))
    ensures !ok ==> unchanged(secondary)
    ensures !ok ==>
      || (k.fixedHeap > 0 && h.withMapsSize + Total(y, desiredSize) > k.fixedHeap)
      || (k.maxHeap > 0 && h.withMapsSize + Total(y, desiredSize) > k.maxHeap)
      || h.withMapsSize + Total(y, AlignTo(h.oldGenSize, y.page)) > SIZE_MAX
      || exists n :: RefusedAll(mmap, n, Total(y, AlignTo(h.oldGenSize, y.page)))
    ensures ok && h.oldGenSize <= desiredSize && secondary.size != desiredSize ==>
      RefusedAll(mmap, 0, Total(y, desiredSize))
  {
    hide *;
    SameSystemParts(k, y);
    SystemIs(y);
    LimitIs(k);
    ValidIs(y, h);
    PagesAre(y, h.size);
    PagesAre(y, desiredSize);
    AlignIs(desiredSize, y.page);
    AlignBelow(h.oldGenSize, h.size, y.page);
    AlignIs(h.oldGenSize, y.page);
    SizingParts(k);
    var desiredWithMapsSize := Total(y, desiredSize);
    if (k.fixedHeap > 0 && h.withMapsSize + desiredWithMapsSize > k.fixedHeap)
      || (k.maxHeap > 0 && h.withMapsSize + desiredWithMapsSize > k.maxHeap) {
      return false;
    }
    var minWithMapsSize := Total(y, AlignTo(h.oldGenSize, y.page));
    if minWithMapsSize + h.withMapsSize > SIZE_MAX { return false; }
    var created, _ := secondary.CreateHeap(y, desiredSize, h.oldGenSize, mmap);
    ok := created;
    if ok {
      ValidIntro(y, secondary);
      if desiredSize < h.oldGenSize {
        PagesAre(y, secondary.size);
        AlignBelow(h.oldGenSize, secondary.size, y.page);
      }
      MoreTotal(y, secondary.size, desiredSize);
    }
  }

  // Both heaps beyond the limit: with a maximal heap of 100 pages, a primary heap
  // of 60 pages that is all old generation, and a desired size of 30 pages, any
  // system that grants memory ends with 120 pages.
  method SecondaryBeyondLimit(k: Sizing, y: System, h: GCHeap, secondary: GCHeap, mmap: Answers) returns (ok: bool)
    requires k == Sizing(false, 4096, 4194304, 0, 409600, 8.0, 8.0, 4.0, 1.04) && y == System(false, 4096, 12)
    requires h != secondary && h.size == h.withMapsSize == h.oldGenSize == |h.bytes| == 245760 && secondary.size == 0
    requires Grants(mmap)
    modifies secondary
    ensures ok && h.withMapsSize + secondary.withMapsSize > Limit(k) == 409600
  {
    hide *;
    PlainSystem(k, y);
    SizesOf(k, y);
    ValidIntro(y, h);
    ok := CreateHeapSecondary(k, y, h, secondary, 122880, mmap);
    if !ok {
      ghost var n :| RefusedAll(mmap, n, Total(y, AlignTo(h.oldGenSize, y.page)));
      NotRefused(mmap, n, Total(y, AlignTo(h.oldGenSize, y.page)));
    }
  }

  ghost predicate Grants(answers: Answers) { forall n: nat, size: nat :: answers(n, size) != REFUSED }

  lemma NotRefused(answers: Answers, n: nat, size: nat)
    requires Grants(answers)
    ensures !RefusedAll(answers, n, size)
  {
    assert answers(n, size) != REFUSED;
  }

  lemma PlainSystem(k: Sizing, y: System)
    requires k == Sizing(false, 4096, 4194304, 0, 409600, 8.0, 8.0, 4.0, 1.04) && y == System(false, 4096, 12)
    ensures SameSystem(k, y) && Limit(k) == 409600
  {
    hide AlignDown;
    SmallPowers();
    Modular.Pow2Add(4, 8);
  }

  lemma SizesOf(k: Sizing, y: System)
    requires k.page == 4096 && y == System(false, 4096, 12)
    ensures Pages(y, 245760) && Pages(y, 122880) && Total(y, 245760) == 245760 && Total(y, 122880) == 122880
    ensures AlignTo(245760, y.page) == 245760 && SIZE_MAX == 0xFFFF_FFFF_FFFF_FFFF
  {
    hide WithMaps, AlignTo;
    NoMaps(4096);
    AlignIs(245760, 4096);
    var a, b := 245760, 122880;
    assert WithMaps(false, 4096, a) == a && WithMaps(false, 4096, b) == b;
  }
}
