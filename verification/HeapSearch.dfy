// Finding room for a heap: the biased searches of createHeap and remapHeap over
// an operating system that may refuse any request.

module HeapSearch {
  import opened Align
  import opened Modular
  import opened MapSizes

  // What the searches need to know of the system: whether maps are used, and the
  // page size, a power of two.
  datatype System = System(marksCards: bool, page: nat, pageLog2: nat)

  predicate SystemOk(y: System) { y.pageLog2 >= 8 && y.page == Pow2(y.pageLog2) }

  // The answer of the operating system to its request number n for a size: an
  // address, or REFUSED.
  type Answers = (nat, nat) -> int

  const REFUSED: int := -1

  const ADDRESS_COUNT: nat := 32

  function Total(y: System, size: nat): nat {
    if y.page > 0 then WithMaps(y.marksCards, y.page, size) else size
  }

  function Mix(factor: nat, a: nat, b: nat): nat
    requires factor > 0
  {
    (factor - 1) * a + b
  }

  // Between low and high: align ((factor-1) * (high / factor) + low / factor, page).
  function Probe(y: System, factor: nat, high: nat, low: nat): nat {
    if y.page > 0 && factor > 0 then AlignTo(Mix(factor, high / factor, low / factor), y.page) else 0
  }

  predicate Pages(y: System, size: nat) { y.page > 0 && size % y.page == 0 }

  // factor divides the page size.
  predicate FactorOk(y: System, factor: nat) {
    factor > 0 && y.page > 0 && y.page % factor == 0
  }

  lemma SystemIs(y: System)
    requires SystemOk(y)
    ensures PageOk(y.page) && y.page >= 16 && FactorOk(y, 16)
  {
    hide Pow2;
    assert Pow2(4) == 16 && Pow2(8) == 256 by { SmallPowers(); }
    Pow2Add(4, y.pageLog2 - 4);
    Pow2Add(8, y.pageLog2 - 8);
    Pow2Mono(8, y.pageLog2);
    ModMultiple(0, Pow2(y.pageLog2 - 4), 16);
    ModMultiple(0, Pow2(y.pageLog2 - 8), 256);
  }

  lemma SmallPowers()
    ensures Pow2(4) == 16 && Pow2(8) == 256
  {
    Pow2Add(4, 4);
  }

  // Factors are powers of two up to the page size.
  lemma Factors(y: System, factor: nat, log2: nat)
    requires SystemOk(y) && factor == Pow2(log2)
    ensures factor <= y.page ==> FactorOk(y, factor)
    ensures factor < y.page ==> factor + factor <= y.page && factor + factor == Pow2(log2 + 1)
  {
    Powers(y.pageLog2, log2);
    DoublePower(log2);
    if y.pageLog2 > log2 { Pow2Mono(log2 + 1, y.pageLog2); }
    if y.pageLog2 < log2 {
      Pow2Mono(y.pageLog2 + 1, log2);
      DoublePower(y.pageLog2);
    }
  }

  lemma DoublePower(p: nat)
    ensures Pow2(p + 1) == 2 * Pow2(p)
  {
  }

  lemma Powers(p: nat, q: nat)
    ensures q <= p ==> Pow2(p) % Pow2(q) == 0
  {
    if q <= p {
      Pow2Add(q, p - q);
      ModMultiple(0, Pow2(p - q), Pow2(q));
    }
  }

  // A probe lies between low and high and is a whole number of pages.
  lemma ProbeBetween(y: System, factor: nat, high: nat, low: nat)
    requires FactorOk(y, factor) && Pages(y, high) && Pages(y, low) && low <= high
    ensures low <= Probe(y, factor, high, low) <= high && Pages(y, Probe(y, factor, high, low))
    // it leaves out one part in factor of what lies between, up to a page
    ensures high - (high - low) / factor <= Probe(y, factor, high, low) < high - (high - low) / factor + y.page
  {
    hide AlignTo;
    var a, b := high / factor, low / factor;
    Quotients(high, y.page, factor);
    Quotients(low, y.page, factor);
    if a < b { MulLess(factor, a, b); }
    Weighted(factor, a, b);
    AlignIs(Mix(factor, a, b), y.page);
    AlignBelow(Mix(factor, a, b), high, y.page);
    PartLeftOut(factor, high, low, a, b);
  }

  lemma PartLeftOut(factor: nat, high: nat, low: nat, a: nat, b: nat)
    requires factor > 0 && high == factor * a && low == factor * b && low <= high
    ensures Mix(factor, a, b) == high - (high - low) / factor
  {
    if a < b { MulLess(factor, a, b); }
    Distribute(factor, b, a - b);
    DivModUnique(high - low, factor, a - b, 0);
    OneTimes(factor - 1, a);
  }

  lemma Quotients(size: nat, page: nat, factor: nat)
    requires page > 0 && factor > 0 && size % page == 0 && page % factor == 0
    ensures size == factor * (size / factor)
  {
    var n, c := size / page, page / factor;
    DivMod(size, page);
    DivMod(page, factor);
    assert size == page * n;
    Associate(factor, c, n);
    DivModUnique(size, factor, c * n, 0);
  }

  lemma OneTimes(f: nat, a: nat)
    ensures (f + 1) * a == f * a + a && f * a >= 0
  {
  }

  lemma Weighted(factor: nat, a: nat, b: nat)
    requires factor > 0 && b <= a
    ensures 0 <= factor * b <= Mix(factor, a, b) <= factor * a
  {
    var d, f: nat := a - b, factor - 1;
    Distribute(f, b, d);
    Distribute(factor, b, d);
    OneTimes(f, a);
    OneTimes(f, b);
  }

  // Every answer for a request of at most limit bytes is a grant, every other a refusal.
  ghost predicate Bounded(answers: Answers, limit: nat) {
    forall n: nat, size: nat :: answers(n, size) != REFUSED <==> size <= limit
  }

  // Some request for this size was granted.
  ghost predicate Granted(answers: Answers, size: nat) { exists n: nat :: answers(n, size) != REFUSED }

  lemma GrantedAt(answers: Answers, n: nat, size: nat)
    ensures answers(n, size) != REFUSED ==> Granted(answers, size)
  {
  }

  // The requests from number n on for this size were all refused.
  ghost predicate RefusedAll(answers: Answers, n: nat, size: nat) {
    forall i: nat :: n <= i < n + ADDRESS_COUNT ==> answers(i, size) == REFUSED
  }

  // What remapping does to the memory: a prefix of it, or zeros behind it.
  function Resized(bytes: seq<nat>, size: nat): seq<nat> {
    if size <= |bytes| then bytes[..size] else bytes + seq(size - |bytes|, _ => 0)
  }

  lemma ResizedIs(bytes: seq<nat>, size: nat)
    ensures |Resized(bytes, size)| == size
    ensures |bytes| <= size ==> bytes <= Resized(bytes, size)
    ensures size <= |bytes| ==> Resized(bytes, size) <= bytes
  {
  }

  class GCHeap {
    var start: int
    var size: nat
    var withMapsSize: nat
    var oldGenSize: nat
    // The memory from start on.
    var bytes: seq<nat>

    // initHeap.
    constructor ()
      ensures size == 0 && withMapsSize == 0 && oldGenSize == 0 && start == 0 && bytes == []
    {
      start, size, withMapsSize, oldGenSize, bytes := 0, 0, 0, 0, [];
    }

    predicate Valid(y: System)
      reads this
    {
      && Pages(y, size) && |bytes| == size
      && withMapsSize == Total(y, size)
    }

    // createHeap.  It fails only if the least acceptable size was refused at
    // every address.
    method CreateHeap(y: System, desiredSize0: nat, minSize0: nat, mmap: Answers) returns (ok: bool, n: nat)
      requires SystemOk(y) && minSize0 > 0 && size == 0
      modifies this
      ensures ok ==> Pages(y, size) && withMapsSize == Total(y, size) && mmap(n, withMapsSize) == start != REFUSED
      ensures ok ==> minSize0 <= size <= AlignTo(if desiredSize0 < minSize0 then minSize0 else desiredSize0, y.page)
      ensures ok ==> |bytes| == size && oldGenSize == old(oldGenSize)
      ensures !ok ==> unchanged(this) && RefusedAll(mmap, n, Total(y, AlignTo(minSize0, y.page)))
      // the desired size is tried first, at every address
      ensures var desired := AlignTo(if desiredSize0 < minSize0 then minSize0 else desiredSize0, y.page);
        !ok || size != desired ==> RefusedAll(mmap, 0, Total(y, desired))
    {
      hide *;
      SystemIs(y);
      var desiredSize := if desiredSize0 < minSize0 then minSize0 else desiredSize0;
      Rounds(y, minSize0, desiredSize);
      var minSize := AlignTo(minSize0, y.page);
      desiredSize := AlignTo(desiredSize, y.page);
      var factor := 16;
      ghost var log2: nat := 4;
      SmallPowers();
      var lowSize: nat, highSize: nat := minSize, desiredSize;
      var newSize := highSize;
      var loopCount := 0;
      n := 0;
      while lowSize <= highSize
        invariant lowSize == minSize && y.page <= minSize && Pages(y, minSize) && Pages(y, highSize)
        invariant factor == Pow2(log2) && FactorOk(y, factor) && factor <= y.page
        invariant lowSize <= highSize ==> lowSize <= newSize <= highSize && Pages(y, newSize)
        invariant highSize <= desiredSize
        invariant (n == 0 && newSize == highSize == desiredSize) || RefusedAll(mmap, 0, Total(y, desiredSize))
        invariant lowSize > highSize ==> n >= ADDRESS_COUNT && RefusedAll(mmap, n - ADDRESS_COUNT, Total(y, minSize))
        invariant unchanged(this)
        decreases highSize
      {
        var newWithMapsSize := Total(y, newSize);
        var first := n;
        CountIs();
        for i := 1 to ADDRESS_COUNT + 1
          invariant n == first + i - 1 && unchanged(this)
          invariant forall j: nat :: first <= j < n ==> mmap(j, newWithMapsSize) == REFUSED
        {
          var newStart := mmap(n, newWithMapsSize);
          if newStart != REFUSED {
            start, size, withMapsSize := newStart, newSize, newWithMapsSize;
            bytes := seq(newSize, _ => 0);
            return true, n;
          }
          n := n + 1;
        }
        RefusedIntro(mmap, first, newWithMapsSize);
        highSize := newSize - y.page;
        PageLess(y, newSize, minSize);
        newSize := Probe(y, factor, highSize, lowSize);
        if lowSize <= highSize { ProbeBetween(y, factor, highSize, lowSize); }
        Factors(y, factor, log2);
        if factor < y.page {
          loopCount := loopCount + 1;
          if loopCount % 64 == 0 {
            factor := factor + factor;
            log2 := log2 + 1;
            Factors(y, factor, log2);
            if lowSize <= highSize { ProbeBetween(y, factor, highSize, lowSize); }
          }
        }
      }
      n := n - ADDRESS_COUNT;
      return false, n;
    }

    // remapHeap.  Over a system that grants exactly the sizes up to some limit it
    // ends with the largest feasible size.
    method RemapHeap(y: System, desiredSize0: nat, minSize0: nat, mremap: Answers, ghost limit: nat)
      returns (result: bool)
      requires SystemOk(y) && 0 < minSize0 <= desiredSize0 && |bytes| == size
      modifies this
      ensures oldGenSize == old(oldGenSize) && |bytes| == size
      ensures old(size) <= minSize0 ==> old(bytes) <= bytes
      ensures result ==> Pages(y, size) && withMapsSize == Total(y, size) && start != REFUSED
      ensures result ==> Granted(mremap, withMapsSize)
      ensures result ==> minSize0 <= size <= AlignTo(desiredSize0, y.page)
      ensures !result ==> unchanged(this) && exists n :: mremap(n, Total(y, AlignTo(minSize0, y.page))) == REFUSED
      // the desired size is tried first
      ensures !result || size != AlignTo(desiredSize0, y.page) ==>
        mremap(0, Total(y, AlignTo(desiredSize0, y.page))) == REFUSED
      ensures Bounded(mremap, limit) ==> (result <==> Total(y, AlignTo(minSize0, y.page)) <= limit)
      ensures Bounded(mremap, limit) && result ==> LargestFeasible(y, size, AlignTo(desiredSize0, y.page), limit)
    {
      hide *;
      SystemIs(y);
      Rounds(y, minSize0, desiredSize0);
      var minSize, desiredSize := AlignTo(minSize0, y.page), AlignTo(desiredSize0, y.page);
      var factor := 16;
      var lowSize: nat, highSize: nat := minSize, desiredSize;
      var newSize := highSize;
      result := false;
      var n: nat := 0;
      NoneAbove(y, desiredSize, limit);
      while lowSize <= highSize
        invariant y.page <= minSize <= lowSize && Pages(y, lowSize) && Pages(y, highSize) && highSize <= desiredSize
        invariant lowSize <= highSize ==> lowSize <= newSize <= highSize && Pages(y, newSize)
        invariant lowSize <= highSize + y.page
        invariant || (n == 0 && newSize == highSize == desiredSize && lowSize == minSize)
                  || (result && size == desiredSize && highSize == desiredSize && lowSize > highSize)
                  || mremap(0, Total(y, desiredSize)) == REFUSED
        invariant !result ==> lowSize == minSize && unchanged(this)
        invariant result ==>
          minSize <= size == lowSize - y.page && size <= desiredSize && Pages(y, size) &&
          withMapsSize == Total(y, size) && start != REFUSED
        invariant result ==> Granted(mremap, withMapsSize)
        invariant !result && highSize < minSize ==> exists n :: mremap(n, Total(y, minSize)) == REFUSED
        invariant Bounded(mremap, limit) && result ==> Total(y, size) <= limit
        invariant Bounded(mremap, limit) ==> NoneFeasible(y, highSize, desiredSize, limit)
        invariant Bounded(mremap, limit) && highSize < minSize && !result ==> Total(y, minSize) > limit
        invariant oldGenSize == old(oldGenSize) && |bytes| == size
        invariant old(size) <= minSize ==> old(bytes) <= bytes
        decreases highSize - lowSize + y.page
      {
        var newWithMapsSize := Total(y, newSize);
        var newStart := mremap(n, newWithMapsSize);
        BoundedAt(mremap, limit, n, newWithMapsSize);
        GrantedAt(mremap, n, newWithMapsSize);
        MoreTotal(y, minSize, newSize);
        PageMore(y, newSize, highSize);
        PageLess(y, newSize, lowSize);
        if newStart != REFUSED {
          start, size, withMapsSize := newStart, newSize, newWithMapsSize;
          ResizedIs(bytes, newSize);
          bytes := Resized(bytes, newSize);
          lowSize := newSize + y.page;
          newSize := Probe(y, factor, highSize, lowSize);
          result := true;
        } else {
          if Bounded(mremap, limit) { NoneBelow(y, newSize, highSize, desiredSize, limit); }
          highSize := newSize - y.page;
          newSize := Probe(y, factor, highSize, lowSize);
        }
        if lowSize <= highSize { ProbeBetween(y, factor, highSize, lowSize); }
        n := n + 1;
      }
      PageStep(y, highSize, lowSize);
      MoreTotal(y, minSize, size);
      if result && Bounded(mremap, limit) { LargestIntro(y, size, highSize, desiredSize, limit); }
    }
  }

  // No whole number of pages above high and up to desired is feasible.
  ghost predicate NoneFeasible(y: System, high: nat, desired: nat, limit: nat) {
    forall x: nat :: Pages(y, x) && high < x <= desired ==> Total(y, x) > limit
  }

  ghost predicate LargestFeasible(y: System, size: nat, desired: nat, limit: nat) {
    && Total(y, size) <= limit
    && forall x: nat :: Pages(y, x) && x <= desired && Total(y, x) <= limit ==> x <= size
  }

  lemma NoneAbove(y: System, desired: nat, limit: nat)
    ensures NoneFeasible(y, desired, desired, limit)
  {
  }

  lemma MoreTotal(y: System, x: nat, z: nat)
    ensures x <= z ==> Total(y, x) <= Total(y, z)
  {
    hide WithMaps;
    if y.page > 0 && x <= z { MapsMono(y.marksCards, y.page, x, z); }
  }

  // A refused size rules out everything above the page below it.
  lemma NoneBelow(y: System, size: nat, high: nat, desired: nat, limit: nat)
    requires NoneFeasible(y, high, desired, limit) && Pages(y, size) && Total(y, size) > limit && y.page <= size
    ensures NoneFeasible(y, size - y.page, desired, limit)
  {
    hide Total;
    forall x: nat | Pages(y, x) && size - y.page < x <= desired
      ensures Total(y, x) > limit
    {
      if x < size { NextMultiple(x, size, y.page); }
      MoreTotal(y, size, x);
    }
  }

  lemma LargestIntro(y: System, size: nat, high: nat, desired: nat, limit: nat)
    requires NoneFeasible(y, high, desired, limit) && Total(y, size) <= limit && high <= size
    ensures LargestFeasible(y, size, desired, limit)
  {
  }

  lemma BoundedAt(answers: Answers, limit: nat, n: nat, size: nat)
    ensures Bounded(answers, limit) ==> (answers(n, size) != REFUSED <==> size <= limit)
    ensures REFUSED == -1
  {
  }

  lemma CountIs()
    ensures ADDRESS_COUNT == 32
  {
  }

  lemma RefusedIntro(answers: Answers, n: nat, size: nat)
    requires forall j: nat :: n <= j < n + ADDRESS_COUNT ==> answers(j, size) == REFUSED
    ensures RefusedAll(answers, n, size)
  {
  }

  lemma Rounds(y: System, minSize: nat, desiredSize: nat)
    requires y.page > 0 && 0 < minSize <= desiredSize
    ensures Pages(y, AlignTo(minSize, y.page)) && Pages(y, AlignTo(desiredSize, y.page))
    ensures y.page <= AlignTo(minSize, y.page) <= AlignTo(desiredSize, y.page) && minSize <= AlignTo(minSize, y.page)
  {
    hide AlignTo;
    AlignIs(minSize, y.page);
    AlignIs(desiredSize, y.page);
    AlignBelow(minSize, AlignTo(desiredSize, y.page), y.page);
    SmallMod(0, y.page);
    NextMultiple(0, AlignTo(minSize, y.page), y.page);
  }

  // One page less is whole pages, and no less than low unless size is low.
  lemma PageLess(y: System, size: nat, low: nat)
    requires Pages(y, size) && Pages(y, low) && y.page <= low <= size
    ensures Pages(y, size - y.page) && (size != low ==> low <= size - y.page)
  {
    ModMultiple(0, 1, y.page);
    DifferenceAligned(size, y.page, y.page);
    if low < size { NextMultiple(low, size, y.page); }
  }

  lemma PageStep(y: System, low: nat, high: nat)
    requires Pages(y, low) && Pages(y, high)
    ensures low < high ==> low + y.page <= high
  {
    if low < high { NextMultiple(low, high, y.page); }
  }

  lemma PageMore(y: System, size: nat, high: nat)
    requires Pages(y, size) && Pages(y, high) && size <= high
    ensures Pages(y, size + y.page) && (size != high ==> size + y.page <= high)
  {
    NextAligned(size, y.page);
    if size < high { NextMultiple(size, high, y.page); }
  }
}
