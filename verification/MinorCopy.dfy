// minorCheneyCopyGC: copy what lives in the nursery behind the old generation.
// Afterwards the old generation alone is a heap again, and no pointer leads
// into the nursery.

module MinorCopy {
  import opened Layout
  import opened Graph
  import opened Heap
  import opened State
  import opened StackObject
  import opened Tiling
  import opened Relocate
  import opened Cursor
  import opened DfsInvariant
  import opened Roots
  import opened CrossMap
  import opened Collection
  import opened Copying
  import opened CopyStep
  import opened CopyScan
  import opened Forward
  import opened Cheney
  import opened OldScan
  import opened CardScan
  import opened CopyDone
  import opened MajorCopy
  import opened MinorHeap

  // A completed collection of the nursery: new objects from the old end up to
  // end, and everything but the old slots, the roots and the nursery untouched.
  ghost predicate MinorDone(h: Generations, c: Collection, order: seq<nat>, m': Memory, end: nat) {
    && GenerationsOk(h) && c == Nursery(h).(dest := c.dest)
    && Collected(c, order, m', h.f.sp.oldEnd, end) && end <= h.f.sp.nursery
    && Elsewhere(MinorSetting(h), m')
  }

  lemma DoneParts(h: Generations, c: Collection, order: seq<nat>, m': Memory, end: nat)
    requires MinorDone(h, c, order, m', end)
    ensures GenerationsOk(h) && Collected(c, order, m', h.f.sp.oldEnd, end) && end <= h.f.sp.nursery &&
      Elsewhere(MinorSetting(h), m')
    ensures HeapOk(c) && HeapOk(h.f) && |m'| == |h.f.m| && h.f.sp.oldEnd <= end
    ensures c.env == h.f.env && c.k == h.f.k && c.m == h.f.m && c.H == YoungHeap(h) &&
      c.roots == h.f.roots + OldSlots(h.old_, |h.old_|)
    ensures c.sp == Spaces(h.f.sp.nursery, h.f.sp.frontier, h.f.sp.nursery, h.f.sp.frontier) && !c.clearsForeign
    ensures c.dest.Keys == Live(c) && c.dest.Keys <= YoungHeap(h).Keys
    ensures MinorOk(MinorSetting(h), h.f.roots, h.old_, h.f.sp.start, h.f.sp.oldEnd) && MinorSetting(h).c == Nursery(h)
  {
    hide *;
    DoneIs(h, c, order, m', end);
    Parts(h);
    NurseryFields(h);
    NurseryHeapOk(h);
    HeapSame(Nursery(h), c);
    CollectedParts(c, order, m', h.f.sp.oldEnd, end);
    MinorSettingOk(h);
    ElsewhereLength(MinorSetting(h), m');
    forall p | p in c.dest
      ensures p in YoungHeap(h)
    {
      KeptIsOld(c, p);
    }
  }

  lemma DoneIs(h: Generations, c: Collection, order: seq<nat>, m': Memory, end: nat)
    requires MinorDone(h, c, order, m', end)
    ensures GenerationsOk(h) && c == Nursery(h).(dest := c.dest)
    ensures Collected(c, order, m', h.f.sp.oldEnd, end) && end <= h.f.sp.nursery && Elsewhere(MinorSetting(h), m')
  {
    hide GenerationsOk, Collected, Elsewhere, Nursery, MinorSetting;
  }

  // The heap afterwards: the old objects and the new ones.
  ghost function WholeHeap(h: Generations, c: Collection): Objects { OldHeap(h) + NewHeap(c) }

  ghost function After(h: Generations, c: Collection, m': Memory, end: nat): Collection {
    h.f.(m := m', H := WholeHeap(h, c), sp := h.f.sp.(oldEnd := end))
  }

  // All addresses from the start of the heap up to the frontier.
  function Inside(h: Generations): Spaces {
    Spaces(h.f.sp.start, h.f.sp.frontier, h.f.sp.start, h.f.sp.frontier)
  }

  lemma WholeAt(h: Generations, c: Collection, p: nat)
    ensures p in WholeHeap(h, c) <==> p in OldHeap(h) || p in NewHeap(c)
    ensures p in NewHeap(c) ==> WholeHeap(h, c)[p] == NewHeap(c)[p]
    ensures p in OldHeap(h) && p !in NewHeap(c) ==> WholeHeap(h, c)[p] == h.f.H[p]
  {
    hide NewHeap;
  }

  // Old objects lie below the new ones.
  lemma OldBelow(h: Generations, p: nat)
    requires GenerationsOk(h) && p in OldHeap(h)
    ensures p in h.f.H && h.f.sp.start <= h.f.H[p].front < p <= h.f.H[p].end <= h.f.sp.oldEnd && h.f.H[p].p == p
    ensures exists u :: 0 <= u < |h.old_| && h.old_[u] == h.f.H[p]
  {
    hide *;
    Parts(h);
    OldKeys(h, p);
    WhichGeneration(h, p);
    var u := IndexIn(h.old_, p);
    OldAt(h, u);
    OldObject(h.f, p);
  }

  lemma OldKeys(h: Generations, p: nat)
    requires p in OldHeap(h)
    ensures p in h.f.H && p in Contains(h.old_)
  {
    hide Contains;
  }

  lemma NewAbove(h: Generations, c: Collection, order: seq<nat>, m': Memory, end: nat, d: nat)
    requires MinorDone(h, c, order, m', end) && d in NewHeap(c)
    ensures h.f.sp.oldEnd <= NewHeap(c)[d].front < d <= NewHeap(c)[d].end <= end && NewHeap(c)[d].p == d &&
      d !in OldHeap(h)
    ensures IsObject(h.f.env, m', NewHeap(c)[d])
  {
    hide *;
    DoneParts(h, c, order, m', end);
    NewHeapKey(c, d);
    var p :| p in c.dest && c.dest[p] == d;
    NewHeapAt(c, order, m', h.f.sp.oldEnd, end, p);
    InOrder(c, order, m', h.f.sp.oldEnd, end, p);
    if d in OldHeap(h) { OldBelow(h, d); }
  }

  lemma OldStays(h: Generations, c: Collection, order: seq<nat>, m': Memory, end: nat, p: nat)
    requires MinorDone(h, c, order, m', end) && p in OldHeap(h)
    ensures p in h.f.H && IsObject(h.f.env, m', h.f.H[p]) && Clean(h.f.env, m', h.f.H[p])
    ensures 0 < p <= |m'| && m'[p - 1].Header? && !m'[p - 1].mark
    ensures IsWeak(h.f.env, h.f.H[p]) && |h.f.H[p].slots| == 0 ==> p + 1 < |m'| && m'[p + 1].Bits?
  {
    hide *;
    DoneParts(h, c, order, m', end);
    OldBelow(h, p);
    var u :| 0 <= u < |h.old_| && h.old_[u] == h.f.H[p];
    var t := MinorSetting(h);
    OldReadable(t, h.f.roots, h.old_, h.f.sp.start, h.f.sp.oldEnd, m', u);
    NurseryFields(h);
    ObjectOf(h.f.env, m', h.f.H[p]);
    OldObject(h.f, p);
    HeaderClean(h.f, p);
    SlotsAbove(h.f.env, h.f.m, h.f.H[p]) by { IsOJoin(h.f.env, h.f.m, h.f.H[p]); }
    OldUnused(t, h.f.roots, h.old_, h.f.sp.start, h.f.sp.oldEnd, u, p - 1);
    ElsewhereAt(t, m', p - 1);
    if IsWeak(h.f.env, h.f.H[p]) && |h.f.H[p].slots| == 0 {
      OldGone(h.f, p);
      WeakSlots(h.f.env, h.f.m, h.f.H[p]);
      OldUnused(t, h.f.roots, h.old_, h.f.sp.start, h.f.sp.oldEnd, u, p + 1);
      ElsewhereAt(t, m', p + 1);
    }
  }

  lemma ObjectOf(env: Env, m: Memory, o: Obj)
    requires IsO(env, m, o)
    ensures ValidEnv(env) && IsObject(env, m, o)
  {
    hide ValidEnv, IsObject;
  }

  // ------------------------------------------------------------------ references

  // What a word of the heap becomes is a pointer to an object of the new heap,
  // if it points into it at all.
  lemma WordAfter(h: Generations, c: Collection, order: seq<nat>, m': Memory, end: nat, w: Word)
    requires MinorDone(h, c, order, m', end) && TargetOk(h.f.H, h.f.sp, w) && NotInGap(h.f, w)
    requires w.Ptr? && w.addr in YoungHeap(h) ==> w.addr in c.dest
    ensures TargetOk(WholeHeap(h, c), Inside(h), NewWord(c, w))
  {
    hide *;
    DoneParts(h, c, order, m', end);
    Parts(h);
    NewWordOf(c, w);
    if w.Ptr? {
      if w.addr in c.dest {
        NewHeapAt(c, order, m', h.f.sp.oldEnd, end, w.addr);
        WholeAt(h, c, c.dest[w.addr]);
        TargetIntro(WholeHeap(h, c), Inside(h), c.dest[w.addr]);
      } else if h.f.sp.start <= w.addr <= h.f.sp.frontier {
        GapIs(h.f, w);
        FullIs(h.f, w);
        WhichGeneration(h, w.addr);
        WholeAt(h, c, w.addr);
        TargetIntro(WholeHeap(h, c), Inside(h), w.addr);
      } else {
        OutsideIntro(WholeHeap(h, c), h, w);
      }
    } else {
      NoPointer(WholeHeap(h, c), Inside(h), w);
    }
  }

  lemma TargetIntro(H: Objects, sp: Spaces, p: nat)
    requires p in H
    ensures TargetOk(H, sp, Ptr(p))
  {
    hide InSpaces;
  }

  lemma NoPointer(H: Objects, sp: Spaces, w: Word)
    requires !w.Ptr?
    ensures TargetOk(H, sp, w)
  {
  }

  lemma OutsideIntro(H: Objects, h: Generations, w: Word)
    requires w.Ptr? && !(h.f.sp.start <= w.addr <= h.f.sp.frontier)
    ensures TargetOk(H, Inside(h), w)
  {
  }

  lemma GapIs(f: Collection, w: Word)
    requires NotInGap(f, w) && w.Ptr?
    ensures w.addr <= f.sp.oldEnd || f.sp.nursery <= w.addr
  {
  }

  lemma FullIs(f: Collection, w: Word)
    requires TargetOk(f.H, f.sp, w) && w.Ptr? &&
      (f.sp.start <= w.addr <= f.sp.oldEnd || f.sp.nursery <= w.addr <= f.sp.frontier)
    ensures w.addr in f.H
  {
  }

  lemma YoungTarget(c: Collection, p: nat, i: nat, w: Word)
    requires HeapOk(c) && w.Ptr? && w.addr in c.H
    ensures InSpaces(c.sp, w.addr)
  {
    hide Quiet, SlotsOk, RootsOk, NoMarks, FramesBounded, InSpaces;
  }

  lemma RootAfter(h: Generations, c: Collection, order: seq<nat>, m': Memory, end: nat, i: nat)
    requires MinorDone(h, c, order, m', end) && i < |c.roots|
    ensures 0 < c.roots[i] < |m'| && TargetOk(WholeHeap(h, c), Inside(h), m'[c.roots[i]])
    ensures c.roots[i] < |c.m| && m'[c.roots[i]] == NewWord(c, c.m[c.roots[i]])
  {
    hide *;
    DoneParts(h, c, order, m', end);
    CollectedParts(c, order, m', h.f.sp.oldEnd, end);
    RootFacts(c, i);
    MovedRoot(c, m', i);
    var w := c.m[c.roots[i]];
    RootReached(c, i);
    Parts(h);
    if i < |h.f.roots| {
      RootFacts(h.f, i);
      GapRoot(h.f, i);
      WordAtIs(h.f.m, h.f.roots[i]);
    } else {
      OldSlotAt(h, i - |h.f.roots|);
    }
    WordAfter(h, c, order, m', end, w);
  }

  lemma MovedRoot(c: Collection, m': Memory, i: nat)
    requires RootsMoved(c, m') && i < |c.roots| && c.roots[i] < |c.m| == |m'|
    ensures m'[c.roots[i]] == NewWord(c, c.m[c.roots[i]])
  {
    hide NewWord;
  }

  lemma GapRoot(f: Collection, i: nat)
    requires GapFree(f) && i < |f.roots|
    ensures NotInGap(f, WordAt(f.m, f.roots[i]))
  {
    hide NotInGap, WordAt;
  }

  lemma OldSlotAfter(h: Generations, c: Collection, order: seq<nat>, m': Memory, end: nat, p: nat, i: nat)
    requires MinorDone(h, c, order, m', end) && p in OldHeap(h) && p in h.f.H && i < |h.f.H[p].slots|
    ensures h.f.H[p].slots[i] < |m'| && TargetOk(WholeHeap(h, c), Inside(h), m'[h.f.H[p].slots[i]])
  {
    hide *;
    DoneParts(h, c, order, m', end);
    OldBelow(h, p);
    var u :| 0 <= u < |h.old_| && h.old_[u] == h.f.H[p];
    SlotIsRoot(h.f.roots, h.old_, u, i);
    RootAfter(h, c, order, m', end, |h.f.roots| + |OldSlots(h.old_, u)| + i);
  }

  lemma NewSlotAfter(h: Generations, c: Collection, order: seq<nat>, m': Memory, end: nat, d: nat, i: nat)
    requires MinorDone(h, c, order, m', end) && d in NewHeap(c) && i < |NewHeap(c)[d].slots|
    ensures NewHeap(c)[d].slots[i] < |m'| && TargetOk(WholeHeap(h, c), Inside(h), m'[NewHeap(c)[d].slots[i]])
  {
    hide *;
    DoneParts(h, c, order, m', end);
    NewHeapKey(c, d);
    var p :| p in c.dest && c.dest[p] == d;
    NewHeapAt(c, order, m', h.f.sp.oldEnd, end, p);
    InOrder(c, order, m', h.f.sp.oldEnd, end, p);
    NewSlot(c, p, m', i);
    var w := WordAt(c.m, c.H[p].slots[i]);
    KeptTarget(c, p, i);
    OldSlotOk(h.f, p, i);
    Parts(h);
    GapAt(h.f, p, i);
    if w.Ptr? && w.addr in YoungHeap(h) { YoungTarget(c, p, i, w); }
    WordAfter(h, c, order, m', end, w);
  }

  // ------------------------------------------------------------- the whole heap

  lemma WholeEntry(h: Generations, c: Collection, order: seq<nat>, m': Memory, end: nat, p: nat)
    requires MinorDone(h, c, order, m', end) && p in WholeHeap(h, c)
    ensures var o := WholeHeap(h, c)[p];
      && o.p == p && IsObject(h.f.env, m', o) && Clean(h.f.env, m', o)
      && h.f.sp.start <= o.front < p <= o.end <= end
      && 0 < p <= |m'| && m'[p - 1].Header? && !m'[p - 1].mark
      && (IsWeak(h.f.env, o) && |o.slots| == 0 ==> p + 1 < |m'| && m'[p + 1].Bits?)
      && (p in NewHeap(c) <==> o.front >= h.f.sp.oldEnd)
  {
    hide *;
    DoneParts(h, c, order, m', end);
    Parts(h);
    WholeAt(h, c, p);
    if p in NewHeap(c) {
      NewAbove(h, c, order, m', end, p);
      NewHeapKey(c, p);
      var q :| q in c.dest && c.dest[q] == p;
      NewHeapAt(c, order, m', h.f.sp.oldEnd, end, q);
      InOrder(c, order, m', h.f.sp.oldEnd, end, q);
      NewClean(c, q, m');
      KeptHeader(c, q, m');
      if IsWeak(c.env, NewObj(c, q)) && |NewObj(c, q).slots| == 0 { NewGone(c, order, m', h.f.sp.oldEnd, end, q); }
    } else {
      OldBelow(h, p);
      OldStays(h, c, order, m', end, p);
    }
  }

  lemma WholeApart(h: Generations, c: Collection, order: seq<nat>, m': Memory, end: nat, p: nat, q: nat)
    requires MinorDone(h, c, order, m', end) && p in WholeHeap(h, c) && q in WholeHeap(h, c) && p != q
    ensures WholeHeap(h, c)[p].end <= WholeHeap(h, c)[q].front || WholeHeap(h, c)[q].end <= WholeHeap(h, c)[p].front
  {
    hide *;
    DoneParts(h, c, order, m', end);
    WholeAt(h, c, p);
    WholeAt(h, c, q);
    if p in NewHeap(c) { NewAbove(h, c, order, m', end, p); } else { OldBelow(h, p); }
    if q in NewHeap(c) { NewAbove(h, c, order, m', end, q); } else { OldBelow(h, q); }
    if p in NewHeap(c) && q in NewHeap(c) { NewHeapApart(c, order, m', h.f.sp.oldEnd, end, p, q); }
    if p !in NewHeap(c) && q !in NewHeap(c) { OldApart(h.f, p, q); }
  }

  lemma QuietIntro(env: Env, m: Memory, H: Objects, start: nat, end: nat)
    requires ValidEnv(env) && 0 < start <= end
    requires forall p :: p in H ==>
      && H[p].p == p && IsObject(env, m, H[p]) && Clean(env, m, H[p]) && start <= p <= end
      && 0 < p <= |m| && m[p - 1].Header? && !m[p - 1].mark
      && (IsWeak(env, H[p]) && |H[p].slots| == 0 ==> p + 1 < |m| && m[p + 1].Bits?)
    requires forall p, q :: p in H && q in H && p != q ==> H[p].end <= H[q].front || H[q].end <= H[p].front
    ensures Quiet(env, m, H) && Within(H, NewSpaces(start, end)) && NoMarks(m, H)
  {
    hide ValidEnv, IsObject, Clean, IsWeak;
  }

  lemma WholeQuiet(h: Generations, c: Collection, order: seq<nat>, m': Memory, end: nat)
    requires MinorDone(h, c, order, m', end)
    ensures Quiet(h.f.env, m', WholeHeap(h, c)) && Within(WholeHeap(h, c), NewSpaces(h.f.sp.start, end)) &&
      NoMarks(m', WholeHeap(h, c))
  {
    hide *;
    DoneParts(h, c, order, m', end);
    Parts(h);
    HeapParts(h.f);
    var H := WholeHeap(h, c);
    forall p | p in H
      ensures H[p].p == p && IsObject(h.f.env, m', H[p]) && Clean(h.f.env, m', H[p]) && h.f.sp.start <= p <= end
      ensures 0 < p <= |m'| && m'[p - 1].Header? && !m'[p - 1].mark
      ensures IsWeak(h.f.env, H[p]) && |H[p].slots| == 0 ==> p + 1 < |m'| && m'[p + 1].Bits?
    {
      WholeEntry(h, c, order, m', end, p);
    }
    forall p, q | p in H && q in H && p != q
      ensures H[p].end <= H[q].front || H[q].end <= H[p].front
    {
      WholeApart(h, c, order, m', end, p, q);
    }
    QuietIntro(h.f.env, m', H, h.f.sp.start, end);
  }

  lemma WholeSlots(h: Generations, c: Collection, order: seq<nat>, m': Memory, end: nat)
    requires MinorDone(h, c, order, m', end)
    ensures SlotsOk(m', WholeHeap(h, c), Inside(h))
  {
    hide *;
    DoneParts(h, c, order, m', end);
    var H := WholeHeap(h, c);
    forall p, i | p in H && 0 <= i < |H[p].slots|
      ensures H[p].slots[i] < |m'| && TargetOk(H, Inside(h), m'[H[p].slots[i]])
    {
      WholeAt(h, c, p);
      if p in NewHeap(c) {
        NewSlotAfter(h, c, order, m', end, p, i);
      } else {
        OldBelow(h, p);
        OldSlotAfter(h, c, order, m', end, p, i);
      }
    }
    SlotsIntro(m', H, Inside(h));
  }

  lemma WholeRoots(h: Generations, c: Collection, order: seq<nat>, m': Memory, end: nat)
    requires MinorDone(h, c, order, m', end)
    ensures RootsOk(m', WholeHeap(h, c), Inside(h), h.f.roots)
  {
    hide *;
    DoneParts(h, c, order, m', end);
    Parts(h);
    RootsDistinct(h.f);
    var H := WholeHeap(h, c);
    forall i | 0 <= i < |h.f.roots|
      ensures 0 < h.f.roots[i] < |m'| && TargetOk(H, Inside(h), m'[h.f.roots[i]])
    {
      assert c.roots[i] == h.f.roots[i];
      RootAfter(h, c, order, m', end, i);
    }
    forall i, p | 0 <= i < |h.f.roots| && p in H
      ensures !(H[p].front <= h.f.roots[i] < H[p].end)
    {
      WholeEntry(h, c, order, m', end, p);
    }
    RootsOkIntro(m', H, Inside(h), h.f.roots);
  }

  // The addresses that sp counts as in the heap are between start and frontier,
  // and include the new old generation.
  predicate Encloses(h: Generations, end: nat, sp: Spaces) {
    && sp.start == h.f.sp.start && end <= sp.oldEnd <= h.f.sp.frontier
    && h.f.sp.start <= sp.nursery && sp.frontier <= h.f.sp.frontier
  }

  // A heap that is the one after the minor collection, but for what counts as in
  // the heap, the treatment of weak pointers out of it, and the current stack.
  ghost predicate IsAfter(h: Generations, c: Collection, m': Memory, end: nat, f: Collection) {
    f == After(h, c, m', end).(sp := f.sp, clearsForeign := f.clearsForeign, currentStack := f.currentStack) &&
      Encloses(h, end, f.sp)
  }

  lemma IsAfterFields(h: Generations, c: Collection, m': Memory, end: nat, f: Collection)
    requires IsAfter(h, c, m', end, f)
    ensures f.env == h.f.env && f.k == h.f.k && f.m == m' && f.H == WholeHeap(h, c) && f.roots == h.f.roots &&
      Encloses(h, end, f.sp)
  {
    hide WholeHeap, Encloses;
  }

  lemma Narrow(h: Generations, end: nat, m: Memory, H: Objects, sp: Spaces)
    requires Encloses(h, end, sp) && SlotsOk(m, H, Inside(h)) && RootsOk(m, H, Inside(h), h.f.roots)
    ensures SlotsOk(m, H, sp) && RootsOk(m, H, sp, h.f.roots)
  {
    hide Distinct;
    forall w: Word | TargetOk(H, Inside(h), w)
      ensures TargetOk(H, sp, w)
    {
    }
  }

  lemma WithinMore(h: Generations, end: nat, H: Objects, sp: Spaces)
    requires Encloses(h, end, sp) && Within(H, NewSpaces(h.f.sp.start, end)) && h.f.sp.start > 0
    requires forall p :: p in H ==> h.f.sp.start <= p <= end
    ensures Within(H, sp)
  {
  }

  // After a minor collection the old generation is a heap from which the next
  // collection may start, also while nursery and frontier are still those of
  // before: no slot and no root points anywhere between the start of the heap and
  // the frontier but to the objects of the old generation.
  lemma MinorHeapOk(h: Generations, c: Collection, order: seq<nat>, m': Memory, end: nat, f: Collection)
    requires MinorDone(h, c, order, m', end) && IsAfter(h, c, m', end, f)
    ensures HeapOk(f)
  {
    hide *;
    DoneParts(h, c, order, m', end);
    Parts(h);
    HeapParts(h.f);
    IsAfterFields(h, c, m', end, f);
    WholeQuiet(h, c, order, m', end);
    WholeSlots(h, c, order, m', end);
    WholeRoots(h, c, order, m', end);
    Narrow(h, end, m', f.H, f.sp);
    forall p | p in f.H
      ensures h.f.sp.start <= p <= end
    {
      WholeEntry(h, c, order, m', end, p);
    }
    WithinMore(h, end, f.H, f.sp);
    HeapIntro(f);
  }

  lemma AfterIs(h: Generations, c: Collection, m': Memory, end: nat)
    requires GenerationsOk(h) && h.f.sp.oldEnd <= end <= h.f.sp.nursery
    ensures IsAfter(h, c, m', end, After(h, c, m', end))
    ensures After(h, c, m', end).sp == Spaces(h.f.sp.start, end, h.f.sp.nursery, h.f.sp.frontier)
  {
    hide GenerationsOk, WholeHeap;
    Parts(h);
  }

  lemma MinorHeapOkAfter(h: Generations, c: Collection, order: seq<nat>, m': Memory, end: nat)
    requires MinorDone(h, c, order, m', end)
    ensures HeapOk(After(h, c, m', end))
  {
    hide *;
    DoneParts(h, c, order, m', end);
    AfterIs(h, c, m', end);
    MinorHeapOk(h, c, order, m', end, After(h, c, m', end));
  }

  // The old generation is one run of objects again.
  lemma MinorTiles(h: Generations, c: Collection, order: seq<nat>, m': Memory, end: nat)
    requires MinorDone(h, c, order, m', end)
    ensures Tiles(h.old_ + NewObjs(c, order), h.f.sp.start, end)
  {
    hide *;
    DoneParts(h, c, order, m', end);
    Parts(h);
    CollectedParts(c, order, m', h.f.sp.oldEnd, end);
    TilesJoin(h.old_, NewObjs(c, order), h.f.sp.start, h.f.sp.oldEnd, end);
  }

  // No slot of an old object points into the nursery any more.
  lemma NoYoungPointers(h: Generations, c: Collection, order: seq<nat>, m': Memory, end: nat, u: nat, i: nat)
    requires MinorDone(h, c, order, m', end) && u < |h.old_| && i < |h.old_[u].slots|
    ensures var s := h.old_[u].slots[i];
      s < |m'| && (m'[s].Ptr? && h.f.sp.nursery <= m'[s].addr <= h.f.sp.frontier ==> m'[s].addr in NewHeap(c))
  {
    hide *;
    DoneParts(h, c, order, m', end);
    Parts(h);
    SlotIsRoot(h.f.roots, h.old_, u, i);
    var j := |h.f.roots| + |OldSlots(h.old_, u)| + i;
    RootAfter(h, c, order, m', end, j);
    RootReached(c, j);
    OldSlotAt(h, j - |h.f.roots|);
    var w := c.m[c.roots[j]];
    NewWordOf(c, w);
    if w.Ptr? {
      if w.addr in c.dest {
        NewHeapAt(c, order, m', h.f.sp.oldEnd, end, w.addr);
      } else if h.f.sp.nursery <= w.addr <= h.f.sp.frontier {
        FullIs(h.f, w);
        YoungIsIn(h, w.addr);
      }
    }
  }

  // ------------------------------------------------------------------ the method

  // minorCheneyCopyGC when they are not: the nursery follows the old generation
  // directly and simply becomes part of it.
  method AbsorbNursery(s: GCState, ghost old_: seq<Obj>, ghost young: seq<Obj>)
    requires s.nursery == s.start + s.oldGenSize && s.nursery <= s.frontier
    requires Tiles(old_, s.start, s.nursery) && Tiles(young, s.nursery, s.frontier)
    modifies s`oldGenSize
    ensures s.start + s.oldGenSize == s.frontier && Tiles(old_ + young, s.start, s.start + s.oldGenSize)
  {
    hide Tiles;
    TilesJoin(old_, young, s.start, s.nursery, s.frontier);
    s.oldGenSize := s.oldGenSize + (s.frontier - s.nursery);
  }

  // The collector's state before a minor collection.
  ghost predicate StartsMinor(s: GCState, g: GenerationalMaps, h: Generations, n0: nat, currentStack: nat)
    reads s, s.mem, g, g.cardMap, g.crossMap
  {
    && h.f.env == s.env && h.f.k == s.stackControls && h.f.m == s.mem[..] && h.f.roots == s.roots
    && h.f.sp == s.Spaces() && h.f.currentStack == currentStack && s.weaks == 0
    && GenerationsOk(h)
    && CardsOk(Nursery(h), g.cardMap[..], h.old_, s.start, s.start + s.oldGenSize)
    && MapOk(h.old_, s.start, s.start + s.oldGenSize, n0, g.crossMap[..], g.crossMapValidSize)
    && s.oldGenSize <= CardToSize(g.crossMap.Length) && s.oldGenSize <= CardToSize(g.cardMap.Length)
  }

  lemma StartsMinorParts(s: GCState, g: GenerationalMaps, h: Generations, n0: nat, currentStack: nat)
    requires StartsMinor(s, g, h, n0, currentStack)
    ensures h.f.env == s.env && h.f.k == s.stackControls && h.f.m == s.mem[..] && h.f.roots == s.roots
    ensures h.f.sp == Spaces(s.start, s.start + s.oldGenSize, s.nursery, s.frontier) &&
      h.f.currentStack == currentStack && s.weaks == 0
    ensures GenerationsOk(h) && CardsOk(Nursery(h), g.cardMap[..], h.old_, s.start, s.start + s.oldGenSize)
    ensures MapOk(h.old_, s.start, s.start + s.oldGenSize, n0, g.crossMap[..], g.crossMapValidSize)
    ensures s.oldGenSize <= CardToSize(g.crossMap.Length) && s.oldGenSize <= CardToSize(g.cardMap.Length)
  {
    hide GenerationsOk, CardsOk, MapOk, CardToSize, Nursery;
  }

  // A nursery weak object on the list has its target in the nursery.
  lemma MinorHeads(h: Generations)
    requires GenerationsOk(h)
    ensures ForeignHeads(MinorSetting(h))
  {
    hide *;
    MinorSettingOk(h);
    NurseryFields(h);
    NurseryHeapOk(h);
    var t := MinorSetting(h);
    forall p | p in t.c.H && Listable(t.c, p)
      ensures ForeignHead(t, WordAt(t.c.m, p + 1))
    {
      ListableWeak(t.c, p);
      OldObject(t.c, p);
      WeakSlots(t.c.env, t.c.m, t.c.H[p]);
      OldSlotOk(t.c, p, 0);
      ListableIs(t.c, p);
      WordAtIs(t.c.m, p + 1);
      HeadInside(t, WordAt(t.c.m, p + 1));
    }
    HeadsIntro(t);
  }

  lemma HeadInside(t: Setting, v: Word)
    requires v.Ptr? && InSpaces(t.c.sp, v.addr)
    ensures ForeignHead(t, v)
  {
    hide InSpaces, Used;
  }

  lemma HeadsIntro(t: Setting)
    requires forall p :: p in t.c.H && Listable(t.c, p) ==> ForeignHead(t, WordAt(t.c.m, p + 1))
    ensures ForeignHeads(t)
  {
    hide Listable, ForeignHead, WordAt;
  }

  lemma FirstVisited(t: Setting, globals: seq<nat>, old_: seq<Obj>, st: Copy, m: Memory, w: nat)
    requires Copies(t, st, m, w) && st.n == 0 && st.k == 0 && st.r == |globals|
    ensures Visited(t, globals, old_, 0, st, m, w)
  {
    hide *;
    NoSlots(old_);
    VisitedIntro(t, globals, old_, 0, st, m, w);
  }

  lemma GlobalsFirst(h: Generations)
    ensures h.f.roots <= Nursery(h).roots
  {
    hide YoungHeap, OldSlots;
  }

  lemma MinorDoneIntro(h: Generations, st: Copy, m: Memory, w: nat, G: set<nat>, K: set<nat>, m': Memory)
    requires GenerationsOk(h) && Fixing(MinorSetting(h), st, m, w, |st.L|, G, K, m')
    ensures MinorDone(h, Now(MinorSetting(h), st), st.order, m', st.back)
    ensures h.f.sp.oldEnd <= st.back
  {
    hide *;
    MinorSettingOk(h);
    var t := MinorSetting(h);
    CopyCollects(t, st, m, w, G, K, m');
    FixingParts(t, st, m, w, |st.L|, G, K, m');
    ScannedParts(t, st, m, w);
    BackInside(t, st);
    NowDest(t, st);
    forall a: nat | a < |m'| && !Used(t, a)
      ensures m'[a] == t.c.m[a]
    {
      CopyFrame(t, st, m, w, G, K, m', a);
    }
    ElsewhereIntro(t, m');
    DoneJoin(h, Now(t, st), st.order, m', st.back);
  }

  lemma DoneJoin(h: Generations, c: Collection, order: seq<nat>, m': Memory, end: nat)
    requires GenerationsOk(h) && c == Nursery(h).(dest := c.dest)
    requires Collected(c, order, m', h.f.sp.oldEnd, end) && end <= h.f.sp.nursery && Elsewhere(MinorSetting(h), m')
    ensures MinorDone(h, c, order, m', end)
  {
    hide GenerationsOk, Collected, Elsewhere, Nursery, MinorSetting;
  }

  // With an empty nursery there is nothing to copy.
  lemma NothingYoung(h: Generations) returns (st: Copy)
    requires GenerationsOk(h) && h.f.sp.frontier == h.f.sp.nursery
    ensures Fixing(MinorSetting(h), st, h.f.m, 0, |st.L|, {}, {}, h.f.m) && st.back == h.f.sp.oldEnd
  {
    hide *;
    var t := MinorSetting(h);
    MinorSettingOk(h);
    NurseryFields(h);
    MinorHeads(h);
    MinorParts(t, h.f.roots, h.old_, h.f.sp.start, h.f.sp.oldEnd);
    CopyBegin(t);
    var st0 := FirstCopy(t.toStart);
    FirstFields(t.toStart);
    forall i | 0 <= i < |t.c.roots|
      ensures !Young(t.c, WordAt(t.c.m, t.c.roots[i]))
    {
      NoneYoung(h, WordAt(t.c.m, t.c.roots[i]));
    }
    PassRoots(t, st0, h.f.m, 0, |t.c.roots|);
    RootsDoneFields(st0, |t.c.roots|);
    st := RootsDone(st0, |t.c.roots|);
    ScannedIntro(t, st, h.f.m, 0);
    NothingFixed(Now(t, st), h.f.m, st.L);
    FixingIntro(t, st, h.f.m, 0, 0, {}, {}, h.f.m);
  }

  lemma NoneYoung(h: Generations, w: Word)
    requires GenerationsOk(h) && h.f.sp.frontier == h.f.sp.nursery
    ensures !Young(Nursery(h), w)
  {
    hide *;
    NurseryFields(h);
    YoungIs(Nursery(h), w);
    if w.Ptr? && w.addr in YoungHeap(h) {
      YoungKeys(h, w.addr);
      WhichGeneration(h, w.addr);
    }
  }

  lemma YoungKeys(h: Generations, p: nat)
    requires p in YoungHeap(h)
    ensures p in h.f.H && p in Contains(h.young)
  {
    hide Contains;
  }

  lemma CopiesFit(h: Generations, st: Copy, m: Memory, w: nat)
    requires GenerationsOk(h) && Scanned(MinorSetting(h), st, m, w)
    ensures st.back <= h.f.sp.oldEnd + (h.f.sp.frontier - h.f.sp.nursery)
  {
    hide GenerationsOk, Scanned, SettingOk, Nursery;
    MinorSettingOk(h);
    Parts(h);
    ScannedParts(MinorSetting(h), st, m, w);
    BackInside(MinorSetting(h), st);
  }

  // minorCheneyCopyGC when minor collections are possible.
  method MinorCheneyCopy(s: GCState, g: GenerationalMaps, currentStack: nat, ghost h: Generations, ghost n0: nat)
    returns (ghost c: Collection, ghost order: seq<nat>, ghost n: nat)
    requires StartsMinor(s, g, h, n0, currentStack)
    modifies s.mem, s`weaks, s`oldGenSize, g.crossMap, g`crossMapValidSize
    ensures MinorDone(h, c, order, s.mem[..], s.start + s.oldGenSize)
    ensures HeapOk(After(h, c, s.mem[..], s.start + s.oldGenSize))
    ensures Tiles(h.old_ + NewObjs(c, order), s.start, s.start + s.oldGenSize)
    ensures MapOk(h.old_ + NewObjs(c, order), s.start, s.start + s.oldGenSize, n, g.crossMap[..], g.crossMapValidSize)
    ensures old(s.oldGenSize) <= s.oldGenSize <= old(s.oldGenSize) + (s.frontier - s.nursery) && s.weaks == 0
  {
    hide *;
    StartsMinorParts(s, g, h, n0, currentStack);
    Parts(h);
    var bytesAllocated := s.frontier - s.nursery;
    ghost var t := MinorSetting(h);
    ghost var start, oldEnd := s.start, s.start + s.oldGenSize;
    MinorSettingOk(h);
    NurseryFields(h);
    MinorHeads(h);
    MinorParts(t, h.f.roots, h.old_, start, oldEnd);
    n := n0;
    if bytesAllocated == 0 {
      ghost var st := NothingYoung(h);
      MinorDoneIntro(h, st, s.mem[..], 0, {}, {}, s.mem[..]);
      c, order := Now(t, st), st.order;
    } else {
      var toStart := s.start + s.oldGenSize;
      var from, to, roots := s.nursery, s.frontier, s.roots;
      GlobalsFirst(h);
      RunningIntro(s, t, from, to, true, currentStack);
      CopyBegin(t);
      FirstFields(toStart);
      var back;
      ghost var st;
      back, st := ForwardRoots(s, toStart, true, from, to, currentStack, roots, t, FirstCopy(toStart));
      FirstVisited(t, h.f.roots, h.old_, st, s.mem[..], s.weaks);
      back, st := ForwardInterGenerational(s, g, back, from, to, currentStack, t, h.f.roots, h.old_, n0, st);
      back, st := ScanRange(s, toStart, back, true, from, to, currentStack, t, st);
      ScannedIntro(t, st, s.mem[..], s.weaks);
      ghost var m, w := s.mem[..], s.weaks;
      ghost var G, K := UpdateWeaks(s, t, st);
      MinorDoneIntro(h, st, m, w, G, K, s.mem[..]);
      CopiesFit(h, st, m, w);
      c, order, n := Now(t, st), st.order, |h.old_|;
      s.oldGenSize := s.oldGenSize + (back - toStart);
    }
    MinorHeapOkAfter(h, c, order, s.mem[..], s.start + s.oldGenSize);
    MinorTiles(h, c, order, s.mem[..], s.start + s.oldGenSize);
    MapOkExtends(h.old_, NewObjs(c, order), start, oldEnd, s.start + s.oldGenSize, n, g.crossMap[..],
      g.crossMapValidSize);
  }
}
