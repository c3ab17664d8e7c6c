// majorMarkCompactGC: mark, clear weak pointers, thread the roots, and run the
// two passes.  The result is a collection in the sense of module Collection.

module MarkCompact {
  import opened Layout
  import opened Graph
  import opened Heap
  import opened State
  import opened StackSize
  import opened StackObject
  import opened Tiling
  import opened Relocate
  import opened Cursor
  import opened DfsInvariant
  import opened DfsSteps
  import opened DfsMark
  import opened Roots
  import opened Threading
  import opened CompactSpec
  import opened CompactForward
  import opened CompactBackward
  import opened Collection
  import opened MarkWeaks
  import opened CompactSetup

  // The collection that a marking leads to.
  ghost function CollectionOf(a: Marking): Collection {
    Collection(a.call.env, a.k, a.call.m0, a.call.H, a.call.sp, a.roots, a.currentStack, false, PlanDest(a))
  }

  // What the two passes leave behind.
  ghost predicate Compacted(j: Compaction, m: Memory, end: int) {
    && |m| == |j.m1|
    && (forall p :: p in j.Live() ==> p in j.H && j.x.dest[p] <= p && Placed(j, j.H[p], p - j.x.dest[p], m))
    && (forall s :: s in j.roots && s < |m| ==> m[s] == RefWord(j, s))
    && end == j.back - Gap(j, j.objs, |j.objs|)
  }

  lemma SlidPlace(j: Compaction, base: Memory, out: seq<Obj>, sl: Slide, m: Memory, gap: int, p: nat)
    requires Backward(j, base, out, sl, m, gap) && sl.i == |out| && p in j.Live()
    ensures p in j.H && p in j.x.dest && j.x.dest[p] <= p && Placed(j, j.H[p], p - j.x.dest[p], m)
  {
    hide *;
    BackwardParts(j, base, out, sl, m, gap);
    LiveKeys(j, p);
    LiveIsOut(j, base, out, p);
    var l :| 0 <= l < |out| && out[l] == j.H[p];
    MergedTiles(j, base, out);
    ObjectAt(j, p);
    LiveShape(j, base, out, l);
    SlidAt(j, out, sl.i, m, l);
  }

  lemma SlidAt(j: Compaction, out: seq<Obj>, i: nat, m: Memory, k: nat)
    requires SlidTo(j, out, i, m) && k < i && k < |out| && out[k].p in j.Live()
    ensures Placed(j, out[k], Gap(j, out, k), m)
  {
    hide Placed, Gap;
  }

  lemma FinalRoot(j: Compaction, base: Memory, out: seq<Obj>, sl: Slide, m: Memory, gap: int, s: nat)
    requires Backward(j, base, out, sl, m, gap) && sl.i == |out| && s in j.roots
    ensures s < |m| && m[s] == RefWord(j, s)
  {
    hide *;
    BackwardParts(j, base, out, sl, m, gap);
    MergedTiles(j, base, out);
    SetupParts(j);
    OutDone(j, out, sl.i);
    RootIn(j, s);
    RootNotIn(j, s);
    if s < j.start { AgreeBelowAt(j.start, sl.mv, m, s); } else { AgreeAt(j.back, sl.mv, m, s); }
    RefWordIs(j, s);
    var R := ResolvedBack(j, j.back);
    if s in j.x.tgt {
      Visited(j, s);
      RefTarget(j, s);
      LiveKeys(j, j.x.tgt[s]);
      ResolvedAll(j, s);
      ResolvedWord(j.x, base, j.x.tgt.Keys, R, sl.T, sl.mv, s);
    } else {
      if s + 1 in j.x.dest {
        LiveIn(j, s + 1);
        LivePlace(j, s + 1);
      }
      ThreadedElsewhere(j.x, base, j.x.tgt.Keys, R, sl.T, sl.mv, s);
      BaseOutside(j, base, s);
    }
  }

  lemma AgreeBelowAt(hi: nat, m: Memory, m': Memory, a: nat)
    requires AgreeBelow(hi, m, m') && a < hi && a < |m|
    ensures |m'| == |m| && m'[a] == m[a]
  {
  }

  lemma ResolvedAll(j: Compaction, s: nat)
    requires s in j.x.tgt && s in j.own && j.x.tgt[s] <= j.back
    ensures s in ResolvedBack(j, j.back)
  {
  }

  lemma BaseOutside(j: Compaction, base: Memory, a: nat)
    requires HeapRight(j) && BaseOk(j, |j.objs|, base) && a < |base| && !(j.start <= a < j.back)
    ensures |base| == |j.m1| && base[a] == j.m1[a]
  {
    hide HeapRight;
    if base[a] != j.m1[a] {
      var l :| 0 <= l < |j.objs| && j.objs[l].front <= a < j.objs[l].end;
      ObjIn(j, l);
      assert false;
    }
  }

  lemma BackwardEnd(j: Compaction, base: Memory, out: seq<Obj>, sl: Slide, m: Memory, gap: int)
    requires Backward(j, base, out, sl, m, gap) && sl.i == |out|
    ensures Compacted(j, m, j.back - gap)
  {
    hide *;
    BackwardParts(j, base, out, sl, m, gap);
    MergedParts(j, |j.objs|, base, out);
    forall p | p in j.Live()
      ensures p in j.H && p in j.x.dest && j.x.dest[p] <= p && Placed(j, j.H[p], p - j.x.dest[p], m)
    {
      SlidPlace(j, base, out, sl, m, gap, p);
    }
    forall s | s in j.roots && s < |m|
      ensures m[s] == RefWord(j, s)
    {
      FinalRoot(j, base, out, sl, m, gap, s);
    }
    CompactedIntro(j, m, j.back - gap);
  }

  lemma CompactedIntro(j: Compaction, m: Memory, end: int)
    requires |m| == |j.m1|
    requires forall p :: p in j.Live() ==>
      p in j.H && p in j.x.dest && j.x.dest[p] <= p && Placed(j, j.H[p], p - j.x.dest[p], m)
    requires forall s :: s in j.roots && s < |m| ==> m[s] == RefWord(j, s)
    requires end == j.back - Gap(j, j.objs, |j.objs|)
    ensures Compacted(j, m, end)
  {
    hide Placed, RefWord, Gap;
  }

  lemma CompactedAt(j: Compaction, m: Memory, end: int, p: nat, a: nat)
    requires Compacted(j, m, end) && p in j.Live() && p in j.H && p in j.x.dest
    requires j.H[p].front <= a < CopyEnd(j, j.H[p]) && p <= a + j.x.dest[p] && a < |m|
    ensures |m| == |j.m1| && j.x.dest[p] <= p && m[a + j.x.dest[p] - p] == FinalWord(j, j.H[p], a)
  {
    hide FinalWord, Gap, RefWord, CopyEnd;
    var g := p - j.x.dest[p];
    assert m[a - g] == FinalWord(j, j.H[p], a);
  }

  // -------------------------------------------------- words that marking keeps

  lemma WordStays(a: Marking, p: nat, w: nat)
    requires AfterMarking(a) && p in a.call.H && a.call.H[p].front <= w < a.call.H[p].end
    requires p in a.G ==> w + 1 != p && w != p + 1
    requires !Scratch(a.call.env, a.call.H[p], w) ||
      (p in a.V && TagOf(a.call.env, a.call.H[p]) == SequenceTag && w + 3 == p)
    ensures w < |a.m1| == |a.call.m0| && a.m1[w] == a.call.m0[w]
  {
    hide *;
    AfterParts(a);
    OldPlace(a, p);
    AfterWord(a, p, w);
    if Scratch(a.call.env, a.call.H[p], w) {
      BoundsOf(a.call.env, a.call.m0, a.call.H[p]);
      MetaFacts(TagOf(a.call.env, a.call.H[p]));
      MarkedIs(a.call, a.V, a.m, p);
      MarkedObjectIs(a.call.env, a.call.H[p], a.call.bit, a.call.link, a.call.m0, a.m);
    } else {
      OnlyItsScratch(a, p, w);
      MarkedScratchOther(a.call, a.V, a.m, w);
    }
  }

  lemma OnlyItsScratch(a: Marking, p: nat, w: nat)
    requires AfterMarking(a) && p in a.call.H && a.call.H[p].front <= w < a.call.H[p].end &&
      !Scratch(a.call.env, a.call.H[p], w)
    ensures !InScratch(a.call.env, a.call.H, w)
  {
    hide AfterMarking, Scratch, IsObject, ValidEnv;
    AfterParts(a);
    if q :| q in a.call.H && Scratch(a.call.env, a.call.H[q], w) {
      OldPlace(a, q);
      ScratchInside(a.call.env, a.call.m0, a.call.H[q], w);
      assert false;
    }
  }

  lemma MarkedIs(c: Call, V: set<nat>, m: Memory, p: nat)
    requires Marked(c, V, m) && p in V
    ensures p in c.H && MarkedObject(c.env, c.H[p], c.bit, c.link, c.m0, m)
  {
    hide AreObjects, SameScratch, MarkedObject, InScratch;
  }

  lemma MarkedObjectIs(env: Env, o: Obj, bit: bool, link: bool, m0: Memory, m: Memory)
    requires MarkedObject(env, o, bit, link, m0, m)
    ensures 0 < o.front < o.p <= |m0| == |m| && m0[o.p - 1].Header?
    ensures m[o.p - 1] == m0[o.p - 1].(mark := bit) && (TagOf(env, o) == SequenceTag ==> m[o.front] == m0[o.front])
  {
    hide IsWeak;
  }

  lemma StackWordsStay(a: Marking, p: nat)
    requires AfterMarking(a) && p in a.call.H && IsStack(a.call.env, a.call.H[p])
    ensures p !in a.G
    ensures StackInfoOf(a.call.env, a.m1, p) == StackInfoOf(a.call.env, a.call.m0, p)
    ensures SizeWord(a.m1, p + 2) == SizeWord(a.call.m0, p + 2) && SizeWord(a.m1, p + 3) == SizeWord(a.call.m0, p + 3)
  {
    hide *;
    AfterParts(a);
    OldPlace(a, p);
    var o := a.call.H[p];
    if p in a.G { GoneIs(a, p); StackNotWeak(a.call.env, o); }
    StackSlotsHigh(a.call.env, a.call.m0, o);
    StackScratch(a.call.env, o);
    WordStays(a, p, p + 2);
    WordStays(a, p, p + 3);
    var info := StackInfoOf(a.call.env, a.call.m0, p);
    StackFields(a.call.env, a.k, a.call.m0, o, a.currentStack);
    if info.used > 0 {
      TopNotSlot(a.call.env, a.call.m0, o);
      WordStays(a, p, p + 4 + info.used / 8 - 1);
    }
    SameStackInfo(a.call.env, a.call.m0, a.m1, p);
    SizeWordSame(a.call.m0, a.m1, p + 3);
  }

  lemma SizeWordSame(m: Memory, m': Memory, a: nat)
    requires a < |m| == |m'| && m'[a] == m[a]
    ensures SizeWord(m', a) == SizeWord(m, a)
  {
  }

  lemma StackNotWeak(env: Env, o: Obj)
    ensures !(IsStack(env, o) && IsWeak(env, o))
    ensures IsStack(env, o) ==> TagOf(env, o) != SequenceTag
  {
  }

  lemma StackScratch(env: Env, o: Obj)
    requires IsStack(env, o)
    ensures forall w: nat :: w >= o.p + 2 ==> !Scratch(env, o, w)
  {
  }

  // The sizes are the same before and after marking.
  lemma SizesStay(a: Marking, p: nat)
    requires AfterMarking(a) && p in a.call.H
    ensures var o, o1 := a.call.H[p], AfterObj(a, a.call.H[p]);
      && (IsStack(a.call.env, o1) <==> IsStack(a.call.env, o))
      && CopiedEnd(a.call.env, a.m1, o1) == CopiedEnd(a.call.env, a.call.m0, o)
      && WordsSaved(a.call.env, a.k, a.m1, a.currentStack, o1) ==
         WordsSaved(a.call.env, a.k, a.call.m0, a.currentStack, o)
      && (IsStack(a.call.env, o) ==>
            ReservedAfter(a.call.env, a.k, a.m1, a.currentStack, p) ==
              ReservedAfter(a.call.env, a.k, a.call.m0, a.currentStack, p))
  {
    hide *;
    SameExtent(a, a.call.H[p]);
    OldPlace(a, p);
    AfterParts(a);
    if IsStack(a.call.env, a.call.H[p]) {
      StackWordsStay(a, p);
    }
    if p in a.G {
      GoneIs(a, p);
      StackNotWeak(a.call.env, a.call.H[p]);
      GoneNotStack(a.call.env, AfterObj(a, a.call.H[p]));
    }
    SameSizesOf(a.call.env, a.k, a.call.m0, a.m1, a.currentStack, a.call.H[p], AfterObj(a, a.call.H[p]));
  }

  lemma SameSizesOf(env: Env, k: StackControls, m: Memory, m': Memory, currentStack: nat, o: Obj, o': Obj)
    requires o'.p == o.p && o'.end == o.end && (IsStack(env, o') <==> IsStack(env, o))
    requires IsStack(env, o) ==>
      && StackInfoOf(env, m', o.p) == StackInfoOf(env, m, o.p)
      && SizeWord(m', o.p + 2) == SizeWord(m, o.p + 2) && SizeWord(m', o.p + 3) == SizeWord(m, o.p + 3)
    ensures CopiedEnd(env, m', o') == CopiedEnd(env, m, o)
    ensures WordsSaved(env, k, m', currentStack, o') == WordsSaved(env, k, m, currentStack, o)
    ensures IsStack(env, o) ==>
      ReservedAfter(env, k, m', currentStack, o.p) == ReservedAfter(env, k, m, currentStack, o.p)
  {
    hide StackInfoOf, SizeWord, IsStack, ShrinkReserved;
  }

  lemma GoneNotStack(env: Env, o: Obj)
    requires ValidEnv(env) && o.ty == WEAK_GONE_TYPE_INDEX
    ensures !IsStack(env, o) && IsWeak(env, o)
  {
  }

  // -------------------------------------------------------------- kept objects

  lemma GoneCleared(a: Marking, p: nat)
    requires AfterMarking(a) && p in a.V && p in a.call.H
    ensures Cleared(CollectionOf(a), p) <==> p in a.G
  {
    hide *;
    AfterParts(a);
    OldPlace(a, p);
    CollectionFields(a);
    var o, c := a.call.H[p], CollectionOf(a);
    AtIs(a.call.H, p);
    if p in a.G {
      GoneIs(a, p);
      Listed(a.call, a.V, a.m, a.L, p);
      ClearedIs(c, p);
      IsGoneIs(a.m, p);
      AfterMark(a, a.m[p + 1].addr);
    } else if Cleared(c, p) {
      ClearedWeak(c, p);
      WeakSlots(a.call.env, a.call.m0, o);
      ClearedIs(c, p);
      LiveTarget(a, p, 0);
      AfterSlot(a, p, 0);
    }
  }

  lemma AtIs(H: Objects, p: nat)
    ensures p in H ==> At(H, p) == H[p]
  {
  }

  lemma ClearedWeak(c: Collection, p: nat)
    requires p in c.H && Cleared(c, p)
    ensures IsWeak(c.env, c.H[p]) && |c.H[p].slots| == 1
  {
    hide IsWeak;
  }

  lemma CollectionFields(a: Marking)
    ensures var c := CollectionOf(a);
      && c.env == a.call.env && c.k == a.k && c.m == a.call.m0 && c.H == a.call.H && c.sp == a.call.sp &&
         c.roots == a.roots
      && c.currentStack == a.currentStack && !c.clearsForeign && c.dest == PlanDest(a) && c.dest.Keys == a.V
      && (forall p :: p in a.V ==> DestOf(c, p) == PlanDest(a)[p])
  {
    hide PlanDest;
  }

  // Where a kept object goes, and that it fits there.
  lemma NewPlace(a: Marking, m': Memory, end: int, p: nat)
    requires AfterMarking(a) && Compacted(Plan(a), m', end) && p in a.V
    ensures p in a.call.H && p in PlanDest(a) && PlanDest(a)[p] <= p && |m'| == |a.call.m0| == |a.m1|
    ensures var o, d := a.call.H[p], PlanDest(a)[p];
      && p < o.front + d && CopiedEnd(a.call.env, a.call.m0, o) <= |m'| &&
         o.front < p <= CopiedEnd(a.call.env, a.call.m0, o) <= o.end
      && p in Plan(a).H && Plan(a).H[p] == AfterObj(a, o) &&
         CopyEnd(Plan(a), AfterObj(a, o)) == CopiedEnd(a.call.env, a.call.m0, o)
  {
    hide *;
    AfterParts(a);
    PlanFields(a);
    PlanSetup(a);
    SetupParts(Plan(a));
    LiveKeys(Plan(a), p);
    OldPlace(a, p);
    SizesStay(a, p);
    SameExtent(a, a.call.H[p]);
    AfterHeapAt(a, p);
    CopyFits(a.call.env, a.k, a.call.m0, a.call.H[p], a.currentStack);
    CompactedLength(Plan(a), m', end, p);
    NewAbove(a, p);
    CopyEndIs(Plan(a), AfterObj(a, a.call.H[p]));
  }

  lemma CopyEndIs(j: Compaction, o: Obj)
    ensures CopyEnd(j, o) == CopiedEnd(j.env, j.m1, o) &&
      Shrunk(j, o) == WordsSaved(j.env, j.k, j.m1, j.currentStack, o)
    ensures NewReserved(j, o.p) == ReservedAfter(j.env, j.k, j.m1, j.currentStack, o.p)
  {
    hide CopiedEnd, WordsSaved, ReservedAfter;
  }

  lemma AfterHeapAt(a: Marking, p: nat)
    requires p in a.call.H
    ensures p in AfterHeap(a) && AfterHeap(a)[p] == AfterObj(a, a.call.H[p])
  {
    hide AfterObj;
  }

  lemma CompactedLength(j: Compaction, m: Memory, end: int, p: nat)
    requires Compacted(j, m, end)
    ensures |m| == |j.m1| && (p in j.Live() ==> p in j.x.dest && j.x.dest[p] <= p)
  {
    hide Placed, RefWord, Gap;
  }

  // New addresses stay above the start of the heap.
  lemma NewAbove(a: Marking, p: nat)
    requires AfterMarking(a) && p in a.V && p in a.call.H
    ensures p in PlanDest(a) && p + a.start <= a.call.H[p].front + PlanDest(a)[p] && 0 < a.start
  {
    hide *;
    AfterParts(a);
    PlanFields(a);
    PlanHeapRight(a);
    AfterHeapAt(a, p);
    SameExtent(a, a.call.H[p]);
    LivePlace(Plan(a), p);
    var i :| 0 <= i < |AfterObjs(a)| && AfterObjs(a)[i].p == p && AfterObjs(a)[i] == AfterHeap(a)[p];
    PlanDestAt(a, i);
    PlanGapBelow(a, i);
    FrontStep(Plan(a), i);
  }

  // The moved word at a.
  lemma NewWordAt(a: Marking, m': Memory, end: int, p: nat, w: nat)
    requires AfterMarking(a) && Compacted(Plan(a), m', end) && p in a.V && p in a.call.H && p in PlanDest(a)
    requires a.call.H[p].front <= w < CopiedEnd(a.call.env, a.call.m0, a.call.H[p])
    ensures 0 <= w + PlanDest(a)[p] - p < |m'|
    ensures m'[w + PlanDest(a)[p] - p] == FinalWord(Plan(a), AfterObj(a, a.call.H[p]), w)
  {
    hide *;
    NewPlace(a, m', end, p);
    PlanFields(a);
    SameExtent(a, a.call.H[p]);
    LiveKeys(Plan(a), p);
    CompactedAt(Plan(a), m', end, p, w);
  }

  lemma FinalWordIs(j: Compaction, o: Obj, w: nat)
    ensures w + 1 != o.p && !(IsStack(j.env, o) && w == o.p + 2) ==> FinalWord(j, o, w) == RefWord(j, w)
    ensures w + 1 == o.p ==> FinalWord(j, o, w) == Unmarked(RefWord(j, w))
    ensures w == o.p + 2 && IsStack(j.env, o) ==> FinalWord(j, o, w) == Bits(NewReserved(j, o.p))
  {
    hide RefWord, NewReserved, IsStack;
  }

  lemma PlainStays(a: Marking, m': Memory, end: int, p: nat, w: nat)
    requires AfterMarking(a) && Compacted(Plan(a), m', end) && p in a.V && p in a.call.H && p in PlanDest(a)
    requires var o := a.call.H[p]; o.front <= w < CopiedEnd(a.call.env, a.call.m0, o) && Plain(a.call.env, o, w)
    ensures 0 <= w + PlanDest(a)[p] - p < |m'| && w < |a.call.m0| && m'[w + PlanDest(a)[p] - p] == a.call.m0[w]
  {
    hide *;
    AfterParts(a);
    var o, o1 := a.call.H[p], AfterObj(a, a.call.H[p]);
    OldPlace(a, p);
    NewPlace(a, m', end, p);
    NewWordAt(a, m', end, p, w);
    SameExtent(a, o);
    SizesStay(a, p);
    PlainIs(a.call.env, o, w);
    PlanFields(a);
    FinalWordIs(Plan(a), o1, w);
    RefWordIs(Plan(a), w);
    PlanSetup(a);
    SetupParts(Plan(a));
    if w in Plan(a).x.tgt { RefInside(Plan(a), w, p); }
    if p in a.G { GoneIs(a, p); }
    BoundsOf(a.call.env, a.call.m0, o);
    MetaFacts(TagOf(a.call.env, o));
    WordStays(a, p, w);
  }

  lemma PlainIs(env: Env, o: Obj, w: nat)
    requires Plain(env, o, w)
    ensures w !in o.slots && w + 1 != o.p && !(IsStack(env, o) && w == o.p + 2)
    ensures Scratch(env, o, w) ==> TagOf(env, o) == SequenceTag && w == o.front
  {
  }

  lemma SlotStays(a: Marking, m': Memory, end: int, p: nat, i: nat)
    requires AfterMarking(a) && Compacted(Plan(a), m', end) && p in a.V && p in a.call.H && p !in a.G &&
      i < |a.call.H[p].slots|
    ensures var s := a.call.H[p].slots[i];
      && p in PlanDest(a) && s < |a.call.m0| && 0 <= s + PlanDest(a)[p] - p < |m'|
      && m'[s + PlanDest(a)[p] - p] == NewWord(CollectionOf(a), a.call.m0[s])
  {
    hide *;
    AfterParts(a);
    var o := a.call.H[p];
    var s := o.slots[i];
    OldPlace(a, p);
    NewPlace(a, m', end, p);
    AfterSlot(a, p, i);
    SlotsCopied(a.call.env, a.call.m0, o, i);
    NewWordAt(a, m', end, p, s);
    SameExtent(a, o);
    PlanFields(a);
    FinalWordIs(Plan(a), o, s);
    StackSlotNot(a.call.env, a.call.m0, o, i);
    RefWordNew(a, s) by { SlotRef(a, p, s); }
  }

  lemma StackSlotNot(env: Env, m: Memory, o: Obj, i: nat)
    requires ValidEnv(env) && IsObject(env, m, o) && i < |o.slots|
    ensures o.slots[i] >= o.p && !(IsStack(env, o) && o.slots[i] == o.p + 2)
  {
    SlotsInside(env, m, o);
  }

  // What is at s is a reference exactly when it points into the heap.
  ghost predicate RefAt(a: Marking, s: nat) {
    && s < |a.m1| == |a.call.m0| && a.m1[s] == a.call.m0[s]
    && (s in Plan(a).x.tgt <==> a.m1[s].Ptr? && InSpaces(a.call.sp, a.m1[s].addr))
  }

  lemma SlotRef(a: Marking, p: nat, s: nat)
    requires AfterMarking(a) && p in a.V && p in a.call.H && p !in a.G && s in a.call.H[p].slots
    ensures RefAt(a, s)
  {
    hide AfterMarking, Plan, InSpaces, AfterObj;
    var i :| 0 <= i < |a.call.H[p].slots| && a.call.H[p].slots[i] == s;
    AfterSlot(a, p, i);
    OldPlace(a, p);
    PlanFields(a);
    PlanSetup(a);
    SetupParts(Plan(a));
    AfterHeapAt(a, p);
    SameExtent(a, a.call.H[p]);
    SlotIsRef(Plan(a), p, s);
  }

  lemma RootRef(a: Marking, i: nat)
    requires AfterMarking(a) && i < |a.roots|
    ensures RefAt(a, a.roots[i])
  {
    hide AfterMarking, Plan, InSpaces, AfterObj, OwnedBy;
    AfterRoot(a, i);
    PlanFields(a);
    PlanSetup(a);
    SetupParts(Plan(a));
    RootIsRef(Plan(a), a.roots[i]);
  }

  lemma RootIsRef(j: Compaction, s: nat)
    requires RefsRight(j) && s in j.roots && s < |j.m1|
    ensures s in j.x.tgt <==> j.m1[s].Ptr? && InSpaces(j.sp, j.m1[s].addr)
    ensures s in j.x.tgt ==> j.m1[s] == Ptr(j.x.tgt[s])
  {
    assert OwnedBy(j, s, 0);
  }

  lemma RefWordNew(a: Marking, s: nat)
    requires AfterMarking(a) && RefAt(a, s)
    ensures RefWord(Plan(a), s) == NewWord(CollectionOf(a), a.call.m0[s])
  {
    hide AfterMarking, Plan, InSpaces, PlanDest, CollectionOf;
    AfterParts(a);
    PlanFields(a);
    CollectionFields(a);
    PlanSetup(a);
    SetupParts(Plan(a));
    RefWordIs(Plan(a), s);
    var w := a.m1[s];
    if s in Plan(a).x.tgt {
      RefTarget(Plan(a), s);
    } else if w.Ptr? && w.addr in a.V {
      InsideSpaces(a.call.H, a.call.sp, w.addr);
    }
  }

  lemma InsideSpaces(H: Objects, sp: Spaces, p: nat)
    requires Within(H, sp) && p in H
    ensures InSpaces(sp, p)
  {
    hide InSpaces;
  }

  lemma HeaderStays(a: Marking, m': Memory, end: int, p: nat)
    requires AfterMarking(a) && Compacted(Plan(a), m', end) && p in a.V && p in a.call.H
    ensures p in PlanDest(a) && 0 < PlanDest(a)[p] <= |m'|
    ensures m'[PlanDest(a)[p] - 1] == Header(if p in a.G then WEAK_GONE_TYPE_INDEX else a.call.H[p].ty, 0, false)
  {
    hide *;
    AfterParts(a);
    var o, o1 := a.call.H[p], AfterObj(a, a.call.H[p]);
    OldPlace(a, p);
    NewPlace(a, m', end, p);
    NewWordAt(a, m', end, p, p - 1);
    SameExtent(a, o);
    PlanFields(a);
    FinalWordIs(Plan(a), o1, p - 1);
    RefWordIs(Plan(a), p - 1);
    PlanSetup(a);
    SetupParts(Plan(a));
    AfterHeapAt(a, p);
    HeaderNotRef(Plan(a), p);
    AfterMark(a, p);
    MarkedIs(a.call, a.V, a.m, p);
    MarkedObjectIs(a.call.env, a.call.H[p], a.call.bit, a.call.link, a.call.m0, a.m);
    BoundsOf(a.call.env, a.call.m0, o);
    CallClean(a.call, p);
    UnmarkedIs(a.m1[p - 1]);
  }

  lemma CallClean(c: Call, p: nat)
    requires CallOk(c) && p in c.H && 0 < p <= |c.m0| && c.m0[p - 1].Header? && c.H[p].p == p
    ensures c.m0[p - 1].counter == 0
  {
    hide AreObjects, SlotsOk, Within;
    assert Clean(c.env, c.m0, c.H[p]);
  }

  lemma UnmarkedIs(w: Word)
    ensures w.Header? ==> Unmarked(w) == Header(w.ty, w.counter, false)
  {
  }

  lemma StackStays(a: Marking, m': Memory, end: int, p: nat)
    requires AfterMarking(a) && Compacted(Plan(a), m', end) && p in a.V && p in a.call.H &&
      IsStack(a.call.env, a.call.H[p])
    ensures var r := ReservedAfter(a.call.env, a.k, a.call.m0, a.currentStack, p);
      && p in PlanDest(a) && PlanDest(a)[p] + 4 + ToNat(r) / 8 <= |m'| && m'[PlanDest(a)[p] + 2] == Bits(r)
  {
    hide *;
    AfterParts(a);
    var o, o1 := a.call.H[p], AfterObj(a, a.call.H[p]);
    OldPlace(a, p);
    NewPlace(a, m', end, p);
    StackFields(a.call.env, a.k, a.call.m0, o, a.currentStack);
    CopyFits(a.call.env, a.k, a.call.m0, o, a.currentStack);
    StackFour();
    NewWordAt(a, m', end, p, p + 2);
    SameExtent(a, o);
    SizesStay(a, p);
    PlanFields(a);
    FinalWordIs(Plan(a), o1, p + 2);
    CopyEndIs(Plan(a), o1);
    ToNatIs(ReservedAfter(a.call.env, a.k, a.call.m0, a.currentStack, p));
  }

  lemma StackFour()
    ensures STACK_STRUCT_WORDS == 4
  {
  }

  lemma ToNatIs(x: int)
    ensures x >= 0 ==> ToNat(x) == x
  {
  }

  lemma ClearedStays(a: Marking, m': Memory, end: int, p: nat)
    requires AfterMarking(a) && Compacted(Plan(a), m', end) && p in a.V && p in a.G
    ensures p in PlanDest(a) && PlanDest(a)[p] + 1 < |m'| && m'[PlanDest(a)[p] + 1] == BOGUS_OBJPTR
  {
    hide *;
    AfterParts(a);
    GoneIs(a, p);
    var o, o1 := a.call.H[p], AfterObj(a, a.call.H[p]);
    OldPlace(a, p);
    NewPlace(a, m', end, p);
    StackNotWeak(a.call.env, o);
    CopyWhole(a.call.env, a.call.m0, o);
    NewWordAt(a, m', end, p, p + 1);
    SameExtent(a, o);
    SizesStay(a, p);
    PlanFields(a);
    FinalWordIs(Plan(a), o1, p + 1);
    RefWordIs(Plan(a), p + 1);
    PlanSetup(a);
    SetupParts(Plan(a));
    AfterHeapAt(a, p);
    if p + 1 in Plan(a).x.tgt { RefInside(Plan(a), p + 1, p); }
    BogusAt(a, p);
  }

  lemma CopyWhole(env: Env, m: Memory, o: Obj)
    requires !IsStack(env, o)
    ensures CopiedEnd(env, m, o) == o.end
  {
  }

  lemma BogusAt(a: Marking, p: nat)
    requires AfterMarking(a) && p in a.G && p + 1 < |a.m1|
    ensures a.m1[p + 1] == BOGUS_OBJPTR
  {
    hide *;
    AfterParts(a);
    if p + 2 in a.G {
      GoneIs(a, p);
      GoneIs(a, p + 2);
      TwoListed(a.call, a.V, a.m, a.L, p, p + 2);
    }
    BogusIs(a.m, a.G, a.m1, p);
  }

  lemma BogusIs(m: Memory, G: set<nat>, m': Memory, p: nat)
    requires WeaksCleared(m, G, m') && p in G && p + 2 !in G && p + 1 < |m'|
    ensures m'[p + 1] == BOGUS_OBJPTR
  {
  }

  lemma KeptAfter(a: Marking, m': Memory, end: int, p: nat)
    requires AfterMarking(a) && Compacted(Plan(a), m', end) && p in a.V
    ensures Kept(CollectionOf(a), p, m')
  {
    hide *;
    AfterParts(a);
    NewPlace(a, m', end, p);
    var c, o, d := CollectionOf(a), a.call.H[p], PlanDest(a)[p];
    CollectionFields(a);
    AtIs(a.call.H, p);
    OldPlace(a, p);
    GoneCleared(a, p);
    HeaderStays(a, m', end, p);
    if IsStack(c.env, o) { StackStays(a, m', end, p); }
    if p in a.G { ClearedStays(a, m', end, p); }
    forall w: nat | o.front <= w < CopiedEnd(c.env, c.m, o) && Plain(c.env, o, w)
      ensures 0 <= w + d - p < |m'| && w < |c.m| && m'[w + d - p] == c.m[w]
    {
      PlainStays(a, m', end, p, w);
    }
    forall i | 0 <= i < |o.slots| && p !in a.G
      ensures 0 <= o.slots[i] + d - p < |m'| && o.slots[i] < |c.m| &&
        m'[o.slots[i] + d - p] == NewWord(c, c.m[o.slots[i]])
    {
      SlotStays(a, m', end, p, i);
    }
    KeptIntro(c, p, m');
  }

  // ------------------------------------------------------------------ the order

  // The live objects among the first n, in address order.
  ghost function OrderUpTo(a: Marking, n: nat): seq<nat> {
    if n == 0 || n > |a.objs| then []
    else OrderUpTo(a, n - 1) + if a.objs[n - 1].p in a.V then [a.objs[n - 1].p] else []
  }

  lemma {:induction false} OrderMember(a: Marking, n: nat, p: nat)
    requires n <= |a.objs|
    ensures p in OrderUpTo(a, n) <==> p in a.V && exists i :: 0 <= i < n && a.objs[i].p == p
  {
    if n > 0 { OrderMember(a, n - 1, p); }
  }

  lemma {:induction false} OrderDistinct(a: Marking, n: nat)
    requires n <= |a.objs| && Tiles(a.objs, a.start, a.back)
    ensures forall i, k :: 0 <= i < k < |OrderUpTo(a, n)| ==> OrderUpTo(a, n)[i] != OrderUpTo(a, n)[k]
  {
    hide Tiles;
    if n > 0 {
      OrderDistinct(a, n - 1);
      OrderMember(a, n - 1, a.objs[n - 1].p);
      if a.objs[n - 1].p in OrderUpTo(a, n - 1) {
        var i :| 0 <= i < n - 1 && a.objs[i].p == a.objs[n - 1].p;
        TilesApart(a.objs, a.start, a.back, i, n - 1);
      }
    }
  }

  predicate Ascending(s: seq<nat>) { forall i, k :: 0 <= i < k < |s| ==> s[i] < s[k] }

  // Sliding keeps the objects in address order.
  lemma {:induction false} OrderAscending(a: Marking, n: nat)
    requires n <= |a.objs| && Tiles(a.objs, a.start, a.back)
    ensures Ascending(OrderUpTo(a, n))
  {
    hide Tiles;
    if n > 0 {
      OrderAscending(a, n - 1);
      var before := OrderUpTo(a, n - 1);
      forall i | 0 <= i < |before|
        ensures before[i] < a.objs[n - 1].p
      {
        OrderMember(a, n - 1, before[i]);
        var k :| 0 <= k < n - 1 && a.objs[k].p == before[i];
        Ordered(a.objs, a.start, a.back, k, n - 1);
        TilePlace(a.objs, a.start, a.back, k);
        TilePlace(a.objs, a.start, a.back, n - 1);
      }
    }
  }

  lemma TilePlace(objs: seq<Obj>, lo: nat, hi: nat, i: nat)
    requires Tiles(objs, lo, hi) && i < |objs|
    ensures objs[i].front < objs[i].p <= objs[i].end
  {
  }

  lemma OrderLists(a: Marking)
    requires AfterMarking(a)
    ensures Lists(OrderUpTo(a, |a.objs|), a.V)
  {
    hide AfterMarking, Tiles, Covers, OrderUpTo;
    AfterParts(a);
    OrderDistinct(a, |a.objs|);
    forall p
      ensures p in OrderUpTo(a, |a.objs|) <==> p in a.V
    {
      OrderMember(a, |a.objs|, p);
      if p in a.V { CoveredAt(a.call.H, a.objs, p); }
    }
  }

  lemma CoveredAt(H: Objects, objs: seq<Obj>, p: nat)
    requires Covers(H, objs) && p in H
    ensures exists i :: 0 <= i < |objs| && objs[i].p == p && objs[i] == H[p]
  {
    var i :| 0 <= i < |objs| && objs[i].p == p;
    assert objs[i] == H[p];
  }

  lemma CoversAt(H: Objects, objs: seq<Obj>, i: nat)
    requires Covers(H, objs) && i < |objs|
    ensures objs[i].p in H && H[objs[i].p] == objs[i]
  {
  }

  // Up to object n, the kept objects fill the space below the new place of n.
  lemma {:induction false} OrderTiles(a: Marking, n: nat)
    requires AfterMarking(a) && n <= |a.objs|
    ensures Gap(Plan(a), AfterObjs(a), n) <= FrontOf(Plan(a), n)
    ensures Tiles(NewObjs(CollectionOf(a), OrderUpTo(a, n)), a.start,
      FrontOf(Plan(a), n) - Gap(Plan(a), AfterObjs(a), n))
  {
    hide *;
    var c, j := CollectionOf(a), Plan(a);
    PlanFields(a);
    PlanHeapRight(a);
    AfterParts(a);
    PlanGapBelow(a, n);
    if n == 0 {
      StartFront(j);
      NoGap(j, AfterObjs(a));
      OrderNone(a);
      EmptyTiles(c, a.start);
    } else {
      OrderTiles(a, n - 1);
      OrderNext(a, n);
      PlanGapBelow(a, n - 1);
      GapNext(j, n - 1);
      FrontStep(j, n - 1);
      AfterObjAt(a, n - 1);
      ObjIn(j, n - 1);
      SameExtent(a, a.objs[n - 1]);
      CoversAt(a.call.H, a.objs, n - 1);
      SkipIs(j, AfterObjs(a)[n - 1]);
      if a.objs[n - 1].p in a.V {
        NewObjPlace(a, n - 1);
        NewObjsAdd(c, OrderUpTo(a, n - 1), a.objs[n - 1].p);
        TilesAdd(NewObjs(c, OrderUpTo(a, n - 1)), a.start, FrontOf(j, n - 1) - Gap(j, AfterObjs(a), n - 1),
          NewObj(c, a.objs[n - 1].p));
      }
    }
  }

  lemma OrderNone(a: Marking)
    ensures OrderUpTo(a, 0) == []
  {
  }

  lemma OrderNext(a: Marking, n: nat)
    requires 0 < n <= |a.objs|
    ensures a.objs[n - 1].p in a.V ==> OrderUpTo(a, n) == OrderUpTo(a, n - 1) + [a.objs[n - 1].p]
    ensures a.objs[n - 1].p !in a.V ==> OrderUpTo(a, n) == OrderUpTo(a, n - 1)
  {
  }

  lemma EmptyTiles(c: Collection, start: nat)
    ensures Tiles(NewObjs(c, []), start, start)
  {
    hide NewObj;
  }

  lemma NewObjsAdd(c: Collection, order: seq<nat>, p: nat)
    ensures NewObjs(c, order + [p]) == NewObjs(c, order) + [NewObj(c, p)]
  {
    hide NewObj;
  }

  lemma AfterObjAt(a: Marking, i: nat)
    requires i < |a.objs|
    ensures |AfterObjs(a)| == |a.objs| && AfterObjs(a)[i] == AfterObj(a, a.objs[i])
  {
    hide AfterObj;
  }

  // The new object starts where the gap below it says, and is as long as what
  // it keeps.
  lemma NewObjPlace(a: Marking, i: nat)
    requires AfterMarking(a) && i < |a.objs| && a.objs[i].p in a.V && a.objs[i].p in a.call.H &&
      a.call.H[a.objs[i].p] == a.objs[i]
    ensures var j, n := Plan(a), NewObj(CollectionOf(a), a.objs[i].p);
      && Gap(j, AfterObjs(a), i) <= a.objs[i].front
      && n.front == a.objs[i].front - Gap(j, AfterObjs(a), i) && n.front < n.p <= n.end
      && n.end == a.objs[i].end - Gap(j, AfterObjs(a), i) - Shrunk(j, AfterObjs(a)[i])
  {
    hide *;
    var j, c, p, o := Plan(a), CollectionOf(a), a.objs[i].p, a.objs[i];
    PlanFields(a);
    AfterParts(a);
    PlanHeapRight(a);
    CollectionFields(a);
    AfterObjAt(a, i);
    SameExtent(a, o);
    PlanGapBelow(a, i);
    FrontStep(j, i);
    PlanDestAt(a, i);
    OldPlace(a, p);
    SizesStay(a, p);
    CopyFits(a.call.env, a.k, a.call.m0, o, a.currentStack);
    CopyEndIs(j, AfterObjs(a)[i]);
    NewObjExtent(c, p);
  }

  lemma NewObjExtent(c: Collection, p: nat)
    requires p in c.H && p in c.dest && c.H[p].p == p
    requires p <= c.H[p].front + c.dest[p] &&
      p + WordsSaved(c.env, c.k, c.m, c.currentStack, c.H[p]) <= c.H[p].end + c.dest[p]
    ensures var n := NewObj(c, p);
      && n.front == c.H[p].front + c.dest[p] - p && n.p == c.dest[p]
      && n.end == c.H[p].end + c.dest[p] - p - WordsSaved(c.env, c.k, c.m, c.currentStack, c.H[p])
  {
    hide Cleared, WordsSaved;
  }

  // The two passes complete a collection.
  lemma CompactedCollects(a: Marking, m': Memory, end: nat)
    requires AfterMarking(a) && Compacted(Plan(a), m', end)
    ensures Collected(CollectionOf(a), OrderUpTo(a, |a.objs|), m', a.start, end)
  {
    hide *;
    AfterParts(a);
    PlanFields(a);
    CollectionFields(a);
    OrderLists(a);
    OrderTiles(a, |a.objs|);
    PlanHeapRight(a);
    FrontBounds(Plan(a), |a.objs|) by { AfterLength(a); }
    AfterLength(a);
    CompactedEnd(Plan(a), m', end);
    forall p | p in a.V
      ensures Kept(CollectionOf(a), p, m')
    {
      KeptAfter(a, m', end, p);
    }
    LiveIsReached(a);
    forall i | 0 <= i < |a.roots|
      ensures a.roots[i] < |m'| && a.roots[i] < |a.call.m0| &&
        m'[a.roots[i]] == NewWord(CollectionOf(a), a.call.m0[a.roots[i]])
    {
      RootAfter(a, m', end, i);
    }
    CollectedIntro(CollectionOf(a), OrderUpTo(a, |a.objs|), m', a.start, end);
  }

  lemma AfterLength(a: Marking)
    ensures |AfterObjs(a)| == |a.objs|
  {
  }

  lemma CompactedEnd(j: Compaction, m: Memory, end: int)
    requires Compacted(j, m, end)
    ensures |m| == |j.m1| && end == j.back - Gap(j, j.objs, |j.objs|)
  {
    hide Placed, RefWord, Gap;
  }

  lemma LiveIsReached(a: Marking)
    requires AfterMarking(a)
    ensures Live(CollectionOf(a)) == a.V
  {
    hide WeakHeap, WeaksCleared, GoneOf, RootsOk, NoMarks, FramesBounded, Tiles, Covers, Reach, PlanDest, PointerGraph,
      RootTargets;
  }

  lemma RootAfter(a: Marking, m': Memory, end: int, i: nat)
    requires AfterMarking(a) && Compacted(Plan(a), m', end) && i < |a.roots|
    ensures a.roots[i] < |m'| == |a.call.m0| && m'[a.roots[i]] == NewWord(CollectionOf(a), a.call.m0[a.roots[i]])
  {
    hide *;
    AfterParts(a);
    PlanFields(a);
    AfterRoot(a, i);
    RootRef(a, i);
    RefWordNew(a, a.roots[i]);
    CompactedRoot(Plan(a), m', end, a.roots[i]);
  }

  lemma CompactedRoot(j: Compaction, m: Memory, end: int, s: nat)
    requires Compacted(j, m, end) && s in j.roots && s < |j.m1|
    ensures |m| == |j.m1| && m[s] == RefWord(j, s)
  {
    hide Placed, RefWord, Gap;
  }

  // ------------------------------------------------------------------ the method

  // The collector's state, as the collection sees it.
  ghost predicate Starts(s: GCState, c: Collection, objs: seq<Obj>, currentStack: nat)
    reads s, s.mem
  {
    && c.env == s.env && c.k == s.stackControls && c.m == s.mem[..] && c.sp == s.Spaces() && c.roots == s.roots
    && c.currentStack == currentStack && !c.clearsForeign
    && HeapOk(c)
    && s.weaks == 0 && 0 < s.start && s.start + s.oldGenSize <= s.mem.Length
    && Tiles(objs, s.start, s.start + s.oldGenSize) && Covers(c.H, objs)
  }

  lemma MarkStart(c: Collection)
    requires HeapOk(c)
    ensures var call := Call(c.env, c.m, c.H, c.sp, true, true, 0);
      CallOk(call) && RootsOk(c.m, c.H, c.sp, c.roots) && Links(call, {}, c.m, 0, [], []) && Already(call) == {}
  {
    hide Quiet, Within, SlotsOk, RootsOk, FramesBounded;
  }

  lemma AllMarkedIs(c: Collection, V: set<nat>, m: Memory, size: int, w: nat, L: seq<nat>)
    requires HeapOk(c)
    requires AllMarked(Call(c.env, c.m, c.H, c.sp, true, true, 0), c.roots, |c.roots|, V, m, size, w, L, [])
    ensures WeakHeap(Call(c.env, c.m, c.H, c.sp, true, true, 0), V, m, L) && WeakChain(m, w, L)
    ensures V == Live(c)
  {
    hide HeapOk, CallOk, Marked, Already, Reach, PointerGraph, RootTargets, Linkable, BytesMarked;
    MarkStart(c);
    var g := PointerGraph(c.env, c.m, c.H);
    assert Without(g, {}) == g;
  }

  lemma AfterIntro(c: Collection, V: set<nat>, m: Memory, L: seq<nat>, G: set<nat>, m1: Memory, objs: seq<Obj>,
          start: nat, back: nat)
    requires HeapOk(c) && WeakHeap(Call(c.env, c.m, c.H, c.sp, true, true, 0), V, m, L) && V == Live(c)
    requires WeaksCleared(m, G, m1) && GoneOf(m, L, |L|, G)
    requires Tiles(objs, start, back) && Covers(c.H, objs) && 0 < start && back <= |c.m|
    ensures AfterMarking(Marking(Call(c.env, c.m, c.H, c.sp, true, true, 0), V, m, L, G, m1, c.k, objs, start, back,
      c.roots, c.currentStack))
  {
    hide Quiet, Within, SlotsOk, RootsOk, FramesBounded, NoMarks, WeakHeap, WeaksCleared, GoneOf, Tiles, Covers, Reach;
  }

  // No reference is threaded yet.
  lemma NothingThreaded(j: Compaction)
    requires Setup(j)
    ensures Threaded(j.x, j.m1, {}, {}, (map t | t in j.x.dest :: []), j.m1)
    ensures VisitedAt(j, j.start) == RefsIn(j.x, j.roots)
  {
    hide HeapRight, MarksRight, RefsRight, DestRight;
    RefsAreOk(j);
    RootsVisited(j);
  }

  lemma RootsVisited(j: Compaction)
    requires Setup(j)
    ensures VisitedAt(j, j.start) == RefsIn(j.x, j.roots)
  {
    hide HeapRight, MarksRight, RefsRight, DestRight;
    forall s | s in j.x.tgt
      ensures s in j.own && (j.own[s] < j.start <==> s in j.roots)
    {
      RootOwned(j, s);
    }
    forall s
      ensures s in RefsIn(j.x, j.roots) <==> s in j.x.tgt && s in j.roots
    {
      RefsInIs(j.x, j.roots, s);
    }
  }

  lemma RefsInIs(x: Refs, slots: seq<nat>, s: nat)
    ensures s in RefsIn(x, slots) <==> s in x.tgt && s in slots
  {
  }

  lemma RootOwned(j: Compaction, s: nat)
    requires Setup(j) && s in j.x.tgt
    ensures s in j.own && (j.own[s] < j.start <==> s in j.roots)
  {
    hide *;
    SetupParts(j);
    RefOwner(j, s);
    FrontRange(j, 0);
    if !(j.own[s] == 0 && s in j.roots) {
      var q := j.own[s] + 1;
      LivePlace(j, q);
      SlotExtent(j, q, s);
      HeaderInside(j, q);
      if s in j.roots { RootOutside(j, s, q); ObjectAt(j, q); }
    }
  }

  lemma RootsReady(j: Compaction)
    requires Setup(j)
    ensures SlotsReady(j.x, j.m1, j.sp, {}, j.roots)
  {
    hide *;
    SetupParts(j);
    RootsAreDistinct(j);
    forall i | 0 <= i < |j.roots|
      ensures SlotReady(j.x, j.m1, j.sp, {}, j.roots[i])
    {
      var s := j.roots[i];
      RootIn(j, s);
      RootIsRef(j, s);
      if s + 1 in j.x.dest {
        LiveIn(j, s + 1);
        HeaderInside(j, s + 1);
        RootOutside(j, s, s + 1);
      }
      SlotReadyIntro(j.x, j.m1, j.sp, {}, s);
    }
    SlotsReadyIntro(j.x, j.m1, j.sp, {}, j.roots);
  }

  lemma RootsAreDistinct(j: Compaction)
    requires HeapRight(j)
    ensures Distinct(j.roots)
  {
    hide AreObjects, Covers, Tiles, FramesBounded, Distinct, TargetOk;
  }

  lemma StartsParts(s: GCState, c: Collection, objs: seq<Obj>, currentStack: nat)
    requires Starts(s, c, objs, currentStack)
    ensures c.env == s.env && c.k == s.stackControls && c.m == s.mem[..] && c.sp == s.Spaces() && c.roots == s.roots
    ensures c.currentStack == currentStack && HeapOk(c) && s.weaks == 0 && 0 < s.start
    ensures s.start + s.oldGenSize <= s.mem.Length && Tiles(objs, s.start, s.start + s.oldGenSize) && Covers(c.H, objs)
    ensures !c.clearsForeign
  {
    hide HeapOk, Tiles, Covers;
  }

  lemma WorkingIntro(s: GCState, j: Compaction)
    requires s.env == j.env && s.stackControls == j.k && s.roots == j.roots
    requires s.Spaces() == j.sp && s.start == j.start && s.start + s.oldGenSize == j.back
    requires s.mem.Length == |j.m1|
    ensures Working(s, j)
  {
  }

  // majorMarkCompactGC.  The collected heap is the old generation, and what it
  // holds is what the roots reach.
  method MajorMarkCompact(s: GCState, currentStack: nat, ghost c0: Collection, ghost objs: seq<Obj>)
    returns (ghost c: Collection, ghost order: seq<nat>)
    requires Starts(s, c0, objs, currentStack)
    modifies s.mem, s`weaks, s`oldGenSize
    ensures c == c0.(dest := c.dest)
    ensures Collected(c, order, s.mem[..], s.start, s.start + s.oldGenSize)
    ensures ForeignApart(c, s.start, s.start + s.oldGenSize) && RootsApart(c.roots, s.start, s.start + s.oldGenSize)
    ensures HeapOk(Next(c, s.mem[..], s.start, s.start + s.oldGenSize))
    ensures s.oldGenSize <= old(s.oldGenSize) && s.weaks == 0 && Ascending(order)
  {
    hide *;
    StartsParts(s, c0, objs, currentStack);
    SpacesIs(s);
    ghost var call := Call(c0.env, c0.m, c0.H, c0.sp, true, true, 0);
    ghost var start, back := s.start, s.start + s.oldGenSize;
    MarkStart(c0);
    BitIs();
    var size;
    ghost var V, L;
    size, V, L := MarkAll(s, MarkMode, true, c0.H, []);
    ghost var m := s.mem[..];
    AllMarkedIs(c0, V, m, size, s.weaks, L);
    ghost var G := UpdateWeaks(s, call, V, L);
    ghost var a := Marking(call, V, m, L, G, s.mem[..], c0.k, objs, start, back, c0.roots, currentStack);
    AfterIntro(c0, V, m, L, G, s.mem[..], objs, start, back);
    ghost var j := Plan(a);
    PlanSetup(a);
    PlanFields(a);
    RootsReady(j);
    NothingThreaded(j);
    ghost var T0 := map t | t in j.x.dest :: [];
    var roots := s.roots;
    ghost var T := ThreadSlots(s, roots, j.x, j.m1, {}, {}, T0);
    assert {} + RefsIn(j.x, j.roots) == VisitedAt(j, j.start);
    AfterParts(a);
    WorkingIntro(s, j);
    ghost var st, gap := UpdateForwardPointers(s, currentStack, j, T);
    ForwardParts(j, st, s.mem[..], gap);
    ghost var out := st.out + j.objs[st.e..st.i];
    BackwardBegin(j, st, s.mem[..], gap, out);
    ghost var sl;
    sl, gap := UpdateBackwardPointersAndSlide(s, currentStack, j, st.base, out, st.T);
    BackwardEnd(j, st.base, out, sl, s.mem[..], gap);
    CompactedCollects(a, s.mem[..], s.start + s.oldGenSize);
    CollectionFields(a);
    c, order := CollectionOf(a), OrderUpTo(a, |a.objs|);
    OrderAscending(a, |a.objs|);
    GapPositive(j, st.base, out, sl, s.mem[..], gap);
    NewSpaceApart(a, s.start + s.oldGenSize);
    HeapOkSame(c0, c);
    HeapStaysOk(c, order, s.mem[..], s.start, s.start + s.oldGenSize);
  }

  lemma SpacesIs(s: GCState)
    ensures s.Spaces() == Spaces(s.start, s.start + s.oldGenSize, s.nursery, s.frontier)
  {
  }

  lemma HeapOkSame(c0: Collection, c: Collection)
    requires HeapOk(c0) && c == c0.(dest := c.dest)
    ensures HeapOk(c)
  {
  }

  // A compaction uses no space that the heap did not have.
  lemma NewSpaceApart(a: Marking, end: nat)
    requires AfterMarking(a) && a.call.sp.start == a.start && a.start <= end <= a.back == a.call.sp.oldEnd
    ensures ForeignApart(CollectionOf(a), a.start, end) && RootsApart(a.roots, a.start, end)
  {
    hide *;
    CollectionFields(a);
    PlanFields(a);
    PlanHeapRight(a);
    forall i | 0 <= i < |a.roots|
      ensures !(a.start <= a.roots[i] < end)
    {
      RootNotIn(Plan(a), a.roots[i]);
    }
    RootsApartIntro(a.roots, a.start, end);
    InnerApart(CollectionOf(a), a.start, end);
  }

  lemma RootsApartIntro(roots: seq<nat>, start: nat, end: nat)
    requires forall i :: 0 <= i < |roots| ==> !(start <= roots[i] < end)
    ensures RootsApart(roots, start, end)
  {
  }

  lemma InnerApart(c: Collection, start: nat, end: nat)
    requires c.sp.start == start && end <= c.sp.oldEnd
    ensures ForeignApart(c, start, end)
  {
    hide WordAt;
  }

  lemma BitIs()
    ensures Bit(MarkMode) == true
  {
  }

  lemma GapPositive(j: Compaction, base: Memory, out: seq<Obj>, sl: Slide, m: Memory, gap: int)
    requires Backward(j, base, out, sl, m, gap)
    ensures gap >= 0
  {
    hide *;
    BackwardParts(j, base, out, sl, m, gap);
  }
}
