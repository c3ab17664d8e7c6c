// A minor collection and, right after it, a major one: the sequence that performGC
// runs.  The program sees the same heap through both.

module MinorThenMajor {
  import opened Layout
  import opened Graph
  import opened Heap
  import opened State
  import opened StackObject
  import opened Tiling
  import opened Relocate
  import opened Cursor
  import opened DfsInvariant
  import opened Roots
  import opened CrossMap
  import opened Collection
  import opened Preserved
  import opened Copying
  import opened CopyStep
  import opened CopyScan
  import opened Forward
  import opened OldScan
  import opened CopyDone
  import opened MajorCopy
  import Driver
  import MarkCompact
  import opened MinorHeap
  import opened MinorCopy

  // ------------------------------------------------ walks through a minor collection

  // A word as slots and roots hold it before a minor collection.
  ghost predicate Seen(h: Generations, c: Collection, w: Word) {
    TargetOk(h.f.H, h.f.sp, w) && NotInGap(h.f, w) && (w.Ptr? && w.addr in YoungHeap(h) ==> w.addr in c.dest)
  }

  lemma SeenIntro(h: Generations, c: Collection, w: Word)
    requires TargetOk(h.f.H, h.f.sp, w) && NotInGap(h.f, w) && (w.Ptr? && w.addr in YoungHeap(h) ==> w.addr in c.dest)
    ensures Seen(h, c, w)
  {
  }

  lemma SeenParts(h: Generations, c: Collection, w: Word)
    requires Seen(h, c, w)
    ensures TargetOk(h.f.H, h.f.sp, w) && NotInGap(h.f, w) && (w.Ptr? && w.addr in YoungHeap(h) ==> w.addr in c.dest)
  {
  }

  // A word seen points to an object afterwards just when it did before: to the
  // copy of a young object, or to the same old object.
  lemma SeenTarget(h: Generations, c: Collection, order: seq<nat>, m': Memory, end: nat, w: Word)
    requires MinorDone(h, c, order, m', end) && Seen(h, c, w)
    ensures w.Ptr? && w.addr in h.f.H <==> NewWord(c, w).Ptr? && NewWord(c, w).addr in WholeHeap(h, c)
    ensures w.Ptr? && w.addr in c.dest ==>
      && w.addr in h.f.H && w.addr in c.H && h.f.H[w.addr] == c.H[w.addr] && NewWord(c, w) == Ptr(c.dest[w.addr])
      && c.dest[w.addr] in WholeHeap(h, c) && WholeHeap(h, c)[c.dest[w.addr]] == NewObj(c, w.addr)
    ensures w.Ptr? && w.addr in h.f.H && w.addr !in c.dest ==>
      && w.addr in OldHeap(h) && NewWord(c, w) == w && w.addr in WholeHeap(h, c) &&
         WholeHeap(h, c)[w.addr] == h.f.H[w.addr]
  {
    hide *;
    SeenParts(h, c, w);
    DoneParts(h, c, order, m', end);
    Parts(h);
    NewWordIs(c, w);
    if w.Ptr? {
      if w.addr in c.dest {
        YoungKeys(h, w.addr);
        NewHeapAt(c, order, m', h.f.sp.oldEnd, end, w.addr);
        WholeAt(h, c, c.dest[w.addr]);
        YoungSame(h, c, w.addr);
      } else {
        WholeAt(h, c, w.addr);
        if w.addr in h.f.H {
          WhichGeneration(h, w.addr);
          NotNew(h, c, order, m', end, w);
        } else {
          NotNew(h, c, order, m', end, w);
          if w.addr in OldHeap(h) { OldBelow(h, w.addr); }
        }
      }
    }
  }

  lemma YoungSame(h: Generations, c: Collection, p: nat)
    requires p in YoungHeap(h) && c.H == YoungHeap(h)
    ensures p in c.H && p in h.f.H && c.H[p] == h.f.H[p]
  {
  }

  // No word seen points to where the copies go, unless that is an object already.
  lemma NotNew(h: Generations, c: Collection, order: seq<nat>, m': Memory, end: nat, w: Word)
    requires MinorDone(h, c, order, m', end) && w.Ptr?
    requires TargetOk(h.f.H, h.f.sp, w) && NotInGap(h.f, w) && w.addr !in YoungHeap(h)
    ensures w.addr !in NewHeap(c)
  {
    hide *;
    DoneParts(h, c, order, m', end);
    Parts(h);
    GapIs(h.f, w);
    if w.addr in NewHeap(c) {
      NewAbove(h, c, order, m', end, w.addr);
      FullIs(h.f, w);
      WhichGeneration(h, w.addr);
    }
  }

  // The strong slots of an old object stay; each is redirected.
  lemma OldStrong(h: Generations, c: Collection, order: seq<nat>, m': Memory, end: nat, p: nat, i: nat)
    requires MinorDone(h, c, order, m', end) && p in OldHeap(h) && p in h.f.H && i < |Strong(h.f.env, h.f.H[p])|
    ensures var w := WordAt(h.f.m, Strong(h.f.env, h.f.H[p])[i]);
      Seen(h, c, w) && WordAt(m', Strong(h.f.env, h.f.H[p])[i]) == NewWord(c, w)
  {
    hide *;
    DoneParts(h, c, order, m', end);
    OldBelow(h, p);
    StrongIs(h.f.env, h.f.H[p]);
    var u :| 0 <= u < |h.old_| && h.old_[u] == h.f.H[p];
    SlotIsRoot(h.f.roots, h.old_, u, i);
    RootSeen(h, c, order, m', end, |h.f.roots| + |OldSlots(h.old_, u)| + i);
  }

  lemma StrongIs(env: Env, o: Obj)
    ensures Strong(env, o) == if IsWeak(env, o) then [] else o.slots
  {
  }

  lemma RootSeen(h: Generations, c: Collection, order: seq<nat>, m': Memory, end: nat, i: nat)
    requires MinorDone(h, c, order, m', end) && i < |c.roots|
    ensures Seen(h, c, WordAt(h.f.m, c.roots[i])) && WordAt(m', c.roots[i]) == NewWord(c, WordAt(h.f.m, c.roots[i]))
    ensures c.roots[i] < |m'|
  {
    hide *;
    DoneParts(h, c, order, m', end);
    RootAfter(h, c, order, m', end, i);
    RootReached(c, i);
    Parts(h);
    var w := c.m[c.roots[i]];
    if i < |h.f.roots| {
      MinorHeap.RootFacts(h.f, i);
      GapRoot(h.f, i);
    } else {
      OldSlotAt(h, i - |h.f.roots|);
    }
    WordAtIs(h.f.m, c.roots[i]);
    WordAtIs(m', c.roots[i]);
    SeenIntro(h, c, w);
  }

  // The strong slots of a young object are those of its copy.
  lemma YoungStrong(h: Generations, c: Collection, order: seq<nat>, m': Memory, end: nat, p: nat, i: nat)
    requires MinorDone(h, c, order, m', end) && p in c.dest && p in c.H && p in h.f.H && h.f.H[p] == c.H[p]
    ensures |Strong(h.f.env, NewObj(c, p))| == |Strong(h.f.env, h.f.H[p])|
    ensures i < |Strong(h.f.env, h.f.H[p])| ==>
      var w := WordAt(h.f.m, Strong(h.f.env, h.f.H[p])[i]);
      Seen(h, c, w) && WordAt(m', Strong(h.f.env, NewObj(c, p))[i]) == NewWord(c, w)
  {
    hide *;
    DoneParts(h, c, order, m', end);
    Preserved.StrongSlots(c, order, m', h.f.sp.oldEnd, end, p, i);
    if i < |Strong(h.f.env, h.f.H[p])| {
      var w := WordAt(h.f.m, h.f.H[p].slots[i]);
      KeptTarget(c, p, i);
      OldSlotOk(h.f, p, i);
      Parts(h);
      GapAt(h.f, p, i);
      if w.Ptr? && w.addr in YoungHeap(h) { YoungTarget(c, p, i, w); }
      SeenIntro(h, c, w);
    }
  }

  // Every walk through strong references ends at the same word.
  lemma {:induction false} MinorWalk(h: Generations, c: Collection, order: seq<nat>, m': Memory, end: nat, w: Word,
          path: seq<nat>)
    requires MinorDone(h, c, order, m', end) && Seen(h, c, w)
    ensures Walk(h.f.env, m', WholeHeap(h, c), NewWord(c, w), path) == NewWord(c, Walk(h.f.env, h.f.m, h.f.H, w, path))
    decreases |path|
  {
    hide MinorDone, Seen, WholeHeap, OldHeap, NewObj, Strong, NewWord, WordAt;
    if path != [] {
      SeenTarget(h, c, order, m', end, w);
      PlainWordStays(c);
      if w.Ptr? && w.addr in h.f.H {
        var p := w.addr;
        if p in c.dest {
          YoungStrong(h, c, order, m', end, p, path[0]);
        } else if path[0] < |Strong(h.f.env, h.f.H[p])| {
          OldStrong(h, c, order, m', end, p, path[0]);
        }
        if path[0] < |Strong(h.f.env, h.f.H[p])| {
          MinorWalk(h, c, order, m', end, WordAt(h.f.m, Strong(h.f.env, h.f.H[p])[path[0]]), path[1..]);
        }
      }
    }
  }

  // Old objects stay where they are, and of their words only slots change.
  lemma OldWordStays(h: Generations, c: Collection, order: seq<nat>, m': Memory, end: nat, p: nat, a: nat)
    requires MinorDone(h, c, order, m', end) && p in OldHeap(h) && p in h.f.H
    requires h.f.H[p].front <= a < h.f.H[p].end && a !in h.f.H[p].slots
    ensures a < |h.f.m| == |m'| && m'[a] == h.f.m[a]
  {
    hide *;
    DoneParts(h, c, order, m', end);
    OldBelow(h, p);
    NurseryFields(h);
    var u :| 0 <= u < |h.old_| && h.old_[u] == h.f.H[p];
    OldUnused(MinorSetting(h), h.f.roots, h.old_, h.f.sp.start, h.f.sp.oldEnd, u, a);
    ElsewhereAt(MinorSetting(h), m', a);
  }

  // From every root, every walk.
  lemma MinorRootWalk(h: Generations, c: Collection, order: seq<nat>, m': Memory, end: nat, i: nat, path: seq<nat>)
    requires MinorDone(h, c, order, m', end) && i < |h.f.roots|
    ensures var root := h.f.roots[i];
      Walk(h.f.env, m', WholeHeap(h, c), WordAt(m', root), path) ==
        NewWord(c, Walk(h.f.env, h.f.m, h.f.H, WordAt(h.f.m, root), path))
  {
    hide *;
    DoneParts(h, c, order, m', end);
    RootSeen(h, c, order, m', end, i);
    MinorWalk(h, c, order, m', end, WordAt(h.f.m, h.f.roots[i]), path);
  }

  // ------------------------------------------------------------ and a major collection

  // Through both collections, whichever algorithm the major one uses: from every
  // root, every walk meets the same words, up to the two changes of address.
  lemma BothRootWalk(h: Generations, c: Collection, order: seq<nat>, m': Memory, end: nat, f: Collection,
                     c2: Collection, order2: seq<nat>, m'': Memory, start2: nat, end2: nat, i: nat, path: seq<nat>)
    requires MinorDone(h, c, order, m', end) && IsAfter(h, c, m', end, f) && c2 == f.(dest := c2.dest)
    requires Collected(c2, order2, m'', start2, end2) && ForeignApart(c2, start2, end2) && i < |h.f.roots|
    ensures var root := h.f.roots[i];
      Walk(h.f.env, m'', NewHeap(c2), WordAt(m'', root), path)
      == NewWord(c2, NewWord(c, Walk(h.f.env, h.f.m, h.f.H, WordAt(h.f.m, root), path)))
  {
    hide *;
    IsAfterFields(h, c, m', end, f);
    MinorHeapOk(h, c, order, m', end, f);
    HeapSame(f, c2);
    MinorRootWalk(h, c, order, m', end, i, path);
    RootWalkPreserved(c2, order2, m'', start2, end2, i, path);
    WordAtIs(m'', h.f.roots[i]);
  }

  // The objects after a minor collection are those of the new old generation.
  lemma WholeCovers(h: Generations, c: Collection, order: seq<nat>, m': Memory, end: nat)
    requires MinorDone(h, c, order, m', end)
    ensures Covers(WholeHeap(h, c), h.old_ + NewObjs(c, order))
  {
    hide *;
    DoneParts(h, c, order, m', end);
    Parts(h);
    CollectedParts(c, order, m', h.f.sp.oldEnd, end);
    var objs := h.old_ + NewObjs(c, order);
    forall i | 0 <= i < |objs|
      ensures objs[i].p in WholeHeap(h, c) && WholeHeap(h, c)[objs[i].p] == objs[i]
    {
      if i < |h.old_| { OldCovered(h, c, order, m', end, i); } else { NewCovered(h, c, order, m', end, i - |h.old_|); }
    }
    forall p | p in WholeHeap(h, c)
      ensures exists i :: 0 <= i < |objs| && objs[i].p == p
    {
      CoveredHere(h, c, order, m', end, p);
    }
    CoversIntro(WholeHeap(h, c), objs);
  }

  lemma CoversIntro(H: Objects, objs: seq<Obj>)
    requires forall i :: 0 <= i < |objs| ==> objs[i].p in H && H[objs[i].p] == objs[i]
    requires forall p :: p in H ==> exists i :: 0 <= i < |objs| && objs[i].p == p
    ensures Covers(H, objs)
  {
  }

  lemma OldCovered(h: Generations, c: Collection, order: seq<nat>, m': Memory, end: nat, i: nat)
    requires MinorDone(h, c, order, m', end) && i < |h.old_|
    ensures h.old_[i].p in WholeHeap(h, c) && WholeHeap(h, c)[h.old_[i].p] == h.old_[i]
  {
    hide *;
    DoneParts(h, c, order, m', end);
    Parts(h);
    OldAt(h, i);
    IsIn(h.old_, i);
    var p := h.old_[i].p;
    InOld(h, p);
    WholeAt(h, c, p);
    if p in NewHeap(c) { NewAbove(h, c, order, m', end, p); }
  }

  lemma InOld(h: Generations, p: nat)
    requires p in h.f.H && p in Contains(h.old_)
    ensures p in OldHeap(h)
  {
    hide Contains;
  }

  lemma NewCovered(h: Generations, c: Collection, order: seq<nat>, m': Memory, end: nat, i: nat)
    requires MinorDone(h, c, order, m', end) && i < |order|
    ensures |NewObjs(c, order)| == |order|
    ensures NewObjs(c, order)[i].p in WholeHeap(h, c) && WholeHeap(h, c)[NewObjs(c, order)[i].p] == NewObjs(c, order)[i]
  {
    hide *;
    DoneParts(h, c, order, m', end);
    CollectedParts(c, order, m', h.f.sp.oldEnd, end);
    NewObjsAt(c, order, i);
    OrderKept(c, order, i);
    NewHeapAt(c, order, m', h.f.sp.oldEnd, end, order[i]);
    NewAbove(h, c, order, m', end, c.dest[order[i]]);
    WholeAt(h, c, c.dest[order[i]]);
  }

  lemma NewObjsAt(c: Collection, order: seq<nat>, i: nat)
    requires i < |order|
    ensures |NewObjs(c, order)| == |order| && NewObjs(c, order)[i] == NewObj(c, order[i])
  {
    hide NewObj;
  }

  lemma OrderKept(c: Collection, order: seq<nat>, i: nat)
    requires Lists(order, c.dest.Keys) && i < |order|
    ensures order[i] in c.dest
  {
  }

  lemma CoveredHere(h: Generations, c: Collection, order: seq<nat>, m': Memory, end: nat, p: nat)
    requires MinorDone(h, c, order, m', end) && p in WholeHeap(h, c)
    ensures var objs := h.old_ + NewObjs(c, order); exists i :: 0 <= i < |objs| && objs[i].p == p
  {
    hide *;
    DoneParts(h, c, order, m', end);
    CollectedParts(c, order, m', h.f.sp.oldEnd, end);
    WholeAt(h, c, p);
    var objs := h.old_ + NewObjs(c, order);
    if p in NewHeap(c) {
      NewHeapKey(c, p);
      var q :| q in c.dest && c.dest[q] == p;
      var k := ListedAt(c, order, q);
      NewObjsAt(c, order, k);
      NewHeapAt(c, order, m', h.f.sp.oldEnd, end, q);
      NewAbove(h, c, order, m', end, p);
      assert objs[|h.old_| + k].p == p;
    } else {
      OldBelow(h, p);
      var u :| 0 <= u < |h.old_| && h.old_[u] == h.f.H[p];
      assert objs[u].p == p;
    }
  }

  lemma ListedAt(c: Collection, order: seq<nat>, q: nat) returns (k: nat)
    requires Lists(order, c.dest.Keys) && q in c.dest
    ensures k < |order| && order[k] == q
  {
    assert q in order;
    k :| k < |order| && order[k] == q;
  }

  // ------------------------------------------------------------------ the methods

  // The program sees the same heap: every walk from every root.
  ghost predicate SeesSame(h: Generations, c: Collection, c2: Collection, m: Memory) {
    forall i: nat, path: seq<nat> :: i < |h.f.roots| ==>
      Walk(h.f.env, m, NewHeap(c2), WordAt(m, h.f.roots[i]), path)
      == NewWord(c2, NewWord(c, Walk(h.f.env, h.f.m, h.f.H, WordAt(h.f.m, h.f.roots[i]), path)))
  }

  lemma SeesSameIntro(h: Generations, c: Collection, order: seq<nat>, m': Memory, end: nat, f: Collection,
                      c2: Collection, order2: seq<nat>, m'': Memory, start2: nat, end2: nat)
    requires MinorDone(h, c, order, m', end) && IsAfter(h, c, m', end, f) && c2 == f.(dest := c2.dest)
    requires Collected(c2, order2, m'', start2, end2) && ForeignApart(c2, start2, end2)
    ensures SeesSame(h, c, c2, m'')
  {
    hide MinorDone, IsAfter, Collected, ForeignApart, Walk, NewHeap, WordAt, NewWord;
    forall i: nat, path: seq<nat> | i < |h.f.roots|
      ensures Walk(h.f.env, m'', NewHeap(c2), WordAt(m'', h.f.roots[i]), path)
           == NewWord(c2, NewWord(c, Walk(h.f.env, h.f.m, h.f.H, WordAt(h.f.m, h.f.roots[i]), path)))
    {
      BothRootWalk(h, c, order, m', end, f, c2, order2, m'', start2, end2, i, path);
    }
  }

  // The state in which a major collection starts: nursery and frontier are still
  // those of before the minor one.
  lemma AfterInState(h: Generations, c: Collection, m': Memory, end: nat, sp: Spaces, clearsForeign: bool,
          stackAfter: nat)
    requires GenerationsOk(h) && h.f.sp.oldEnd <= end <= h.f.sp.nursery && Encloses(h, end, sp)
    ensures IsAfter(h, c, m', end,
      After(h, c, m', end).(sp := sp, clearsForeign := clearsForeign, currentStack := stackAfter))
  {
    hide GenerationsOk, WholeHeap, Encloses;
  }

  lemma StateEncloses(h: Generations, end: nat)
    requires GenerationsOk(h) && h.f.sp.oldEnd <= end <= h.f.sp.nursery
    ensures Encloses(h, end, h.f.sp.(oldEnd := end)) && Encloses(h, end, Inside(h))
  {
    hide GenerationsOk;
    Parts(h);
  }

  lemma SpacesAre(s: GCState)
    ensures s.Spaces() == Spaces(s.start, s.start + s.oldGenSize, s.nursery, s.frontier)
  {
  }

  lemma StartsIntro(s: GCState, c: Collection, objs: seq<Obj>, currentStack: nat)
    requires c.env == s.env && c.k == s.stackControls && c.m == s.mem[..] && c.sp == s.Spaces() && c.roots == s.roots
    requires c.currentStack == currentStack && !c.clearsForeign && HeapOk(c)
    requires s.weaks == 0 && 0 < s.start && s.start + s.oldGenSize <= s.mem.Length
    requires Tiles(objs, s.start, s.start + s.oldGenSize) && Covers(c.H, objs)
    ensures MarkCompact.Starts(s, c, objs, currentStack)
  {
    hide HeapOk, Tiles, Covers;
  }

  // ----------------------------------------------------------------- and by copying

  // A secondary heap beside the heap: nothing of it is in use, no root lies in it
  // and no pointer leads into it, and what a weak pointer out of the heap points
  // to lies elsewhere, with its header in place.
  ghost predicate SecondaryApart(h: Generations, toStart: nat, toLimit: nat) {
    && 0 < toStart <= toLimit <= |h.f.m|
    && (toLimit <= h.f.sp.start || h.f.sp.frontier <= toStart)
    && (forall i :: 0 <= i < |h.f.roots| ==> !(toStart <= h.f.roots[i] < toLimit))
    && ForeignApart(h.f, toStart, toLimit)
    && (forall p :: p in h.f.H && IsWeak(h.f.env, h.f.H[p]) && |h.f.H[p].slots| == 1 ==>
          ForeignTarget(h, toStart, toLimit, WordAt(h.f.m, h.f.H[p].slots[0])))
  }

  ghost predicate ForeignTarget(h: Generations, toStart: nat, toLimit: nat, v: Word) {
    v.Ptr? && !(h.f.sp.start <= v.addr <= h.f.sp.frontier) ==>
      0 < v.addr <= |h.f.m| && h.f.m[v.addr - 1].Header? && Aside(h, toStart, toLimit, v.addr - 1)
  }

  predicate Aside(h: Generations, toStart: nat, toLimit: nat, a: nat) {
    !(h.f.sp.start <= a < h.f.sp.frontier) && !(toStart <= a < toLimit) && a !in h.f.roots
  }

  // Where a slot after the minor collection comes from.
  lemma SlotSource(h: Generations, c: Collection, order: seq<nat>, m': Memory, end: nat, p: nat, i: nat)
    returns (q: nat)
    requires MinorDone(h, c, order, m', end) && p in WholeHeap(h, c) && i < |WholeHeap(h, c)[p].slots|
    ensures q in h.f.H && |h.f.H[q].slots| == |WholeHeap(h, c)[p].slots|
    ensures IsWeak(h.f.env, WholeHeap(h, c)[p]) ==> IsWeak(h.f.env, h.f.H[q])
    ensures WordAt(m', WholeHeap(h, c)[p].slots[i]) == NewWord(c, WordAt(h.f.m, h.f.H[q].slots[i]))
  {
    hide *;
    DoneParts(h, c, order, m', end);
    WholeAt(h, c, p);
    if p in NewHeap(c) {
      NewHeapKey(c, p);
      q :| q in c.dest && c.dest[q] == p;
      NewHeapAt(c, order, m', h.f.sp.oldEnd, end, q);
      CollectedParts(c, order, m', h.f.sp.oldEnd, end);
      YoungSame(h, c, q);
      NewSlot(c, q, m', i);
      NewTag(c, q);
      WordAtIs(m', WholeHeap(h, c)[p].slots[i]);
    } else {
      q := p;
      OldBelow(h, p);
      var u :| 0 <= u < |h.old_| && h.old_[u] == h.f.H[p];
      SlotIsRoot(h.f.roots, h.old_, u, i);
      RootSeen(h, c, order, m', end, |h.f.roots| + |OldSlots(h.old_, u)| + i);
    }
  }

  lemma NewTag(c: Collection, q: nat)
    requires q in c.H && !Cleared(c, q)
    ensures IsWeak(c.env, NewObj(c, q)) == IsWeak(c.env, c.H[q])
  {
    hide Cleared, WordsSaved;
  }

  // Pointers that leave the heap are as they were.
  lemma ForeignAfter(h: Generations, c: Collection, order: seq<nat>, m': Memory, end: nat, toStart: nat, toLimit: nat,
          f: Collection, w: Word)
    requires MinorDone(h, c, order, m', end) && f.sp == Inside(h) && ForeignWord(h.f, w, toStart, toLimit)
    ensures ForeignWord(f, NewWord(c, w), toStart, toLimit)
  {
    hide *;
    DoneParts(h, c, order, m', end);
    Parts(h);
    NewWordIs(c, w);
    if w.Ptr? && w.addr in c.dest {
      NewHeapAt(c, order, m', h.f.sp.oldEnd, end, w.addr);
      NewAbove(h, c, order, m', end, c.dest[w.addr]);
    }
    ForeignIs(h, f, w, NewWord(c, w), toStart, toLimit);
  }

  lemma ForeignIs(h: Generations, f: Collection, w: Word, w': Word, toStart: nat, toLimit: nat)
    requires f.sp == Inside(h) && ForeignWord(h.f, w, toStart, toLimit)
    requires h.f.sp.start <= h.f.sp.oldEnd <= h.f.sp.nursery <= h.f.sp.frontier
    requires w' == w || (w'.Ptr? && h.f.sp.start <= w'.addr <= h.f.sp.frontier)
    ensures ForeignWord(f, w', toStart, toLimit)
  {
  }

  lemma ApartParts(h: Generations, toStart: nat, toLimit: nat)
    requires SecondaryApart(h, toStart, toLimit)
    ensures 0 < toStart <= toLimit <= |h.f.m| && (toLimit <= h.f.sp.start || h.f.sp.frontier <= toStart)
    ensures forall i :: 0 <= i < |h.f.roots| ==> !(toStart <= h.f.roots[i] < toLimit)
    ensures ForeignApart(h.f, toStart, toLimit)
  {
    hide ForeignApart, ForeignTarget, IsWeak, WordAt;
  }

  lemma ApartTarget(h: Generations, toStart: nat, toLimit: nat, p: nat)
    requires SecondaryApart(h, toStart, toLimit) && p in h.f.H && IsWeak(h.f.env, h.f.H[p]) && |h.f.H[p].slots| == 1
    ensures ForeignTarget(h, toStart, toLimit, WordAt(h.f.m, h.f.H[p].slots[0]))
  {
    hide ForeignApart, ForeignTarget, IsWeak, WordAt;
  }

  lemma ForeignSlot(c: Collection, start: nat, end: nat, p: nat, i: nat)
    requires ForeignApart(c, start, end)
    ensures p in c.H && i < |c.H[p].slots| ==> ForeignWord(c, WordAt(c.m, c.H[p].slots[i]), start, end)
    ensures i < |c.roots| ==> ForeignWord(c, WordAt(c.m, c.roots[i]), start, end)
  {
    hide ForeignWord, WordAt;
  }

  // The secondary heap is still apart after the minor collection.
  lemma SecondaryAfter(h: Generations, c: Collection, order: seq<nat>, m': Memory, end: nat, f: Collection,
          toStart: nat, toLimit: nat)
    requires MinorDone(h, c, order, m', end) && IsAfter(h, c, m', end, f) && f.sp == Inside(h) &&
      SecondaryApart(h, toStart, toLimit)
    ensures SecondaryOk(f, toStart, toLimit)
  {
    hide *;
    DoneParts(h, c, order, m', end);
    Parts(h);
    IsAfterFields(h, c, m', end, f);
    ApartParts(h, toStart, toLimit);
    forall p | p in f.H
      ensures f.H[p].end <= toStart || toLimit <= f.H[p].front
    {
      WholeEntry(h, c, order, m', end, p);
    }
    forall p, i | p in f.H && 0 <= i < |f.H[p].slots|
      ensures ForeignWord(f, WordAt(f.m, f.H[p].slots[i]), toStart, toLimit)
    {
      var q := SlotSource(h, c, order, m', end, p, i);
      ForeignSlot(h.f, toStart, toLimit, q, i);
      ForeignAfter(h, c, order, m', end, toStart, toLimit, f, WordAt(h.f.m, h.f.H[q].slots[i]));
    }
    forall i | 0 <= i < |f.roots|
      ensures ForeignWord(f, WordAt(f.m, f.roots[i]), toStart, toLimit)
    {
      RootSeen(h, c, order, m', end, i);
      ForeignSlot(h.f, toStart, toLimit, 0, i);
      ForeignAfter(h, c, order, m', end, toStart, toLimit, f, WordAt(h.f.m, h.f.roots[i]));
    }
    SecondaryIntro(f, toStart, toLimit);
  }

  lemma SecondaryIntro(f: Collection, toStart: nat, toLimit: nat)
    requires 0 < toStart <= toLimit <= |f.m|
    requires forall p :: p in f.H ==> f.H[p].end <= toStart || toLimit <= f.H[p].front
    requires forall i :: 0 <= i < |f.roots| ==> !(toStart <= f.roots[i] < toLimit)
    requires forall p, i :: p in f.H && 0 <= i < |f.H[p].slots| ==>
      ForeignWord(f, WordAt(f.m, f.H[p].slots[i]), toStart, toLimit)
    requires forall i :: 0 <= i < |f.roots| ==> ForeignWord(f, WordAt(f.m, f.roots[i]), toStart, toLimit)
    ensures SecondaryOk(f, toStart, toLimit)
  {
    hide ForeignWord, WordAt;
  }

  // So are the targets of weak pointers out of the heap.
  lemma HeadsAfter(h: Generations, c: Collection, order: seq<nat>, m': Memory, end: nat, f: Collection,
                   objs: seq<Obj>, toStart: nat, toLimit: nat)
    requires MinorDone(h, c, order, m', end) && IsAfter(h, c, m', end, f) && f.sp == Inside(h) &&
      SecondaryApart(h, toStart, toLimit)
    ensures ForeignHeads(Setting(f, objs, h.f.sp.start, end, toStart, toLimit))
  {
    hide *;
    DoneParts(h, c, order, m', end);
    Parts(h);
    IsAfterFields(h, c, m', end, f);
    HeapParts(h.f);
    var t := Setting(f, objs, h.f.sp.start, end, toStart, toLimit);
    forall p | p in f.H && Listable(f, p)
      ensures ForeignHead(t, WordAt(f.m, p + 1))
    {
      ListableIs(f, p);
      WholeEntry(h, c, order, m', end, p);
      WeakSlots(f.env, f.m, f.H[p]);
      var q := SlotSource(h, c, order, m', end, p, 0);
      ApartTarget(h, toStart, toLimit, q);
      HeadStays(h, c, order, m', end, t, WordAt(h.f.m, h.f.H[q].slots[0]));
    }
    HeadsIntro(t);
  }

  lemma HeadsIntro(t: Setting)
    requires forall p :: p in t.c.H && Listable(t.c, p) ==> ForeignHead(t, WordAt(t.c.m, p + 1))
    ensures ForeignHeads(t)
  {
    hide Listable, ForeignHead, WordAt;
  }

  lemma ListableIs(c: Collection, p: nat)
    requires p in c.H && Listable(c, p)
    ensures IsWeak(c.env, c.H[p]) && |c.H[p].slots| == 1
  {
    hide IsWeak;
  }

  lemma HeadStays(h: Generations, c: Collection, order: seq<nat>, m': Memory, end: nat, t: Setting, v: Word)
    requires MinorDone(h, c, order, m', end) && IsAfter(h, c, m', end, t.c) && t.c.sp == Inside(h)
    requires ForeignTarget(h, t.toStart, t.toLimit, v)
    ensures ForeignHead(t, NewWord(c, v))
  {
    hide *;
    DoneParts(h, c, order, m', end);
    Parts(h);
    IsAfterFields(h, c, m', end, t.c);
    NewWordIs(c, v);
    if v.Ptr? && v.addr in c.dest {
      NewHeapAt(c, order, m', h.f.sp.oldEnd, end, v.addr);
      NewAbove(h, c, order, m', end, c.dest[v.addr]);
      HeadInside(h, t, NewWord(c, v));
    } else if v.Ptr? && !(h.f.sp.start <= v.addr <= h.f.sp.frontier) {
      TargetParts(h, t.toStart, t.toLimit, v);
      var a := v.addr - 1;
      AsideUnused(h, a, t.toStart, t.toLimit);
      ElsewhereAt(MinorSetting(h), m', a);
      NurseryFields(h);
      forall p | p in t.c.H
        ensures !(t.c.H[p].front <= a < t.c.H[p].end)
      {
        WholeEntry(h, c, order, m', end, p);
      }
      HeadIntro(h, t, v);
    } else {
      HeadInside(h, t, v);
    }
  }

  lemma TargetParts(h: Generations, toStart: nat, toLimit: nat, v: Word)
    requires ForeignTarget(h, toStart, toLimit, v) && v.Ptr? && !(h.f.sp.start <= v.addr <= h.f.sp.frontier)
    ensures 0 < v.addr <= |h.f.m| && h.f.m[v.addr - 1].Header? && Aside(h, toStart, toLimit, v.addr - 1)
    ensures var a := v.addr - 1; !(h.f.sp.start <= a < h.f.sp.frontier) && !(toStart <= a < toLimit) && a !in h.f.roots
  {
  }

  lemma HeadInside(h: Generations, t: Setting, v: Word)
    requires t.c.sp == Inside(h) && (v.Ptr? ==> h.f.sp.start <= v.addr <= h.f.sp.frontier)
    ensures ForeignHead(t, v)
  {
  }

  lemma HeadIntro(h: Generations, t: Setting, v: Word)
    requires v.Ptr? && 0 < v.addr <= |t.c.m| && t.c.m[v.addr - 1].Header?
    requires !(t.toStart <= v.addr - 1 < t.toLimit) && v.addr - 1 !in t.c.roots
    requires forall p :: p in t.c.H ==> !(t.c.H[p].front <= v.addr - 1 < t.c.H[p].end)
    ensures ForeignHead(t, v)
  {
  }

  // The minor collection uses no word aside.
  lemma AsideUnused(h: Generations, a: nat, toStart: nat, toLimit: nat)
    requires GenerationsOk(h) && Aside(h, toStart, toLimit, a)
    ensures !Used(MinorSetting(h), a)
  {
    hide *;
    Parts(h);
    NurseryFields(h);
    MinorSettingOk(h);
    AsideIs(h, toStart, toLimit, a);
    forall p | p in YoungHeap(h)
      ensures !(YoungHeap(h)[p].front <= a < YoungHeap(h)[p].end)
    {
      YoungKeys(h, p);
      WhichGeneration(h, p);
    }
    var slots := OldSlots(h.old_, |h.old_|);
    if a in slots {
      var i :| 0 <= i < |slots| && slots[i] == a;
      OldSlotAt(h, i);
    }
    if a in h.f.roots + slots { GlobalOrSlot(h.f.roots, slots, a); }
    UnusedIntro(MinorSetting(h), a);
  }

  lemma AsideIs(h: Generations, toStart: nat, toLimit: nat, a: nat)
    requires Aside(h, toStart, toLimit, a)
    ensures !(h.f.sp.start <= a < h.f.sp.frontier) && !(toStart <= a < toLimit) && a !in h.f.roots
  {
  }

  lemma UnusedIntro(t: Setting, a: nat)
    requires !(t.toStart <= a < t.toLimit) && a !in t.c.roots
    requires forall p :: p in t.c.H ==> !(t.c.H[p].front <= a < t.c.H[p].end)
    ensures !Used(t, a)
  {
  }

  lemma InsideIs(h: Generations)
    ensures Inside(h) == Spaces(h.f.sp.start, h.f.sp.frontier, h.f.sp.start, h.f.sp.frontier)
  {
  }

  lemma StartsCopyIntro(s: GCState, c: Collection, objs: seq<Obj>, currentStack: nat)
    requires c.env == s.env && c.k == s.stackControls && c.m == s.mem[..] && c.roots == s.roots
    requires c.sp == Spaces(s.start, s.frontier, s.start, s.frontier)
    requires c.currentStack == currentStack && c.clearsForeign && HeapOk(c) && s.weaks == 0
    requires Tiles(objs, s.start, s.start + s.oldGenSize) && Covers(c.H, objs)
    ensures StartsCopy(s, c, objs, currentStack)
  {
    hide HeapOk, Tiles, Covers;
  }

  // ------------------------------------------------------------------ the methods

  // The collector's state after the minor collection c of h.
  ghost predicate MinorFinished(s: GCState, h: Generations, c: Collection, order: seq<nat>)
    reads s, s.mem
  {
    && h.f.env == s.env && h.f.k == s.stackControls && h.f.roots == s.roots && s.weaks == 0
    && s.start == h.f.sp.start && s.nursery == h.f.sp.nursery && s.frontier == h.f.sp.frontier
    && MinorDone(h, c, order, s.mem[..], s.start + s.oldGenSize)
  }

  lemma FinishedParts(s: GCState, h: Generations, c: Collection, order: seq<nat>)
    requires MinorFinished(s, h, c, order)
    ensures h.f.env == s.env && h.f.k == s.stackControls && h.f.roots == s.roots && s.weaks == 0
    ensures s.start == h.f.sp.start && s.nursery == h.f.sp.nursery && s.frontier == h.f.sp.frontier
    ensures MinorDone(h, c, order, s.mem[..], s.start + s.oldGenSize)
  {
    hide MinorDone;
  }

  lemma FinishedIntro(s: GCState, h: Generations, c: Collection, order: seq<nat>)
    requires h.f.env == s.env && h.f.k == s.stackControls && h.f.roots == s.roots && s.weaks == 0
    requires s.start == h.f.sp.start && s.nursery == h.f.sp.nursery && s.frontier == h.f.sp.frontier
    requires MinorDone(h, c, order, s.mem[..], s.start + s.oldGenSize)
    ensures MinorFinished(s, h, c, order)
  {
    hide MinorDone;
  }

  // Both collections are over: the old generation [start, end) of m is what the
  // program sees of h.
  ghost predicate BothDone(h: Generations, c: Collection, c2: Collection, order2: seq<nat>, m: Memory, start: nat,
          end: nat) {
    && SeesSame(h, c, c2, m) && Collected(c2, order2, m, start, end)
    && HeapOk(Next(c2, m, start, end)) && (Rooted(h) ==> start < end)
  }

  lemma BothDoneIntro(h: Generations, c: Collection, c2: Collection, order2: seq<nat>, m: Memory, start: nat, end: nat)
    requires SeesSame(h, c, c2, m) && Collected(c2, order2, m, start, end)
    requires HeapOk(Next(c2, m, start, end)) && (Rooted(h) ==> start < end)
    ensures BothDone(h, c, c2, order2, m, start, end)
  {
    hide SeesSame, Collected, HeapOk, Next, Rooted;
  }

  // Some root points to an object, as the current thread does.
  ghost predicate Rooted(h: Generations) {
    exists i :: 0 <= i < |h.f.roots| && WordAt(h.f.m, h.f.roots[i]).Ptr? && WordAt(h.f.m, h.f.roots[i]).addr in h.f.H
  }

  // What a root points to survives both collections.
  lemma SomethingLives(h: Generations, c: Collection, order: seq<nat>, m': Memory, end: nat, f: Collection,
                       c2: Collection, order2: seq<nat>, m'': Memory, start2: nat, end2: nat)
    requires MinorDone(h, c, order, m', end) && IsAfter(h, c, m', end, f) && c2 == f.(dest := c2.dest)
    requires Collected(c2, order2, m'', start2, end2)
    ensures Rooted(h) ==> start2 < end2
  {
    hide *;
    if Rooted(h) {
      var i := RootedAt(h);
      DoneParts(h, c, order, m', end);
      IsAfterFields(h, c, m', end, f);
      MinorHeapOk(h, c, order, m', end, f);
      HeapSame(f, c2);
      RootSeen(h, c, order, m', end, i);
      SeenTarget(h, c, order, m', end, WordAt(h.f.m, h.f.roots[i]));
      CollectedParts(c2, order2, m'', start2, end2);
      MinorHeap.RootFacts(c2, i);
      RootReached(c2, i);
      WordAtIs(m', h.f.roots[i]);
      InOrder(c2, order2, m'', start2, end2, NewWord(c, WordAt(h.f.m, h.f.roots[i])).addr);
    }
  }

  lemma RootedAt(h: Generations) returns (i: nat)
    requires Rooted(h)
    ensures i < |h.f.roots| && WordAt(h.f.m, h.f.roots[i]).Ptr? && WordAt(h.f.m, h.f.roots[i]).addr in h.f.H
  {
    hide WordAt;
    i :| 0 <= i < |h.f.roots| && WordAt(h.f.m, h.f.roots[i]).Ptr? && WordAt(h.f.m, h.f.roots[i]).addr in h.f.H;
  }

  // majorGC by mark-compact, in the state that the minor collection leaves.
  method MajorByMarkCompact(s: GCState, stackAfter: nat, ghost h: Generations, ghost c: Collection,
          ghost order: seq<nat>)
    returns (ghost c2: Collection, ghost order2: seq<nat>)
    requires MinorFinished(s, h, c, order)
    modifies s.mem, s`weaks, s`oldGenSize
    ensures BothDone(h, c, c2, order2, s.mem[..], s.start, s.start + s.oldGenSize)
    ensures s.oldGenSize <= old(s.oldGenSize) && s.weaks == 0
  {
    hide *;
    FinishedParts(s, h, c, order);
    ghost var m', end := s.mem[..], s.start + s.oldGenSize;
    DoneParts(h, c, order, m', end);
    Parts(h);
    StateEncloses(h, end);
    ghost var f := After(h, c, m', end).(sp := h.f.sp.(oldEnd := end), clearsForeign := false,
      currentStack := stackAfter);
    ghost var objs := h.old_ + NewObjs(c, order);
    AfterInState(h, c, m', end, f.sp, false, stackAfter);
    MinorHeapOk(h, c, order, m', end, f);
    IsAfterFields(h, c, m', end, f);
    WholeCovers(h, c, order, m', end);
    MinorTiles(h, c, order, m', end);
    SpacesAre(s);
    StartsIntro(s, f, objs, stackAfter);
    c2, order2 := MarkCompact.MajorMarkCompact(s, stackAfter, f, objs);
    SeesSameIntro(h, c, order, m', end, f, c2, order2, s.mem[..], s.start, s.start + s.oldGenSize);
    SomethingLives(h, c, order, m', end, f, c2, order2, s.mem[..], s.start, s.start + s.oldGenSize);
    BothDoneIntro(h, c, c2, order2, s.mem[..], s.start, s.start + s.oldGenSize);
  }

  // majorGC by copying, in the state that the minor collection leaves.
  method MajorByCopying(s: GCState, stackAfter: nat, secondaryStart: nat, secondarySize: nat,
                        ghost h: Generations, ghost c: Collection, ghost order: seq<nat>)
    returns (ghost c2: Collection, ghost order2: seq<nat>)
    requires MinorFinished(s, h, c, order)
    requires s.oldGenSize <= secondarySize && SecondaryApart(h, secondaryStart, secondaryStart + secondarySize)
    modifies s.mem, s`weaks, s`start, s`oldGenSize
    ensures BothDone(h, c, c2, order2, s.mem[..], s.start, s.start + s.oldGenSize)
    ensures s.start == secondaryStart && s.oldGenSize <= old(s.oldGenSize) && s.weaks == 0
  {
    hide *;
    FinishedParts(s, h, c, order);
    ghost var m', end := s.mem[..], s.start + s.oldGenSize;
    DoneParts(h, c, order, m', end);
    Parts(h);
    StateEncloses(h, end);
    ghost var f := After(h, c, m', end).(sp := Inside(h), clearsForeign := true, currentStack := stackAfter);
    ghost var objs := h.old_ + NewObjs(c, order);
    AfterInState(h, c, m', end, f.sp, true, stackAfter);
    MinorHeapOk(h, c, order, m', end, f);
    IsAfterFields(h, c, m', end, f);
    InsideIs(h);
    WholeCovers(h, c, order, m', end);
    MinorTiles(h, c, order, m', end);
    SecondaryAfter(h, c, order, m', end, f, secondaryStart, secondaryStart + secondarySize);
    HeadsAfter(h, c, order, m', end, f, objs, secondaryStart, secondaryStart + secondarySize);
    StartsCopyIntro(s, f, objs, stackAfter);
    var oldStart;
    oldStart, c2, order2 := MajorCheneyCopy(s, secondaryStart, secondarySize, stackAfter, f, objs);
    SeesSameIntro(h, c, order, m', end, f, c2, order2, s.mem[..], s.start, s.start + s.oldGenSize);
    SomethingLives(h, c, order, m', end, f, c2, order2, s.mem[..], s.start, s.start + s.oldGenSize);
    BothDoneIntro(h, c, c2, order2, s.mem[..], s.start, s.start + s.oldGenSize);
  }

  // minorGC and then majorGC, as performGC calls them: copying if that is wanted
  // and a secondary heap is as large as the old generation, else mark-compact.
  // stackAfter is the current stack as found after the minor collection.
  method MinorThenMajorGC(s: GCState, g: GenerationalMaps, currentStack: nat, stackAfter: nat,
                          mayCopy: bool, secondaryStart: nat, secondarySize: nat, ghost h: Generations, ghost n0: nat)
    returns (afterMinor: nat, ghost c: Collection, ghost c2: Collection, ghost order2: seq<nat>)
    requires StartsMinor(s, g, h, n0, currentStack)
    requires mayCopy ==> SecondaryApart(h, secondaryStart, secondaryStart + secondarySize)
    modifies s.mem, s`weaks, s`start, s`oldGenSize, g.crossMap, g`crossMapValidSize
    ensures BothDone(h, c, c2, order2, s.mem[..], s.start, s.start + s.oldGenSize) && s.weaks == 0
    ensures old(s.oldGenSize) <= afterMinor <= old(s.oldGenSize) + (s.frontier - s.nursery)
    ensures s.oldGenSize <= afterMinor
    ensures s.start == if mayCopy && afterMinor <= secondarySize then secondaryStart else old(s.start)
  {
    hide *;
    StartsMinorParts(s, g, h, n0, currentStack);
    Parts(h);
    ghost var order, n;
    c, order, n := MinorCheneyCopy(s, g, currentStack, h, n0);
    afterMinor := s.oldGenSize;
    FinishedIntro(s, h, c, order);
    if mayCopy && s.oldGenSize <= secondarySize {
      c2, order2 := MajorByCopying(s, stackAfter, secondaryStart, secondarySize, h, c, order);
    } else {
      c2, order2 := MajorByMarkCompact(s, stackAfter, h, c, order);
    }
  }

  // Without minor collections the nursery becomes part of the old generation; what
  // counts as in the heap stays the same, for either major collector.
  lemma AbsorbedHeapOk(f: Collection, sp: Spaces, clearsForeign: bool)
    requires HeapOk(f) && f.sp.start <= f.sp.oldEnd == f.sp.nursery <= f.sp.frontier
    requires sp == f.sp.(oldEnd := f.sp.frontier) || sp == Spaces(f.sp.start, f.sp.frontier, f.sp.start, f.sp.frontier)
    ensures HeapOk(f.(sp := sp, clearsForeign := clearsForeign))
  {
    hide *;
    HeapParts(f);
    PlacesOf(f);
    var f' := f.(sp := sp, clearsForeign := clearsForeign);
    SameSpaces(f, f');
    HeapIntro(f');
  }

  lemma PlacesOf(f: Collection)
    requires HeapOk(f)
    ensures Within(f.H, f.sp) && NoMarks(f.m, f.H)
  {
    hide Quiet, Within, SlotsOk, RootsOk, FramesBounded, NoMarks;
  }

  lemma SameSpaces(f: Collection, f': Collection)
    requires Within(f.H, f.sp) && SlotsOk(f.m, f.H, f.sp) && RootsOk(f.m, f.H, f.sp, f.roots)
    requires f.sp.start <= f.sp.oldEnd == f.sp.nursery <= f.sp.frontier
    requires f' == f.(sp := f'.sp, clearsForeign := f'.clearsForeign)
    requires f'.sp == f.sp.(oldEnd := f.sp.frontier) ||
      f'.sp == Spaces(f.sp.start, f.sp.frontier, f.sp.start, f.sp.frontier)
    ensures Within(f.H, f'.sp) && SlotsOk(f.m, f.H, f'.sp) && RootsOk(f.m, f.H, f'.sp, f.roots)
  {
    hide Distinct;
    forall a: nat
      ensures InSpaces(f.sp, a) <==> InSpaces(f'.sp, a)
    {
    }
  }

  // The sizes that the driver of the collections takes from outside are those that
  // these collections have: bytes for words, and at least the current stack lives.
  lemma SizesPossible(d: Driver.HeapState, w: Driver.World, h: Generations, afterMinor: nat, end: nat)
    requires GenerationsOk(h) && h.f.sp.oldEnd <= afterMinor <= h.f.sp.oldEnd + (h.f.sp.frontier - h.f.sp.nursery)
    requires h.f.sp.start < end <= afterMinor && d.canMinor
    requires d.heap.oldGenSize == 8 * (h.f.sp.oldEnd - h.f.sp.start)
    requires d.nursery == 8 * (h.f.sp.nursery - h.f.sp.start) && d.frontier == 8 * (h.f.sp.frontier - h.f.sp.start)
    requires w.copied == 8 * (afterMinor - h.f.sp.oldEnd) && w.survives == 8 * (end - h.f.sp.start)
    ensures d.Possible(w)
  {
    hide GenerationsOk;
    Parts(h);
  }
}
