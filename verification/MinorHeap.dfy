// The heap around a minor collection: from the whole heap to the nursery with
// the old generation's slots as roots, and back to the whole heap.

module MinorHeap {
  import opened Layout
  import opened Graph
  import opened Heap
  import opened StackObject
  import opened Tiling
  import opened Relocate
  import opened Cursor
  import opened DfsInvariant
  import opened Roots
  import opened CrossMap
  import opened Collection
  import opened Preserved
  import opened Copying
  import opened CopyStep
  import opened CopyScan
  import opened OldScan

  // The whole heap f: the objects of the old generation and of the nursery.
  datatype Generations = Generations(f: Collection, old_: seq<Obj>, young: seq<Obj>)

  function Contains(objs: seq<Obj>): set<nat> { set i | 0 <= i < |objs| :: objs[i].p }

  ghost predicate GenerationsOk(h: Generations) {
    var f := h.f;
    && HeapOk(f)
    && Tiles(h.old_, f.sp.start, f.sp.oldEnd) && Tiles(h.young, f.sp.nursery, f.sp.frontier)
    && (forall i :: 0 <= i < |h.old_| ==> h.old_[i].p in f.H && f.H[h.old_[i].p] == h.old_[i])
    && (forall i :: 0 <= i < |h.young| ==> h.young[i].p in f.H && f.H[h.young[i].p] == h.young[i])
    && (forall p :: p in f.H ==> p in Contains(h.old_) || p in Contains(h.young))
    // the copies fit between the old generation and the nursery
    && f.sp.start > 0 && f.sp.oldEnd + (f.sp.frontier - f.sp.nursery) <= f.sp.nursery <= f.sp.frontier <= |f.m|
    && f.sp.oldEnd < f.sp.nursery
    && (forall i :: 0 <= i < |f.roots| ==> !(f.sp.start <= f.roots[i] < f.sp.frontier))
    && GapFree(f)
  }

  // No pointer leads between the old generation and the nursery.
  ghost predicate GapFree(f: Collection) {
    && (forall p, i :: p in f.H && 0 <= i < |f.H[p].slots| ==> NotInGap(f, WordAt(f.m, f.H[p].slots[i])))
    && (forall i :: 0 <= i < |f.roots| ==> NotInGap(f, WordAt(f.m, f.roots[i])))
  }

  predicate NotInGap(f: Collection, w: Word) {
    w.Ptr? ==> !(f.sp.oldEnd < w.addr < f.sp.nursery)
  }

  ghost function YoungHeap(h: Generations): (H: Objects)
    ensures forall p :: p in H <==> p in Contains(h.young) && p in h.f.H
    ensures forall p :: p in H ==> H[p] == h.f.H[p]
  {
    map p | p in Contains(h.young) && p in h.f.H :: h.f.H[p]
  }

  ghost function OldHeap(h: Generations): (H: Objects)
    ensures forall p :: p in H <==> p in Contains(h.old_) && p in h.f.H
    ensures forall p :: p in H ==> H[p] == h.f.H[p]
  {
    map p | p in Contains(h.old_) && p in h.f.H :: h.f.H[p]
  }

  // The collection of the nursery.
  ghost function Nursery(h: Generations): Collection {
    Collection(h.f.env, h.f.k, h.f.m, YoungHeap(h),
      Spaces(h.f.sp.nursery, h.f.sp.frontier, h.f.sp.nursery, h.f.sp.frontier),
               h.f.roots + OldSlots(h.old_, |h.old_|), h.f.currentStack, false, map[])
  }

  ghost function MinorSetting(h: Generations): Setting {
    var sp := h.f.sp;
    Setting(Nursery(h), h.young, sp.nursery, sp.frontier, sp.oldEnd,
            if sp.nursery <= sp.frontier then sp.oldEnd + (sp.frontier - sp.nursery) else sp.oldEnd)
  }

  lemma Parts(h: Generations)
    requires GenerationsOk(h)
    ensures var f := h.f;
      && HeapOk(f) && Tiles(h.old_, f.sp.start, f.sp.oldEnd) && Tiles(h.young, f.sp.nursery, f.sp.frontier)
      && 0 < f.sp.start <= f.sp.oldEnd < f.sp.nursery <= f.sp.frontier <= |f.m|
      && f.sp.oldEnd + (f.sp.frontier - f.sp.nursery) <= f.sp.nursery && GapFree(f)
    ensures forall i :: 0 <= i < |h.f.roots| ==> !(h.f.sp.start <= h.f.roots[i] < h.f.sp.frontier)
  {
    hide HeapOk, Tiles, GapFree, Contains;
    BoundaryAt(h.old_, h.f.sp.start, h.f.sp.oldEnd, 0);
  }

  lemma OldAt(h: Generations, i: nat)
    requires GenerationsOk(h) && i < |h.old_|
    ensures h.old_[i].p in h.f.H && h.f.H[h.old_[i].p] == h.old_[i]
    ensures h.f.sp.start <= h.old_[i].front < h.old_[i].p <= h.old_[i].end <= h.f.sp.oldEnd
  {
    hide HeapOk, GapFree, Contains, Tiles;
    TileBounds(h.old_, h.f.sp.start, h.f.sp.oldEnd, i);
    TileHeader(h.old_, h.f.sp.start, h.f.sp.oldEnd, i);
  }

  lemma YoungAt(h: Generations, i: nat)
    requires GenerationsOk(h) && i < |h.young|
    ensures h.young[i].p in h.f.H && h.f.H[h.young[i].p] == h.young[i]
    ensures h.f.sp.nursery <= h.young[i].front < h.young[i].p <= h.young[i].end <= h.f.sp.frontier
  {
    hide HeapOk, GapFree, Contains, Tiles;
    TileBounds(h.young, h.f.sp.nursery, h.f.sp.frontier, i);
    TileHeader(h.young, h.f.sp.nursery, h.f.sp.frontier, i);
  }

  lemma IndexIn(objs: seq<Obj>, p: nat) returns (i: nat)
    requires p in Contains(objs)
    ensures i < |objs| && objs[i].p == p
  {
    i :| i < |objs| && objs[i].p == p;
  }

  lemma IsIn(objs: seq<Obj>, i: nat)
    requires i < |objs|
    ensures objs[i].p in Contains(objs)
  {
  }

  // Objects of the heap are old or young, by where they are.
  lemma WhichGeneration(h: Generations, p: nat)
    requires GenerationsOk(h) && p in h.f.H
    ensures
      || (p in YoungHeap(h) && h.f.sp.nursery <= h.f.H[p].front < p <= h.f.H[p].end <= h.f.sp.frontier &&
          p !in OldHeap(h))
      || (p in OldHeap(h) && h.f.sp.start <= h.f.H[p].front < p <= h.f.H[p].end <= h.f.sp.oldEnd &&
          p !in YoungHeap(h))
  {
    hide HeapOk, GapFree, Contains, Tiles, OldHeap, YoungHeap;
    Parts(h);
    assert p in Contains(h.old_) || p in Contains(h.young);
    if p in Contains(h.old_) {
      var i := IndexIn(h.old_, p);
      OldAt(h, i);
    }
    if p in Contains(h.young) {
      var i := IndexIn(h.young, p);
      YoungAt(h, i);
    }
  }

  lemma YoungIsIn(h: Generations, p: nat)
    requires GenerationsOk(h) && p in h.f.H && h.f.sp.nursery <= p
    ensures p in YoungHeap(h)
  {
    hide *;
    Parts(h);
    WhichGeneration(h, p);
  }

  lemma YoungCovers(h: Generations)
    requires GenerationsOk(h)
    ensures Covers(YoungHeap(h), h.young)
  {
    hide HeapOk, GapFree, Tiles, Contains;
    forall i | 0 <= i < |h.young|
      ensures h.young[i].p in YoungHeap(h) && YoungHeap(h)[h.young[i].p] == h.young[i]
    {
      YoungAt(h, i);
      IsIn(h.young, i);
    }
    forall p | p in YoungHeap(h)
      ensures exists i :: 0 <= i < |h.young| && h.young[i].p == p
    {
      var i := IndexIn(h.young, p);
    }
  }

  // ------------------------------------------------------- the nursery's heap

  lemma FullTarget(h: Generations, w: Word)
    requires GenerationsOk(h) && TargetOk(h.f.H, h.f.sp, w)
    ensures TargetOk(YoungHeap(h), Nursery(h).sp, w)
  {
    hide HeapOk, GapFree, Tiles, Contains, YoungHeap;
    if w.Ptr? && h.f.sp.nursery <= w.addr <= h.f.sp.frontier {
      YoungIsIn(h, w.addr);
    }
  }

  lemma NurseryFields(h: Generations)
    ensures var c := Nursery(h);
      && c.env == h.f.env && c.k == h.f.k && c.m == h.f.m && c.H == YoungHeap(h) &&
         c.roots == h.f.roots + OldSlots(h.old_, |h.old_|)
      && c.sp == Spaces(h.f.sp.nursery, h.f.sp.frontier, h.f.sp.nursery, h.f.sp.frontier)
      && c.currentStack == h.f.currentStack && !c.clearsForeign
  {
    hide YoungHeap, OldSlots;
  }

  lemma NurseryQuiet(h: Generations)
    requires GenerationsOk(h)
    ensures Quiet(h.f.env, h.f.m, YoungHeap(h)) && Within(YoungHeap(h), Nursery(h).sp) && NoMarks(h.f.m, YoungHeap(h))
  {
    hide GapFree, Tiles, Contains, SlotsOk, RootsOk, FramesBounded, IsObject, Clean, ValidEnv;
    var H := YoungHeap(h);
    forall p | p in H
      ensures h.f.sp.nursery <= p <= h.f.sp.frontier
    {
      WhichGeneration(h, p);
    }
  }

  lemma NurserySlotsOk(h: Generations)
    requires GenerationsOk(h)
    ensures SlotsOk(h.f.m, YoungHeap(h), Nursery(h).sp)
  {
    hide *;
    Parts(h);
    var H := YoungHeap(h);
    forall p, i | p in H && 0 <= i < |H[p].slots|
      ensures H[p].slots[i] < |h.f.m| && TargetOk(H, Nursery(h).sp, h.f.m[H[p].slots[i]])
    {
      OldSlotOk(h.f, p, i);
      FullTarget(h, h.f.m[H[p].slots[i]]);
    }
    SlotsIntro(h.f.m, H, Nursery(h).sp);
  }

  lemma SlotsIntro(m: Memory, H: Objects, sp: Spaces)
    requires forall p, i :: p in H && 0 <= i < |H[p].slots| ==> H[p].slots[i] < |m| && TargetOk(H, sp, m[H[p].slots[i]])
    ensures SlotsOk(m, H, sp)
  {
    hide TargetOk;
  }

  // A slot of an old object: distinct from all others, inside the old generation.
  lemma OldSlotAt(h: Generations, i: nat)
    requires GenerationsOk(h) && i < |OldSlots(h.old_, |h.old_|)|
    ensures var s := OldSlots(h.old_, |h.old_|)[i];
      && 0 < h.f.sp.start <= s < h.f.sp.oldEnd && s < |h.f.m| && TargetOk(h.f.H, h.f.sp, h.f.m[s]) &&
         NotInGap(h.f, h.f.m[s])
  {
    hide *;
    Parts(h);
    var s := OldSlots(h.old_, |h.old_|)[i];
    OldSlotsMember(h.old_, |h.old_|, s);
    var u :| 0 <= u < |h.old_| && s in h.old_[u].slots;
    var j :| 0 <= j < |h.old_[u].slots| && h.old_[u].slots[j] == s;
    OldAt(h, u);
    OldSlotOk(h.f, h.old_[u].p, j);
    SlotBounds(h.f, h.old_[u].p, j);
    GapAt(h.f, h.old_[u].p, j);
    WordAtIs(h.f.m, s);
    CopyInObject(h, u);
  }

  lemma CopyInObject(h: Generations, u: nat)
    requires GenerationsOk(h) && u < |h.old_|
    ensures CopiedEnd(h.f.env, h.f.m, h.old_[u]) <= h.old_[u].end
  {
    hide *;
    Parts(h);
    HeapParts(h.f);
    OldAt(h, u);
    OldObject(h.f, h.old_[u].p);
    CopyFits(h.f.env, h.f.k, h.f.m, h.old_[u], h.f.currentStack);
  }

  lemma GapAt(f: Collection, p: nat, i: nat)
    requires GapFree(f) && p in f.H && i < |f.H[p].slots|
    ensures NotInGap(f, WordAt(f.m, f.H[p].slots[i]))
  {
    hide NotInGap, WordAt;
  }

  lemma {:induction false} OldSlotsDistinct(h: Generations, n: nat)
    requires GenerationsOk(h) && n <= |h.old_|
    ensures Distinct(OldSlots(h.old_, n))
  {
    hide *;
    if n == 0 {
      NoSlots(h.old_);
    } else {
      OldSlotsDistinct(h, n - 1);
      OldSlotsNext(h.old_, n - 1);
      Parts(h);
      OldAt(h, n - 1);
      OldObject(h.f, h.old_[n - 1].p);
      SlotsInside(h.f.env, h.f.m, h.old_[n - 1]);
      var a, b := OldSlots(h.old_, n - 1), h.old_[n - 1].slots;
      forall s | s in b
        ensures s !in a
      {
        OldSlotsMember(h.old_, n - 1, s);
        if s in a {
          var u :| 0 <= u < n - 1 && s in h.old_[u].slots;
          OldAt(h, u);
          OldObject(h.f, h.old_[u].p);
          SlotsInside(h.f.env, h.f.m, h.old_[u]);
          Ordered(h.old_, h.f.sp.start, h.f.sp.oldEnd, u, n - 1);
        }
      }
      DistinctJoin(a, b);
    }
  }

  lemma NoSlots(old_: seq<Obj>)
    ensures OldSlots(old_, 0) == [] && Distinct(OldSlots(old_, 0))
  {
  }

  lemma DistinctJoin(a: seq<nat>, b: seq<nat>)
    requires Distinct(a) && Distinct(b) && forall s :: s in b ==> s !in a
    ensures Distinct(a + b)
  {
    forall i, j | 0 <= i < j < |a + b|
      ensures (a + b)[i] != (a + b)[j]
    {
      if i < |a| <= j { assert (a + b)[j] in b && (a + b)[i] in a; }
    }
  }

  lemma NurseryRootsOk(h: Generations)
    requires GenerationsOk(h)
    ensures RootsOk(h.f.m, YoungHeap(h), Nursery(h).sp, Nursery(h).roots)
  {
    hide *;
    Parts(h);
    HeapParts(h.f);
    NurseryFields(h);
    var globals, slots := h.f.roots, OldSlots(h.old_, |h.old_|);
    var roots := globals + slots;
    RootsDistinct(h.f);
    OldSlotsDistinct(h, |h.old_|);
    forall s | s in slots
      ensures s !in globals
    {
      var i :| 0 <= i < |slots| && slots[i] == s;
      OldSlotAt(h, i);
    }
    DistinctJoin(globals, slots);
    forall i | 0 <= i < |roots|
      ensures 0 < roots[i] < |h.f.m| && TargetOk(YoungHeap(h), Nursery(h).sp, h.f.m[roots[i]])
      ensures !(h.f.sp.nursery <= roots[i] < h.f.sp.frontier)
    {
      if i < |globals| {
        RootFacts(h.f, i);
        FullTarget(h, h.f.m[roots[i]]);
      } else {
        OldSlotAt(h, i - |globals|);
        FullTarget(h, h.f.m[roots[i]]);
      }
    }
    forall p | p in YoungHeap(h)
      ensures h.f.sp.nursery <= YoungHeap(h)[p].front && YoungHeap(h)[p].end <= h.f.sp.frontier
    {
      WhichGeneration(h, p);
    }
    RootsOkIntro(h.f.m, YoungHeap(h), Nursery(h).sp, roots);
  }

  lemma RootFacts(f: Collection, i: nat)
    requires HeapOk(f) && i < |f.roots|
    ensures 0 < f.roots[i] < |f.m| && TargetOk(f.H, f.sp, f.m[f.roots[i]])
  {
    hide Quiet, Within, SlotsOk, NoMarks, FramesBounded, TargetOk;
  }

  lemma NurseryHeapOk(h: Generations)
    requires GenerationsOk(h)
    ensures HeapOk(Nursery(h))
  {
    hide *;
    Parts(h);
    HeapParts(h.f);
    NurseryFields(h);
    NurseryQuiet(h);
    NurserySlotsOk(h);
    NurseryRootsOk(h);
    HeapIntro(Nursery(h));
  }

  lemma HeapIntro(c: Collection)
    requires Quiet(c.env, c.m, c.H) && Within(c.H, c.sp) && SlotsOk(c.m, c.H, c.sp)
    requires RootsOk(c.m, c.H, c.sp, c.roots) && FramesBounded(c.env, c.k) && NoMarks(c.m, c.H)
    ensures HeapOk(c)
  {
    hide Quiet, Within, SlotsOk, RootsOk, FramesBounded, NoMarks;
  }

  lemma OldWalkable(h: Generations)
    requires GenerationsOk(h)
    ensures Walkable(h.f.env, h.f.m, h.old_, h.f.sp.start, h.f.sp.oldEnd)
  {
    hide *;
    Parts(h);
    forall i | 0 <= i < |h.old_|
      ensures IsO(h.f.env, h.f.m, h.old_[i]) && Clean(h.f.env, h.f.m, h.old_[i])
    {
      OldAt(h, i);
      OldObject(h.f, h.old_[i].p);
      IsOJoin(h.f.env, h.f.m, h.old_[i]);
    }
    WalkJoin(h.f.env, h.f.m, h.old_, h.f.sp.start, h.f.sp.oldEnd);
  }

  lemma IsOJoin(env: Env, m: Memory, o: Obj)
    requires ValidEnv(env) && IsObject(env, m, o)
    ensures IsO(env, m, o)
  {
    hide ValidEnv, IsObject;
  }

  lemma WalkJoin(env: Env, m: Memory, objs: seq<Obj>, start: nat, end: nat)
    requires Tiles(objs, start, end) && end <= |m|
    requires forall i :: 0 <= i < |objs| ==> IsO(env, m, objs[i]) && Clean(env, m, objs[i])
    ensures Walkable(env, m, objs, start, end)
  {
    hide Tiles, IsO, Clean;
  }

  // The setting of the minor collection.
  lemma MinorSettingOk(h: Generations)
    requires GenerationsOk(h)
    ensures MinorOk(MinorSetting(h), h.f.roots, h.old_, h.f.sp.start, h.f.sp.oldEnd)
    ensures var t := MinorSetting(h);
      t.c == Nursery(h) && t.toStart == h.f.sp.oldEnd &&
        t.toLimit == h.f.sp.oldEnd + (h.f.sp.frontier - h.f.sp.nursery) <= h.f.sp.nursery
  {
    hide *;
    Parts(h);
    NurseryFields(h);
    NurseryHeapOk(h);
    YoungCovers(h);
    OldWalkable(h);
    SettingIs(h);
    var t := MinorSetting(h);
    forall p | p in t.c.H
      ensures h.f.sp.nursery <= t.c.H[p].front
    {
      WhichGeneration(h, p);
    }
    forall i | 0 <= i < |t.c.roots|
      ensures !(t.toStart <= t.c.roots[i] < t.toLimit)
    {
      if i >= |h.f.roots| { OldSlotAt(h, i - |h.f.roots|); }
    }
    MinorIntro(t, h.f.roots, h.old_, h.f.sp.start, h.f.sp.oldEnd);
  }

  lemma SettingIs(h: Generations)
    requires h.f.sp.nursery <= h.f.sp.frontier
    ensures var t := MinorSetting(h);
      && t.c == Nursery(h) && t.objs == h.young && t.lo == h.f.sp.nursery && t.hi == h.f.sp.frontier
      && t.toStart == h.f.sp.oldEnd && t.toLimit == h.f.sp.oldEnd + (h.f.sp.frontier - h.f.sp.nursery)
  {
    hide Nursery;
  }

  lemma MinorIntro(t: Setting, globals: seq<nat>, old_: seq<Obj>, start: nat, end: nat)
    requires HeapOk(t.c) && Tiles(t.objs, t.lo, t.hi) && Covers(t.c.H, t.objs)
    requires 0 < t.toStart <= t.toLimit <= |t.c.m| && t.hi - t.lo <= t.toLimit - t.toStart
    requires forall p :: p in t.c.H ==> t.toLimit <= t.c.H[p].front && end <= t.c.H[p].front
    requires forall i :: 0 <= i < |t.c.roots| ==> !(t.toStart <= t.c.roots[i] < t.toLimit)
    requires t.c.roots == globals + OldSlots(old_, |old_|) && Walkable(t.c.env, t.c.m, old_, start, end)
    requires 0 < start && end <= t.toStart
    requires forall i :: 0 <= i < |globals| ==> !(start <= globals[i] < end)
    ensures MinorOk(t, globals, old_, start, end)
  {
    hide HeapOk, Tiles, Covers, Walkable, OldSlots;
  }
}
