// From a marked heap to the start of the compaction: which references there
// are, and where each live object will go.

module CompactSetup {
  import opened Layout
  import opened Graph
  import opened Heap
  import opened StackSize
  import opened StackObject
  import opened Tiling
  import opened Relocate
  import opened Cursor
  import opened DfsInvariant
  import opened DfsSteps
  import opened DfsMark
  import opened Roots
  import opened Threading
  import opened CompactSpec
  import opened CompactForward
  import opened Collection
  import opened MarkWeaks

  // The heap after marking (memory m) and after the weak objects G are gone
  // (memory m1).
  datatype Marking = Marking(
    call: Call, V: set<nat>, m: Memory, L: seq<nat>, G: set<nat>, m1: Memory,
    k: StackControls, objs: seq<Obj>, start: nat, back: nat, roots: seq<nat>, currentStack: nat)

  ghost predicate AfterMarking(a: Marking) {
    var c := a.call;
    && WeakHeap(c, a.V, a.m, a.L) && WeaksCleared(a.m, a.G, a.m1) && GoneOf(a.m, a.L, |a.L|, a.G)
    && a.V == Reach(PointerGraph(c.env, c.m0, c.H), RootTargets(c.m0, c.H, a.roots, |a.roots|))
    && RootsOk(c.m0, c.H, c.sp, a.roots) && NoMarks(c.m0, c.H)
    && FramesBounded(c.env, a.k)
    && Tiles(a.objs, a.start, a.back) && Covers(c.H, a.objs)
    && 0 < a.start && a.back <= |c.m0|
  }

  lemma AfterParts(a: Marking)
    requires AfterMarking(a)
    ensures WeakHeap(a.call, a.V, a.m, a.L) && WeaksCleared(a.m, a.G, a.m1) && GoneOf(a.m, a.L, |a.L|, a.G)
    ensures CallOk(a.call) && Marked(a.call, a.V, a.m) && a.call.bit && |a.m| == |a.m1| == |a.call.m0|
    ensures RootsOk(a.call.m0, a.call.H, a.call.sp, a.roots) && NoMarks(a.call.m0, a.call.H)
    ensures FramesBounded(a.call.env, a.k) && Tiles(a.objs, a.start, a.back) && Covers(a.call.H, a.objs)
    ensures 0 < a.start && a.back <= |a.call.m0| && a.V <= a.call.H.Keys && ValidEnv(a.call.env)
    ensures AreObjects(a.call.env, a.call.m0, a.call.H) && AreObjects(a.call.env, a.m, a.call.H)
    ensures SlotsOk(a.call.m0, a.call.H, a.call.sp) && Within(a.call.H, a.call.sp)
  {
    hide WeakHeap, GoneOf, Reach, RootsOk, NoMarks, FramesBounded, Tiles, Covers, CallOk;
    WeakHeapParts(a.call, a.V, a.m, a.L);
    CallParts(a.call);
    MarkedObjects(a.call, a.V, a.m);
    MarkedLength(a.call, a.V, a.m);
  }

  lemma CallParts(c: Call)
    requires CallOk(c)
    ensures AreObjects(c.env, c.m0, c.H) && ValidEnv(c.env) && SlotsOk(c.m0, c.H, c.sp) && Within(c.H, c.sp)
  {
    hide SlotsOk, Within, Clean, Apart;
  }

  lemma MarkedObjects(c: Call, V: set<nat>, m: Memory)
    requires Marked(c, V, m)
    ensures AreObjects(c.env, m, c.H)
  {
    hide AreObjects, MarkedObject, SameScratch;
  }

  // ------------------------------------------------------ the heap that is gone

  function Gone(o: Obj): Obj { o.(ty := WEAK_GONE_TYPE_INDEX, slots := []) }

  function AfterObj(a: Marking, o: Obj): Obj { if o.p in a.G then Gone(o) else o }

  function AfterHeap(a: Marking): (H: Objects)
    ensures H.Keys == a.call.H.Keys
  {
    map p | p in a.call.H.Keys :: AfterObj(a, a.call.H[p])
  }

  function AfterObjs(a: Marking): (objs: seq<Obj>)
    ensures |objs| == |a.objs|
  {
    seq(|a.objs|, i requires 0 <= i < |a.objs| => AfterObj(a, a.objs[i]))
  }

  lemma SameExtent(a: Marking, o: Obj)
    ensures AfterObj(a, o).front == o.front && AfterObj(a, o).p == o.p && AfterObj(a, o).end == o.end
    ensures o.p !in a.G ==> AfterObj(a, o) == o
    ensures o.p in a.G ==> AfterObj(a, o).slots == [] && AfterObj(a, o).ty == WEAK_GONE_TYPE_INDEX
  {
  }

  lemma OldPlace(a: Marking, p: nat)
    requires AfterMarking(a) && p in a.call.H
    ensures var o := a.call.H[p];
      && o.p == p && 0 < o.front < p <= o.end <= |a.m1| && o.front <= p - 1 < o.end
      && IsObject(a.call.env, a.m, o) && IsObject(a.call.env, a.call.m0, o)
  {
    hide *;
    AfterParts(a);
    HeaderPlace(a.call, p);
    CurFacts(a.call.env, a.m, a.call.H, p);
    CurFacts(a.call.env, a.call.m0, a.call.H, p);
    IsOParts(a.call.env, a.m, a.call.H[p]);
    IsOParts(a.call.env, a.call.m0, a.call.H[p]);
    BoundsOf(a.call.env, a.m, a.call.H[p]);
  }

  lemma IsOParts(env: Env, m: Memory, o: Obj)
    requires IsO(env, m, o)
    ensures ValidEnv(env) && IsObject(env, m, o)
  {
    hide ValidEnv, IsObject;
  }

  lemma GoneIs(a: Marking, p: nat)
    requires AfterMarking(a) && p in a.G
    ensures p in a.L && p in a.V && p in a.call.H && IsWeak(a.call.env, a.call.H[p])
    ensures a.call.H[p] == Obj(p - 1, p, p + 2, a.call.H[p].ty, [p + 1]) && p + 1 < |a.m|
    ensures IsGone(a.m, p) && a.m[p + 1] == a.call.m0[p + 1] && a.m[p + 1].Ptr? && a.m[p + 1].addr in a.call.H
    ensures |a.m| == |a.call.m0|
  {
    hide *;
    AfterParts(a);
    GoneListed(a.m, a.L, |a.L|, a.G, p);
    Listed(a.call, a.V, a.m, a.L, p);
    TargetOfListed(a.call, a.V, a.m, a.L, p);
    ListedSlots(a.call, p) by { ListedLinkable(a.call, a.V, a.m, a.L, p); }
    GoneMember(a.m, a.L, |a.L|, a.G, p);
  }

  lemma ListedLinkable(c: Call, V: set<nat>, m: Memory, L: seq<nat>, q: nat)
    requires WeakHeap(c, V, m, L)
    ensures q in L <==> q in V && Linkable(c, q)
  {
    hide CallOk, Marked, Linkable, Distinct;
  }

  lemma GoneMember(m: Memory, L: seq<nat>, k: nat, G: set<nat>, q: nat)
    requires GoneOf(m, L, k, G) && k == |L|
    ensures q in G <==> q in L && IsGone(m, q)
  {
    hide IsGone;
  }

  // Words of p are as they were after marking, but for the header and the
  // pointer of a weak object that is gone.
  lemma AfterWord(a: Marking, p: nat, w: nat)
    requires AfterMarking(a) && p in a.call.H && a.call.H[p].front <= w < a.call.H[p].end
    requires p in a.G ==> w + 1 != p && w != p + 1
    ensures w < |a.m1| == |a.m| && a.m1[w] == a.m[w]
  {
    hide *;
    AfterParts(a);
    OldPlace(a, p);
    OtherWord(a.call, a.V, a.m, a.L, |a.L|, a.G, a.m1, p, w);
  }

  lemma AfterMark(a: Marking, p: nat)
    requires AfterMarking(a) && p in a.call.H
    ensures 0 < p <= |a.m1| && a.m1[p - 1].Header? && (MarkAt(a.m1, p) <==> p in a.V) &&
      (a.m1[p - 1].mark <==> p in a.V)
    ensures p in a.G ==> a.m1[p - 1] == Header(WEAK_GONE_TYPE_INDEX, 0, true)
    ensures p !in a.G ==> |a.m| == |a.m1| && a.m1[p - 1] == a.m[p - 1]
    ensures |a.m| == |a.m1| && (MarkAt(a.m, p) <==> p in a.V)
  {
    hide *;
    AfterParts(a);
    MarksStay(a.call, a.V, a.m, a.L, |a.L|, a.G, a.m1, p);
    MarkedHeaders(a.call, a.V, a.m, p);
    MarkAtIs(a.m, p);
    MarkAtIs(a.m1, p);
    NoMarkAt(a.call.m0, a.call.H, p);
    GoneHeaderIs();
  }

  lemma NoMarkAt(m: Memory, H: Objects, p: nat)
    requires NoMarks(m, H) && p in H
    ensures 0 < p <= |m| && m[p - 1].Header? && !m[p - 1].mark
  {
  }

  lemma AfterObject(a: Marking, p: nat)
    requires AfterMarking(a) && p in a.call.H
    ensures IsObject(a.call.env, a.m1, AfterObj(a, a.call.H[p])) && Clean(a.call.env, a.m1, AfterObj(a, a.call.H[p]))
  {
    hide *;
    AfterParts(a);
    var o := a.call.H[p];
    OldPlace(a, p);
    SameExtent(a, o);
    AfterMark(a, p);
    if p in a.G {
      GoneIs(a, p);
      GoneObject(a.call.env, a.m1, p);
      GoneClean(a.call.env, a.m1, p);
    } else {
      forall w: nat | o.front <= w < o.end
        ensures w < |a.m1| && a.m1[w] == a.m[w]
      {
        AfterWord(a, p, w);
      }
      SameObject(a.call.env, a.m, a.m1, o);
      MarkedClean(a.call, a.V, a.m, p);
      AfterWord(a, p, o.front);
      SameCleanWords(a.call.env, a.m, a.m1, o);
    }
  }

  lemma GoneClean(env: Env, m: Memory, d: nat)
    requires ValidEnv(env) && 1 < d && d + 2 <= |m| && m[d - 1].Header? && m[d - 1].counter == 0
    ensures Clean(env, m, Obj(d - 1, d, d + 2, WEAK_GONE_TYPE_INDEX, []))
  {
  }

  lemma SameCleanWords(env: Env, m: Memory, m': Memory, o: Obj)
    requires Clean(env, m, o) && |m'| == |m| && 0 < o.front < o.p <= |m| && m'[o.front] == m[o.front] &&
      m'[o.p - 1] == m[o.p - 1]
    ensures Clean(env, m', o)
  {
  }

  lemma AfterAreObjects(a: Marking)
    requires AfterMarking(a)
    ensures AreObjects(a.call.env, a.m1, AfterHeap(a))
  {
    hide AfterMarking, AfterObj, IsObject, Clean, ValidEnv;
    AfterParts(a);
    var H := a.call.H;
    forall p | p in H
      ensures AfterHeap(a)[p].p == p && IsObject(a.call.env, a.m1, AfterHeap(a)[p])
      ensures AfterHeap(a)[p].front == H[p].front && AfterHeap(a)[p].end == H[p].end
    {
      OldPlace(a, p);
      AfterObject(a, p);
      SameExtent(a, H[p]);
    }
  }

  lemma AfterCovers(a: Marking)
    requires Covers(a.call.H, a.objs)
    ensures Covers(AfterHeap(a), AfterObjs(a))
  {
    hide AfterObj;
    var objs' := AfterObjs(a);
    forall i | 0 <= i < |objs'|
      ensures objs'[i].p in AfterHeap(a) && AfterHeap(a)[objs'[i].p] == objs'[i]
    {
      SameExtent(a, a.objs[i]);
    }
    forall p | p in AfterHeap(a)
      ensures exists i :: 0 <= i < |objs'| && objs'[i].p == p
    {
      var i :| 0 <= i < |a.objs| && a.objs[i].p == p;
      SameExtent(a, a.objs[i]);
      assert objs'[i].p == p;
    }
  }

  lemma AfterTiles(a: Marking)
    requires AfterMarking(a)
    ensures Tiles(AfterObjs(a), a.start, a.back) && Covers(AfterHeap(a), AfterObjs(a))
  {
    hide AfterMarking, AfterObj, Tiles, Covers;
    AfterParts(a);
    forall i | 0 <= i < |a.objs|
      ensures AfterObjs(a)[i].front == a.objs[i].front && AfterObjs(a)[i].p == a.objs[i].p &&
        AfterObjs(a)[i].end == a.objs[i].end
    {
      SameExtent(a, a.objs[i]);
    }
    SameTiles(a.objs, AfterObjs(a), a.start, a.back);
    AfterCovers(a);
  }

  lemma AfterRoot(a: Marking, i: nat)
    requires AfterMarking(a) && i < |a.roots|
    ensures 0 < a.roots[i] < |a.m1| && a.m1[a.roots[i]] == a.call.m0[a.roots[i]] && |a.m1| == |a.call.m0|
    ensures TargetOk(a.call.H, a.call.sp, a.m1[a.roots[i]])
  {
    hide *;
    AfterParts(a);
    RootWord(a.call, a.roots, i, a.V, a.m);
    RootPlace(a.call.m0, a.call.H, a.call.sp, a.roots, i);
    var r := a.roots[i];
    if r + 1 in a.G { GoneIs(a, r + 1); RootNot(a.call.m0, a.call.H, a.call.sp, a.roots, i, r + 1); }
    if r > 0 && r - 1 in a.G { GoneIs(a, r - 1); RootNot(a.call.m0, a.call.H, a.call.sp, a.roots, i, r - 1); }
    UntouchedWord(a.m, a.G, a.m1, r);
  }

  lemma UntouchedWord(m: Memory, G: set<nat>, m': Memory, a: nat)
    requires WeaksCleared(m, G, m') && a < |m| && a + 1 !in G && (a == 0 || a - 1 !in G)
    ensures |m'| == |m| && m'[a] == m[a]
  {
  }

  lemma RootPlace(m: Memory, H: Objects, sp: Spaces, roots: seq<nat>, i: nat)
    requires RootsOk(m, H, sp, roots) && i < |roots|
    ensures 0 < roots[i] < |m|
  {
    hide TargetOk;
  }

  lemma RootNot(m: Memory, H: Objects, sp: Spaces, roots: seq<nat>, i: nat, p: nat)
    requires RootsOk(m, H, sp, roots) && i < |roots| && p in H
    ensures !(H[p].front <= roots[i] < H[p].end)
  {
    hide TargetOk;
  }

  lemma AfterTarget(a: Marking, w: Word)
    requires TargetOk(a.call.H, a.call.sp, w)
    ensures TargetOk(AfterHeap(a), a.call.sp, w)
  {
    hide InSpaces, AfterObj;
  }

  lemma AfterRootsOk(a: Marking)
    requires AfterMarking(a)
    ensures RootsOk(a.m1, AfterHeap(a), a.call.sp, a.roots)
  {
    hide *;
    AfterParts(a);
    RootsAreApart(a.call.m0, a.call.H, a.call.sp, a.roots);
    forall i | 0 <= i < |a.roots|
      ensures 0 < a.roots[i] < |a.m1| && TargetOk(AfterHeap(a), a.call.sp, a.m1[a.roots[i]])
    {
      AfterRoot(a, i);
      AfterTarget(a, a.m1[a.roots[i]]);
    }
    forall i, p | 0 <= i < |a.roots| && p in AfterHeap(a)
      ensures !(AfterHeap(a)[p].front <= a.roots[i] < AfterHeap(a)[p].end)
    {
      AfterPlace(a, p);
      RootNot(a.call.m0, a.call.H, a.call.sp, a.roots, i, p);
    }
    RootsOkIntro(a.m1, AfterHeap(a), a.call.sp, a.roots);
  }

  lemma AfterPlace(a: Marking, p: nat)
    requires p in AfterHeap(a)
    ensures p in a.call.H && AfterHeap(a)[p].front == a.call.H[p].front && AfterHeap(a)[p].end == a.call.H[p].end
  {
    hide AfterObj;
    SameExtent(a, a.call.H[p]);
  }

  lemma RootsAreApart(m: Memory, H: Objects, sp: Spaces, roots: seq<nat>)
    requires RootsOk(m, H, sp, roots)
    ensures Distinct(roots)
  {
    hide TargetOk, Distinct;
  }

  // --------------------------------------------------- live slots have live targets

  lemma AfterSlot(a: Marking, p: nat, i: nat)
    requires AfterMarking(a) && p in a.call.H && p !in a.G && i < |a.call.H[p].slots|
    ensures var s := a.call.H[p].slots[i];
      && p <= s < a.call.H[p].end && s < |a.m1| == |a.call.m0| && a.m1[s] == a.call.m0[s]
      && TargetOk(a.call.H, a.call.sp, a.m1[s])
  {
    hide *;
    AfterParts(a);
    OldPlace(a, p);
    var s := a.call.H[p].slots[i];
    SlotOwner(a.call.env, a.call.m0, a.call.H, p, i);
    SlotUnscratched(a.call, p, i);
    MarkedScratchOther(a.call, a.V, a.m, s);
    AfterWord(a, p, s);
    SlotTarget(a.call.m0, a.call.H, a.call.sp, p, i);
  }

  lemma SlotTarget(m: Memory, H: Objects, sp: Spaces, p: nat, i: nat)
    requires SlotsOk(m, H, sp) && p in H && i < |H[p].slots| && H[p].slots[i] < |m|
    ensures TargetOk(H, sp, m[H[p].slots[i]])
  {
    hide TargetOk;
  }

  lemma LiveTarget(a: Marking, p: nat, i: nat)
    requires AfterMarking(a) && p in a.V && p in a.call.H && p !in a.G && i < |a.call.H[p].slots|
    ensures var s := a.call.H[p].slots[i];
      s < |a.m1| && (a.m1[s].Ptr? && InSpaces(a.call.sp, a.m1[s].addr) ==> a.m1[s].addr in a.V)
  {
    hide *;
    AfterParts(a);
    AfterSlot(a, p, i);
    OldPlace(a, p);
    var o := a.call.H[p];
    var w := a.m1[o.slots[i]];
    TargetInHeap(a.call.H, a.call.sp, w);
    if w.Ptr? && InSpaces(a.call.sp, w.addr) {
      if IsWeak(a.call.env, o) {
        WeakSlots(a.call.env, a.call.m0, o);
        WeakTarget(a, p, w.addr);
      } else {
        ChildOf(a.call.env, a.call.m0, a.call.H, o, i, w.addr);
        ReachedChild(a, p, w.addr);
      }
    }
  }

  lemma TargetInHeap(H: Objects, sp: Spaces, w: Word)
    requires TargetOk(H, sp, w)
    ensures w.Ptr? && InSpaces(sp, w.addr) ==> w.addr in H
  {
    hide InSpaces;
  }

  lemma ChildOf(env: Env, m: Memory, H: Objects, o: Obj, i: nat, t: nat)
    requires !IsWeak(env, o) && i < |o.slots| && o.slots[i] < |m| && m[o.slots[i]] == Ptr(t) && t in H
    ensures t in Children(env, m, H, o)
  {
    hide IsWeak;
    assert PointsTo(m, H, Strong(env, o)[i], t);
  }

  lemma ReachedChild(a: Marking, p: nat, t: nat)
    requires AfterMarking(a) && p in a.V && p in a.call.H &&
      t in Children(a.call.env, a.call.m0, a.call.H, a.call.H[p]) && t in a.call.H
    ensures t in a.V
  {
    hide WeakHeap, WeaksCleared, GoneOf, RootsOk, NoMarks, FramesBounded, Tiles, Covers, Reach, Children;
    ReachStep(PointerGraph(a.call.env, a.call.m0, a.call.H), RootTargets(a.call.m0, a.call.H, a.roots, |a.roots|), p,
      t);
  }

  lemma ReachedRoot(a: Marking, i: nat, t: nat)
    requires AfterMarking(a) && i < |a.roots| && PointsTo(a.call.m0, a.call.H, a.roots[i], t)
    ensures t in a.V
  {
    hide WeakHeap, WeaksCleared, GoneOf, RootsOk, NoMarks, FramesBounded, Tiles, Covers, Reach, Children;
    ReachRoot(PointerGraph(a.call.env, a.call.m0, a.call.H), RootTargets(a.call.m0, a.call.H, a.roots, |a.roots|), t);
  }

  // A marked weak object that is not gone has a marked target.
  lemma WeakTarget(a: Marking, p: nat, t: nat)
    requires AfterMarking(a) && p in a.V && p in a.call.H && p !in a.G && IsWeak(a.call.env, a.call.H[p])
    requires p + 1 < |a.m1| && a.m1[p + 1] == Ptr(t) && InSpaces(a.call.sp, t) && t in a.call.H
    requires a.call.H[p].end == p + 2
    ensures t in a.V
  {
    hide *;
    AfterParts(a);
    OldPlace(a, p);
    AfterWord(a, p, p + 1);
    MarkedGone(a.call, a.V, a.m, p);
    LinkableIs(a.call, p);
    ListedLinkable(a.call, a.V, a.m, a.L, p);
    GoneMember(a.m, a.L, |a.L|, a.G, p);
    IsGoneIs(a.m, p);
    AfterMark(a, t);
  }

  lemma LinkableIs(c: Call, q: nat)
    requires q in c.H && IsWeak(c.env, c.H[q]) && q + 1 < |c.m0|
    ensures Linkable(c, q) <==> c.m0[q + 1].Ptr? && InSpaces(c.sp, c.m0[q + 1].addr)
  {
    hide IsWeak, InSpaces;
  }

  // ------------------------------------------------------------ the compaction

  ghost function IndexOf(objs: seq<Obj>, p: nat): nat {
    if exists i :: 0 <= i < |objs| && objs[i].p == p then
      var i: nat :| i < |objs| && objs[i].p == p; i
    else 0
  }

  // Before addresses are known: only which objects are live matters.
  ghost function Plan0(a: Marking): Compaction {
    Compaction(a.call.env, a.k, a.m1, AfterHeap(a), AfterObjs(a), a.start, a.back, a.call.sp, a.roots, a.currentStack,
               Refs(map[], map p: nat | p in a.V :: 0), map[])
  }

  ghost function PlanDest(a: Marking): (dest: map<nat, nat>)
    ensures dest.Keys == a.V
  {
    map p: nat | p in a.V :: ToNat(p - Gap(Plan0(a), AfterObjs(a), IndexOf(AfterObjs(a), p)))
  }

  ghost function AddrOf(w: Word): nat { if w.Ptr? then w.addr else 0 }

  ghost function OwnerOf(j: Compaction, s: nat): nat {
    if exists h: nat :: OwnedBy(j, s, h) then
      var h: nat :| OwnedBy(j, s, h); h
    else 0
  }

  ghost function PlanTargets(a: Marking): map<nat, nat> {
    map s: nat | s < |a.m1| && IsRef(Plan0(a), s) :: AddrOf(WordAt(a.m1, s))
  }

  ghost function PlanOwners(a: Marking): map<nat, nat> {
    map s: nat | s in PlanTargets(a) :: OwnerOf(Plan0(a), s)
  }

  ghost function Plan(a: Marking): Compaction {
    Plan0(a).(x := Refs(PlanTargets(a), PlanDest(a)), own := PlanOwners(a))
  }

  lemma PlanFields(a: Marking)
    ensures var j := Plan(a);
      && j.env == a.call.env && j.k == a.k && j.m1 == a.m1 && j.H == AfterHeap(a) && j.objs == AfterObjs(a)
      && j.start == a.start && j.back == a.back && j.sp == a.call.sp && j.roots == a.roots &&
         j.currentStack == a.currentStack
      && j.Live() == a.V && j.x.dest == PlanDest(a) && j.x.tgt == PlanTargets(a)
  {
    hide AfterHeap, AfterObjs, PlanTargets, PlanOwners;
  }

  lemma PlanOwnedBy(a: Marking, s: nat, h: nat)
    ensures OwnedBy(Plan(a), s, h) <==> OwnedBy(Plan0(a), s, h)
    ensures IsRef(Plan(a), s) <==> IsRef(Plan0(a), s)
  {
    hide AfterHeap, AfterObjs, PlanTargets, PlanOwners, InSpaces;
    assert Plan(a).Live() == Plan0(a).Live();
    assert forall h :: OwnedBy(Plan(a), s, h) <==> OwnedBy(Plan0(a), s, h);
  }

  lemma PlanSkip(a: Marking, o: Obj)
    ensures CompactSpec.Skip(Plan(a), o) == CompactSpec.Skip(Plan0(a), o)
  {
    hide AfterHeap, AfterObjs, PlanTargets, PlanOwners, WordsSaved, PlanDest;
    assert Plan(a).Live() == Plan0(a).Live();
  }

  lemma {:induction false} PlanGap(a: Marking, objs: seq<Obj>, n: nat)
    ensures Gap(Plan(a), objs, n) == Gap(Plan0(a), objs, n)
  {
    hide Plan, Plan0, CompactSpec.Skip;
    if n > 0 && n <= |objs| {
      PlanGap(a, objs, n - 1);
      PlanSkip(a, objs[n - 1]);
    }
  }

  lemma PlanHeapRight(a: Marking)
    requires AfterMarking(a)
    ensures HeapRight(Plan(a))
  {
    hide AfterMarking, AreObjects, Covers, Tiles, FramesBounded, RootsOk, Plan;
    PlanFields(a);
    AfterParts(a);
    AfterAreObjects(a);
    AfterTiles(a);
    AfterRootsOk(a);
  }

  lemma MarksIntro(j: Compaction)
    requires j.Live() <= j.H.Keys
    requires forall p :: p in j.H ==> Clean(j.env, j.m1, j.H[p]) && (MarkAt(j.m1, p) <==> p in j.Live())
    ensures MarksRight(j)
  {
    hide Clean, MarkAt;
  }

  lemma PlanMark(a: Marking, p: nat)
    requires AfterMarking(a) && p in a.call.H
    ensures Clean(a.call.env, a.m1, AfterHeap(a)[p]) && (MarkAt(a.m1, p) <==> p in a.V)
  {
    hide AfterMarking, Clean, MarkAt, AfterObj;
    AfterObject(a, p);
    AfterMark(a, p);
  }

  lemma PlanMarksRight(a: Marking)
    requires AfterMarking(a)
    ensures MarksRight(Plan(a))
  {
    hide *;
    PlanFields(a);
    AfterParts(a);
    forall p | p in a.call.H
      ensures Clean(a.call.env, a.m1, AfterHeap(a)[p]) && (MarkAt(a.m1, p) <==> p in a.V)
    {
      PlanMark(a, p);
    }
    MarksIntro(Plan(a));
  }

  // The gap below an object does not exceed its address.
  lemma {:induction false} PlanGapBelow(a: Marking, n: nat)
    requires AfterMarking(a) && n <= |AfterObjs(a)|
    ensures Gap(Plan(a), AfterObjs(a), n) + a.start <= FrontOf(Plan(a), n)
  {
    hide *;
    PlanFields(a);
    PlanHeapRight(a);
    StartFront(Plan(a));
    if n > 0 {
      PlanGapBelow(a, n - 1);
      FrontStep(Plan(a), n - 1);
      ObjIn(Plan(a), n - 1);
      GapNext(Plan(a), n - 1);
      SkipFits(Plan(a), AfterObjs(a)[n - 1].p);
    } else {
      NoGap(Plan(a), AfterObjs(a));
    }
  }

  lemma NoGap(j: Compaction, objs: seq<Obj>)
    ensures Gap(j, objs, 0) == 0
  {
  }

  lemma PlanDestRight(a: Marking)
    requires AfterMarking(a)
    ensures DestRight(Plan(a), AfterObjs(a))
  {
    hide AfterMarking, Plan, Gap, PlanDest, AfterObjs;
    PlanFields(a);
    forall i | 0 <= i < |AfterObjs(a)| && AfterObjs(a)[i].p in a.V
      ensures PlanDest(a)[AfterObjs(a)[i].p] == AfterObjs(a)[i].p - Gap(Plan(a), AfterObjs(a), i)
    {
      PlanDestAt(a, i);
    }
  }

  lemma PlanDestAt(a: Marking, i: nat)
    requires AfterMarking(a) && i < |AfterObjs(a)| && AfterObjs(a)[i].p in a.V
    ensures PlanDest(a)[AfterObjs(a)[i].p] == AfterObjs(a)[i].p - Gap(Plan(a), AfterObjs(a), i)
  {
    hide AfterMarking, Plan, Gap, AfterObjs, Plan0, HeapRight, Tiles, Covers;
    PlanFields(a);
    PlanHeapRight(a);
    PlanGapBelow(a, i);
    FrontStep(Plan(a), i);
    ObjIn(Plan(a), i);
    AfterTiles(a);
    ObjectAt(Plan(a), AfterObjs(a)[i].p);
    var p := AfterObjs(a)[i].p;
    var n := IndexOf(AfterObjs(a), p);
    if n != i { TilesApart(AfterObjs(a), a.start, a.back, n, i); }
    PlanGap(a, AfterObjs(a), i);
  }

  lemma PlanRef(a: Marking, s: nat)
    requires AfterMarking(a) && IsRef(Plan(a), s)
    ensures s < |a.m1| && a.m1[s].Ptr? && a.m1[s].addr in a.V
  {
    hide AfterMarking, Plan, InSpaces, AfterObj;
    PlanFields(a);
    AfterParts(a);
    var h :| OwnedBy(Plan(a), s, h);
    if s in a.roots {
      var i :| 0 <= i < |a.roots| && a.roots[i] == s;
      AfterRoot(a, i);
      TargetInHeap(a.call.H, a.call.sp, a.m1[s]);
      ReachedRoot(a, i, a.m1[s].addr);
    } else {
      var p :| p in a.V && p in a.call.H && s in AfterHeap(a)[p].slots;
      OldPlace(a, p);
      SameExtent(a, a.call.H[p]);
      var i :| 0 <= i < |a.call.H[p].slots| && a.call.H[p].slots[i] == s;
      LiveTarget(a, p, i);
    }
  }

  lemma PlanRefsRight(a: Marking)
    requires AfterMarking(a)
    ensures RefsRight(Plan(a))
  {
    hide AfterMarking, Plan, AfterHeap, AfterObjs, OwnedBy, PlanDest;
    PlanFields(a);
    forall s: nat
      ensures s in PlanTargets(a) <==> IsRef(Plan(a), s)
      ensures IsRef(Plan(a), s) ==> a.m1[s] == Ptr(PlanTargets(a)[s]) && PlanTargets(a)[s] in a.V
      ensures IsRef(Plan(a), s) ==> s in Plan(a).own && OwnedBy(Plan(a), s, Plan(a).own[s])
    {
      PlanOwnedBy(a, s, 0);
      if IsRef(Plan(a), s) {
        PlanRef(a, s);
        PlanOwner(a, s);
      }
    }
  }

  lemma PlanOwner(a: Marking, s: nat)
    requires IsRef(Plan0(a), s) && s < |a.m1|
    ensures s in Plan(a).own && OwnedBy(Plan(a), s, Plan(a).own[s])
  {
    hide AfterHeap, AfterObjs, OwnedBy, PlanDest, Plan0;
    PlanOwnedBy(a, s, OwnerOf(Plan0(a), s));
    assert s in PlanTargets(a);
  }

  // The compaction can start.
  lemma PlanSetup(a: Marking)
    requires AfterMarking(a)
    ensures Setup(Plan(a))
  {
    hide AfterMarking, Plan, HeapRight, MarksRight, RefsRight, DestRight;
    PlanFields(a);
    PlanHeapRight(a);
    PlanMarksRight(a);
    PlanRefsRight(a);
    PlanDestRight(a);
  }
}
