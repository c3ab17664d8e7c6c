// What the program sees of a collection: nothing.  Every walk through the heap
// meets the same words, up to the new addresses; and every object that was
// kept can still be reached.

module Preserved {
  import opened Layout
  import opened Graph
  import opened Heap
  import opened StackObject
  import opened Relocate
  import opened DfsInvariant
  import opened Roots
  import opened Collection

  // Follow the path of slot numbers, starting with word w.  Weak pointers are
  // not followed.
  function Walk(env: Env, m: Memory, H: Objects, w: Word, path: seq<nat>): Word
    decreases |path|
  {
    if path == [] then w
    else if w.Ptr? && w.addr in H && path[0] < |Strong(env, H[w.addr])| then
      Walk(env, m, H, WordAt(m, Strong(env, H[w.addr])[path[0]]), path[1..])
    else Bits(0)
  }

  // A word as slots and roots hold it: what points into the heap is kept.
  predicate Visible(c: Collection, w: Word, start: nat, end: nat) {
    ForeignWord(c, w, start, end) && (w.Ptr? && InSpaces(c.sp, w.addr) ==> w.addr in c.dest)
  }

  lemma InHeapInSpaces(c: Collection, p: nat)
    requires HeapOk(c) && p in c.H
    ensures InSpaces(c.sp, p)
  {
    hide Quiet, SlotsOk, RootsOk, NoMarks, FramesBounded, InSpaces;
  }

  // A visible word points to a new object just when it pointed to a kept one.
  lemma VisibleTarget(c: Collection, order: seq<nat>, m': Memory, start: nat, end: nat, w: Word)
    requires HeapOk(c) && Collected(c, order, m', start, end) && Visible(c, w, start, end)
    ensures w.Ptr? && w.addr in c.H <==> NewWord(c, w).Ptr? && NewWord(c, w).addr in NewHeap(c)
    ensures w.Ptr? && w.addr in c.H ==> w.addr in c.dest && NewWord(c, w) == Ptr(c.dest[w.addr])
  {
    hide HeapOk, Collected, NewHeap, NewObj, Kept, Live, Lists, RootsMoved, InSpaces;
    CollectedParts(c, order, m', start, end);
    if w.Ptr? {
      if w.addr in c.H { InHeapInSpaces(c, w.addr); }
      if w.addr in c.dest {
        KeptIsOld(c, w.addr);
        NewHeapAt(c, order, m', start, end, w.addr);
      } else if w.addr in NewHeap(c) {
        NewHeapEntry(c, order, m', start, end, w.addr);
      }
    }
  }

  lemma SlotVisible(c: Collection, order: seq<nat>, m': Memory, start: nat, end: nat, p: nat, i: nat)
    requires HeapOk(c) && Collected(c, order, m', start, end) && ForeignApart(c, start, end)
    requires p in c.dest && p in c.H && i < |c.H[p].slots| && !Cleared(c, p)
    ensures Visible(c, WordAt(c.m, c.H[p].slots[i]), start, end)
  {
    hide HeapOk, Collected, Live, ForeignWord, Cleared;
    CollectedParts(c, order, m', start, end);
    KeptTarget(c, p, i);
  }

  lemma RootVisible(c: Collection, order: seq<nat>, m': Memory, start: nat, end: nat, i: nat)
    requires HeapOk(c) && Collected(c, order, m', start, end) && ForeignApart(c, start, end) && i < |c.roots|
    ensures Visible(c, WordAt(c.m, c.roots[i]), start, end)
  {
    hide Collected, Live, ForeignWord, InSpaces, Quiet, Within, SlotsOk, NoMarks, FramesBounded;
    CollectedParts(c, order, m', start, end);
    var w := WordAt(c.m, c.roots[i]);
    assert c.roots[i] < |c.m| && TargetOk(c.H, c.sp, c.m[c.roots[i]]);
    if w.Ptr? && InSpaces(c.sp, w.addr) { LiveRoot(c, i); }
  }

  // The strong slots of an object correspond one to one.
  lemma StrongSlots(c: Collection, order: seq<nat>, m': Memory, start: nat, end: nat, p: nat, i: nat)
    requires HeapOk(c) && Collected(c, order, m', start, end) && p in c.dest && p in c.H
    ensures |Strong(c.env, NewObj(c, p))| == |Strong(c.env, c.H[p])|
    ensures i < |Strong(c.env, c.H[p])| ==>
      && !Cleared(c, p) && i < |c.H[p].slots| && Strong(c.env, c.H[p])[i] == c.H[p].slots[i]
      && WordAt(m', Strong(c.env, NewObj(c, p))[i]) == NewWord(c, WordAt(c.m, c.H[p].slots[i]))
  {
    hide HeapOk, Collected, Live, Kept, WordsSaved, NewWord;
    CollectedParts(c, order, m', start, end);
    HeapParts(c);
    OldObject(c, p);
    WeakGoneType(c.env);
    if i < |Strong(c.env, c.H[p])| { NewSlot(c, p, m', i); }
  }

  lemma WeakGoneType(env: Env)
    requires ValidEnv(env)
    ensures |env.types| > WEAK_GONE_TYPE_INDEX && env.types[WEAK_GONE_TYPE_INDEX].tag == WeakTag
  {
  }

  // Every walk through strong references ends at the same word.
  lemma {:induction false} WalkPreserved(c: Collection, order: seq<nat>, m': Memory, start: nat, end: nat, w: Word,
          path: seq<nat>)
    requires HeapOk(c) && Collected(c, order, m', start, end) && ForeignApart(c, start, end)
    requires Visible(c, w, start, end)
    ensures Walk(c.env, m', NewHeap(c), NewWord(c, w), path) == NewWord(c, Walk(c.env, c.m, c.H, w, path))
    decreases |path|
  {
    hide HeapOk, Collected, NewHeap, NewObj, ForeignApart, Visible, Strong, NewWord;
    if path != [] {
      VisibleTarget(c, order, m', start, end, w);
      PlainWordStays(c);
      if w.Ptr? && w.addr in c.H {
        var p := w.addr;
        NewHeapAt(c, order, m', start, end, p);
        StrongSlots(c, order, m', start, end, p, path[0]);
        if path[0] < |Strong(c.env, c.H[p])| {
          SlotVisible(c, order, m', start, end, p, path[0]);
          WalkPreserved(c, order, m', start, end, WordAt(c.m, c.H[p].slots[path[0]]), path[1..]);
        }
      }
    }
  }

  lemma PlainWordStays(c: Collection)
    ensures NewWord(c, Bits(0)) == Bits(0)
  {
  }

  // From every root, every walk: the main theorem about a collection.
  lemma RootWalkPreserved(c: Collection, order: seq<nat>, m': Memory, start: nat, end: nat, i: nat, path: seq<nat>)
    requires HeapOk(c) && Collected(c, order, m', start, end) && ForeignApart(c, start, end) && i < |c.roots|
    ensures c.roots[i] < |m'|
    ensures Walk(c.env, m', NewHeap(c), m'[c.roots[i]], path) ==
      NewWord(c, Walk(c.env, c.m, c.H, WordAt(c.m, c.roots[i]), path))
  {
    hide HeapOk, Collected, NewHeap, NewObj, ForeignApart, Visible, NewWord, Walk;
    NewRoot(c, order, m', start, end, i);
    RootVisible(c, order, m', start, end, i);
    WalkPreserved(c, order, m', start, end, WordAt(c.m, c.roots[i]), path);
  }

  // ------------------------------------------------------- nothing but what lives

  lemma NewChild(c: Collection, order: seq<nat>, m': Memory, start: nat, end: nat, p: nat, t: nat)
    requires HeapOk(c) && Collected(c, order, m', start, end) && ForeignApart(c, start, end)
    requires p in c.dest && p in c.H && t in Children(c.env, c.m, c.H, c.H[p])
    ensures t in c.dest && c.dest[t] in Children(c.env, m', NewHeap(c), NewObj(c, p)) && c.dest[t] in NewHeap(c)
  {
    hide HeapOk, Collected, NewHeap, NewObj, Live, Strong, Cleared, ForeignApart;
    CollectedParts(c, order, m', start, end);
    LiveChild(c, p, t);
    NewHeapAt(c, order, m', start, end, t);
    var i :| 0 <= i < |Strong(c.env, c.H[p])| && PointsTo(c.m, c.H, Strong(c.env, c.H[p])[i], t);
    StrongSlots(c, order, m', start, end, p, i);
    assert WordAt(m', Strong(c.env, NewObj(c, p))[i]) == Ptr(c.dest[t]);
    assert PointsTo(m', NewHeap(c), Strong(c.env, NewObj(c, p))[i], c.dest[t]);
  }

  lemma NewRootTarget(c: Collection, order: seq<nat>, m': Memory, start: nat, end: nat, t: nat)
    requires HeapOk(c) && Collected(c, order, m', start, end) && ForeignApart(c, start, end)
    requires t in RootTargets(c.m, c.H, c.roots, |c.roots|)
    ensures t in c.dest && c.dest[t] in RootTargets(m', NewHeap(c), c.roots, |c.roots|) && c.dest[t] in NewHeap(c)
  {
    hide HeapOk, Collected, NewHeap, NewObj, Live, Strong, Cleared, ForeignApart;
    CollectedParts(c, order, m', start, end);
    var i :| 0 <= i < |c.roots| && PointsTo(c.m, c.H, c.roots[i], t);
    LiveRoot(c, i);
    NewHeapAt(c, order, m', start, end, t);
    NewRoot(c, order, m', start, end, i);
    assert PointsTo(m', NewHeap(c), c.roots[i], c.dest[t]);
  }

  // Each new object can be reached from the roots: no garbage is left.
  lemma AllReachable(c: Collection, order: seq<nat>, m': Memory, start: nat, end: nat)
    requires HeapOk(c) && Collected(c, order, m', start, end) && ForeignApart(c, start, end)
    ensures Live(Next(c, m', start, end)) == NewHeap(c).Keys
  {
    hide HeapOk, Collected, NewHeap, NewObj, Strong, Cleared, ForeignApart, Children, RootTargets, Reach;
    CollectedParts(c, order, m', start, end);
    var g, g' := PointerGraph(c.env, c.m, c.H), PointerGraph(c.env, m', NewHeap(c));
    var roots, roots' := RootTargets(c.m, c.H, c.roots, |c.roots|), RootTargets(m', NewHeap(c), c.roots, |c.roots|);
    var S := set p | p in c.dest && c.dest[p] in Reach(g', roots');
    forall x | x in roots && x in g
      ensures x in S
    {
      NewRootTarget(c, order, m', start, end, x);
      ReachRoot(g', roots', c.dest[x]);
    }
    forall x, y | x in S && x in g && y in g[x] && y in g
      ensures y in S
    {
      NewChild(c, order, m', start, end, x, y);
      NewHeapAt(c, order, m', start, end, x);
      ReachStep(g', roots', c.dest[x], c.dest[y]);
    }
    ReachLeast(g, roots, S);
    ReachInside(g', roots');
    forall d | d in NewHeap(c)
      ensures d in Reach(g', roots')
    {
      NewHeapKey(c, d);
    }
  }

  // --------------------------------------------------------------- weak pointers

  // A weak object that is kept: its pointer follows a target that is kept, and
  // is cleared if the target lies in the heap and is not kept.
  lemma WeakPointer(c: Collection, order: seq<nat>, m': Memory, start: nat, end: nat, p: nat)
    requires HeapOk(c) && Collected(c, order, m', start, end)
    requires p in c.dest && p in c.H && IsWeak(c.env, c.H[p]) && |c.H[p].slots| == 1
    ensures c.H[p].slots == [p + 1] && p + 1 < |c.m|
    ensures var w, d := c.m[p + 1], c.dest[p];
      w.Ptr? && InSpaces(c.sp, w.addr) ==>
        && w.addr in c.H
        && (w.addr in Live(c) ==> w.addr in c.dest && WeakIs(m', d, c.H[p].ty, Ptr(c.dest[w.addr])))
        && (w.addr !in Live(c) ==> WeakIs(m', d, WEAK_GONE_TYPE_INDEX, BOGUS_OBJPTR))
    ensures var w, d := c.m[p + 1], c.dest[p];
      !w.Ptr? ==> WeakIs(m', d, c.H[p].ty, w)
    // The two collectors differ on a target outside the heap.
    ensures var w, d := c.m[p + 1], c.dest[p];
      w.Ptr? && !InSpaces(c.sp, w.addr) ==>
        if c.clearsForeign then WeakIs(m', d, WEAK_GONE_TYPE_INDEX, BOGUS_OBJPTR) else WeakIs(m', d, c.H[p].ty, w)
  {
    hide *;
    CollectedParts(c, order, m', start, end);
    InOrder(c, order, m', start, end, p);
    OldObject(c, p);
    HeapParts(c);
    WeakSlots(c.env, c.m, c.H[p]);
    OldSlotOk(c, p, 0);
    var w := c.m[p + 1];
    if w.Ptr? && w.addr in c.dest {
      KeptIsOld(c, w.addr);
      InHeapInSpaces(c, w.addr);
    }
    ClearedIs(c, p);
    NewWordIs(c, w);
    TargetIn(c, w);
    if Cleared(c, p) {
      ClearedFields(c, p, m');
      WeakIsIntro(m', c.dest[p], WEAK_GONE_TYPE_INDEX, BOGUS_OBJPTR);
    } else {
      WeakKept(c, p, m');
    }
  }

  predicate WeakIs(m: Memory, d: nat, ty: nat, w: Word) {
    0 < d && d + 1 < |m| && m[d - 1] == Header(ty, 0, false) && m[d + 1] == w
  }

  // Words of object o that hold data of the program: neither pointers nor headers,
  // of a stack only what is on it, and of a weak object not its link.
  predicate Data(env: Env, m: Memory, o: Obj, a: nat) {
    && a !in o.slots && a + 1 != o.p && o.front <= a < o.end
    && (IsStack(env, o) ==> o.p + 3 <= a && o.p + 3 < |m| && m[o.p + 3].Bits? && a < o.p + 4 + m[o.p + 3].val / 8)
    && (IsWeak(env, o) ==> a != o.p)
  }

  // Every word of data of every object kept is at its place in the object's new
  // place, and the object keeps its type, but for a weak object that is gone.
  lemma DataPreserved(c: Collection, order: seq<nat>, m': Memory, start: nat, end: nat, p: nat, a: nat)
    requires HeapOk(c) && Collected(c, order, m', start, end) && p in c.dest && p in c.H
    ensures var d := c.dest[p];
      0 < d <= |m'| && m'[d - 1].Header? && m'[d - 1].ty == if Cleared(c, p) then WEAK_GONE_TYPE_INDEX else c.H[p].ty
    ensures var o, d := c.H[p], c.dest[p];
      Data(c.env, c.m, o, a) ==> a < |c.m| && p <= a + d < |m'| + p && m'[a + d - p] == c.m[a]
  {
    hide *;
    CollectedParts(c, order, m', start, end);
    OldObject(c, p);
    KeptWords(c, p, m');
    if Data(c.env, c.m, c.H[p], a) {
      DataIsPlain(c.env, c.m, c.H[p], a);
      SameWordAt(c.env, c.m, c.H[p], m', c.dest[p], a);
    }
  }

  lemma KeptWords(c: Collection, p: nat, m': Memory)
    requires p in c.dest && p in c.H && Kept(c, p, m')
    ensures At(c.H, p) == c.H[p] && SameWords(c.env, c.m, c.H[p], m', c.dest[p])
    ensures var d := c.dest[p];
      0 < d <= |m'| && m'[d - 1].Header? && m'[d - 1].ty == if Cleared(c, p) then WEAK_GONE_TYPE_INDEX else c.H[p].ty
  {
    hide SameWords, Cleared, ReservedAfter, SlotsMoved;
  }

  lemma DataIsPlain(env: Env, m: Memory, o: Obj, a: nat)
    requires IsObject(env, m, o) && Data(env, m, o, a)
    ensures Plain(env, o, a) && o.front <= a < CopiedEnd(env, m, o) && a < |m|
  {
    if IsStack(env, o) { StackFrames(env, m, o); }
  }

  lemma WeakIsIntro(m: Memory, d: nat, ty: nat, w: Word)
    requires 0 < d && d + 1 < |m| && m[d - 1] == Header(ty, 0, false) && m[d + 1] == w
    ensures WeakIs(m, d, ty, w)
  {
  }

  lemma NewWordIs(c: Collection, w: Word)
    ensures NewWord(c, w) == if w.Ptr? && w.addr in c.dest then Ptr(c.dest[w.addr]) else w
  {
  }

  lemma TargetIn(c: Collection, w: Word)
    ensures TargetOk(c.H, c.sp, w) && w.Ptr? && InSpaces(c.sp, w.addr) ==> w.addr in c.H
  {
  }

  lemma WeakKept(c: Collection, p: nat, m': Memory)
    requires HeapOk(c) && p in c.dest && p in c.H && Kept(c, p, m') && !Cleared(c, p)
    requires c.H[p].p == p && IsWeak(c.env, c.H[p]) && c.H[p].slots == [p + 1] && p + 1 < |c.m|
    ensures WeakIs(m', c.dest[p], c.H[p].ty, NewWord(c, c.m[p + 1]))
  {
    hide HeapOk, SameWords, ReservedAfter, Cleared, NewWord, IsWeak, SlotsMoved, IsStack;
    NewSlot(c, p, m', 0);
  }
}
