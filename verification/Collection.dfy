// What every major collection must achieve, whichever algorithm it uses: the
// objects reachable from the roots, and no others, are in the new heap, each
// with its words, its references redirected, and its weak pointer kept or
// cleared.  The rest of the module is what follows for the heap as a whole.

module Collection {
  import opened Layout
  import opened Graph
  import opened Heap
  import opened StackSize
  import opened StackObject
  import opened Tiling
  import opened Relocate
  import opened Cursor
  import opened DfsInvariant
  import opened Roots

  // The heap before: memory m with objects H in the spaces sp; dest gives the
  // new address of each object that is kept.  Copying clears a weak pointer
  // that leaves the heap (clearsForeign), marking does not.
  datatype Collection = Collection(
    env: Env, k: StackControls, m: Memory, H: Objects, sp: Spaces, roots: seq<nat>,
    currentStack: nat, clearsForeign: bool, dest: map<nat, nat>)

  // The heap a collection may start from.
  ghost predicate HeapOk(c: Collection) {
    && Quiet(c.env, c.m, c.H) && Within(c.H, c.sp) && SlotsOk(c.m, c.H, c.sp)
    && RootsOk(c.m, c.H, c.sp, c.roots)
    && FramesBounded(c.env, c.k)
    && NoMarks(c.m, c.H)
  }

  ghost predicate NoMarks(m: Memory, H: Objects) {
    forall p :: p in H ==> 0 < p <= |m| && m[p - 1].Header? && !m[p - 1].mark
  }

  ghost function Live(c: Collection): set<nat> {
    Reach(PointerGraph(c.env, c.m, c.H), RootTargets(c.m, c.H, c.roots, |c.roots|))
  }

  // A pointer to a kept object is redirected; any other word stays.
  function NewWord(c: Collection, w: Word): Word {
    if w.Ptr? && w.addr in c.dest then Ptr(c.dest[w.addr]) else w
  }

  function WordAt(m: Memory, a: nat): Word { if a < |m| then m[a] else Bits(0) }

  // The target of a weak object is not kept.
  predicate Cleared(c: Collection, p: nat) {
    var o := At(c.H, p);
    && IsWeak(c.env, o) && |o.slots| == 1
    && WordAt(c.m, o.slots[0]).Ptr?
    && (if InSpaces(c.sp, WordAt(c.m, o.slots[0]).addr) then WordAt(c.m, o.slots[0]).addr !in c.dest
        else c.clearsForeign)
  }

  function DestOf(c: Collection, p: nat): nat { if p in c.dest then c.dest[p] else 0 }

  // The object that p becomes.
  function NewObj(c: Collection, p: nat): Obj {
    var o := Shift(At(c.H, p), DestOf(c, p), WordsSaved(c.env, c.k, c.m, c.currentStack, At(c.H, p)));
    if Cleared(c, p) then o.(ty := WEAK_GONE_TYPE_INDEX, slots := []) else o
  }

  ghost predicate SlotsMoved(c: Collection, o: Obj, d: nat, m': Memory) {
    forall i :: 0 <= i < |o.slots| && o.slots[i] < |c.m| && o.p <= o.slots[i] + d < |m'| + o.p ==>
      m'[o.slots[i] + d - o.p] == NewWord(c, c.m[o.slots[i]])
  }

  // Object p is at its new address, with its words.
  ghost predicate Kept(c: Collection, p: nat, m': Memory) {
    var o := At(c.H, p);
    var d := DestOf(c, p);
    && SameWords(c.env, c.m, o, m', d)
    && o.p < o.front + d
    && 0 < d <= |m'| && m'[d - 1] == Header(if Cleared(c, p) then WEAK_GONE_TYPE_INDEX else o.ty, 0, false)
    && (IsStack(c.env, o) ==>
          && d + 4 + ToNat(ReservedAfter(c.env, c.k, c.m, c.currentStack, o.p)) / 8 <= |m'|
          && m'[d + 2] == Bits(ReservedAfter(c.env, c.k, c.m, c.currentStack, o.p)))
    && (if Cleared(c, p) then d + 1 < |m'| && m'[d + 1] == BOGUS_OBJPTR else SlotsMoved(c, o, d, m'))
  }

  ghost predicate RootsMoved(c: Collection, m': Memory) {
    forall i :: 0 <= i < |c.roots| && c.roots[i] < |c.m| && c.roots[i] < |m'| ==>
      m'[c.roots[i]] == NewWord(c, c.m[c.roots[i]])
  }

  function NewObjs(c: Collection, order: seq<nat>): (objs: seq<Obj>)
    ensures |objs| == |order|
  {
    seq(|order|, i requires 0 <= i < |order| => NewObj(c, order[i]))
  }

  ghost predicate Lists(order: seq<nat>, S: set<nat>) {
    && (forall i, j :: 0 <= i < j < |order| ==> order[i] != order[j])
    && (forall p :: p in order <==> p in S)
  }

  // The collection is done: memory is m', and the kept objects, in this order,
  // fill the new old generation.
  ghost predicate Collected(c: Collection, order: seq<nat>, m': Memory, start: nat, end: nat) {
    && |m'| == |c.m|
    && c.dest.Keys == Live(c)
    && Lists(order, c.dest.Keys)
    && 0 < start && Tiles(NewObjs(c, order), start, end) && end <= |m'|
    && (forall p :: p in c.dest ==> Kept(c, p, m'))
    && RootsMoved(c, m')
  }

  // ------------------------------------------------------------- one object

  lemma ClearedIs(c: Collection, p: nat)
    requires p in c.H && IsWeak(c.env, c.H[p]) && c.H[p].slots == [p + 1] && p + 1 < |c.m|
    ensures var w := c.m[p + 1];
      Cleared(c, p) <==> w.Ptr? && (if InSpaces(c.sp, w.addr) then w.addr !in c.dest else c.clearsForeign)
  {
    hide InSpaces;
  }

  lemma KeptIntro(c: Collection, p: nat, m': Memory)
    requires p in c.H && p in c.dest && c.H[p].p == p
    requires var o, d := c.H[p], c.dest[p];
      && p < o.front + d && CopiedEnd(c.env, c.m, o) + d <= |m'| + p
      && 0 < d <= |m'| && m'[d - 1] == Header(if Cleared(c, p) then WEAK_GONE_TYPE_INDEX else o.ty, 0, false)
      && (IsStack(c.env, o) ==>
            && d + 4 + ToNat(ReservedAfter(c.env, c.k, c.m, c.currentStack, p)) / 8 <= |m'|
            && m'[d + 2] == Bits(ReservedAfter(c.env, c.k, c.m, c.currentStack, p)))
      && (Cleared(c, p) ==> d + 1 < |m'| && m'[d + 1] == BOGUS_OBJPTR)
      && (forall w: nat :: o.front <= w < CopiedEnd(c.env, c.m, o) && Plain(c.env, o, w) ==>
            0 <= w + d - p < |m'| && w < |c.m| && m'[w + d - p] == c.m[w])
      && (forall i :: 0 <= i < |o.slots| && !Cleared(c, p) ==>
            0 <= o.slots[i] + d - p < |m'| && o.slots[i] < |c.m| &&
              m'[o.slots[i] + d - p] == NewWord(c, c.m[o.slots[i]]))
    ensures Kept(c, p, m')
  {
    hide Cleared, ReservedAfter, CopiedEnd, NewWord, Plain, IsStack;
  }


  lemma HeapParts(c: Collection)
    requires HeapOk(c)
    ensures Quiet(c.env, c.m, c.H) && AreObjects(c.env, c.m, c.H) && ValidEnv(c.env) && FramesBounded(c.env, c.k)
    ensures SlotsOk(c.m, c.H, c.sp) && RootsOk(c.m, c.H, c.sp, c.roots)
  {
    hide Within, SlotsOk, RootsOk, NoMarks, Apart, FramesBounded;
  }

  lemma OldObject(c: Collection, p: nat)
    requires HeapOk(c) && p in c.H
    ensures At(c.H, p) == c.H[p] && c.H[p].p == p && IsObject(c.env, c.m, c.H[p]) && ValidEnv(c.env)
    ensures 0 < c.H[p].front < p <= c.H[p].end <= |c.m| && c.m[p - 1].Header? &&
      c.m[p - 1].ty == c.H[p].ty < |c.env.types|
    ensures Clean(c.env, c.m, c.H[p])
  {
    hide Within, SlotsOk, RootsOk, NoMarks, Apart, FramesBounded, IsObject, Clean;
    BoundsOf(c.env, c.m, c.H[p]);
  }

  lemma BoundsOf(env: Env, m: Memory, o: Obj)
    requires IsObject(env, m, o)
    ensures 0 < o.front < o.p <= o.end <= |m| && m[o.p - 1].Header? && m[o.p - 1].ty == o.ty < |env.types|
    ensures o.p == o.front + MetaWords(TagOf(env, o))
  {
  }

  lemma SlotBounds(c: Collection, p: nat, i: nat)
    requires HeapOk(c) && p in c.H && i < |c.H[p].slots|
    ensures p <= c.H[p].slots[i] < CopiedEnd(c.env, c.m, c.H[p]) && c.H[p].slots[i] < |c.m|
  {
    hide HeapOk;
    OldObject(c, p);
    SlotsInside(c.env, c.m, c.H[p]);
    SlotsCopied(c.env, c.m, c.H[p], i);
  }

  lemma SlotsCopied(env: Env, m: Memory, o: Obj, i: nat)
    requires ValidEnv(env) && IsObject(env, m, o) && i < |o.slots|
    ensures o.slots[i] < CopiedEnd(env, m, o)
  {
    SlotsInside(env, m, o);
  }

  // A cleared weak object has a weak pointer, at its second word.
  lemma ClearedShape(c: Collection, p: nat)
    requires HeapOk(c) && p in c.H && Cleared(c, p)
    ensures var o := c.H[p]; o.p == o.front + 1 && o.end == o.p + 2 && o.slots == [o.p + 1] && IsWeak(c.env, o)
  {
    hide HeapOk;
    OldObject(c, p);
    WeakSlots(c.env, c.m, c.H[p]);
  }

  lemma WeakSlots(env: Env, m: Memory, o: Obj)
    requires ValidEnv(env) && IsObject(env, m, o) && IsWeak(env, o)
    ensures o.p == o.front + 1 && o.end == o.p + 2 && !IsStack(env, o)
    ensures |o.slots| <= 1
    ensures |o.slots| == 1 ==> o.slots == [o.p + 1]
  {
    assert ValidType(env.types[o.ty]);
  }

  lemma KeptMoved(c: Collection, p: nat, m': Memory)
    requires HeapOk(c) && p in c.H && p in c.dest && Kept(c, p, m') && !Cleared(c, p)
    ensures MovedTo(c.env, c.k, c.m, c.currentStack, c.H[p], m', c.dest[p])
  {
    hide HeapOk, SameWords, Cleared, ReservedAfter, SlotsMoved;
    OldObject(c, p);
  }

  lemma GoneObject(env: Env, m: Memory, d: nat)
    requires ValidEnv(env) && 1 < d && d + 2 <= |m| && m[d - 1].Header? && m[d - 1].ty == WEAK_GONE_TYPE_INDEX
    ensures IsObject(env, m, Obj(d - 1, d, d + 2, WEAK_GONE_TYPE_INDEX, []))
  {
  }

  // A kept object is an object again.
  lemma NewObject(c: Collection, p: nat, m': Memory)
    requires HeapOk(c) && p in c.H && p in c.dest && Kept(c, p, m')
    ensures IsObject(c.env, m', NewObj(c, p)) && NewObj(c, p).p == c.dest[p]
  {
    hide HeapOk, Kept, IsObject, ValidEnv, FramesBounded, WordsSaved, Cleared;
    HeapParts(c);
    OldObject(c, p);
    if Cleared(c, p) {
      ClearedShape(c, p);
      ClearedFields(c, p, m');
      NotStackSaves(c.env, c.k, c.m, c.currentStack, c.H[p]);
      GoneObject(c.env, m', c.dest[p]);
    } else {
      KeptMoved(c, p, m');
      MovedObject(c.env, c.k, c.m, c.currentStack, c.H[p], m', c.dest[p]);
    }
  }

  lemma NotStackSaves(env: Env, k: StackControls, m: Memory, currentStack: nat, o: Obj)
    requires IsWeak(env, o)
    ensures WordsSaved(env, k, m, currentStack, o) == 0
  {
  }

  lemma ClearedFields(c: Collection, p: nat, m': Memory)
    requires p in c.H && c.H[p].p == p && p in c.dest && Kept(c, p, m') && Cleared(c, p)
    ensures var o, d := c.H[p], c.dest[p];
      p < o.front + d && 0 < d && d + 1 < |m'| && m'[d - 1] == Header(WEAK_GONE_TYPE_INDEX, 0, false) &&
        m'[d + 1] == BOGUS_OBJPTR
  {
    hide SameWords, Cleared, ReservedAfter, SlotsMoved;
  }

  lemma KeptHeader(c: Collection, p: nat, m': Memory)
    requires p in c.dest && Kept(c, p, m')
    ensures 0 < c.dest[p] <= |m'| && m'[c.dest[p] - 1].Header? && m'[c.dest[p] - 1].counter == 0 &&
      !m'[c.dest[p] - 1].mark
  {
    hide SameWords, Cleared, ReservedAfter, SlotsMoved;
  }

  // It is clean, and a weak object that is gone holds no pointer.
  lemma NewClean(c: Collection, p: nat, m': Memory)
    requires HeapOk(c) && p in c.H && p in c.dest && Kept(c, p, m')
    ensures Clean(c.env, m', NewObj(c, p))
  {
    hide HeapOk, Kept, IsObject, ValidEnv, WordsSaved, Cleared, Clean, Shift;
    HeapParts(c);
    NewObject(c, p, m');
    BoundsOf(c.env, m', NewObj(c, p));
    KeptHeader(c, p, m');
    OldObject(c, p);
    if TagOf(c.env, NewObj(c, p)) == SequenceTag {
      SequenceStays(c, p);
      CounterMoved(c, p, m');
    }
    CleanIntro(c.env, m', NewObj(c, p));
  }

  lemma CleanIntro(env: Env, m: Memory, o: Obj)
    requires 0 < o.front < o.p <= |m| && m[o.p - 1].Header? && m[o.p - 1].counter == 0
    requires TagOf(env, o) == SequenceTag ==> m[o.front] == Bits(0)
    ensures Clean(env, m, o)
  {
  }

  lemma SequenceStays(c: Collection, p: nat)
    requires HeapOk(c) && p in c.H && TagOf(c.env, NewObj(c, p)) == SequenceTag
    ensures !Cleared(c, p) && TagOf(c.env, c.H[p]) == SequenceTag
  {
    hide HeapOk, WordsSaved;
    OldObject(c, p);
  }

  lemma CounterMoved(c: Collection, p: nat, m': Memory)
    requires HeapOk(c) && p in c.H && p in c.dest && Kept(c, p, m') && !Cleared(c, p) &&
      TagOf(c.env, c.H[p]) == SequenceTag
    ensures NewObj(c, p).front < |m'| && m'[NewObj(c, p).front] == Bits(0)
  {
    hide HeapOk, Kept, WordsSaved, Cleared, IsObject, ValidEnv;
    HeapParts(c);
    OldObject(c, p);
    KeptMoved(c, p, m');
    MovedBasics(c.env, c.k, c.m, c.currentStack, c.H[p], m', c.dest[p]);
    MovedSequence(c.env, c.k, c.m, c.currentStack, c.H[p], m', c.dest[p]);
  }

  lemma CollectedIntro(c: Collection, order: seq<nat>, m': Memory, start: nat, end: nat)
    requires |m'| == |c.m| && c.dest.Keys == Live(c) && Lists(order, c.dest.Keys)
    requires 0 < start && Tiles(NewObjs(c, order), start, end) && end <= |m'|
    requires forall p :: p in c.dest ==> Kept(c, p, m')
    requires forall i :: 0 <= i < |c.roots| ==>
      c.roots[i] < |m'| && c.roots[i] < |c.m| && m'[c.roots[i]] == NewWord(c, c.m[c.roots[i]])
    ensures Collected(c, order, m', start, end)
  {
    hide Live, Lists, Tiles, NewObjs, Kept, NewWord;
  }

  // ------------------------------------------------------------ the new heap

  lemma CollectedParts(c: Collection, order: seq<nat>, m': Memory, start: nat, end: nat)
    requires Collected(c, order, m', start, end)
    ensures |m'| == |c.m| && c.dest.Keys == Live(c) && Lists(order, c.dest.Keys) && RootsMoved(c, m')
    ensures 0 < start <= end <= |m'| && Tiles(NewObjs(c, order), start, end)
    ensures forall p :: p in c.dest ==> Kept(c, p, m')
  {
    hide Live, Lists, Kept, RootsMoved, NewObjs;
    if |order| > 0 { TileBounds(NewObjs(c, order), start, end, 0); }
  }

  lemma KeptIsOld(c: Collection, p: nat)
    requires p in Live(c)
    ensures p in c.H
  {
    hide Reach;
    ReachInside(PointerGraph(c.env, c.m, c.H), RootTargets(c.m, c.H, c.roots, |c.roots|));
  }

  // Where p stands in the new order.
  lemma InOrder(c: Collection, order: seq<nat>, m': Memory, start: nat, end: nat, p: nat)
    requires HeapOk(c) && Collected(c, order, m', start, end) && p in c.dest
    ensures p in c.H && Kept(c, p, m') && IsObject(c.env, m', NewObj(c, p)) && NewObj(c, p).p == c.dest[p]
    ensures exists i :: 0 <= i < |order| && order[i] == p && NewObjs(c, order)[i] == NewObj(c, p)
    ensures start <= NewObj(c, p).front < c.dest[p] <= NewObj(c, p).end <= end
  {
    hide HeapOk, Collected, Kept, NewObj, IsObject, Tiles, Live;
    CollectedParts(c, order, m', start, end);
    KeptIsOld(c, p);
    NewObject(c, p, m');
    var i :| 0 <= i < |order| && order[i] == p;
    TileBounds(NewObjs(c, order), start, end, i);
    TileHeader(NewObjs(c, order), start, end, i);
  }

  lemma TileHeader(objs: seq<Obj>, lo: nat, hi: nat, i: nat)
    requires Tiles(objs, lo, hi) && i < |objs|
    ensures objs[i].front < objs[i].p <= objs[i].end
  {
  }

  // New objects do not overlap, so no two objects share a new address.
  lemma NewApart(c: Collection, order: seq<nat>, m': Memory, start: nat, end: nat, p: nat, q: nat)
    requires HeapOk(c) && Collected(c, order, m', start, end) && p in c.dest && q in c.dest && p != q
    ensures NewObj(c, p).end <= NewObj(c, q).front || NewObj(c, q).end <= NewObj(c, p).front
    ensures c.dest[p] != c.dest[q]
  {
    hide *;
    CollectedParts(c, order, m', start, end);
    InOrder(c, order, m', start, end, p);
    InOrder(c, order, m', start, end, q);
    var i :| 0 <= i < |order| && order[i] == p && NewObjs(c, order)[i] == NewObj(c, p);
    var k :| 0 <= k < |order| && order[k] == q && NewObjs(c, order)[k] == NewObj(c, q);
    TilesApart(NewObjs(c, order), start, end, i, k);
  }

  // The object whose new address is d.
  ghost function OldOf(c: Collection, d: nat): nat {
    if exists p :: p in c.dest && c.dest[p] == d then
      var p :| p in c.dest && c.dest[p] == d; p
    else 0
  }

  ghost function NewHeap(c: Collection): Objects {
    map d | d in c.dest.Values :: NewObj(c, OldOf(c, d))
  }

  lemma NewHeapAt(c: Collection, order: seq<nat>, m': Memory, start: nat, end: nat, p: nat)
    requires HeapOk(c) && Collected(c, order, m', start, end) && p in c.dest
    ensures c.dest[p] in NewHeap(c) && NewHeap(c)[c.dest[p]] == NewObj(c, p)
  {
    hide HeapOk, Collected, NewObj;
    var q := OldOf(c, c.dest[p]);
    if p != q { NewApart(c, order, m', start, end, p, q); }
  }

  lemma NewHeapKey(c: Collection, d: nat)
    requires d in NewHeap(c)
    ensures exists p :: p in c.dest && c.dest[p] == d
  {
    hide NewObj;
  }

  function NewSpaces(start: nat, end: nat): Spaces { Spaces(start, end, end, end) }

  lemma NewHeapEntry(c: Collection, order: seq<nat>, m': Memory, start: nat, end: nat, d: nat)
    requires HeapOk(c) && Collected(c, order, m', start, end) && d in NewHeap(c)
    ensures NewHeap(c)[d].p == d && IsObject(c.env, m', NewHeap(c)[d]) && start <= d <= end
    ensures 0 < d <= |m'| && m'[d - 1].Header? && !m'[d - 1].mark
  {
    hide *;
    NewHeapKey(c, d);
    var p :| p in c.dest && c.dest[p] == d;
    NewHeapAt(c, order, m', start, end, p);
    InOrder(c, order, m', start, end, p);
    KeptHeader(c, p, m');
  }

  lemma NewHeapApart(c: Collection, order: seq<nat>, m': Memory, start: nat, end: nat, d: nat, e: nat)
    requires HeapOk(c) && Collected(c, order, m', start, end) && d in NewHeap(c) && e in NewHeap(c) && d != e
    ensures NewHeap(c)[d].end <= NewHeap(c)[e].front || NewHeap(c)[e].end <= NewHeap(c)[d].front
  {
    hide *;
    NewHeapKey(c, d);
    NewHeapKey(c, e);
    var p :| p in c.dest && c.dest[p] == d;
    var q :| q in c.dest && c.dest[q] == e;
    NewHeapAt(c, order, m', start, end, p);
    NewHeapAt(c, order, m', start, end, q);
    NewApart(c, order, m', start, end, p, q);
  }

  lemma NewObjects(c: Collection, order: seq<nat>, m': Memory, start: nat, end: nat)
    requires HeapOk(c) && Collected(c, order, m', start, end)
    ensures AreObjects(c.env, m', NewHeap(c)) && Within(NewHeap(c), NewSpaces(start, end))
    ensures NoMarks(m', NewHeap(c))
  {
    hide HeapOk, Collected, NewObj, IsObject, ValidEnv, NewHeap, Kept, Live, Lists, RootsMoved;
    HeapParts(c);
    CollectedParts(c, order, m', start, end);
    var H' := NewHeap(c);
    forall d | d in H'
      ensures H'[d].p == d && IsObject(c.env, m', H'[d]) && start <= d <= end
      ensures 0 < d <= |m'| && m'[d - 1].Header? && !m'[d - 1].mark
    {
      NewHeapEntry(c, order, m', start, end, d);
    }
    forall d, e | d in H' && e in H' && d != e
      ensures H'[d].end <= H'[e].front || H'[e].end <= H'[d].front
    {
      NewHeapApart(c, order, m', start, end, d, e);
    }
  }

  // --------------------------------------------------------------- references

  // Foreign pointers do not point into the new heap.
  ghost predicate ForeignApart(c: Collection, start: nat, end: nat) {
    && (forall p, i :: p in c.H && 0 <= i < |c.H[p].slots| ==> ForeignWord(c, WordAt(c.m, c.H[p].slots[i]), start, end))
    && (forall i :: 0 <= i < |c.roots| ==> ForeignWord(c, WordAt(c.m, c.roots[i]), start, end))
  }

  predicate ForeignWord(c: Collection, w: Word, start: nat, end: nat) {
    w.Ptr? && start <= w.addr <= end ==> InSpaces(c.sp, w.addr)
  }

  lemma LiveChild(c: Collection, p: nat, t: nat)
    requires c.dest.Keys == Live(c) && p in c.dest && p in c.H && t in Children(c.env, c.m, c.H, c.H[p])
    ensures t in c.dest
  {
    hide Reach, Children;
    assert t in c.H by { ChildIn(c.env, c.m, c.H, c.H[p], t); }
    ReachStep(PointerGraph(c.env, c.m, c.H), RootTargets(c.m, c.H, c.roots, |c.roots|), p, t);
  }

  lemma ChildIn(env: Env, m: Memory, H: Objects, o: Obj, t: nat)
    requires t in Children(env, m, H, o)
    ensures t in H
  {
  }

  lemma LiveRoot(c: Collection, i: nat)
    requires c.dest.Keys == Live(c) && i < |c.roots| && WordAt(c.m, c.roots[i]).Ptr? &&
      WordAt(c.m, c.roots[i]).addr in c.H
    ensures WordAt(c.m, c.roots[i]).addr in c.dest
  {
    hide Reach;
    var t := WordAt(c.m, c.roots[i]).addr;
    assert PointsTo(c.m, c.H, c.roots[i], t);
    ReachRoot(PointerGraph(c.env, c.m, c.H), RootTargets(c.m, c.H, c.roots, |c.roots|), t);
  }

  lemma OldSlotOk(c: Collection, p: nat, i: nat)
    requires HeapOk(c) && p in c.H && i < |c.H[p].slots|
    ensures c.H[p].slots[i] < |c.m| && WordAt(c.m, c.H[p].slots[i]) == c.m[c.H[p].slots[i]]
    ensures TargetOk(c.H, c.sp, c.m[c.H[p].slots[i]])
  {
    hide Quiet, Within, RootsOk, NoMarks, FramesBounded, TargetOk;
    SlotBounds(c, p, i);
  }

  // What a slot of a kept object, not cleared, holds before: a pointer to a
  // kept object, or one that leaves the heap, or no pointer.
  lemma KeptTarget(c: Collection, p: nat, i: nat)
    requires HeapOk(c) && c.dest.Keys == Live(c) && p in c.dest && p in c.H && i < |c.H[p].slots| && !Cleared(c, p)
    ensures var w := WordAt(c.m, c.H[p].slots[i]); w.Ptr? && InSpaces(c.sp, w.addr) ==> w.addr in c.dest
  {
    hide HeapOk, Live, InSpaces;
    OldObject(c, p);
    OldSlotOk(c, p, i);
    var o := c.H[p];
    var w := WordAt(c.m, o.slots[i]);
    if w.Ptr? && InSpaces(c.sp, w.addr) {
      if IsWeak(c.env, o) {
        WeakSlots(c.env, c.m, o);
      } else {
        assert PointsTo(c.m, c.H, Strong(c.env, o)[i], w.addr);
        LiveChild(c, p, w.addr);
      }
    }
  }

  lemma NewSlot(c: Collection, p: nat, m': Memory, i: nat)
    requires HeapOk(c) && p in c.H && p in c.dest && Kept(c, p, m') && i < |NewObj(c, p).slots|
    ensures !Cleared(c, p) && |NewObj(c, p).slots| == |c.H[p].slots|
    ensures NewObj(c, p).slots[i] == c.H[p].slots[i] + c.dest[p] - p < |m'|
    ensures m'[NewObj(c, p).slots[i]] == NewWord(c, WordAt(c.m, c.H[p].slots[i]))
  {
    hide HeapOk, Cleared, ReservedAfter, WordsSaved, IsObject, ValidEnv, NewWord, CopiedEnd, IsStack;
    OldObject(c, p);
    SlotBounds(c, p, i);
    assert c.H[p].slots[i] + c.dest[p] - p < |m'| by { CopyInside(c, p, m'); }
  }

  lemma CopyInside(c: Collection, p: nat, m': Memory)
    requires p in c.H && c.H[p].p == p && p in c.dest && Kept(c, p, m')
    ensures CopiedEnd(c.env, c.m, c.H[p]) + c.dest[p] <= |m'| + p
  {
    hide Cleared, ReservedAfter, CopiedEnd, IsStack, SlotsMoved, Plain;
  }

  lemma NewSlotsOk(c: Collection, order: seq<nat>, m': Memory, start: nat, end: nat)
    requires HeapOk(c) && Collected(c, order, m', start, end) && ForeignApart(c, start, end)
    ensures SlotsOk(m', NewHeap(c), NewSpaces(start, end))
  {
    hide HeapOk, Collected, NewObj, NewHeap, Kept, TargetOk, Live;
    CollectedParts(c, order, m', start, end);
    var H' := NewHeap(c);
    forall d, i | d in H' && 0 <= i < |H'[d].slots| && H'[d].slots[i] < |m'|
      ensures TargetOk(H', NewSpaces(start, end), m'[H'[d].slots[i]])
    {
      NewHeapKey(c, d);
      var p :| p in c.dest && c.dest[p] == d;
      NewHeapAt(c, order, m', start, end, p);
      KeptIsOld(c, p);
      NewSlotOk(c, order, m', start, end, p, i);
    }
  }

  lemma NewSlotOk(c: Collection, order: seq<nat>, m': Memory, start: nat, end: nat, p: nat, i: nat)
    requires HeapOk(c) && Collected(c, order, m', start, end) && ForeignApart(c, start, end)
    requires p in c.dest && p in c.H && i < |NewObj(c, p).slots| && NewObj(c, p).slots[i] < |m'|
    ensures TargetOk(NewHeap(c), NewSpaces(start, end), m'[NewObj(c, p).slots[i]])
  {
    hide HeapOk, Collected, NewObj, NewHeap, Kept, Live, InSpaces;
    CollectedParts(c, order, m', start, end);
    NewSlot(c, p, m', i);
    KeptTarget(c, p, i);
    var w := WordAt(c.m, c.H[p].slots[i]);
    assert ForeignWord(c, w, start, end);
    NewWordOk(c, order, m', start, end, w);
  }

  lemma NewWordOk(c: Collection, order: seq<nat>, m': Memory, start: nat, end: nat, w: Word)
    requires HeapOk(c) && Collected(c, order, m', start, end) && ForeignWord(c, w, start, end)
    requires w.Ptr? && InSpaces(c.sp, w.addr) ==> w.addr in c.dest
    ensures TargetOk(NewHeap(c), NewSpaces(start, end), NewWord(c, w))
  {
    hide HeapOk, Collected, NewObj, NewHeap, Live, Lists, Kept, RootsMoved;
    CollectedParts(c, order, m', start, end);
    if w.Ptr? && w.addr in c.dest { NewHeapAt(c, order, m', start, end, w.addr); }
  }

  lemma NewGone(c: Collection, order: seq<nat>, m': Memory, start: nat, end: nat, p: nat)
    requires HeapOk(c) && Collected(c, order, m', start, end) && p in c.dest
    requires IsWeak(c.env, NewObj(c, p)) && |NewObj(c, p).slots| == 0
    ensures c.dest[p] + 1 < |m'| && m'[c.dest[p] + 1].Bits?
  {
    hide HeapOk, Collected, Live, IsObject, ValidEnv, WordsSaved, ReservedAfter, SlotsMoved, SameWords, Cleared;
    InOrder(c, order, m', start, end, p);
    OldObject(c, p);
    if !Cleared(c, p) {
      HeapParts(c);
      var o := c.H[p];
      WeakSlots(c.env, c.m, o);
      SameWordAt(c.env, c.m, o, m', c.dest[p], p + 1);
      OldGone(c, p);
    }
  }

  lemma OldGone(c: Collection, p: nat)
    requires HeapOk(c) && p in c.H && IsWeak(c.env, c.H[p]) && |c.H[p].slots| == 0
    ensures p + 1 < |c.m| && c.m[p + 1].Bits?
  {
    hide Within, SlotsOk, RootsOk, NoMarks, FramesBounded, AreObjects, Clean;
    OldObject(c, p);
    WeakSlots(c.env, c.m, c.H[p]);
  }

  lemma NewQuiet(c: Collection, order: seq<nat>, m': Memory, start: nat, end: nat)
    requires HeapOk(c) && Collected(c, order, m', start, end)
    ensures Quiet(c.env, m', NewHeap(c))
  {
    hide HeapOk, Collected, NewObj, NewHeap, Kept, Clean, AreObjects, IsWeak;
    NewObjects(c, order, m', start, end);
    var H' := NewHeap(c);
    forall d | d in H'
      ensures Clean(c.env, m', H'[d])
      ensures IsWeak(c.env, H'[d]) && |H'[d].slots| == 0 ==> d + 1 < |m'| && m'[d + 1].Bits?
    {
      NewHeapKey(c, d);
      var p :| p in c.dest && c.dest[p] == d;
      NewHeapAt(c, order, m', start, end, p);
      InOrder(c, order, m', start, end, p);
      NewClean(c, p, m');
      if IsWeak(c.env, NewObj(c, p)) && |NewObj(c, p).slots| == 0 { NewGone(c, order, m', start, end, p); }
    }
  }

  // The roots lie outside the new heap.
  predicate RootsApart(roots: seq<nat>, start: nat, end: nat) {
    forall i :: 0 <= i < |roots| ==> !(start <= roots[i] < end)
  }

  lemma NewRoot(c: Collection, order: seq<nat>, m': Memory, start: nat, end: nat, i: nat)
    requires HeapOk(c) && Collected(c, order, m', start, end) && ForeignApart(c, start, end) && i < |c.roots|
    ensures 0 < c.roots[i] < |m'| == |c.m| && m'[c.roots[i]] == NewWord(c, c.m[c.roots[i]])
    ensures TargetOk(NewHeap(c), NewSpaces(start, end), m'[c.roots[i]])
  {
    hide Collected, NewHeap, Kept, Live, InSpaces, Quiet, Within, SlotsOk, NoMarks, FramesBounded;
    CollectedParts(c, order, m', start, end);
    var w := WordAt(c.m, c.roots[i]);
    assert 0 < c.roots[i] < |c.m| && TargetOk(c.H, c.sp, c.m[c.roots[i]]);
    if w.Ptr? && InSpaces(c.sp, w.addr) { LiveRoot(c, i); }
    assert ForeignWord(c, w, start, end);
    NewWordOk(c, order, m', start, end, w);
  }

  lemma NewRootsOk(c: Collection, order: seq<nat>, m': Memory, start: nat, end: nat)
    requires HeapOk(c) && Collected(c, order, m', start, end) && ForeignApart(c, start, end) &&
      RootsApart(c.roots, start, end)
    ensures RootsOk(m', NewHeap(c), NewSpaces(start, end), c.roots)
  {
    hide HeapOk, Collected, NewObj, NewHeap, Kept, TargetOk, Live;
    assert Distinct(c.roots) by { RootsDistinct(c); }
    forall i | 0 <= i < |c.roots|
      ensures 0 < c.roots[i] < |m'| && TargetOk(NewHeap(c), NewSpaces(start, end), m'[c.roots[i]])
    {
      NewRoot(c, order, m', start, end, i);
    }
    forall i, d | 0 <= i < |c.roots| && d in NewHeap(c)
      ensures !(NewHeap(c)[d].front <= c.roots[i] < NewHeap(c)[d].end)
    {
      NewHeapKey(c, d);
      var p :| p in c.dest && c.dest[p] == d;
      NewHeapAt(c, order, m', start, end, p);
      InOrder(c, order, m', start, end, p);
    }
  }

  lemma RootsDistinct(c: Collection)
    requires HeapOk(c)
    ensures Distinct(c.roots)
  {
    hide Quiet, Within, SlotsOk, NoMarks, FramesBounded, TargetOk, Distinct;
  }

  // The collection that could follow.
  ghost function Next(c: Collection, m': Memory, start: nat, end: nat): Collection {
    c.(m := m', H := NewHeap(c), sp := NewSpaces(start, end))
  }

  // A collection leaves a heap from which the next one may start.
  lemma HeapStaysOk(c: Collection, order: seq<nat>, m': Memory, start: nat, end: nat)
    requires HeapOk(c) && Collected(c, order, m', start, end) && ForeignApart(c, start, end) &&
      RootsApart(c.roots, start, end)
    ensures HeapOk(Next(c, m', start, end))
  {
    hide Collected, NewHeap, Quiet, Within, SlotsOk, RootsOk, FramesBounded, NoMarks, NewSpaces;
    NewQuiet(c, order, m', start, end);
    NewObjects(c, order, m', start, end);
    NewSlotsOk(c, order, m', start, end);
    NewRootsOk(c, order, m', start, end);
  }
}
