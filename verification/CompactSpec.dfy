// What a compaction starts from, and where every live object goes.

module CompactSpec {
  import opened Layout
  import opened Heap
  import opened StackSize
  import opened StackObject
  import opened Tiling
  import opened Cursor
  import opened Threading
  import opened Roots

  // m1 is memory after marking; x holds every reference to a live object and
  // the destination of each live object; own is the header address of the
  // object that holds a reference, or 0 for a root.
  datatype Compaction = Compaction(
    env: Env, k: StackControls, m1: Memory, H: Objects, objs: seq<Obj>,
    start: nat, back: nat, sp: Spaces, roots: seq<nat>, currentStack: nat,
    x: Refs, own: map<nat, nat>)
  {
    function Live(): set<nat> { x.dest.Keys }
  }

  // ------------------------------------------------------------- shrinking

  function NewReserved(j: Compaction, p: nat): int { ReservedAfter(j.env, j.k, j.m1, j.currentStack, p) }

  // Words by which a live object gets shorter.
  function Shrunk(j: Compaction, o: Obj): nat { WordsSaved(j.env, j.k, j.m1, j.currentStack, o) }

  // The word after the part of an object that is copied.
  function CopyEnd(j: Compaction, o: Obj): nat { CopiedEnd(j.env, j.m1, o) }

  // Words by which what follows the object moves further down.
  function Skip(j: Compaction, o: Obj): nat {
    if o.p in j.Live() then Shrunk(j, o) else if o.front <= o.end then o.end - o.front else 0
  }

  function Gap(j: Compaction, objs: seq<Obj>, n: nat): nat {
    if n == 0 || n > |objs| then 0 else Gap(j, objs, n - 1) + Skip(j, objs[n - 1])
  }

  // ------------------------------------------------------------ references

  ghost predicate OwnedBy(j: Compaction, s: nat, h: nat) {
    || (h == 0 && s in j.roots)
    || (exists p :: p in j.Live() && p in j.H && h == p - 1 && s in j.H[p].slots)
  }

  ghost predicate IsRef(j: Compaction, s: nat) {
    && (exists h :: OwnedBy(j, s, h))
    && s < |j.m1| && j.m1[s].Ptr? && InSpaces(j.sp, j.m1[s].addr)
  }

  ghost predicate RefsRight(j: Compaction) {
    && (forall s :: s in j.x.tgt <==> IsRef(j, s))
    && (forall s :: s in j.x.tgt ==>
          && j.m1[s] == Ptr(j.x.tgt[s]) && j.x.tgt[s] in j.Live()
          && s in j.own && OwnedBy(j, s, j.own[s]))
  }

  predicate MarkAt(m: Memory, p: nat) {
    0 < p <= |m| && m[p - 1].Header? && m[p - 1].mark
  }

  ghost predicate MarksRight(j: Compaction) {
    && j.Live() <= j.H.Keys
    && (forall p :: p in j.H ==> Clean(j.env, j.m1, j.H[p]) && (MarkAt(j.m1, p) <==> p in j.Live()))
  }

  // Each live object of objs moves down by the gap below it.
  ghost predicate DestRight(j: Compaction, objs: seq<Obj>) {
    forall i :: 0 <= i < |objs| && objs[i].p in j.Live() ==>
      j.x.dest[objs[i].p] == objs[i].p - Gap(j, objs, i)
  }

  ghost predicate HeapRight(j: Compaction) {
    && AreObjects(j.env, j.m1, j.H)
    && Covers(j.H, j.objs) && Tiles(j.objs, j.start, j.back)
    && 0 < j.start && j.back <= |j.m1|
    && FramesBounded(j.env, j.k)
    && RootsOk(j.m1, j.H, j.sp, j.roots)
  }

  ghost predicate Setup(j: Compaction) {
    HeapRight(j) && MarksRight(j) && RefsRight(j) && DestRight(j, j.objs)
  }

  // ---------------------------------------------------------------- facts

  lemma StackFits(j: Compaction, p: nat)
    requires HeapRight(j) && p in j.H && IsStack(j.env, j.H[p])
    ensures var info := StackInfoOf(j.env, j.m1, p);
      && j.H[p].p == p && j.H[p].end == p + STACK_STRUCT_WORDS + info.reserved / 8 <= |j.m1|
      && info.used <= NewReserved(j, p) <= info.reserved
      && NewReserved(j, p) % 8 == 0 && info.used % 8 == 0 && info.reserved % 8 == 0
      && j.m1[p + 2] == Bits(info.reserved) && j.m1[p + 3] == Bits(info.used)
  {
    hide RootsOk, Covers, Tiles, IsObject, Apart, StackInfoOf, ReservedAfter, ValidEnv;
    StackFields(j.env, j.k, j.m1, j.H[p], j.currentStack);
  }

  lemma SkipFits(j: Compaction, p: nat)
    requires HeapRight(j) && p in j.H
    ensures j.H[p].front < j.H[p].p <= CopyEnd(j, j.H[p]) <= j.H[p].end - Shrunk(j, j.H[p])
    ensures Skip(j, j.H[p]) <= j.H[p].end - j.H[p].front
  {
    hide RootsOk, Covers, Tiles, IsObject, Apart, CopiedEnd, WordsSaved, ValidEnv;
    CopyFits(j.env, j.k, j.m1, j.H[p], j.currentStack);
  }

  // The header of an object of H, and the extent around it.
  lemma ObjectAt(j: Compaction, p: nat)
    requires HeapRight(j) && p in j.H
    ensures var o := j.H[p];
      && o.p == p && 0 < o.front < p <= o.end <= |j.m1|
      && j.m1[p - 1].Header? && j.m1[p - 1].ty == o.ty < |j.env.types|
      && IsObject(j.env, j.m1, o) && ValidEnv(j.env)
  {
    hide RootsOk, Covers, Tiles, IsObject, Apart;
    ObjectBounds(j.env, j.m1, j.H[p]);
  }

  lemma ObjectBounds(env: Env, m: Memory, o: Obj)
    requires IsObject(env, m, o)
    ensures 0 < o.front < o.p <= o.end <= |m| && m[o.p - 1].Header? && m[o.p - 1].ty == o.ty < |env.types|
  {
  }

  lemma OneExtent(j: Compaction, p: nat, q: nat, a: int)
    requires HeapRight(j) && p in j.H && q in j.H
    requires j.H[p].front <= a < j.H[p].end && j.H[q].front <= a < j.H[q].end
    ensures p == q
  {
    hide RootsOk, Covers, Tiles, IsObject;
  }

  lemma SlotExtent(j: Compaction, p: nat, s: nat)
    requires HeapRight(j) && p in j.H && s in j.H[p].slots
    ensures p <= s < j.H[p].end && s < |j.m1|
  {
    hide RootsOk, Covers, Tiles, IsObject, Apart;
    ObjectAt(j, p);
    SlotsInside(j.env, j.m1, j.H[p]);
  }

  lemma RootOutside(j: Compaction, s: nat, p: nat)
    requires HeapRight(j) && s in j.roots && p in j.H
    ensures 0 < s < |j.m1| && !(j.H[p].front <= s < j.H[p].end)
  {
    hide AreObjects, Covers, Tiles, TargetOk;
    var i :| 0 <= i < |j.roots| && j.roots[i] == s;
  }

  // A reference inside an object belongs to that object, which is live.
  lemma RefInside(j: Compaction, s: nat, p: nat)
    requires HeapRight(j) && RefsRight(j) && s in j.x.tgt && p in j.H && j.H[p].front <= s < j.H[p].end
    ensures p in j.Live() && s in j.H[p].slots && s in j.own && j.own[s] == p - 1
  {
    hide HeapRight, IsRef;
    assert OwnedBy(j, s, j.own[s]);
    if s in j.roots { RootOutside(j, s, p); }
    var q :| q in j.Live() && q in j.H && j.own[s] == q - 1 && s in j.H[q].slots;
    SlotExtent(j, q, s);
    ObjectAt(j, q);
    OneExtent(j, p, q, s);
  }

  // The owner of a reference is a root or the header of a live object.
  lemma RefOwner(j: Compaction, s: nat)
    requires HeapRight(j) && RefsRight(j) && s in j.x.tgt
    ensures s in j.own && 0 < s < |j.m1|
    ensures (j.own[s] == 0 && s in j.roots) ||
      (j.own[s] + 1 in j.Live() && j.own[s] + 1 in j.H && s in j.H[j.own[s] + 1].slots)
  {
    hide HeapRight, IsRef;
    assert OwnedBy(j, s, j.own[s]);
    if j.own[s] == 0 && s in j.roots {
      RootIn(j, s);
    } else {
      var q :| q in j.Live() && q in j.H && j.own[s] == q - 1 && s in j.H[q].slots;
      SlotExtent(j, q, s);
      ObjectAt(j, q);
    }
  }

  lemma RootIn(j: Compaction, s: nat)
    requires HeapRight(j) && s in j.roots
    ensures 0 < s < |j.m1|
  {
    hide AreObjects, Covers, Tiles, TargetOk;
    var i :| 0 <= i < |j.roots| && j.roots[i] == s;
  }

  // A header word is no reference, and no reference is the word before an object.
  lemma HeaderNotRef(j: Compaction, p: nat)
    requires HeapRight(j) && RefsRight(j) && p in j.H
    ensures p - 1 !in j.x.tgt
  {
    hide HeapRight, RefsRight;
    ObjectAt(j, p);
    if p - 1 in j.x.tgt {
      RefInside(j, p - 1, p);
      SlotExtent(j, p, p - 1);
      assert false;
    }
  }

  lemma RefsAreOk(j: Compaction)
    requires Setup(j)
    ensures RefsOk(j.x, j.m1)
  {
    hide HeapRight, RefsRight, DestRight, OwnedBy, IsRef;
    forall t | t in j.x.dest
      ensures 0 < t <= |j.m1| && j.m1[t - 1].Header? && t - 1 !in j.x.tgt
    {
      ObjectAt(j, t);
      HeaderNotRef(j, t);
    }
    forall s | s in j.x.tgt
      ensures 0 < s < |j.m1| && j.x.tgt[s] in j.x.dest && s + 1 !in j.x.dest
    {
      RefOwner(j, s);
      RefTarget(j, s);
    }
  }

  lemma RefTarget(j: Compaction, s: nat)
    requires RefsRight(j) && s in j.x.tgt
    ensures s < |j.m1| && j.m1[s] == Ptr(j.x.tgt[s]) && j.x.tgt[s] in j.Live()
  {
  }

  // --------------------------------------------------- what a point has done

  // References visited when the walk has reached address f, and those already
  // resolved in the first pass: from below, to an object below f.
  function VisitedAt(j: Compaction, f: nat): set<nat> {
    set s | s in j.x.tgt && s in j.own && j.own[s] < f
  }

  function ResolvedAt(j: Compaction, f: nat): set<nat> {
    set s | s in j.x.tgt && s in j.own && j.own[s] < j.x.tgt[s] - 1 < f
  }

  // Passing a dead object changes nothing.
  lemma PassDead(j: Compaction, i: nat)
    requires Setup(j) && i < |j.objs| && j.objs[i].p !in j.Live()
    ensures VisitedAt(j, j.objs[i].end) == VisitedAt(j, j.objs[i].front)
    ensures ResolvedAt(j, j.objs[i].end) == ResolvedAt(j, j.objs[i].front)
  {
    hide HeapRight, RefsRight, DestRight, OwnedBy;
    ObjIn(j, i);
    var o := j.objs[i];
    ObjectAt(j, o.p);
    forall s | s in j.x.tgt
      ensures s in j.own && (o.front <= j.own[s] < o.end ==> false) && (o.front <= j.x.tgt[s] - 1 < o.end ==> false)
    {
      RefOwner(j, s);
      RefTarget(j, s);
      ObjectAt(j, j.x.tgt[s]);
      if o.front <= j.x.tgt[s] - 1 < o.end { OneExtent(j, o.p, j.x.tgt[s], j.x.tgt[s] - 1); }
      if j.own[s] != 0 {
        ObjectAt(j, j.own[s] + 1);
        if o.front <= j.own[s] < o.end { OneExtent(j, o.p, j.own[s] + 1, j.own[s]); }
      }
    }
  }

  lemma ObjIn(j: Compaction, i: nat)
    requires HeapRight(j) && i < |j.objs|
    ensures j.objs[i].p in j.H && j.H[j.objs[i].p] == j.objs[i]
    ensures j.start <= j.objs[i].front < j.objs[i].end <= j.back
  {
    hide AreObjects, RootsOk;
    TileBounds(j.objs, j.start, j.back, i);
  }

  // The references to o from below, and those that o holds.
  function RefsBelow(j: Compaction, o: Obj): set<nat> {
    set s | s in j.x.tgt && s in j.own && j.x.tgt[s] == o.p && j.own[s] < o.p - 1
  }

  lemma PassLive(j: Compaction, i: nat)
    requires Setup(j) && i < |j.objs| && j.objs[i].p in j.Live()
    ensures var o := j.objs[i];
      && VisitedAt(j, o.end) == VisitedAt(j, o.front) + RefsIn(j.x, o.slots)
      && ResolvedAt(j, o.end) == ResolvedAt(j, o.front) + RefsBelow(j, o)
  {
    hide HeapRight, RefsRight, DestRight, OwnedBy;
    ObjIn(j, i);
    var o := j.objs[i];
    ObjectAt(j, o.p);
    forall s | s in j.x.tgt
      ensures s in j.own && (o.front <= j.own[s] < o.end <==> s in RefsIn(j.x, o.slots))
      ensures o.front <= j.x.tgt[s] - 1 < o.end <==> j.x.tgt[s] == o.p
      ensures o.front <= j.own[s] < o.end ==> j.own[s] == o.p - 1
    {
      PassLiveRef(j, i, s);
    }
  }

  lemma PassLiveRef(j: Compaction, i: nat, s: nat)
    requires Setup(j) && i < |j.objs| && j.objs[i].p in j.Live() && s in j.x.tgt
    ensures var o := j.objs[i];
      && s in j.own && (o.front <= j.own[s] < o.end <==> s in RefsIn(j.x, o.slots))
      && (o.front <= j.x.tgt[s] - 1 < o.end <==> j.x.tgt[s] == o.p)
      && (o.front <= j.own[s] < o.end ==> j.own[s] == o.p - 1)
  {
    hide HeapRight, RefsRight, DestRight, OwnedBy;
    ObjIn(j, i);
    var o := j.objs[i];
    ObjectAt(j, o.p);
    RefOwner(j, s);
    RefTarget(j, s);
    ObjectAt(j, j.x.tgt[s]);
    if o.front <= j.x.tgt[s] - 1 < o.end { OneExtent(j, o.p, j.x.tgt[s], j.x.tgt[s] - 1); }
    if j.own[s] != 0 {
      ObjectAt(j, j.own[s] + 1);
      if o.front <= j.own[s] < o.end { OneExtent(j, o.p, j.own[s] + 1, j.own[s]); }
    }
    if s in o.slots {
      SlotExtent(j, o.p, s);
      RefInside(j, s, o.p);
    }
  }
}
