// The first pass of a compaction, updateForwardPointersForMarkCompact: walk
// the old generation upwards, give every reference that comes from below its
// new value, thread the references that each live object holds, and turn each
// run of dead objects into one dead sequence.

module CompactForward {
  import opened Layout
  import opened Heap
  import opened State
  import opened Align
  import opened ObjectSize
  import opened StackSize
  import opened StackObject
  import opened Tiling
  import opened CopySizes
  import opened Foreach
  import opened Cursor
  import opened Threading
  import opened Roots
  import opened CompactSpec

  function FrontOf(j: Compaction, i: nat): nat {
    if i < |j.objs| then j.objs[i].front else j.back
  }

  // ---------------------------------------------------------------- gaps

  lemma {:induction false} GapPrefix(j: Compaction, a: seq<Obj>, b: seq<Obj>, n: nat)
    requires n <= |a|
    ensures Gap(j, a + b, n) == Gap(j, a, n)
  {
    if n > 0 {
      GapPrefix(j, a, b, n - 1);
      assert (a + b)[n - 1] == a[n - 1];
    }
  }

  lemma GapAdd(j: Compaction, a: seq<Obj>, o: Obj)
    ensures Gap(j, a + [o], |a| + 1) == Gap(j, a, |a|) + Skip(j, o)
  {
    GapPrefix(j, a, [o], |a|);
    assert (a + [o])[|a|] == o;
  }

  ghost predicate AllDead(j: Compaction, b: seq<Obj>) {
    forall l :: 0 <= l < |b| ==> b[l].p !in j.Live()
  }

  lemma {:induction false} GapDead(j: Compaction, a: seq<Obj>, b: seq<Obj>, lo: nat, hi: nat)
    requires AllDead(j, b) && Tiles(b, lo, hi)
    ensures lo <= hi && Gap(j, a + b, |a + b|) == Gap(j, a, |a|) + (hi - lo)
    decreases |b|
  {
    hide Tiles, Gap, Skip, AllDead;
    if |b| == 0 {
      assert a + b == a;
      NoTiles(b, lo, hi);
    } else {
      var n := |b| - 1;
      TilesSplit(b, lo, hi, n);
      TileBounds(b, lo, hi, n);
      LastTile(b, lo, hi);
      DeadPart(j, b, n);
      GapDead(j, a, b[..n], lo, b[n].front);
      assert a + b == (a + b[..n]) + [b[n]];
      GapAdd(j, a + b[..n], b[n]);
    }
  }

  lemma NoTiles(b: seq<Obj>, lo: nat, hi: nat)
    requires Tiles(b, lo, hi) && |b| == 0
    ensures lo == hi
  {
  }

  lemma LastTile(b: seq<Obj>, lo: nat, hi: nat)
    requires Tiles(b, lo, hi) && |b| > 0
    ensures b[|b| - 1].end == hi
  {
  }

  lemma DeadPart(j: Compaction, b: seq<Obj>, n: nat)
    requires AllDead(j, b) && n < |b|
    ensures AllDead(j, b[..n])
    ensures b[n].front <= b[n].end ==> Skip(j, b[n]) == b[n].end - b[n].front
  {
  }

  // ----------------------------------------------------------- the invariant

  // The walk stands before object i; the objects from e on, all dead, are not
  // merged yet; base is memory with nothing threaded and out what tiles it.
  datatype Pass = Pass(i: nat, e: nat, base: Memory, out: seq<Obj>, T: Chains)

  ghost predicate DeadBelow(j: Compaction, e: nat, a: nat) {
    exists l :: 0 <= l < e && l < |j.objs| && j.objs[l].p !in j.Live() && j.objs[l].front <= a < j.objs[l].end
  }

  ghost predicate BaseOk(j: Compaction, e: nat, base: Memory) {
    |base| == |j.m1| && forall a :: 0 <= a < |base| && base[a] != j.m1[a] ==> DeadBelow(j, e, a)
  }

  ghost predicate OutObject(j: Compaction, base: Memory, o: Obj) {
    && IsObject(j.env, base, o) && Clean(j.env, base, o)
    && (MarkAt(base, o.p) <==> o.p in j.Live())
    && (o.p in j.Live() ==> o.p in j.H && j.H[o.p] == o)
  }

  ghost predicate OutOk(j: Compaction, base: Memory, out: seq<Obj>, mid: nat, e: nat) {
    && Tiles(out, j.start, mid)
    && (forall k :: 0 <= k < |out| ==> OutObject(j, base, out[k]))
    && (forall l :: 0 <= l < e && l < |j.objs| && j.objs[l].p in j.Live() ==> j.objs[l] in out)
    && DestRight(j, out)
  }

  ghost predicate Pending(j: Compaction, e: nat, i: nat) {
    e <= i <= |j.objs| && forall l :: e <= l < i ==> j.objs[l].p !in j.Live()
  }

  ghost predicate Forward(j: Compaction, st: Pass, m: Memory, gap: int) {
    && Setup(j)
    && Pending(j, st.e, st.i)
    && Threaded(j.x, st.base, VisitedAt(j, FrontOf(j, st.i)), ResolvedAt(j, FrontOf(j, st.i)), st.T, m)
    && BaseOk(j, st.e, st.base)
    && OutOk(j, st.base, st.out, FrontOf(j, st.e), st.e)
    && FrontOf(j, st.e) <= FrontOf(j, st.i)
    && gap == Gap(j, j.objs, st.i)
    && gap == Gap(j, st.out, |st.out|) + (FrontOf(j, st.i) - FrontOf(j, st.e))
  }

  // --------------------------------------------------------------- locating

  lemma FrontStep(j: Compaction, i: nat)
    requires HeapRight(j) && i < |j.objs|
    ensures FrontOf(j, i) == j.objs[i].front && FrontOf(j, i + 1) == j.objs[i].end
  {
    hide AreObjects, RootsOk, Covers;
    TileBounds(j.objs, j.start, j.back, i);
  }

  lemma StartFront(j: Compaction)
    requires HeapRight(j)
    ensures FrontOf(j, 0) == j.start
  {
    hide RootsOk, AreObjects, Covers;
  }

  lemma FrontBounds(j: Compaction, i: nat)
    requires HeapRight(j) && i <= |j.objs|
    ensures j.start <= FrontOf(j, i) <= j.back
    ensures FrontOf(j, i) == j.back <==> i == |j.objs|
  {
    hide AreObjects, RootsOk, Covers;
    if i < |j.objs| { TileBounds(j.objs, j.start, j.back, i); }
    else if |j.objs| > 0 { TileBounds(j.objs, j.start, j.back, 0); }
  }

  lemma {:induction false} Locate(j: Compaction, e: nat, i: nat, a: nat)
    requires HeapRight(j) && e <= i <= |j.objs| && FrontOf(j, e) <= a < FrontOf(j, i)
    ensures exists l :: e <= l < i && j.objs[l].front <= a < j.objs[l].end
    decreases i
  {
    hide HeapRight;
    if e < i {
      FrontStep(j, i - 1);
      if a < FrontOf(j, i - 1) { Locate(j, e, i - 1, a); }
    }
  }

  // A word of a dead object is no reference and no live header.
  lemma DeadWord(j: Compaction, l: nat, a: nat)
    requires Setup(j) && l < |j.objs| && j.objs[l].p !in j.Live() && j.objs[l].front <= a < j.objs[l].end
    ensures a !in j.x.tgt && a + 1 !in j.x.dest && a < |j.m1|
  {
    hide HeapRight, RefsRight, DestRight;
    ObjIn(j, l);
    ObjectAt(j, j.objs[l].p);
    if a in j.x.tgt { RefInside(j, a, j.objs[l].p); }
    if a + 1 in j.x.dest {
      ObjectAt(j, a + 1);
      OneExtent(j, a + 1, j.objs[l].p, a);
    }
  }

  // ------------------------------------------------- what the walk can read

  lemma ThreadedElsewhere(x: Refs, base: Memory, V: set<nat>, R: set<nat>, T: Chains, m: Memory, a: nat)
    requires Threaded(x, base, V, R, T, m) && a < |m| && a !in V && a + 1 !in x.dest
    ensures |m| == |base| && m[a] == base[a]
  {
    hide InChain, ChainAt, RefsOk;
  }

  lemma NotVisitedYet(j: Compaction, i: nat, a: nat)
    requires Setup(j) && i < |j.objs| && j.objs[i].front <= a < j.objs[i].end
    ensures a !in VisitedAt(j, j.objs[i].front)
  {
    hide HeapRight, RefsRight, DestRight, MarksRight;
    ObjIn(j, i);
    ObjectAt(j, j.objs[i].p);
    if a in j.x.tgt { RefInside(j, a, j.objs[i].p); }
  }

  lemma OnlyHeader(j: Compaction, i: nat, a: nat)
    requires Setup(j) && i < |j.objs| && j.objs[i].front <= a < j.objs[i].end && a + 1 in j.x.dest
    ensures a + 1 == j.objs[i].p
  {
    hide HeapRight, RefsRight, DestRight, MarksRight;
    ObjIn(j, i);
    LiveIn(j, a + 1);
    ObjectAt(j, a + 1);
    HeaderInside(j, a + 1);
    OneExtent(j, a + 1, j.objs[i].p, a);
  }

  // The words of the object the walk stands before.
  lemma AtFront(j: Compaction, st: Pass, m: Memory, gap: int, a: nat)
    requires Forward(j, st, m, gap) && st.i < |j.objs|
    requires j.objs[st.i].front <= a < j.objs[st.i].end
    ensures a < |m| == |st.base| == |j.m1| && st.base[a] == j.m1[a]
    ensures a + 1 != j.objs[st.i].p || j.objs[st.i].p !in j.Live() ==> m[a] == j.m1[a] && a + 1 !in j.x.dest
    ensures a !in VisitedAt(j, FrontOf(j, st.i))
  {
    hide *;
    ForwardParts(j, st, m, gap);
    SetupParts(j);
    FrontStep(j, st.i);
    ObjIn(j, st.i);
    ObjectAt(j, j.objs[st.i].p);
    BaseMore(j, st.e, st.i, st.base);
    BaseHere(j, st.i, st.base, a);
    NotVisitedYet(j, st.i, a);
    if a + 1 in j.x.dest {
      OnlyHeader(j, st.i, a);
      LiveKeys(j, a + 1);
    } else {
      ThreadedElsewhere(j.x, st.base, VisitedAt(j, FrontOf(j, st.i)), ResolvedAt(j, FrontOf(j, st.i)), st.T, m, a);
    }
  }

  lemma LiveKeys(j: Compaction, p: nat)
    ensures p in j.Live() <==> p in j.x.dest
  {
  }

  lemma LiveIn(j: Compaction, p: nat)
    requires Setup(j) && p in j.x.dest
    ensures p in j.H
  {
    hide HeapRight, RefsRight, DestRight;
  }

  lemma DeadBelowNot(j: Compaction, e: nat, i: nat, a: nat)
    requires Setup(j) && e <= i < |j.objs| && j.objs[i].front <= a < j.objs[i].end
    ensures !DeadBelow(j, e, a)
  {
    hide RefsRight, DestRight, MarksRight, AreObjects, RootsOk, Covers;
    if DeadBelow(j, e, a) {
      var l :| 0 <= l < e && l < |j.objs| && j.objs[l].p !in j.Live() && j.objs[l].front <= a < j.objs[l].end;
      Ordered(j.objs, j.start, j.back, l, i);
      assert false;
    }
  }

  // Object o can be read where it stands, once its header is back.
  ghost predicate Readable(j: Compaction, o: Obj, m: Memory) {
    && 0 < o.front < o.p <= |m| == |j.m1|
    && IsO(j.env, m[o.p - 1 := j.m1[o.p - 1]], o)
    && o.p in j.H && j.H[o.p] == o
    && o.p == o.front + MetaWords(TagOf(j.env, o))
    && (m[o.front] == Bits(0) <==> TagOf(j.env, o) == SequenceTag)
    && j.m1[o.p - 1].Header? && j.m1[o.p - 1].ty == o.ty < |j.env.types|
  }

  lemma ReadableAt(j: Compaction, st: Pass, m: Memory, gap: int)
    requires Forward(j, st, m, gap) && st.i < |j.objs|
    ensures Readable(j, j.objs[st.i], m)
  {
    hide *;
    ForwardParts(j, st, m, gap);
    SetupParts(j);
    var o := j.objs[st.i];
    ObjIn(j, st.i);
    ObjectAt(j, o.p);
    HeaderInside(j, o.p);
    FrontObject(j, st, m, gap);
    FrontWord(j, st, m, gap);
    ReadableIntro(j, o, m);
  }

  lemma FrontObject(j: Compaction, st: Pass, m: Memory, gap: int)
    requires Forward(j, st, m, gap) && st.i < |j.objs|
    ensures var o := j.objs[st.i]; 0 < o.p <= |m| == |j.m1| && IsO(j.env, m[o.p - 1 := j.m1[o.p - 1]], o)
  {
    hide *;
    ForwardParts(j, st, m, gap);
    SetupParts(j);
    var o := j.objs[st.i];
    ObjIn(j, st.i);
    ObjectAt(j, o.p);
    forall a: nat | o.front <= a < o.end && a != o.p - 1
      ensures a < |m| && m[a] == j.m1[a]
    {
      AtFront(j, st, m, gap, a);
    }
    SameObject(j.env, j.m1, m[o.p - 1 := j.m1[o.p - 1]], o);
    IsOIntro(j.env, m[o.p - 1 := j.m1[o.p - 1]], o);
  }

  // Marks tell live objects from dead ones.
  lemma MarkAtFront(j: Compaction, st: Pass, m: Memory, gap: int)
    requires Forward(j, st, m, gap) && st.i < |j.objs|
    ensures FrontOf(j, st.i) == j.objs[st.i].front && MarkTells(j, st.base, m, j.objs[st.i].p)
  {
    hide *;
    ForwardParts(j, st, m, gap);
    SetupParts(j);
    var o := j.objs[st.i];
    FrontStep(j, st.i);
    ObjIn(j, st.i);
    ObjectAt(j, o.p);
    MarkOf(j, o.p);
    HeaderInside(j, o.p);
    AtFront(j, st, m, gap, o.p - 1);
    MarkTellsIntro(j, st.base, m, o.p);
  }

  ghost predicate MarkTells(j: Compaction, base: Memory, m: Memory, p: nat) {
    && 0 < p <= |m| == |j.m1| == |base|
    && (p !in j.Live() ==> m[p - 1] == j.m1[p - 1])
    && j.m1[p - 1].Header? && (j.m1[p - 1].mark <==> p in j.Live()) && base[p - 1] == j.m1[p - 1]
  }

  lemma MarkTellsIntro(j: Compaction, base: Memory, m: Memory, p: nat)
    requires 0 < p <= |m| == |j.m1| == |base|
    requires p !in j.Live() ==> m[p - 1] == j.m1[p - 1]
    requires j.m1[p - 1].Header? && (j.m1[p - 1].mark <==> p in j.Live()) && base[p - 1] == j.m1[p - 1]
    ensures MarkTells(j, base, m, p)
  {
  }

  lemma MarkTellsIs(j: Compaction, base: Memory, m: Memory, p: nat)
    requires MarkTells(j, base, m, p)
    ensures 0 < p <= |m| == |j.m1| == |base|
    ensures p !in j.Live() ==> m[p - 1] == j.m1[p - 1]
    ensures j.m1[p - 1].Header? && (j.m1[p - 1].mark <==> p in j.Live()) && base[p - 1] == j.m1[p - 1]
  {
  }

  lemma IsOIntro(env: Env, m: Memory, o: Obj)
    requires ValidEnv(env) && IsObject(env, m, o)
    ensures IsO(env, m, o)
  {
    hide ValidEnv, IsObject;
  }

  lemma ReadableIntro(j: Compaction, o: Obj, m: Memory)
    requires 0 < o.front < o.p <= |m| == |j.m1|
    requires IsO(j.env, m[o.p - 1 := j.m1[o.p - 1]], o)
    requires o.p in j.H && j.H[o.p] == o
    requires o.p == o.front + MetaWords(TagOf(j.env, o))
    requires m[o.front] == Bits(0) <==> TagOf(j.env, o) == SequenceTag
    requires j.m1[o.p - 1].Header? && j.m1[o.p - 1].ty == o.ty < |j.env.types|
    ensures Readable(j, o, m)
  {
    hide IsO, TagOf, MetaWords;
  }

  lemma ForwardParts(j: Compaction, st: Pass, m: Memory, gap: int)
    requires Forward(j, st, m, gap)
    ensures Setup(j) && HeapRight(j) && |m| == |st.base| == |j.m1| && st.e <= st.i <= |j.objs|
    ensures Pending(j, st.e, st.i) && BaseOk(j, st.e, st.base) && FrontOf(j, st.e) <= FrontOf(j, st.i)
    ensures gap == Gap(j, j.objs, st.i) == Gap(j, st.out, |st.out|) + (FrontOf(j, st.i) - FrontOf(j, st.e))
    ensures OutOk(j, st.base, st.out, FrontOf(j, st.e), st.e)
    ensures Threaded(j.x, st.base, VisitedAt(j, FrontOf(j, st.i)), ResolvedAt(j, FrontOf(j, st.i)), st.T, m)
  {
    hide HeapRight, MarksRight, RefsRight, DestRight, OutOk, InChain, ChainAt, RefsOk, Gap, FrontOf, VisitedAt,
      ResolvedAt, DeadBelow;
  }

  lemma MarkOf(j: Compaction, p: nat)
    requires Setup(j) && p in j.H
    ensures 0 < p <= |j.m1| && j.m1[p - 1].Header? && (j.m1[p - 1].mark <==> p in j.Live())
    ensures Clean(j.env, j.m1, j.H[p])
  {
    hide RefsRight, DestRight, Clean, HeapRight;
    ObjectAt(j, p);
  }

  // The header lies inside the extent, except that it is the last word of an
  // empty object.
  lemma HeaderInside(j: Compaction, p: nat)
    requires HeapRight(j) && p in j.H
    ensures j.H[p].front <= p - 1 < j.H[p].end
    ensures p == j.H[p].front + MetaWords(TagOf(j.env, j.H[p]))
  {
    hide RootsOk, Covers, Tiles, Apart;
    assert IsObject(j.env, j.m1, j.H[p]);
  }

  // advanceToObjectData: a zero word at the front is a sequence counter.
  lemma FrontWord(j: Compaction, st: Pass, m: Memory, gap: int)
    requires Forward(j, st, m, gap) && st.i < |j.objs|
    ensures var o := j.objs[st.i]; o.front < |m| && (m[o.front] == Bits(0) <==> TagOf(j.env, o) == SequenceTag)
  {
    hide *;
    ForwardParts(j, st, m, gap);
    var o := j.objs[st.i];
    ObjIn(j, st.i);
    ObjectAt(j, o.p);
    MarkOf(j, o.p);
    HeaderInside(j, o.p);
    MetaFacts(TagOf(j.env, o));
    AtFront(j, st, m, gap, o.front);
    if TagOf(j.env, o) == SequenceTag {
      CleanCounter(j.env, j.m1, o);
    } else {
      HeaderWord(j, st, m, gap);
    }
  }

  lemma MetaFacts(tag: Tag)
    ensures MetaWords(tag) == if tag == SequenceTag then 3 else 1
  {
  }

  lemma CleanCounter(env: Env, m: Memory, o: Obj)
    requires Clean(env, m, o) && TagOf(env, o) == SequenceTag
    ensures m[o.front] == Bits(0)
  {
  }

  // The header word is the header or the start of a chain.
  lemma HeaderWord(j: Compaction, st: Pass, m: Memory, gap: int)
    requires Forward(j, st, m, gap) && st.i < |j.objs|
    ensures var h := j.objs[st.i].p - 1; 0 <= h < |m| && (m[h].Header? || m[h].Ptr?)
  {
    hide Forward, HeapRight, RefsRight, DestRight, Threaded;
    ForwardParts(j, st, m, gap);
    var o := j.objs[st.i];
    ObjIn(j, st.i);
    ObjectAt(j, o.p);
    HeaderInside(j, o.p);
    AtFront(j, st, m, gap, o.p - 1);
    if o.p in j.Live() {
      ThreadedHeader(j.x, st.base, VisitedAt(j, FrontOf(j, st.i)), ResolvedAt(j, FrontOf(j, st.i)), st.T, m, o.p);
    }
  }

  // ------------------------------------------------------------ a dead object

  lemma DeadStep(j: Compaction, st: Pass, m: Memory, gap: int)
    requires Forward(j, st, m, gap) && st.i < |j.objs| && j.objs[st.i].p !in j.Live()
    ensures Forward(j, st.(i := st.i + 1), m, gap + (j.objs[st.i].end - j.objs[st.i].front))
    ensures FrontOf(j, st.i + 1) == j.objs[st.i].end
  {
    hide HeapRight, RefsRight, DestRight, OutOk, BaseOk, Threaded, VisitedAt, ResolvedAt, MarksRight;
    FrontStep(j, st.i);
    PassDead(j, st.i);
    ObjIn(j, st.i);
  }

  // ------------------------------------------------------------ a live object

  // Nothing is left to merge below object i.
  ghost predicate Merged(j: Compaction, i: nat, base: Memory, out: seq<Obj>) {
    && Setup(j) && i <= |j.objs|
    && BaseOk(j, i, base)
    && OutOk(j, base, out, FrontOf(j, i), i)
    && Gap(j, out, |out|) == Gap(j, j.objs, i)
  }

  // A write inside the pending dead words is a write to base as well.
  lemma WriteBoth(x: Refs, base: Memory, V: set<nat>, R: set<nat>, T: Chains, m: Memory, a: nat, w: Word)
    requires Threaded(x, base, V, R, T, m) && a < |m| && a !in x.tgt && a + 1 !in x.dest
    ensures |m| == |base| && Threaded(x, base[a := w], V, R, T, m[a := w])
  {
    hide InChain, ChainAt, RefsOk;
    ThreadedLength(x, base, V, R, T, m);
    WriteBothRefs(x, base, a, w);
    forall t | t in T
      ensures ChainAt(base[a := w], m[a := w], T, t)
    {
      WriteBothChain(x, base, V, R, T, m, a, w, t);
    }
  }

  lemma WriteBothRefs(x: Refs, base: Memory, a: nat, w: Word)
    requires RefsOk(x, base) && a < |base| && a + 1 !in x.dest
    ensures RefsOk(x, base[a := w])
  {
  }

  lemma WriteBothChain(x: Refs, base: Memory, V: set<nat>, R: set<nat>, T: Chains, m: Memory, a: nat, w: Word, t: nat)
    requires Threaded(x, base, V, R, T, m) && a < |m| && a !in x.tgt && a + 1 !in x.dest && t in T
    ensures |m| == |base| && ChainAt(base[a := w], m[a := w], T, t)
  {
    hide Distinct, RefsOk;
    assert ChainAt(base, m, T, t) && InChain(x, V, R, T, t);
  }

  lemma PendingWord(j: Compaction, e: nat, i: nat, a: nat)
    requires Setup(j) && Pending(j, e, i) && FrontOf(j, e) <= a < FrontOf(j, i)
    ensures a !in j.x.tgt && a + 1 !in j.x.dest && a < |j.m1| && DeadBelow(j, i, a)
  {
    hide Setup;
    assert HeapRight(j) by { SetupParts(j); }
    Locate(j, e, i, a);
    var l :| e <= l < i && j.objs[l].front <= a < j.objs[l].end;
    DeadWord(j, l, a);
  }

  lemma SetupParts(j: Compaction)
    requires Setup(j)
    ensures HeapRight(j) && MarksRight(j) && RefsRight(j) && DestRight(j, j.objs) && ValidEnv(j.env)
  {
    hide MarksRight, RefsRight, DestRight, Covers, Tiles, RootsOk;
  }

  function DeadSequence(lo: nat, hi: nat): Obj { Obj(lo, lo + 3, hi, WORD8_VECTOR_TYPE_INDEX, []) }

  function DeadLength(lo: nat, hi: nat): int { 8 * (hi - lo) - 24 }

  // The three metadata words of a sequence over [lo, hi).
  function Compressed(m: Memory, lo: nat, hi: nat): (m': Memory)
    ensures |m'| == |m|
  {
    if lo + 3 <= hi <= |m| then
      m[lo := Bits(0)][lo + 1 := Bits(DeadLength(lo, hi))][lo + 2 := Header(WORD8_VECTOR_TYPE_INDEX, 0, false)]
    else m
  }

  lemma CompressedObject(env: Env, m: Memory, lo: nat, hi: nat)
    requires ValidEnv(env) && 0 < lo && lo + 3 <= hi <= |m|
    ensures IsObject(env, Compressed(m, lo, hi), DeadSequence(lo, hi))
    ensures Clean(env, Compressed(m, lo, hi), DeadSequence(lo, hi)) && !MarkAt(Compressed(m, lo, hi), lo + 3)
  {
    assert ((8 * (hi - lo) - 24) * 1 + 7) / 8 == hi - lo - 3;
  }

  lemma CompressedThreaded(j: Compaction, e: nat, i: nat, base: Memory, V: set<nat>, R: set<nat>, T: Chains, m: Memory)
    requires Setup(j) && Pending(j, e, i) && FrontOf(j, e) + 3 <= FrontOf(j, i) <= |m| == |j.m1|
    requires Threaded(j.x, base, V, R, T, m)
    ensures Threaded(j.x, Compressed(base, FrontOf(j, e), FrontOf(j, i)), V, R, T,
      Compressed(m, FrontOf(j, e), FrontOf(j, i)))
  {
    hide Setup, Threaded, Pending, FrontOf;
    var lo, hi := FrontOf(j, e), FrontOf(j, i);
    PendingWord(j, e, i, lo);
    PendingWord(j, e, i, lo + 1);
    PendingWord(j, e, i, lo + 2);
    ThreadedLength(j.x, base, V, R, T, m);
    WriteBoth(j.x, base, V, R, T, m, lo, Bits(0));
    var b1, m1 := base[lo := Bits(0)], m[lo := Bits(0)];
    WriteBoth(j.x, b1, V, R, T, m1, lo + 1, Bits(DeadLength(lo, hi)));
    WriteBoth(j.x, b1[lo + 1 := Bits(DeadLength(lo, hi))], V, R, T, m1[lo + 1 := Bits(DeadLength(lo, hi))], lo + 2,
              Header(WORD8_VECTOR_TYPE_INDEX, 0, false));
  }

  lemma ThreadedLength(x: Refs, base: Memory, V: set<nat>, R: set<nat>, T: Chains, m: Memory)
    requires Threaded(x, base, V, R, T, m)
    ensures |m| == |base|
  {
  }

  lemma OutObjectSame(j: Compaction, base: Memory, base': Memory, o: Obj)
    requires ValidEnv(j.env) && OutObject(j, base, o) && |base'| == |base|
    requires forall a :: o.front <= a < o.end ==> base'[a] == base[a]
    requires base'[o.p - 1] == base[o.p - 1]
    ensures OutObject(j, base', o)
  {
    hide ValidEnv;
    SameObject(j.env, base, base', o);
  }

  lemma TileHeader(out: seq<Obj>, lo: nat, hi: nat, k: nat)
    requires Tiles(out, lo, hi) && k < |out|
    ensures lo <= out[k].front <= out[k].p - 1 < hi && out[k].end <= hi && out[k].front < out[k].end
    ensures out[k].p <= hi
  {
    TileBounds(out, lo, hi, k);
  }

  lemma CompressedOut(j: Compaction, base: Memory, out: seq<Obj>, lo: nat, hi: nat)
    requires ValidEnv(j.env) && Tiles(out, j.start, lo) && AllOut(j, base, out)
    ensures AllOut(j, Compressed(base, lo, hi), out)
  {
    hide OutObject, Tiles, ValidEnv;
    forall k | 0 <= k < |out|
      ensures OutObject(j, Compressed(base, lo, hi), out[k])
    {
      TileHeader(out, j.start, lo, k);
      OutObjectSame(j, base, Compressed(base, lo, hi), out[k]);
    }
  }

  lemma DeadSequenceOut(j: Compaction, base: Memory, lo: nat, hi: nat)
    requires ValidEnv(j.env) && 0 < lo && lo + 3 <= hi <= |base| && lo + 3 !in j.Live()
    ensures OutObject(j, Compressed(base, lo, hi), DeadSequence(lo, hi))
  {
    CompressedObject(j.env, base, lo, hi);
  }

  // The data pointer of the dead sequence is not that of a live object.
  lemma DeadPointer(j: Compaction, e: nat, i: nat)
    requires Setup(j) && Pending(j, e, i) && FrontOf(j, e) + 3 <= FrontOf(j, i)
    ensures FrontOf(j, e) + 3 !in j.Live()
  {
    hide Setup, Pending, FrontOf;
    PendingWord(j, e, i, FrontOf(j, e) + 2);
  }

  // OutOk is Tiles, OutObject of each, the live objects so far, and DestRight.
  lemma OutParts(j: Compaction, base: Memory, out: seq<Obj>, mid: nat, e: nat)
    requires OutOk(j, base, out, mid, e)
    ensures Tiles(out, j.start, mid) && DestRight(j, out) && AllOut(j, base, out) && HasLive(j, out, e)
  {
    hide Tiles, DestRight, OutObject;
  }

  lemma OutIntro(j: Compaction, base: Memory, out: seq<Obj>, mid: nat, e: nat)
    requires Tiles(out, j.start, mid) && DestRight(j, out) && AllOut(j, base, out) && HasLive(j, out, e)
    ensures OutOk(j, base, out, mid, e)
  {
    hide Tiles, DestRight, OutObject;
  }

  ghost predicate AllOut(j: Compaction, base: Memory, out: seq<Obj>) {
    forall k :: 0 <= k < |out| ==> OutObject(j, base, out[k])
  }

  ghost predicate HasLive(j: Compaction, out: seq<Obj>, e: nat) {
    forall l :: 0 <= l < e && l < |j.objs| && j.objs[l].p in j.Live() ==> j.objs[l] in out
  }

  lemma AllOutAdd(j: Compaction, base: Memory, out: seq<Obj>, b: seq<Obj>)
    requires AllOut(j, base, out) && AllOut(j, base, b)
    ensures AllOut(j, base, out + b)
  {
    hide OutObject;
  }

  lemma MergeOne(j: Compaction, st: Pass, m: Memory, gap: int)
    requires Forward(j, st, m, gap) && FrontOf(j, st.e) + 3 <= FrontOf(j, st.i)
    ensures FrontOf(j, st.i) <= |st.base|
    ensures Merged(j, st.i, Compressed(st.base, FrontOf(j, st.e), FrontOf(j, st.i)),
                   st.out + [DeadSequence(FrontOf(j, st.e), FrontOf(j, st.i))])
  {
    hide *;
    ForwardParts(j, st, m, gap);
    var lo, hi := FrontOf(j, st.e), FrontOf(j, st.i);
    SetupParts(j);
    FrontRange(j, st.e);
    FrontRange(j, st.i);
    var base' := Compressed(st.base, lo, hi);
    var d := DeadSequence(lo, hi);
    OutParts(j, st.base, st.out, lo, st.e);
    MergeOneBase(j, st.e, st.i, st.base);
    DeadPointer(j, st.e, st.i);
    DeadFacts(j, lo, hi);
    TilesAdd(st.out, j.start, lo, d);
    CompressedOut(j, st.base, st.out, lo, hi);
    DeadSequenceOut(j, st.base, lo, hi);
    OneOut(j, base', d);
    AllOutAdd(j, base', st.out, [d]);
    DestAddDead(j, st.out, [d]);
    MergeCovers(j, st.e, st.i, st.out, [d]);
    OutIntro(j, base', st.out + [d], hi, st.i);
    GapAdd(j, st.out, d);
    MergedIntro(j, st.i, base', st.out + [d]);
  }

  lemma OneOut(j: Compaction, base: Memory, o: Obj)
    requires OutObject(j, base, o)
    ensures AllOut(j, base, [o])
  {
    hide OutObject;
  }

  lemma DeadFacts(j: Compaction, lo: nat, hi: nat)
    requires lo + 3 <= hi && lo + 3 !in j.Live()
    ensures var d := DeadSequence(lo, hi);
      d.front == lo && d.p == lo + 3 && d.end == hi && Skip(j, d) == hi - lo && AllDead(j, [d])
  {
  }

  lemma MergedIntro(j: Compaction, i: nat, base: Memory, out: seq<Obj>)
    requires Setup(j) && i <= |j.objs| && BaseOk(j, i, base) && OutOk(j, base, out, FrontOf(j, i), i)
    requires Gap(j, out, |out|) == Gap(j, j.objs, i)
    ensures Merged(j, i, base, out)
  {
    hide Setup, BaseOk, OutOk, Gap, FrontOf;
  }

  lemma MergedParts(j: Compaction, i: nat, base: Memory, out: seq<Obj>)
    requires Merged(j, i, base, out)
    ensures Setup(j) && i <= |j.objs| && BaseOk(j, i, base) && OutOk(j, base, out, FrontOf(j, i), i)
    ensures Gap(j, out, |out|) == Gap(j, j.objs, i)
  {
    hide Setup, BaseOk, OutOk, Gap, FrontOf;
  }

  lemma FrontRange(j: Compaction, i: nat)
    requires HeapRight(j) && i <= |j.objs|
    ensures 0 < j.start <= FrontOf(j, i) <= j.back <= |j.m1|
  {
    FrontBounds(j, i);
  }

  lemma BaseLength(j: Compaction, e: nat, base: Memory)
    requires BaseOk(j, e, base)
    ensures |base| == |j.m1|
  {
  }

  lemma MergeOneBase(j: Compaction, e: nat, i: nat, base: Memory)
    requires Setup(j) && Pending(j, e, i) && BaseOk(j, e, base)
    requires FrontOf(j, e) + 3 <= FrontOf(j, i) <= |base|
    ensures BaseOk(j, i, Compressed(base, FrontOf(j, e), FrontOf(j, i)))
  {
    hide Setup, FrontOf, DeadBelow;
    var lo, hi := FrontOf(j, e), FrontOf(j, i);
    forall a | 0 <= a < |base| && Compressed(base, lo, hi)[a] != j.m1[a]
      ensures DeadBelow(j, i, a)
    {
      if lo <= a < lo + 3 { PendingWord(j, e, i, a); }
      else { DeadBelowMore(j, e, i, a); }
    }
  }

  lemma DeadBelowMore(j: Compaction, e: nat, i: nat, a: nat)
    requires e <= i && DeadBelow(j, e, a)
    ensures DeadBelow(j, i, a)
  {
  }

  // Dead objects at the end have no destination to be right about.
  lemma DestAddDead(j: Compaction, out: seq<Obj>, b: seq<Obj>)
    requires DestRight(j, out) && AllDead(j, b)
    ensures DestRight(j, out + b)
  {
    hide Gap;
    forall i | 0 <= i < |out + b|
      ensures (out + b)[i].p in j.Live() ==> j.x.dest[(out + b)[i].p] == (out + b)[i].p - Gap(j, out + b, i)
    {
      if i < |out| {
        assert (out + b)[i] == out[i];
        GapPrefix(j, out, b, i);
      } else {
        assert (out + b)[i] == b[i - |out|];
      }
    }
  }

  lemma MergeCovers(j: Compaction, e: nat, i: nat, out: seq<Obj>, b: seq<Obj>)
    requires Pending(j, e, i) && HasLive(j, out, e)
    ensures HasLive(j, out + b, i)
  {
  }

  lemma MergeNone(j: Compaction, st: Pass, m: Memory, gap: int)
    requires Forward(j, st, m, gap)
    ensures st.e <= st.i <= |j.objs| && Merged(j, st.i, st.base, st.out + j.objs[st.e..st.i])
  {
    hide *;
    ForwardParts(j, st, m, gap);
    var lo, hi := FrontOf(j, st.e), FrontOf(j, st.i);
    SetupParts(j);
    var b := j.objs[st.e..st.i];
    OutParts(j, st.base, st.out, lo, st.e);
    PendingTiles(j, st.e, st.i);
    TilesJoin(st.out, b, j.start, lo, hi);
    BaseMore(j, st.e, st.i, st.base);
    PendingOut(j, st.e, st.i, st.base);
    AllOutAdd(j, st.base, st.out, b);
    DestAddDead(j, st.out, b);
    MergeCovers(j, st.e, st.i, st.out, b);
    OutIntro(j, st.base, st.out + b, hi, st.i);
    GapDead(j, st.out, b, lo, hi);
    MergedIntro(j, st.i, st.base, st.out + b);
  }

  lemma BaseMore(j: Compaction, e: nat, i: nat, base: Memory)
    requires BaseOk(j, e, base) && e <= i
    ensures BaseOk(j, i, base)
  {
    hide DeadBelow;
    forall a | 0 <= a < |base| && base[a] != j.m1[a]
      ensures DeadBelow(j, i, a)
    {
      DeadBelowMore(j, e, i, a);
    }
  }

  lemma PendingTiles(j: Compaction, e: nat, i: nat)
    requires HeapRight(j) && e <= i <= |j.objs|
    ensures Tiles(j.objs[e..i], FrontOf(j, e), FrontOf(j, i))
  {
    hide HeapRight, Tiles;
    HeapTiles(j);
    TilesSplit(j.objs, j.start, j.back, e);
    assert j.objs[e..i] == j.objs[e..][..i - e];
    TilesSplit(j.objs[e..], FrontOf(j, e), j.back, i - e);
  }

  lemma HeapTiles(j: Compaction)
    requires HeapRight(j)
    ensures Tiles(j.objs, j.start, j.back)
  {
    hide Tiles, Covers, AreObjects, RootsOk;
  }

  // Objects not merged yet are as they were.
  lemma PendingOut(j: Compaction, e: nat, i: nat, base: Memory)
    requires Setup(j) && Pending(j, e, i) && BaseOk(j, e, base)
    ensures e <= i <= |j.objs| && AllOut(j, base, j.objs[e..i]) && AllDead(j, j.objs[e..i])
  {
    hide Setup, BaseOk, OutObject;
    forall l | e <= l < i
      ensures OutObject(j, base, j.objs[l])
    {
      OutHere(j, e, base, l);
    }
  }

  // The live object itself joins the tiling.
  lemma AddLive(j: Compaction, i: nat, base: Memory, out: seq<Obj>)
    requires Merged(j, i, base, out) && i < |j.objs| && j.objs[i].p in j.Live()
    ensures Merged(j, i + 1, base, out + [j.objs[i]])
  {
    hide *;
    var o := j.objs[i];
    MergedParts(j, i, base, out);
    SetupParts(j);
    OutParts(j, base, out, FrontOf(j, i), i);
    FrontStep(j, i);
    ObjIn(j, i);
    ObjectAt(j, o.p);
    TilesAdd(out, j.start, FrontOf(j, i), o);
    BaseMore(j, i, i + 1, base);
    OutHere(j, i, base, i);
    OneOut(j, base, o);
    AllOutAdd(j, base, out, [o]);
    LiveHas(j, i, out);
    GapAdd(j, out, o);
    GapNext(j, i);
    DestAddLive(j, i, out);
    OutIntro(j, base, out + [o], FrontOf(j, i + 1), i + 1);
    MergedIntro(j, i + 1, base, out + [o]);
  }

  lemma LiveHas(j: Compaction, i: nat, out: seq<Obj>)
    requires HasLive(j, out, i) && i < |j.objs|
    ensures HasLive(j, out + [j.objs[i]], i + 1)
  {
  }

  // An object that the walk has not merged is as it was.
  lemma OutHere(j: Compaction, e: nat, base: Memory, l: nat)
    requires Setup(j) && BaseOk(j, e, base) && e <= l < |j.objs|
    ensures OutObject(j, base, j.objs[l])
  {
    hide *;
    SetupParts(j);
    var o := j.objs[l];
    ObjIn(j, l);
    ObjectAt(j, o.p);
    HeaderInside(j, o.p);
    BaseLength(j, e, base);
    BaseMore(j, e, l, base);
    forall a | o.front <= a < o.end
      ensures 0 <= a < |base| && base[a] == j.m1[a]
    {
      BaseHere(j, l, base, a);
    }
    OutBefore(j, o.p);
    OutObjectSame(j, j.m1, base, o);
  }

  lemma OutBefore(j: Compaction, p: nat)
    requires Setup(j) && p in j.H
    ensures OutObject(j, j.m1, j.H[p])
  {
    hide HeapRight, RefsRight, DestRight, IsObject, Clean;
    SetupParts(j);
    ObjectAt(j, p);
    MarkOf(j, p);
  }

  lemma GapNext(j: Compaction, i: nat)
    requires i < |j.objs|
    ensures Gap(j, j.objs, i + 1) == Gap(j, j.objs, i) + Skip(j, j.objs[i])
  {
  }

  lemma DestAddLive(j: Compaction, i: nat, out: seq<Obj>)
    requires DestRight(j, j.objs) && DestRight(j, out) && i < |j.objs| && j.objs[i].p in j.Live()
    requires Gap(j, out, |out|) == Gap(j, j.objs, i)
    ensures DestRight(j, out + [j.objs[i]])
  {
    hide Gap;
    var out' := out + [j.objs[i]];
    forall k | 0 <= k < |out'| && out'[k].p in j.Live()
      ensures j.x.dest[out'[k].p] == out'[k].p - Gap(j, out', k)
    {
      GapPrefix(j, out, [j.objs[i]], k);
    }
  }

  // The pass goes on behind the live object, with nothing pending.
  lemma LiveStep(j: Compaction, i: nat, base: Memory, out: seq<Obj>, T: Chains, m: Memory)
    requires Merged(j, i + 1, base, out) && i < |j.objs| && j.objs[i].p in j.Live()
    requires Threaded(j.x, base, VisitedAt(j, j.objs[i].end), ResolvedAt(j, j.objs[i].end), T, m)
    ensures Forward(j, Pass(i + 1, i + 1, base, out, T), m, Gap(j, j.objs, i) + Shrunk(j, j.objs[i]))
    ensures FrontOf(j, i + 1) == j.objs[i].end
  {
    hide HeapRight, MarksRight, RefsRight, DestRight, OutOk, BaseOk, Threaded, VisitedAt, ResolvedAt, Gap;
    FrontStep(j, i);
    GapNext(j, i);
  }

  // The chain of the object before the walk holds the references from below.
  lemma ChainIsBelow(j: Compaction, st: Pass, m: Memory, gap: int)
    requires Forward(j, st, m, gap) && st.i < |j.objs| && j.objs[st.i].p in j.Live()
    ensures var o := j.objs[st.i];
      ResolvedAt(j, o.front) + Elements(ChainOfT(st.T, o.p)) == ResolvedAt(j, o.end)
  {
    hide Forward, HeapRight, RefsRight, DestRight, MarksRight;
    ForwardParts(j, st, m, gap);
    PassLive(j, st.i);
    var o := j.objs[st.i];
    forall s
      ensures s in Elements(ChainOfT(st.T, o.p)) <==> s in RefsBelow(j, o)
    {
      ChainMember(j, st, m, gap, s);
    }
  }

  lemma ChainMember(j: Compaction, st: Pass, m: Memory, gap: int, s: nat)
    requires Forward(j, st, m, gap) && st.i < |j.objs| && j.objs[st.i].p in j.Live()
    ensures s in Elements(ChainOfT(st.T, j.objs[st.i].p)) <==> s in RefsBelow(j, j.objs[st.i])
  {
    hide Forward, HeapRight, RefsRight, DestRight, MarksRight, RefsOk, ChainAt;
    ForwardParts(j, st, m, gap);
    var o := j.objs[st.i];
    FrontStep(j, st.i);
    ObjIn(j, st.i);
    ObjectAt(j, o.p);
    HeaderInside(j, o.p);
    var V, R := VisitedAt(j, o.front), ResolvedAt(j, o.front);
    ChainOf(j.x, st.base, V, R, st.T, m, o.p);
    if s in Elements(ChainOfT(st.T, o.p)) {
      var k :| 0 <= k < |st.T[o.p]| && st.T[o.p][k] == s;
    }
    if s in RefsBelow(j, o) {
      PassLiveRef(j, st.i, s);
      assert s in V && s !in R;
      var k :| 0 <= k < |st.T[o.p]| && st.T[o.p][k] == s;
    }
  }

  // The slots of the object before the walk can be threaded.
  lemma SlotsAreReady(j: Compaction, i: nat, base: Memory)
    requires Setup(j) && i < |j.objs| && j.objs[i].p in j.Live()
    requires BaseOk(j, i, base)
    ensures SlotsReady(j.x, base, j.sp, VisitedAt(j, j.objs[i].front), j.objs[i].slots)
  {
    hide *;
    SetupParts(j);
    var o := j.objs[i];
    ObjIn(j, i);
    ObjectAt(j, o.p);
    SlotsInside(j.env, j.m1, o);
    BaseLength(j, i, base);
    forall k | 0 <= k < |o.slots|
      ensures SlotReady(j.x, base, j.sp, VisitedAt(j, o.front), o.slots[k])
    {
      BaseHere(j, i, base, o.slots[k]);
      NotVisitedYet(j, i, o.slots[k]);
      SlotIsRef(j, o.p, o.slots[k]);
      SlotNotHeader(j, i, o.slots[k]);
      SlotReadyIntro(j.x, base, j.sp, VisitedAt(j, o.front), o.slots[k]);
    }
    SlotsReadyIntro(j.x, base, j.sp, VisitedAt(j, o.front), o.slots);
  }

  ghost predicate SlotReady(x: Refs, base: Memory, sp: Spaces, V: set<nat>, s: nat) {
    && s !in V && s < |base| && s + 1 !in x.dest
    && (s in x.tgt <==> base[s].Ptr? && InSpaces(sp, base[s].addr))
    && (s in x.tgt ==> base[s] == Ptr(x.tgt[s]))
  }

  lemma SlotReadyIntro(x: Refs, base: Memory, sp: Spaces, V: set<nat>, s: nat)
    requires s !in V && s < |base| && s + 1 !in x.dest
    requires s in x.tgt <==> base[s].Ptr? && InSpaces(sp, base[s].addr)
    requires s in x.tgt ==> base[s] == Ptr(x.tgt[s])
    ensures SlotReady(x, base, sp, V, s)
  {
    hide InSpaces;
  }

  lemma SlotsReadyIntro(x: Refs, base: Memory, sp: Spaces, V: set<nat>, slots: seq<nat>)
    requires Distinct(slots)
    requires forall k :: 0 <= k < |slots| ==> SlotReady(x, base, sp, V, slots[k])
    ensures SlotsReady(x, base, sp, V, slots)
  {
    hide Distinct, InSpaces;
  }

  lemma BaseHere(j: Compaction, i: nat, base: Memory, a: nat)
    requires Setup(j) && BaseOk(j, i, base) && i < |j.objs| && j.objs[i].front <= a < j.objs[i].end && a < |j.m1|
    ensures a < |base| && base[a] == j.m1[a]
  {
    hide Setup, DeadBelow;
    DeadBelowNot(j, i, i, a);
  }

  lemma SlotIsRef(j: Compaction, p: nat, s: nat)
    requires RefsRight(j) && p in j.Live() && p in j.H && s in j.H[p].slots && s < |j.m1| && p > 0
    ensures s in j.x.tgt <==> j.m1[s].Ptr? && InSpaces(j.sp, j.m1[s].addr)
    ensures s in j.x.tgt ==> j.m1[s] == Ptr(j.x.tgt[s])
  {
    assert OwnedBy(j, s, p - 1);
  }

  lemma SlotNotHeader(j: Compaction, i: nat, s: nat)
    requires Setup(j) && i < |j.objs| && s in j.objs[i].slots
    ensures s + 1 !in j.x.dest
  {
    hide HeapRight, RefsRight, DestRight, MarksRight;
    ObjIn(j, i);
    var p := j.objs[i].p;
    SlotExtent(j, p, s);
    ObjectAt(j, p);
    if s + 1 in j.x.dest {
      LiveIn(j, s + 1);
      ObjectAt(j, s + 1);
      HeaderInside(j, s + 1);
      OneExtent(j, s + 1, p, s);
    }
  }

  // -------------------------------------------------------------- the method

  // Turn [lo, hi) into one Word8 sequence.
  method Compress(s: GCState, lo: nat, hi: nat)
    requires lo + 3 <= hi <= s.mem.Length
    modifies s.mem
    ensures s.mem[..] == Compressed(old(s.mem[..]), lo, hi)
    ensures ValidEnv(s.env) && 0 < lo ==>
      IsObject(s.env, s.mem[..], DeadSequence(lo, hi)) && Clean(s.env, s.mem[..], DeadSequence(lo, hi)) &&
        !MarkAt(s.mem[..], lo + 3)
    ensures forall a :: 0 <= a < s.mem.Length && !(lo <= a < lo + 3) ==> s.mem[a] == old(s.mem[a])
  {
    hide IsObject, Clean, ValidEnv, MarkAt;
    if ValidEnv(s.env) && 0 < lo { CompressedObject(s.env, s.mem[..], lo, hi); }
    s.Store(lo, Bits(0));
    s.Store(lo + 1, Bits(DeadLength(lo, hi)));
    s.Store(lo + 2, Header(WORD8_VECTOR_TYPE_INDEX, 0, false));
  }

  // The state of the collector that a compaction works on.
  ghost predicate Working(s: GCState, j: Compaction)
    reads s`start, s`oldGenSize, s`nursery, s`frontier
  {
    && s.env == j.env && s.stackControls == j.k && s.roots == j.roots
    && s.Spaces() == j.sp && s.start == j.start && s.start + s.oldGenSize == j.back
    && s.mem.Length == |j.m1|
  }

  // Once its header is back, the object is readable where it stands.
  lemma LiveReadable(j: Compaction, i: nat, base: Memory, R: set<nat>, T: Chains, m: Memory)
    requires Setup(j) && i < |j.objs| && j.objs[i].p in j.Live() && BaseOk(j, i, base)
    requires Threaded(j.x, base, VisitedAt(j, j.objs[i].front), R, T, m)
    requires j.objs[i].p in T && |T[j.objs[i].p]| == 0
    ensures var o := j.objs[i];
      && o.p in j.H && j.H[o.p] == o && o.end <= |m| == |j.m1| == |base| && 0 < o.front < o.p <= |m|
      && (forall a: nat :: o.front <= a < o.end ==> m[a] == j.m1[a])
      && IsO(j.env, m, o) && m[o.p - 1] == j.m1[o.p - 1]
  {
    hide *;
    var o := j.objs[i];
    SetupParts(j);
    ObjIn(j, i);
    ObjectAt(j, o.p);
    HeaderInside(j, o.p);
    BaseLength(j, i, base);
    LiveKeys(j, o.p);
    ThreadedLength(j.x, base, VisitedAt(j, o.front), R, T, m);
    ThreadedHeader(j.x, base, VisitedAt(j, o.front), R, T, m, o.p);
    forall a: nat | o.front <= a < o.end
      ensures m[a] == j.m1[a]
    {
      BaseHere(j, i, base, a);
      NotVisitedYet(j, i, a);
      if a + 1 in j.x.dest { OnlyHeader(j, i, a); }
      else { ThreadedElsewhere(j.x, base, VisitedAt(j, o.front), R, T, m, a); }
    }
    SameObject(j.env, j.m1, m, o);
    IsOIntro(j.env, m, o);
  }

  lemma SameSizes(j: Compaction, p: nat, m: Memory)
    requires HeapRight(j) && p in j.H && |m| == |j.m1|
    requires forall a: nat :: j.H[p].front <= a < j.H[p].end ==> a < |m| && m[a] == j.m1[a]
    ensures SizeWord(m, p + 2) == SizeWord(j.m1, p + 2) || !IsStack(j.env, j.H[p])
    ensures IsStack(j.env, j.H[p]) ==> StackInfoOf(j.env, m, p) == StackInfoOf(j.env, j.m1, p)
  {
    hide HeapRight, NewReserved;
    ObjectAt(j, p);
    if IsStack(j.env, j.H[p]) {
      StackFits(j, p);
    }
  }

  lemma PlainSizes(j: Compaction, o: Obj)
    requires HeapRight(j)
    ensures CopyEnd(j, o) == CopiedEnd(j.env, j.m1, o)
    ensures Shrunk(j, o) == WordsSaved(j.env, j.k, j.m1, j.currentStack, o)
    ensures NewReserved(j, o.p) == ReservedAfter(j.env, j.k, j.m1, j.currentStack, o.p)
    ensures FramesBounded(j.env, j.k)
  {
    hide CopiedEnd, WordsSaved, ReservedAfter, FramesBounded, AreObjects, Covers, Tiles, RootsOk;
  }

  // The label "thread": sizes, compression of the dead run below, and the
  // references that the object holds.
  method ThreadLive(s: GCState, p: nat, front: nat, endOfLastMarked: nat, currentStack: nat,
                    ghost j: Compaction, ghost st: Pass, ghost m0: Memory, ghost gap: int, ghost T1: Chains)
    returns (front': nat, skipGap: nat, ghost st': Pass)
    requires Working(s, j) && currentStack == j.currentStack
    requires Forward(j, st, m0, gap) && st.i < |j.objs| && j.objs[st.i].p == p && p in j.Live()
    requires front == FrontOf(j, st.i) && endOfLastMarked == FrontOf(j, st.e)
    requires Threaded(j.x, st.base, VisitedAt(j, front), ResolvedAt(j, FrontOf(j, st.i + 1)), T1, s.mem[..])
    requires p in T1 && |T1[p]| == 0
    modifies s.mem
    ensures Forward(j, st', s.mem[..], gap + skipGap) && st'.i == st.i + 1 == st'.e
    ensures front' == FrontOf(j, st'.i)
  {
    hide *;
    ForwardParts(j, st, m0, gap);
    SetupParts(j);
    FrontStep(j, st.i);
    FrontRange(j, st.i);
    ghost var o := j.objs[st.i];
    ghost var i, base, out := st.i, st.base, st.out;
    ghost var V, R := VisitedAt(j, o.front), ResolvedAt(j, o.end);
    MergeNone(j, st, m0, gap);
    out := st.out + j.objs[st.e..st.i];
    WorkingParts(s, j);
    MetaDataSizes();
    if front - endOfLastMarked >= SEQUENCE_METADATA_SIZE / 8 {
      MergeOne(j, st, m0, gap);
      CompressedThreaded(j, st.e, st.i, base, V, R, T1, s.mem[..]);
      Compress(s, endOfLastMarked, front);
      base, out := Compressed(st.base, endOfLastMarked, front), st.out + [DeadSequence(endOfLastMarked, front)];
    }
    assert Merged(j, i, base, out) && Threaded(j.x, base, V, R, T1, s.mem[..]);
    MergedParts(j, i, base, out);
    LiveReadable(j, i, base, R, T1, s.mem[..]);
    SameSizes(j, p, s.mem[..]);
    PlainSizes(j, o);
    var metaData, size, skipFront, skipGap', reservedNew := SizesToCopy(s, p, s.mem[p - 1], currentStack, j.m1, o);
    skipGap := skipGap';
    front' := front + size + skipFront;
    AddLive(j, i, base, out);
    var slots := ObjectSlots(s, p, false, o);
    SlotsAreReady(j, i, base);
    ghost var T2 := ThreadSlots(s, slots, j.x, base, V, R, T1);
    PassLive(j, i);
    st' := Pass(i + 1, i + 1, base, out + [o], T2);
    LiveStep(j, i, base, out + [o], T2, s.mem[..]);
  }

  lemma WorkingParts(s: GCState, j: Compaction)
    requires Working(s, j)
    ensures s.env == j.env && s.stackControls == j.k && s.roots == j.roots && s.Spaces() == j.sp
    ensures s.mem.Length == |j.m1| && s.start == j.start && s.start + s.oldGenSize == j.back
  {
  }

  lemma NothingBelow(j: Compaction)
    requires Setup(j)
    ensures ResolvedAt(j, j.start) == {}
  {
    hide HeapRight, RefsRight, DestRight, MarksRight;
    forall s | s in j.x.tgt
      ensures j.x.tgt[s] - 1 >= j.start
    {
      RefTarget(j, s);
      LiveIn(j, j.x.tgt[s]);
      LivePlace(j, j.x.tgt[s]);
    }
  }

  lemma LivePlace(j: Compaction, p: nat)
    requires HeapRight(j) && p in j.H
    ensures exists l :: 0 <= l < |j.objs| && j.objs[l].p == p && j.objs[l] == j.H[p]
    ensures j.start <= j.H[p].front < p <= j.H[p].end <= j.back && j.start < p
  {
    hide RootsOk, AreObjects;
    var l :| 0 <= l < |j.objs| && j.objs[l].p == p;
    TileBounds(j.objs, j.start, j.back, l);
  }

  lemma NoObjects(j: Compaction)
    ensures DestRight(j, [])
  {
  }

  lemma MetaDataSizes()
    ensures SEQUENCE_METADATA_SIZE == 24 && NORMAL_METADATA_SIZE == 8
  {
  }

  // Without references from below the chain is empty.
  lemma NoChain(T: Chains, p: nat, R: set<nat>)
    requires p in T && |T[p]| == 0
    ensures R + Elements(ChainOfT(T, p)) == R
  {
    EmptyChain(T, p);
  }

  lemma EmptiedAt(T: Chains, p: nat)
    requires p in T
    ensures p in Emptied(T, p) && |Emptied(T, p)[p]| == 0
  {
  }

  lemma ForwardBegin(j: Compaction, T: Chains, m: Memory)
    requires Setup(j) && Threaded(j.x, j.m1, VisitedAt(j, j.start), {}, T, m)
    ensures Forward(j, Pass(0, 0, j.m1, [], T), m, 0) && FrontOf(j, 0) == j.start
  {
    hide HeapRight, MarksRight, RefsRight, DestRight, Threaded, VisitedAt, ResolvedAt;
    NothingBelow(j);
    SetupParts(j);
    HeapTiles(j);
    NoObjects(j);
  }

  lemma ReadableParts(j: Compaction, o: Obj, m: Memory)
    requires Readable(j, o, m)
    ensures 0 < o.front < o.p <= |m| == |j.m1| && ValidEnv(j.env)
    ensures StartWord(j.env, m, o)
    ensures IsObject(j.env, m[o.p - 1 := j.m1[o.p - 1]], o)
    ensures o.p in j.H && j.H[o.p] == o
    ensures j.m1[o.p - 1].Header? && j.m1[o.p - 1].ty == o.ty < |j.env.types|
  {
    hide IsObject, ValidEnv, TagOf;
  }

  // An unmarked header belongs to a dead object, anything else to a live one.
  lemma WhichObject(j: Compaction, st: Pass, m: Memory, gap: int)
    requires Forward(j, st, m, gap) && st.i < |j.objs|
    ensures var o := j.objs[st.i];
      && 0 < o.p <= |m| && j.start <= o.front && |m| == |j.m1|
      && (o.p in j.Live() <==> !(m[o.p - 1].Header? && !m[o.p - 1].mark))
      && (o.p !in j.Live() ==> m[o.p - 1] == j.m1[o.p - 1])
      && (o.p in j.Live() ==>
            && o.p in j.x.dest && o.p in st.T
            && (m[o.p - 1].Ptr? <==> |st.T[o.p]| > 0)
            && gap <= o.p && j.x.dest[o.p] == o.p - gap)
  {
    hide *;
    ForwardParts(j, st, m, gap);
    SetupParts(j);
    MarkAtFront(j, st, m, gap);
    var o := j.objs[st.i];
    MarkTellsIs(j, st.base, m, o.p);
    ObjIn(j, st.i);
    ObjectAt(j, o.p);
    HeaderWord(j, st, m, gap);
    LiveKeys(j, o.p);
    if o.p in j.Live() {
      ThreadedHeader(j.x, st.base, VisitedAt(j, FrontOf(j, st.i)), ResolvedAt(j, FrontOf(j, st.i)), st.T, m, o.p);
      DestHere(j, st.i);
    }
  }

  lemma DestHere(j: Compaction, i: nat)
    requires DestRight(j, j.objs) && i < |j.objs| && j.objs[i].p in j.Live()
    ensures j.x.dest[j.objs[i].p] == j.objs[i].p - Gap(j, j.objs, i)
  {
  }

  // updateForwardPointersForMarkCompact
  method UpdateForwardPointers(s: GCState, currentStack: nat, ghost j: Compaction, ghost T0: Chains)
    returns (ghost st: Pass, ghost gapAll: int)
    requires Setup(j) && Working(s, j) && currentStack == j.currentStack
    requires Threaded(j.x, j.m1, VisitedAt(j, j.start), {}, T0, s.mem[..])
    modifies s.mem
    ensures Forward(j, st, s.mem[..], gapAll) && st.i == |j.objs|
  {
    hide *;
    WorkingParts(s, j);
    SetupParts(j);
    var front, back := s.start, s.start + s.oldGenSize;
    var gap, endOfLastMarked: nat := 0, front;
    st := Pass(0, 0, j.m1, [], T0);
    ForwardBegin(j, T0, s.mem[..]);
    FrontBounds(j, 0);
    while front != back
      invariant Working(s, j)
      invariant st.i <= |j.objs| && Forward(j, st, s.mem[..], gap)
      invariant front == FrontOf(j, st.i) && endOfLastMarked == FrontOf(j, st.e)
      decreases |j.objs| - st.i
    {
      WorkingParts(s, j);
      FrontBounds(j, st.i);
      ForwardParts(j, st, s.mem[..], gap);
      ghost var m0, o := s.mem[..], j.objs[st.i];
      FrontStep(j, st.i);
      ReadableAt(j, st, s.mem[..], gap);
      ReadableParts(j, j.objs[st.i], s.mem[..]);
      WhichObject(j, st, s.mem[..], gap);
      var p := AdvanceToObjectData(s, front, o);
      var header := s.mem[p - 1];
      if header.Header? && !header.mark {
        var metaDataBytes, objectBytes := SizeofObjectAux(s, p, header, o);
        DeadStep(j, st, s.mem[..], gap);
        gap := gap + (metaDataBytes + objectBytes) / 8;
        front := front + (metaDataBytes + objectBytes) / 8;
        st := st.(i := st.i + 1);
      } else {
        ChainIsBelow(j, st, s.mem[..], gap);
        ghost var T1, V, R := st.T, VisitedAt(j, front), ResolvedAt(j, front);
        if header.Ptr? {
          ChainFromStart(T1, p);
          AgreeRefl(0, s.mem[..]);
          ghost var mv := Unthread(s, p, p - gap, j.x, st.base, V, R, T1, 0, s.mem[..]);
          AgreeAll(mv, s.mem[..]);
          EmptiedAt(T1, p);
          T1 := Emptied(T1, p);
        } else {
          NoChain(T1, p, R);
        }
        assert Threaded(j.x, st.base, VisitedAt(j, front), ResolvedAt(j, FrontOf(j, st.i + 1)), T1, s.mem[..]);
        var front', skipGap, st' := ThreadLive(s, p, front, endOfLastMarked, currentStack, j, st, m0, gap, T1);
        gap, front, endOfLastMarked, st := gap + skipGap, front', front', st';
      }
    }
    FrontBounds(j, st.i);
    gapAll := gap;
  }
}
