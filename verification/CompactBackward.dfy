// The second pass, updateBackwardPointersAndSlideForMarkCompact: walk the old
// generation again, give the references from above their new values, clear the
// marks, and slide every live object down over the gap below it.

module CompactBackward {
  import opened Layout
  import opened Heap
  import opened State
  import opened MemoryCopy
  import opened ObjectSize
  import opened StackSize
  import opened StackObject
  import opened Tiling
  import opened Cursor
  import opened Threading
  import opened Roots
  import opened CopySizes
  import opened CompactSpec
  import opened CompactForward

  // ------------------------------------------------------- what a word becomes

  // A reference gets its target's new address; other words stay.
  function RefWord(j: Compaction, a: nat): Word {
    if a in j.x.tgt && j.x.tgt[a] in j.x.dest then Ptr(j.x.dest[j.x.tgt[a]])
    else if a < |j.m1| then j.m1[a] else Bits(0)
  }

  function Unmarked(w: Word): Word {
    if w.Header? then w.(mark := false) else w
  }

  // Word a of the live object o, after the compaction.
  function FinalWord(j: Compaction, o: Obj, a: nat): Word {
    if a + 1 == o.p then Unmarked(RefWord(j, a))
    else if IsStack(j.env, o) && a == o.p + 2 then Bits(NewReserved(j, o.p))
    else RefWord(j, a)
  }

  // The copied words of o stand g words below their old place.
  ghost predicate Placed(j: Compaction, o: Obj, g: nat, m: Memory) {
    forall a: nat :: o.front <= a < CopyEnd(j, o) && g <= a && a - g < |m| ==> m[a - g] == FinalWord(j, o, a)
  }

  ghost predicate SlidTo(j: Compaction, out: seq<Obj>, i: nat, m: Memory) {
    forall k :: 0 <= k < i && k < |out| && out[k].p in j.Live() ==> Placed(j, out[k], Gap(j, out, k), m)
  }

  // ------------------------------------------------------------ the invariant

  function OutFront(j: Compaction, out: seq<Obj>, i: nat): nat {
    if i < |out| then out[i].front else j.back
  }

  // References from below, and those to an object that the walk has passed.
  function ResolvedBack(j: Compaction, f: nat): set<nat> {
    set s | s in j.x.tgt && s in j.own && (j.own[s] + 1 < j.x.tgt[s] || j.x.tgt[s] < f + 1)
  }

  datatype Slide = Slide(i: nat, T: Chains, mv: Memory)

  ghost predicate Backward(j: Compaction, base: Memory, out: seq<Obj>, sl: Slide, m: Memory, gap: int) {
    && Merged(j, |j.objs|, base, out)
    && sl.i <= |out|
    && Threaded(j.x, base, j.x.tgt.Keys, ResolvedBack(j, OutFront(j, out, sl.i)), sl.T, sl.mv)
    && AgreeFrom(OutFront(j, out, sl.i), sl.mv, m)
    && AgreeBelow(j.start, sl.mv, m)
    && SlidTo(j, out, sl.i, m)
    && gap == Gap(j, out, sl.i)
  }

  lemma BackwardParts(j: Compaction, base: Memory, out: seq<Obj>, sl: Slide, m: Memory, gap: int)
    requires Backward(j, base, out, sl, m, gap)
    ensures Merged(j, |j.objs|, base, out) && sl.i <= |out| && Setup(j)
    ensures Threaded(j.x, base, j.x.tgt.Keys, ResolvedBack(j, OutFront(j, out, sl.i)), sl.T, sl.mv)
    ensures AgreeFrom(OutFront(j, out, sl.i), sl.mv, m) && AgreeBelow(j.start, sl.mv, m)
    ensures SlidTo(j, out, sl.i, m) && gap == Gap(j, out, sl.i)
    ensures |m| == |sl.mv| == |base| == |j.m1|
  {
    hide Merged, Threaded, SlidTo, OutFront, ResolvedBack, Gap;
    MergedParts(j, |j.objs|, base, out);
    BaseLength(j, |j.objs|, base);
    ThreadedLength(j.x, base, j.x.tgt.Keys, ResolvedBack(j, OutFront(j, out, sl.i)), sl.T, sl.mv);
  }

  lemma BackwardIntro(j: Compaction, base: Memory, out: seq<Obj>, sl: Slide, m: Memory, gap: int)
    requires Merged(j, |j.objs|, base, out) && sl.i <= |out|
    requires Threaded(j.x, base, j.x.tgt.Keys, ResolvedBack(j, OutFront(j, out, sl.i)), sl.T, sl.mv)
    requires AgreeFrom(OutFront(j, out, sl.i), sl.mv, m) && AgreeBelow(j.start, sl.mv, m)
    requires SlidTo(j, out, sl.i, m) && gap == Gap(j, out, sl.i)
    ensures Backward(j, base, out, sl, m, gap)
  {
    hide Merged, Threaded, SlidTo, OutFront, ResolvedBack, Gap, AgreeFrom, AgreeBelow;
  }

  // ---------------------------------------------------- the tiling out

  lemma MergedTiles(j: Compaction, base: Memory, out: seq<Obj>)
    requires Merged(j, |j.objs|, base, out)
    ensures Setup(j) && HeapRight(j) && Tiles(out, j.start, j.back) && AllOut(j, base, out)
    ensures HasLive(j, out, |j.objs|) && DestRight(j, out) && BaseOk(j, |j.objs|, base)
    ensures 0 < j.start <= j.back <= |j.m1| == |base|
  {
    hide *;
    MergedParts(j, |j.objs|, base, out);
    SetupParts(j);
    FrontBounds(j, |j.objs|);
    FrontRange(j, |j.objs|);
    OutParts(j, base, out, FrontOf(j, |j.objs|), |j.objs|);
    BaseLength(j, |j.objs|, base);
  }

  lemma OutStep(j: Compaction, out: seq<Obj>, i: nat)
    requires Tiles(out, j.start, j.back) && i < |out|
    ensures OutFront(j, out, i) == out[i].front && OutFront(j, out, i + 1) == out[i].end
    ensures j.start <= out[i].front < out[i].p <= out[i].end <= j.back
  {
    TileBounds(out, j.start, j.back, i);
  }

  lemma OutDone(j: Compaction, out: seq<Obj>, i: nat)
    requires Tiles(out, j.start, j.back) && i <= |out|
    ensures j.start <= OutFront(j, out, i) <= j.back
    ensures OutFront(j, out, i) == j.back <==> i == |out|
  {
    if i < |out| { TileBounds(out, j.start, j.back, i); }
    else if |out| > 0 { TileBounds(out, j.start, j.back, 0); }
  }

  // A live object is one of the objects of out.
  lemma LiveIsOut(j: Compaction, base: Memory, out: seq<Obj>, p: nat)
    requires Merged(j, |j.objs|, base, out) && p in j.x.dest
    ensures p in j.H && exists l :: 0 <= l < |out| && out[l] == j.H[p]
  {
    hide *;
    MergedTiles(j, base, out);
    LiveIn(j, p);
    LiveKeys(j, p);
    LivePlace(j, p);
    var l :| 0 <= l < |j.objs| && j.objs[l].p == p && j.objs[l] == j.H[p];
    HasLiveAt(j, out, l);
  }

  lemma HasLiveAt(j: Compaction, out: seq<Obj>, l: nat)
    requires HasLive(j, out, |j.objs|) && l < |j.objs| && j.objs[l].p in j.Live()
    ensures j.objs[l] in out
  {
  }

  lemma OutAt(j: Compaction, base: Memory, out: seq<Obj>, i: nat)
    requires AllOut(j, base, out) && i < |out|
    ensures OutObject(j, base, out[i])
  {
    hide OutObject;
  }

  lemma OutParts1(j: Compaction, base: Memory, o: Obj)
    requires OutObject(j, base, o)
    ensures IsObject(j.env, base, o) && Clean(j.env, base, o)
    ensures 0 < o.front < o.p <= o.end <= |base| && base[o.p - 1].Header? && (base[o.p - 1].mark <==> o.p in j.Live())
    ensures base[o.p - 1].ty == o.ty < |j.env.types|
    ensures o.p in j.Live() ==> o.p in j.H && j.H[o.p] == o
    ensures o.p == o.front + MetaWords(TagOf(j.env, o))
  {
    hide Clean;
    assert MarkAt(base, o.p) <==> base[o.p - 1].mark;
  }

  // A word of an object of out that is a live header is that object's header.
  lemma OutHeader(j: Compaction, base: Memory, out: seq<Obj>, i: nat, a: nat)
    requires Merged(j, |j.objs|, base, out) && i < |out| && out[i].front <= a < out[i].end && a + 1 in j.x.dest
    ensures out[i].p == a + 1
  {
    hide *;
    MergedTiles(j, base, out);
    LiveIsOut(j, base, out, a + 1);
    ObjectAt(j, a + 1);
    HeaderInside(j, a + 1);
    var l :| 0 <= l < |out| && out[l] == j.H[a + 1];
    if l != i { TilesApart(out, j.start, j.back, l, i); }
  }

  // A reference in an object of out is a slot of that object, which is live.
  lemma OutRef(j: Compaction, base: Memory, out: seq<Obj>, i: nat, a: nat)
    requires Merged(j, |j.objs|, base, out) && i < |out| && out[i].front <= a < out[i].end && a in j.x.tgt
    ensures out[i].p in j.Live() && out[i].p > 0 && a in j.own && j.own[a] == out[i].p - 1
  {
    hide *;
    MergedTiles(j, base, out);
    SetupParts(j);
    OutStep(j, out, i);
    RefOwner(j, a);
    if j.own[a] == 0 && a in j.roots {
      RootNotIn(j, a);
    } else {
      var q := j.own[a] + 1;
      LiveKeys(j, q);
      LiveIsOut(j, base, out, q);
      SlotExtent(j, q, a);
      ObjectAt(j, q);
      var l :| 0 <= l < |out| && out[l] == j.H[q];
      if l != i { TilesApart(out, j.start, j.back, l, i); }
    }
  }

  lemma RootNotIn(j: Compaction, a: nat)
    requires HeapRight(j) && a in j.roots
    ensures !(j.start <= a < j.back)
  {
    hide *;
    FrontBounds(j, 0);
    FrontBounds(j, |j.objs|);
    StartFront(j);
    if j.start <= a < j.back {
      Locate(j, 0, |j.objs|, a);
      var l :| 0 <= l < |j.objs| && j.objs[l].front <= a < j.objs[l].end;
      ObjIn(j, l);
      RootOutside(j, a, j.objs[l].p);
    }
  }

  // Live objects are as they were after marking.
  lemma LiveBase(j: Compaction, base: Memory, o: Obj, a: nat)
    requires Setup(j) && BaseOk(j, |j.objs|, base) && o.p in j.Live() && o.p in j.H && j.H[o.p] == o &&
      o.front <= a < o.end
    ensures a < |base| == |j.m1| && base[a] == j.m1[a]
  {
    hide HeapRight, RefsRight, DestRight, MarksRight;
    SetupParts(j);
    ObjectAt(j, o.p);
    if base[a] != j.m1[a] {
      var l :| 0 <= l < |j.objs| && j.objs[l].p !in j.Live() && j.objs[l].front <= a < j.objs[l].end;
      ObjIn(j, l);
      OneExtent(j, o.p, j.objs[l].p, a);
      assert false;
    }
  }

  // ------------------------------------------------------------- new places

  lemma SkipOut(j: Compaction, base: Memory, out: seq<Obj>, i: nat)
    requires Merged(j, |j.objs|, base, out) && i < |out|
    ensures Skip(j, out[i]) <= out[i].end - out[i].front
    ensures out[i].p in j.Live() ==> out[i].front < CopyEnd(j, out[i]) <= out[i].end - Skip(j, out[i])
    ensures out[i].p !in j.Live() ==> Skip(j, out[i]) == out[i].end - out[i].front
    ensures Gap(j, out, i + 1) == Gap(j, out, i) + Skip(j, out[i])
  {
    hide *;
    MergedTiles(j, base, out);
    OutAt(j, base, out, i);
    OutParts1(j, base, out[i]);
    SkipIs(j, out[i]);
    GapNextOut(j, out, i);
    if out[i].p in j.Live() { SkipFits(j, out[i].p); }
  }

  lemma SkipIs(j: Compaction, o: Obj)
    requires o.front <= o.end
    ensures Skip(j, o) == if o.p in j.Live() then Shrunk(j, o) else o.end - o.front
  {
  }

  lemma GapNextOut(j: Compaction, out: seq<Obj>, i: nat)
    requires i < |out|
    ensures Gap(j, out, i + 1) == Gap(j, out, i) + Skip(j, out[i])
    ensures Gap(j, out, 0) == 0
  {
  }

  // Destinations do not go below the start of the heap, and do not cross.
  lemma {:induction false} PlacesOrdered(j: Compaction, base: Memory, out: seq<Obj>, k: nat, i: nat)
    requires Merged(j, |j.objs|, base, out) && k <= i <= |out|
    ensures OutFront(j, out, k) - Gap(j, out, k) <= OutFront(j, out, i) - Gap(j, out, i)
    decreases i
  {
    hide *;
    if k < i {
      MergedTiles(j, base, out);
      PlacesOrdered(j, base, out, k, i - 1);
      OutStep(j, out, i - 1);
      SkipOut(j, base, out, i - 1);
    }
  }

  lemma PlaceAbove(j: Compaction, base: Memory, out: seq<Obj>, i: nat)
    requires Merged(j, |j.objs|, base, out) && i <= |out|
    ensures j.start <= OutFront(j, out, i) - Gap(j, out, i)
  {
    hide *;
    MergedTiles(j, base, out);
    PlacesOrdered(j, base, out, 0, i);
    OutBegin(j, out);
  }

  lemma OutBegin(j: Compaction, out: seq<Obj>)
    requires Tiles(out, j.start, j.back)
    ensures OutFront(j, out, 0) == j.start && Gap(j, out, 0) == 0
  {
  }

  // An object slid before does not reach into the place of the next one.
  lemma PlaceBelow(j: Compaction, base: Memory, out: seq<Obj>, k: nat, i: nat)
    requires Merged(j, |j.objs|, base, out) && k < i <= |out| && out[k].p in j.Live()
    ensures CopyEnd(j, out[k]) - Gap(j, out, k) <= OutFront(j, out, i) - Gap(j, out, i)
  {
    hide *;
    MergedTiles(j, base, out);
    OutStep(j, out, k);
    SkipOut(j, base, out, k);
    PlacesOrdered(j, base, out, k + 1, i);
  }

  // ----------------------------------------------- reading the next object

  // The words of the object the walk stands before, but for chains and slots.
  lemma ReadOut(j: Compaction, base: Memory, out: seq<Obj>, sl: Slide, m: Memory, gap: int, a: nat)
    requires Backward(j, base, out, sl, m, gap) && sl.i < |out| && out[sl.i].front <= a < out[sl.i].end
    ensures a < |m| == |base| && m[a] == sl.mv[a]
    ensures a !in j.x.tgt && a + 1 !in j.x.dest ==> m[a] == base[a]
  {
    hide *;
    BackwardParts(j, base, out, sl, m, gap);
    MergedTiles(j, base, out);
    OutStep(j, out, sl.i);
    AgreeAt(OutFront(j, out, sl.i), sl.mv, m, a);
    if a !in j.x.tgt && a + 1 !in j.x.dest {
      ThreadedElsewhere(j.x, base, j.x.tgt.Keys, ResolvedBack(j, OutFront(j, out, sl.i)), sl.T, sl.mv, a);
    }
  }

  lemma DeadWordOut(j: Compaction, base: Memory, out: seq<Obj>, sl: Slide, m: Memory, gap: int, a: nat)
    requires Backward(j, base, out, sl, m, gap) && sl.i < |out| && out[sl.i].p !in j.Live()
    requires out[sl.i].front <= a < out[sl.i].end
    ensures a < |m| == |base| && m[a] == base[a]
  {
    hide *;
    BackwardParts(j, base, out, sl, m, gap);
    if a in j.x.tgt { OutRef(j, base, out, sl.i, a); }
    if a + 1 in j.x.dest { OutHeader(j, base, out, sl.i, a); LiveKeys(j, a + 1); }
    ReadOut(j, base, out, sl, m, gap, a);
  }

  lemma DeadOut(j: Compaction, base: Memory, out: seq<Obj>, sl: Slide, m: Memory, gap: int)
    requires Backward(j, base, out, sl, m, gap) && sl.i < |out| && out[sl.i].p !in j.Live()
    ensures var o := out[sl.i];
      && 0 < o.front < o.p <= |m|
      && m[o.p - 1].Header? && !m[o.p - 1].mark && m[o.p - 1].ty == o.ty
      && (m[o.front] == Bits(0) <==> TagOf(j.env, o) == SequenceTag)
  {
    hide *;
    BackwardParts(j, base, out, sl, m, gap);
    MergedTiles(j, base, out);
    var o := out[sl.i];
    OutAt(j, base, out, sl.i);
    OutParts1(j, base, o);
    MetaFacts(TagOf(j.env, o));
    DeadWordOut(j, base, out, sl, m, gap, o.p - 1);
    DeadWordOut(j, base, out, sl, m, gap, o.front);
    if TagOf(j.env, o) == SequenceTag { CleanCounter(j.env, base, o); }
  }

  lemma DeadObjectOut(j: Compaction, base: Memory, out: seq<Obj>, sl: Slide, m: Memory, gap: int)
    requires Backward(j, base, out, sl, m, gap) && sl.i < |out| && out[sl.i].p !in j.Live()
    ensures IsO(j.env, m, out[sl.i])
  {
    hide *;
    BackwardParts(j, base, out, sl, m, gap);
    MergedTiles(j, base, out);
    SetupParts(j);
    var o := out[sl.i];
    OutAt(j, base, out, sl.i);
    OutParts1(j, base, o);
    OutStep(j, out, sl.i);
    MetaFacts(TagOf(j.env, o));
    forall a: nat | o.front <= a < o.end
      ensures a < |m| && m[a] == base[a]
    {
      DeadWordOut(j, base, out, sl, m, gap, a);
    }
    SameObject(j.env, base, m, o);
    IsOIntro(j.env, m, o);
  }

  lemma LiveOut(j: Compaction, base: Memory, out: seq<Obj>, sl: Slide, m: Memory, gap: int)
    requires Backward(j, base, out, sl, m, gap) && sl.i < |out| && out[sl.i].p in j.Live()
    ensures var o := out[sl.i];
      && 0 < o.front < o.p <= |m| && o.p in j.x.dest && o.p in sl.T && o.p in j.H && j.H[o.p] == o
      && (m[o.p - 1].Ptr? <==> |sl.T[o.p]| > 0) && (m[o.p - 1].Header? <==> |sl.T[o.p]| == 0)
      && (m[o.p - 1].Header? ==> m[o.p - 1].mark)
      && (m[o.front] == Bits(0) <==> TagOf(j.env, o) == SequenceTag)
      && m[o.p - 1] == sl.mv[o.p - 1]
  {
    hide *;
    BackwardParts(j, base, out, sl, m, gap);
    MergedTiles(j, base, out);
    SetupParts(j);
    var o := out[sl.i];
    OutAt(j, base, out, sl.i);
    OutParts1(j, base, o);
    OutStep(j, out, sl.i);
    MetaFacts(TagOf(j.env, o));
    LiveKeys(j, o.p);
    ThreadedHeader(j.x, base, j.x.tgt.Keys, ResolvedBack(j, OutFront(j, out, sl.i)), sl.T, sl.mv, o.p);
    ReadOut(j, base, out, sl, m, gap, o.p - 1);
    ReadOut(j, base, out, sl, m, gap, o.front);
    if TagOf(j.env, o) == SequenceTag {
      CleanCounter(j.env, base, o);
      if o.front in j.x.tgt {
        OutRef(j, base, out, sl.i, o.front);
        SeqFrontNoRef(j, o);
      }
      if o.front + 1 in j.x.dest { OutHeader(j, base, out, sl.i, o.front); }
    }
  }

  // The counter of a sequence is no slot.
  lemma SeqFrontNoRef(j: Compaction, o: Obj)
    requires Setup(j) && o.p in j.Live() && o.p in j.H && j.H[o.p] == o && o.front in j.x.tgt && o.front < o.end
    ensures o.front >= o.p
  {
    hide *;
    SetupParts(j);
    RefInside(j, o.front, o.p);
    SlotExtent(j, o.p, o.front);
  }

  // advanceToObjectData finds the next object's data pointer.
  lemma NextPointer(j: Compaction, base: Memory, out: seq<Obj>, sl: Slide, m: Memory, gap: int)
    requires Backward(j, base, out, sl, m, gap) && sl.i < |out|
    ensures var o := out[sl.i];
      && 0 < o.front < o.p <= |m| && StartWord(j.env, m, o)
      && (o.p in j.Live() <==> !(m[o.p - 1].Header? && !m[o.p - 1].mark))
  {
    hide *;
    BackwardParts(j, base, out, sl, m, gap);
    MergedTiles(j, base, out);
    var o := out[sl.i];
    OutAt(j, base, out, sl.i);
    OutParts1(j, base, o);
    MetaFacts(TagOf(j.env, o));
    if o.p in j.Live() { LiveOut(j, base, out, sl, m, gap); } else { DeadOut(j, base, out, sl, m, gap); }
    StartWordIntro(j.env, m, o);
  }

  // ------------------------------------------------------------ a dead object

  lemma ResolvedPast(j: Compaction, base: Memory, out: seq<Obj>, i: nat, s: nat)
    requires Merged(j, |j.objs|, base, out) && i < |out| && s in j.x.tgt
    ensures j.x.tgt[s] < out[i].end + 1 <==> j.x.tgt[s] < out[i].front + 1 || j.x.tgt[s] == out[i].p
    ensures s in j.own
  {
    hide *;
    MergedTiles(j, base, out);
    SetupParts(j);
    OutStep(j, out, i);
    RefOwner(j, s);
    RefTarget(j, s);
    var t := j.x.tgt[s];
    LiveKeys(j, t);
    LiveIsOut(j, base, out, t);
    ObjectAt(j, t);
    if out[i].front <= t - 1 < out[i].end { OutHeader(j, base, out, i, t - 1); }
    OutAt(j, base, out, i);
    OutParts1(j, base, out[i]);
    var l :| 0 <= l < |out| && out[l] == j.H[t];
    HeaderInside(j, t);
  }

  lemma ResolvedStep(j: Compaction, base: Memory, out: seq<Obj>, i: nat)
    requires Merged(j, |j.objs|, base, out) && i < |out|
    ensures ResolvedBack(j, out[i].end) == ResolvedBack(j, out[i].front) + TargetsOf(j, out[i].p)
  {
    hide Merged;
    forall s | s in j.x.tgt
      ensures j.x.tgt[s] < out[i].end + 1 <==> j.x.tgt[s] < out[i].front + 1 || j.x.tgt[s] == out[i].p
      ensures s in j.own
    {
      ResolvedPast(j, base, out, i, s);
    }
  }

  function TargetsOf(j: Compaction, p: nat): set<nat> {
    set s | s in j.x.tgt && s in j.own && j.x.tgt[s] == p
  }

  lemma NoTargets(j: Compaction, p: nat)
    requires RefsRight(j) && p !in j.Live()
    ensures TargetsOf(j, p) == {}
  {
    forall s | s in j.x.tgt
      ensures j.x.tgt[s] != p
    {
      RefTarget(j, s);
    }
  }

  lemma AgreeLess(lo: nat, hi: nat, m: Memory, m': Memory)
    requires AgreeFrom(lo, m, m') && lo <= hi
    ensures AgreeFrom(hi, m, m')
  {
  }

  lemma SlidDead(j: Compaction, out: seq<Obj>, i: nat, m: Memory)
    requires SlidTo(j, out, i, m) && i < |out| && out[i].p !in j.Live()
    ensures SlidTo(j, out, i + 1, m)
  {
    hide Placed, Gap;
  }

  lemma DeadBack(j: Compaction, base: Memory, out: seq<Obj>, sl: Slide, m: Memory, gap: int)
    requires Backward(j, base, out, sl, m, gap) && sl.i < |out| && out[sl.i].p !in j.Live()
    ensures Backward(j, base, out, sl.(i := sl.i + 1), m, gap + (out[sl.i].end - out[sl.i].front))
  {
    hide *;
    BackwardParts(j, base, out, sl, m, gap);
    MergedTiles(j, base, out);
    SetupParts(j);
    OutStep(j, out, sl.i);
    SkipOut(j, base, out, sl.i);
    ResolvedStep(j, base, out, sl.i);
    NoTargets(j, out[sl.i].p);
    assert ResolvedBack(j, out[sl.i].end) == ResolvedBack(j, out[sl.i].front);
    AgreeLess(out[sl.i].front, out[sl.i].end, sl.mv, m);
    SlidDead(j, out, sl.i, m);
    BackwardIntro(j, base, out, sl.(i := sl.i + 1), m, gap + (out[sl.i].end - out[sl.i].front));
  }

  // ------------------------------------------------------------ a live object

  // The chain of the next object holds slots that the walk has not passed.
  lemma ChainIsAbove(j: Compaction, base: Memory, out: seq<Obj>, sl: Slide, m: Memory, gap: int)
    requires Backward(j, base, out, sl, m, gap) && sl.i < |out| && out[sl.i].p in j.Live() && out[sl.i].p in sl.T
    ensures var o := out[sl.i];
      && ChainFrom(o.front, sl.T, o.p)
      && ResolvedBack(j, o.front) + Elements(ChainOfT(sl.T, o.p)) == ResolvedBack(j, o.end)
  {
    hide *;
    BackwardParts(j, base, out, sl, m, gap);
    MergedTiles(j, base, out);
    var o := out[sl.i];
    OutStep(j, out, sl.i);
    ResolvedStep(j, base, out, sl.i);
    var R := ResolvedBack(j, o.front);
    forall s
      ensures s in Elements(ChainOfT(sl.T, o.p)) ==> s in TargetsOf(j, o.p) && o.front <= s
      ensures s in TargetsOf(j, o.p) && s !in R ==> s in Elements(ChainOfT(sl.T, o.p))
    {
      ChainTarget(j, base, out, sl, m, gap, s);
    }
    ChainFromElements(o.front, sl.T, o.p);
  }

  lemma ChainFromElements(lo: nat, T: Chains, t: nat)
    requires forall s :: s in Elements(ChainOfT(T, t)) ==> lo <= s
    ensures ChainFrom(lo, T, t)
  {
    var c := ChainOfT(T, t);
    forall k | 0 <= k < |c|
      ensures lo <= c[k]
    {
      assert c[k] in Elements(c);
    }
  }

  lemma ChainTarget(j: Compaction, base: Memory, out: seq<Obj>, sl: Slide, m: Memory, gap: int, s: nat)
    requires Backward(j, base, out, sl, m, gap) && sl.i < |out| && out[sl.i].p in j.Live() && out[sl.i].p in sl.T
    ensures var o := out[sl.i];
      && (s in Elements(ChainOfT(sl.T, o.p)) ==> s in TargetsOf(j, o.p) && o.front <= s)
      && (s in TargetsOf(j, o.p) && s !in ResolvedBack(j, o.front) ==> s in Elements(ChainOfT(sl.T, o.p)))
  {
    hide *;
    BackwardParts(j, base, out, sl, m, gap);
    MergedTiles(j, base, out);
    var o := out[sl.i];
    OutStep(j, out, sl.i);
    var R := ResolvedBack(j, o.front);
    ChainElement(j.x, base, j.x.tgt.Keys, R, sl.T, sl.mv, o.p, s);
    TargetIs(j, o.p, s);
    if s in Elements(ChainOfT(sl.T, o.p)) { SlotAbove(j, base, out, sl.i, s); }
  }

  // The chain of t holds exactly the unresolved references to t.
  lemma ChainElement(x: Refs, base: Memory, V: set<nat>, R: set<nat>, T: Chains, m: Memory, t: nat, s: nat)
    requires Threaded(x, base, V, R, T, m) && t in T
    ensures s in Elements(ChainOfT(T, t)) <==> s in V && s !in R && s in x.tgt && x.tgt[s] == t
  {
    hide Threaded, ChainAt, Distinct;
    ChainOf(x, base, V, R, T, m, t);
    var c := ChainOfT(T, t);
    if s in Elements(c) {
      var k :| 0 <= k < |c| && c[k] == s;
    }
    if s in V && s !in R && s in x.tgt && x.tgt[s] == t {
      OnChain(x, base, V, R, T, m, s);
      var k :| 0 <= k < |c| && c[k] == s;
    }
  }

  lemma TargetIs(j: Compaction, p: nat, s: nat)
    ensures s in TargetsOf(j, p) <==> s in j.x.tgt && s in j.own && j.x.tgt[s] == p
  {
  }

  lemma OnChain(x: Refs, base: Memory, V: set<nat>, R: set<nat>, T: Chains, m: Memory, s: nat)
    requires Threaded(x, base, V, R, T, m) && s in V && s !in R && s in x.tgt
    ensures x.tgt[s] in T && s in T[x.tgt[s]]
  {
    hide InChain, ChainAt, RefsOk;
    RefKeys(x, base, s) by { ThreadedRefs(x, base, V, R, T, m); }
  }

  lemma ThreadedRefs(x: Refs, base: Memory, V: set<nat>, R: set<nat>, T: Chains, m: Memory)
    requires Threaded(x, base, V, R, T, m)
    ensures RefsOk(x, base) && T.Keys == x.dest.Keys
  {
    hide InChain, ChainAt, RefsOk;
  }

  lemma RefKeys(x: Refs, base: Memory, s: nat)
    requires RefsOk(x, base) && s in x.tgt
    ensures x.tgt[s] in x.dest
  {
  }

  // A reference to object i that is not resolved comes from i or above.
  lemma SlotAbove(j: Compaction, base: Memory, out: seq<Obj>, i: nat, s: nat)
    requires Merged(j, |j.objs|, base, out) && i < |out|
    requires s in j.x.tgt && s !in ResolvedBack(j, out[i].front) && j.x.tgt[s] == out[i].p
    ensures s >= out[i].front && s in TargetsOf(j, out[i].p)
  {
    hide *;
    MergedTiles(j, base, out);
    SetupParts(j);
    OutStep(j, out, i);
    RefOwner(j, s);
    NotResolved(j, out[i].front, s);
    TargetIs(j, out[i].p, s);
    var q := j.own[s] + 1;
    LiveKeys(j, q);
    SlotExtent(j, q, s);
  }

  lemma NotResolved(j: Compaction, f: nat, s: nat)
    requires s in j.x.tgt && s in j.own && s !in ResolvedBack(j, f)
    ensures j.own[s] + 1 >= j.x.tgt[s] > f
  {
  }

  // With its references resolved and its header back, the words of o are final
  // but for the mark and a stack's new size.
  lemma LiveWord(j: Compaction, base: Memory, out: seq<Obj>, i: nat, T: Chains, mv: Memory, a: nat)
    requires Merged(j, |j.objs|, base, out) && i < |out| && out[i].p in j.Live()
    requires Threaded(j.x, base, j.x.tgt.Keys, ResolvedBack(j, out[i].end), T, mv)
    requires out[i].p in T && |T[out[i].p]| == 0 && out[i].front <= a < out[i].end
    ensures a < |mv| == |j.m1| && mv[a] == RefWord(j, a)
  {
    hide *;
    MergedTiles(j, base, out);
    SetupParts(j);
    OutStep(j, out, i);
    var o := out[i];
    var R := ResolvedBack(j, o.end);
    OutAt(j, base, out, i);
    OutParts1(j, base, o);
    LiveBase(j, base, o, a);
    ThreadedLength(j.x, base, j.x.tgt.Keys, R, T, mv);
    RefWordIs(j, a);
    if a in j.x.tgt {
      OutRef(j, base, out, i, a);
      RefTarget(j, a);
      LiveKeys(j, j.x.tgt[a]);
      ResolvedHere(j, o, a);
      ResolvedWord(j.x, base, j.x.tgt.Keys, R, T, mv, a);
    } else if a + 1 in j.x.dest {
      OutHeader(j, base, out, i, a);
      ThreadedHeader(j.x, base, j.x.tgt.Keys, R, T, mv, o.p);
    } else {
      ThreadedElsewhere(j.x, base, j.x.tgt.Keys, R, T, mv, a);
    }
  }

  lemma RefWordIs(j: Compaction, a: nat)
    requires a < |j.m1|
    ensures a !in j.x.tgt ==> RefWord(j, a) == j.m1[a]
    ensures a in j.x.tgt && j.x.tgt[a] in j.x.dest ==> RefWord(j, a) == Ptr(j.x.dest[j.x.tgt[a]])
  {
  }

  lemma ResolvedHere(j: Compaction, o: Obj, a: nat)
    requires a in j.x.tgt && a in j.own && o.p > 0 && j.own[a] == o.p - 1 && o.p <= o.end
    ensures a in ResolvedBack(j, o.end)
  {
  }

  lemma ResolvedWord(x: Refs, base: Memory, V: set<nat>, R: set<nat>, T: Chains, m: Memory, s: nat)
    requires Threaded(x, base, V, R, T, m) && s in R && s < |m| && s in x.tgt && x.tgt[s] in x.dest
    ensures m[s] == Ptr(x.dest[x.tgt[s]])
  {
    hide InChain, ChainAt, RefsOk;
  }

  ghost predicate LiveWords(j: Compaction, o: Obj, m: Memory) {
    |m| == |j.m1| && forall a: nat :: o.front <= a < o.end && a < |m| ==> m[a] == RefWord(j, a)
  }

  lemma WordsLive(j: Compaction, base: Memory, out: seq<Obj>, i: nat, T: Chains, mv: Memory, m: Memory)
    requires Merged(j, |j.objs|, base, out) && i < |out| && out[i].p in j.Live()
    requires Threaded(j.x, base, j.x.tgt.Keys, ResolvedBack(j, out[i].end), T, mv)
    requires out[i].p in T && |T[out[i].p]| == 0
    requires AgreeFrom(out[i].front, mv, m)
    ensures LiveWords(j, out[i], m)
  {
    hide *;
    MergedTiles(j, base, out);
    OutStep(j, out, i);
    ThreadedLength(j.x, base, j.x.tgt.Keys, ResolvedBack(j, out[i].end), T, mv);
    AgreeLength(out[i].front, mv, m);
    forall a: nat | out[i].front <= a < out[i].end
      ensures a < |m| && m[a] == RefWord(j, a)
    {
      LiveWord(j, base, out, i, T, mv, a);
      AgreeAt(out[i].front, mv, m, a);
    }
    LiveWordsIntro(j, out[i], m);
  }

  lemma LiveWordsIntro(j: Compaction, o: Obj, m: Memory)
    requires |m| == |j.m1|
    requires forall a: nat :: o.front <= a < o.end ==> a < |m| && m[a] == RefWord(j, a)
    ensures LiveWords(j, o, m)
  {
    hide RefWord;
  }

  lemma LiveWordAt(j: Compaction, o: Obj, m: Memory, a: nat)
    requires LiveWords(j, o, m) && o.front <= a < o.end && a < |m|
    ensures |m| == |j.m1| && m[a] == RefWord(j, a)
  {
  }

  lemma LiveLength(j: Compaction, o: Obj, m: Memory)
    requires LiveWords(j, o, m)
    ensures |m| == |j.m1|
  {
  }

  // Words of a live object that are no slots are as they were.
  lemma NonSlotWord(j: Compaction, o: Obj, m: Memory, a: nat)
    requires Setup(j) && o.p in j.Live() && o.p in j.H && j.H[o.p] == o && LiveWords(j, o, m)
    requires o.front <= a < o.end && a !in o.slots
    ensures a < |m| == |j.m1| && m[a] == j.m1[a]
  {
    hide *;
    SetupParts(j);
    ObjectAt(j, o.p);
    LiveLength(j, o, m);
    LiveWordAt(j, o, m, a);
    RefWordIs(j, a);
    if a in j.x.tgt { RefInside(j, a, o.p); }
  }

  lemma LiveObject(j: Compaction, o: Obj, m: Memory)
    requires Setup(j) && o.p in j.Live() && o.p in j.H && j.H[o.p] == o && LiveWords(j, o, m)
    ensures 0 < o.front < o.p <= o.end <= |m| == |j.m1| && IsO(j.env, m, o) && m[o.p - 1] == j.m1[o.p - 1]
    ensures m[o.p - 1].Header?
  {
    hide *;
    SetupParts(j);
    ObjectAt(j, o.p);
    HeaderInside(j, o.p);
    LiveLength(j, o, m);
    SlotsInside(j.env, j.m1, o);
    HeaderNoSlot(j, o);
    NonSlotWord(j, o, m, o.p - 1);
    forall a: nat | o.front <= a < o.end && a !in o.slots
      ensures m[a] == j.m1[a]
    {
      NonSlotWord(j, o, m, a);
    }
    StableObject(j.env, j.m1, m, o);
    IsOIntro(j.env, m, o);
  }

  lemma HeaderNoSlot(j: Compaction, o: Obj)
    requires HeapRight(j) && o.p in j.H && j.H[o.p] == o
    ensures forall a: nat :: a < o.p ==> a !in o.slots
  {
    hide *;
    if a: nat :| a < o.p && a in o.slots {
      SlotExtent(j, o.p, a);
    }
  }

  lemma StableObject(env: Env, m: Memory, m': Memory, o: Obj)
    requires ValidEnv(env) && IsObject(env, m, o) && |m'| == |m|
    requires m'[o.p - 1] == m[o.p - 1]
    requires forall a: nat :: a < o.p ==> a !in o.slots
    requires forall a: nat :: o.front <= a < o.end && a !in o.slots ==> m'[a] == m[a]
    ensures IsObject(env, m', o)
  {
    hide ValidEnv, SlotsOf, DataWords;
    assert env.types[o.ty].tag == SequenceTag ==> m[o.front].Bits? && o.front < o.p;
    ObjectStable(env, m, m', o);
  }

  lemma LiveStackInfo(j: Compaction, o: Obj, m: Memory)
    requires Setup(j) && o.p in j.Live() && o.p in j.H && j.H[o.p] == o && LiveWords(j, o, m) && IsStack(j.env, o)
    ensures StackInfoOf(j.env, m, o.p) == StackInfoOf(j.env, j.m1, o.p)
    ensures SizeWord(m, o.p + 2) == SizeWord(j.m1, o.p + 2)
  {
    hide *;
    SetupParts(j);
    ObjectAt(j, o.p);
    StackFits(j, o.p);
    StackSlotsHigh(j.env, j.m1, o);
    NonSlotWord(j, o, m, o.p + 2);
    NonSlotWord(j, o, m, o.p + 3);
    var used := StackInfoOf(j.env, j.m1, o.p).used;
    if used > 0 {
      TopNotSlot(j.env, j.m1, o);
      NonSlotWord(j, o, m, o.p + 4 + used / 8 - 1);
    }
    SameStackInfo(j.env, j.m1, m, o.p);
  }

  // ------------------------------------------------------------------ sliding

  // Memory after the object's own size and mark were brought up to date.
  function Finished(j: Compaction, o: Obj, m: Memory): (m': Memory)
    ensures |m'| == |m|
  {
    var m' :=
      if IsStack(j.env, o) && o.p + 2 < |m| && NewReserved(j, o.p) >= 0 then m[o.p + 2 := Bits(NewReserved(j, o.p))]
      else m;
    if 0 < o.p <= |m| then m'[o.p - 1 := Unmarked(m'[o.p - 1])] else m'
  }

  lemma FinishedAt(j: Compaction, o: Obj, m: Memory, a: nat)
    requires LiveWords(j, o, m) && 0 < o.front < o.p <= o.end <= |m| && a < |m|
    requires IsStack(j.env, o) ==> o.p + 4 <= o.end && NewReserved(j, o.p) >= 0
    ensures o.front <= a < o.end ==> Finished(j, o, m)[a] == FinalWord(j, o, a)
    ensures !(o.front <= a < o.end) && a + 1 != o.p ==> Finished(j, o, m)[a] == m[a]
  {
    hide RefWord, NewReserved, IsStack;
  }

  lemma PlacedIntro(j: Compaction, o: Obj, m: Memory, g: nat)
    requires LiveWords(j, o, m) && 0 < o.front < o.p <= CopyEnd(j, o) <= o.end <= |m| && g <= o.front
    requires IsStack(j.env, o) ==> o.p + 4 <= o.end && NewReserved(j, o.p) >= 0
    ensures Placed(j, o, g, Copied(Finished(j, o, m), o.front, o.front - g, CopyEnd(j, o) - o.front))
  {
    hide FinalWord, Finished, CopyEnd, LiveWords, NewReserved, IsStack, Copied;
    var m' := Finished(j, o, m);
    forall a: nat | o.front <= a < CopyEnd(j, o)
      ensures g <= a && Copied(m', o.front, o.front - g, CopyEnd(j, o) - o.front)[a - g] == FinalWord(j, o, a)
    {
      CopiedAt(m', o.front, o.front - g, CopyEnd(j, o) - o.front, a - g);
      FinishedAt(j, o, m, a);
    }
  }

  // Nothing outside [lo, hi) changes.
  ghost predicate Confined(lo: nat, hi: nat, m: Memory, m': Memory) {
    |m'| == |m| && forall a :: 0 <= a < |m| && !(lo <= a < hi) ==> m'[a] == m[a]
  }

  lemma SlideConfined(j: Compaction, o: Obj, m: Memory, g: nat)
    requires LiveWords(j, o, m) && 0 < o.front < o.p <= CopyEnd(j, o) <= o.end <= |m| && g <= o.front
    requires o.p - 1 < o.end
    requires IsStack(j.env, o) ==> o.p + 4 <= o.end && NewReserved(j, o.p) >= 0
    ensures Confined(o.front - g, o.end, m, Copied(Finished(j, o, m), o.front, o.front - g, CopyEnd(j, o) - o.front))
  {
    hide FinalWord, Finished, CopyEnd, LiveWords, NewReserved, IsStack, Copied;
    var m' := Finished(j, o, m);
    var m'' := Copied(m', o.front, o.front - g, CopyEnd(j, o) - o.front);
    forall a | 0 <= a < |m| && !(o.front - g <= a < o.end)
      ensures m''[a] == m[a]
    {
      CopiedAt(m', o.front, o.front - g, CopyEnd(j, o) - o.front, a);
      FinishedAt(j, o, m, a);
    }
  }

  lemma ConfinedAgree(lo: nat, hi: nat, m: Memory, m': Memory, mv: Memory, start: nat)
    requires Confined(lo, hi, m, m') && AgreeBelow(start, mv, m) && start <= lo
    requires AgreeFrom(hi, mv, m)
    ensures AgreeFrom(hi, mv, m') && AgreeBelow(start, mv, m')
  {
  }

  // Objects that lie lower stay where they are.
  lemma PlacedStays(j: Compaction, o: Obj, g: nat, lo: nat, hi: nat, m: Memory, m': Memory)
    requires Placed(j, o, g, m) && Confined(lo, hi, m, m') && CopyEnd(j, o) <= lo + g
    ensures Placed(j, o, g, m')
  {
    hide FinalWord, CopyEnd;
  }

  lemma SlidStays(j: Compaction, base: Memory, out: seq<Obj>, i: nat, m: Memory, m': Memory, lo: nat, hi: nat)
    requires Merged(j, |j.objs|, base, out) && i <= |out| && SlidTo(j, out, i, m) && Confined(lo, hi, m, m')
    requires OutFront(j, out, i) - Gap(j, out, i) <= lo
    ensures SlidTo(j, out, i, m')
  {
    hide Merged, Placed, Gap, CopyEnd, Confined, OutFront;
    forall k | 0 <= k < i && out[k].p in j.Live()
      ensures Placed(j, out[k], Gap(j, out, k), m')
    {
      PlaceBelow(j, base, out, k, i);
      PlacedStays(j, out[k], Gap(j, out, k), lo, hi, m, m');
    }
  }

  lemma SlidLive(j: Compaction, out: seq<Obj>, i: nat, m: Memory)
    requires SlidTo(j, out, i, m) && i < |out| && Placed(j, out[i], Gap(j, out, i), m)
    ensures SlidTo(j, out, i + 1, m)
  {
    hide Placed, Gap;
  }

  // What the slide of a live object needs to know about it.
  lemma LiveShape(j: Compaction, base: Memory, out: seq<Obj>, i: nat)
    requires Merged(j, |j.objs|, base, out) && i < |out| && out[i].p in j.Live()
    ensures var o := out[i];
      && 0 < o.front < o.p <= CopyEnd(j, o) <= o.end <= |j.m1| && o.p - 1 < o.end && o.p in j.H && j.H[o.p] == o
      && (IsStack(j.env, o) ==> o.p + 4 <= o.end && NewReserved(j, o.p) >= 0)
      && j.start + Gap(j, out, i) <= o.front && o.p in j.x.dest && j.x.dest[o.p] == o.p - Gap(j, out, i)
  {
    hide *;
    MergedTiles(j, base, out);
    SetupParts(j);
    var o := out[i];
    OutAt(j, base, out, i);
    OutParts1(j, base, o);
    OutStep(j, out, i);
    PlaceAbove(j, base, out, i);
    SkipFits(j, o.p);
    ObjectAt(j, o.p);
    HeaderInside(j, o.p);
    LiveKeys(j, o.p);
    DestOut(j, out, i);
    if IsStack(j.env, o) {
      StackFits(j, o.p);
      StackSlotsHigh(j.env, j.m1, o);
    }
  }

  lemma DestOut(j: Compaction, out: seq<Obj>, i: nat)
    requires DestRight(j, out) && i < |out| && out[i].p in j.Live()
    ensures j.x.dest[out[i].p] == out[i].p - Gap(j, out, i)
  {
  }

  lemma LiveBack(j: Compaction, base: Memory, out: seq<Obj>, sl: Slide, T: Chains, mv: Memory, m: Memory, gap: int)
    requires Merged(j, |j.objs|, base, out) && sl.i < |out| && out[sl.i].p in j.Live() && gap == Gap(j, out, sl.i)
    requires Threaded(j.x, base, j.x.tgt.Keys, ResolvedBack(j, out[sl.i].end), T, mv)
    requires LiveWords(j, out[sl.i], m)
    requires AgreeFrom(out[sl.i].front, mv, m) && AgreeBelow(j.start, mv, m) && SlidTo(j, out, sl.i, m)
    ensures gap <= out[sl.i].front <= CopyEnd(j, out[sl.i])
    ensures var o := out[sl.i];
      Backward(j, base, out, Slide(sl.i + 1, T, mv),
               Copied(Finished(j, o, m), o.front, o.front - gap, CopyEnd(j, o) - o.front), gap + Shrunk(j, o))
  {
    hide *;
    var i, o := sl.i, out[sl.i];
    MergedTiles(j, base, out);
    LiveShape(j, base, out, i);
    LiveLength(j, o, m);
    OutStep(j, out, i);
    var m' := Copied(Finished(j, o, m), o.front, o.front - gap, CopyEnd(j, o) - o.front);
    PlacedIntro(j, o, m, gap);
    SlideConfined(j, o, m, gap);
    AgreeLess(o.front, o.end, mv, m);
    ConfinedAgree(o.front - gap, o.end, m, m', mv, j.start);
    SlidStays(j, base, out, i, m, m', o.front - gap, o.end);
    SlidLive(j, out, i, m');
    SkipOut(j, base, out, i);
    SkipIs(j, o);
    BackwardIntro(j, base, out, Slide(i + 1, T, mv), m', gap + Shrunk(j, o));
  }

  // Slid objects are not touched while references above are resolved.
  lemma SlidUnthread(j: Compaction, base: Memory, out: seq<Obj>, i: nat, m: Memory, m': Memory)
    requires Merged(j, |j.objs|, base, out) && i < |out| && SlidTo(j, out, i, m) && AgreeBelow(out[i].front, m, m')
    ensures SlidTo(j, out, i, m')
  {
    hide *;
    MergedTiles(j, base, out);
    OutStep(j, out, i);
    BelowConfined(out[i].front, m, m');
    SlidStays(j, base, out, i, m, m', out[i].front, |m|);
  }

  lemma BelowConfined(hi: nat, m: Memory, m': Memory)
    requires AgreeBelow(hi, m, m')
    ensures Confined(hi, |m|, m, m')
  {
  }

  lemma AgreeStart(start: nat, lo: nat, mv: Memory, m: Memory, mv': Memory, m': Memory)
    requires AgreeBelow(start, mv, m) && AgreeBelow(lo, m, m') && AgreeBelow(lo, mv, mv') && start <= lo
    ensures AgreeBelow(start, mv', m')
  {
  }

  // The label "unmark": sizes, the new reserved size, the mark, and the slide.
  method SlideLive(s: GCState, p: nat, front: nat, gap: nat, currentStack: nat,
                   ghost j: Compaction, ghost base: Memory, ghost out: seq<Obj>, ghost i: nat, ghost T: Chains,
                   ghost mv: Memory)
    returns (front': nat, skipGap: nat)
    requires Working(s, j) && currentStack == j.currentStack
    requires Merged(j, |j.objs|, base, out) && i < |out| && out[i].p == p && p in j.Live()
    requires front == out[i].front && gap == Gap(j, out, i)
    requires Threaded(j.x, base, j.x.tgt.Keys, ResolvedBack(j, out[i].end), T, mv)
    requires p in T && |T[p]| == 0
    requires AgreeFrom(front, mv, s.mem[..]) && AgreeBelow(j.start, mv, s.mem[..]) && SlidTo(j, out, i, s.mem[..])
    modifies s.mem
    ensures Backward(j, base, out, Slide(i + 1, T, mv), s.mem[..], gap + skipGap)
    ensures front' == OutFront(j, out, i + 1)
  {
    hide *;
    ghost var o, m := out[i], s.mem[..];
    MergedTiles(j, base, out);
    SetupParts(j);
    WorkingParts(s, j);
    OutStep(j, out, i);
    LiveShape(j, base, out, i);
    WordsLive(j, base, out, i, T, mv, m);
    LiveObject(j, o, m);
    ObjectAt(j, p);
    if IsStack(j.env, o) { LiveStackInfo(j, o, m); }
    var header := s.mem[p - 1];
    PlainSizes(j, o);
    var metaData, size, skipFront, skipGap', reservedNew := SizesToCopy(s, p, header, currentStack, j.m1, o);
    LiveBack(j, base, out, Slide(i, T, mv), T, mv, m, gap);
    FinishedIs(j, o, m);
    StackTagIs(j.env, o);
    if s.env.types[header.ty].tag == StackTag && reservedNew < s.mem[p + 2].val {
      s.Store(p + 2, Bits(reservedNew));
    }
    s.Store(p - 1, header.(mark := false));
    MoveWords(s, front, front - gap, size);
    skipGap := skipGap';
    front' := front + size + skipFront;
  }

  lemma StackTagIs(env: Env, o: Obj)
    requires o.ty < |env.types|
    ensures IsStack(env, o) <==> env.types[o.ty].tag == StackTag
  {
  }

  // Storing a smaller reserved size and the unmarked header is finishing.
  lemma FinishedIs(j: Compaction, o: Obj, m: Memory)
    requires Setup(j) && o.p in j.Live() && o.p in j.H && j.H[o.p] == o && LiveWords(j, o, m)
    requires 0 < o.p <= o.end <= |m| && m[o.p - 1].Header?
    requires IsStack(j.env, o) ==> o.p + 4 <= o.end && NewReserved(j, o.p) >= 0
    ensures !IsStack(j.env, o) ==> Finished(j, o, m) == m[o.p - 1 := m[o.p - 1].(mark := false)]
    ensures IsStack(j.env, o) ==>
      && m[o.p + 2].Bits? && NewReserved(j, o.p) <= m[o.p + 2].val
      && Finished(j, o, m) == m[o.p + 2 := Bits(NewReserved(j, o.p))][o.p - 1 := m[o.p - 1].(mark := false)]
      && (NewReserved(j, o.p) == m[o.p + 2].val ==> Finished(j, o, m) == m[o.p - 1 := m[o.p - 1].(mark := false)])
  {
    hide *;
    SetupParts(j);
    ObjectAt(j, o.p);
    FinishedDef(j, o, m);
    if IsStack(j.env, o) {
      StackFits(j, o.p);
      StackSlotsHigh(j.env, j.m1, o);
      NonSlotWord(j, o, m, o.p + 2);
      assert m[o.p + 2 := m[o.p + 2]] == m;
    }
  }

  lemma FinishedDef(j: Compaction, o: Obj, m: Memory)
    requires 0 < o.p <= |m| && m[o.p - 1].Header?
    requires IsStack(j.env, o) ==> o.p + 4 <= |m| && NewReserved(j, o.p) >= 0
    ensures Finished(j, o, m) ==
      (if IsStack(j.env, o) then m[o.p + 2 := Bits(NewReserved(j, o.p))] else m)[o.p - 1 := m[o.p - 1].(mark := false)]
  {
    hide NewReserved, IsStack;
  }

  lemma BackwardBegin(j: Compaction, st: Pass, m: Memory, gap: int, out: seq<Obj>)
    requires Forward(j, st, m, gap) && st.i == |j.objs| && st.e <= st.i && out == st.out + j.objs[st.e..st.i]
    ensures Backward(j, st.base, out, Slide(0, st.T, m), m, 0) && OutFront(j, out, 0) == j.start
  {
    hide *;
    ForwardParts(j, st, m, gap);
    SetupParts(j);
    MergeNone(j, st, m, gap);
    MergedTiles(j, st.base, out);
    OutBegin(j, out);
    FrontBounds(j, |j.objs|);
    AllVisited(j);
    AgreeRefl(j.start, m);
    NoneSlid(j, out, m);
    BackwardIntro(j, st.base, out, Slide(0, st.T, m), m, 0);
  }

  lemma NoneSlid(j: Compaction, out: seq<Obj>, m: Memory)
    ensures SlidTo(j, out, 0, m)
  {
  }

  // At the end of the first pass all references are threaded, and those from
  // below are resolved.
  lemma AllVisited(j: Compaction)
    requires Setup(j)
    ensures VisitedAt(j, j.back) == j.x.tgt.Keys
    ensures ResolvedAt(j, j.back) == ResolvedBack(j, j.start)
  {
    hide *;
    SetupParts(j);
    forall s | s in j.x.tgt
      ensures s in j.own && j.own[s] < j.back && j.start < j.x.tgt[s] <= j.back
    {
      Visited(j, s);
    }
    VisitedSets(j);
  }

  lemma VisitedSets(j: Compaction)
    requires forall s :: s in j.x.tgt ==> s in j.own && j.own[s] < j.back && j.start < j.x.tgt[s] <= j.back
    ensures VisitedAt(j, j.back) == j.x.tgt.Keys
    ensures ResolvedAt(j, j.back) == ResolvedBack(j, j.start)
  {
  }

  lemma Visited(j: Compaction, s: nat)
    requires Setup(j) && s in j.x.tgt
    ensures s in j.own && j.own[s] < j.back && j.start < j.x.tgt[s] <= j.back
  {
    hide *;
    SetupParts(j);
    RefOwner(j, s);
    RefTarget(j, s);
    LiveKeys(j, j.x.tgt[s]);
    LiveIn(j, j.x.tgt[s]);
    LivePlace(j, j.x.tgt[s]);
    if j.own[s] + 1 in j.H { LivePlace(j, j.own[s] + 1); }
  }

  // updateBackwardPointersAndSlideForMarkCompact
  method UpdateBackwardPointersAndSlide(s: GCState, currentStack: nat, ghost j: Compaction, ghost base: Memory,
          ghost out: seq<Obj>, ghost T0: Chains)
    returns (ghost sl: Slide, ghost gapAll: int)
    requires Working(s, j) && currentStack == j.currentStack
    requires Backward(j, base, out, Slide(0, T0, s.mem[..]), s.mem[..], 0)
    modifies s.mem, s`oldGenSize
    ensures Backward(j, base, out, sl, s.mem[..], gapAll) && sl.i == |out|
    ensures s.start + s.oldGenSize == j.back - gapAll
  {
    hide *;
    WorkingParts(s, j);
    sl := Slide(0, T0, s.mem[..]);
    BackwardParts(j, base, out, sl, s.mem[..], 0);
    MergedTiles(j, base, out);
    OutBegin(j, out);
    OutDone(j, out, 0);
    var front, back := s.start, s.start + s.oldGenSize;
    var gap := 0;
    while front != back
      invariant Working(s, j)
      invariant sl.i <= |out| && Backward(j, base, out, sl, s.mem[..], gap)
      invariant front == OutFront(j, out, sl.i)
      decreases |out| - sl.i
    {
      WorkingParts(s, j);
      ghost var m := s.mem[..];
      OutDone(j, out, sl.i);
      OutStep(j, out, sl.i);
      BackwardParts(j, base, out, sl, m, gap);
      NextPointer(j, base, out, sl, m, gap);
      var p := AdvanceToObjectData(s, front, out[sl.i]);
      var header := s.mem[p - 1];
      if header.Header? && !header.mark {
        DeadOut(j, base, out, sl, m, gap);
        DeadObjectOut(j, base, out, sl, m, gap);
        HeaderSame(j.env, m, out[sl.i]);
        var metaDataBytes, objectBytes := SizeofObjectAux(s, p, header, out[sl.i]);
        DeadBack(j, base, out, sl, m, gap);
        var size := (metaDataBytes + objectBytes) / 8;
        gap := gap + size;
        front := front + size;
        sl := sl.(i := sl.i + 1);
      } else {
        LiveOut(j, base, out, sl, m, gap);
        ChainIsAbove(j, base, out, sl, m, gap);
        LiveShape(j, base, out, sl.i);
        ghost var T1, mv, R := sl.T, sl.mv, ResolvedBack(j, front);
        if header.Ptr? {
          mv := Unthread(s, p, p - gap, j.x, base, j.x.tgt.Keys, R, T1, front, sl.mv);
          EmptiedAt(T1, p);
          T1 := Emptied(T1, p);
          SlidUnthread(j, base, out, sl.i, m, s.mem[..]);
          AgreeStart(j.start, front, sl.mv, m, mv, s.mem[..]);
        } else {
          NoChain(T1, p, R);
        }
        var front', skipGap := SlideLive(s, p, front, gap, currentStack, j, base, out, sl.i, T1, mv);
        gap, front, sl := gap + skipGap, front', Slide(sl.i + 1, T1, mv);
      }
    }
    OutDone(j, out, sl.i);
    gapAll := gap;
    BackwardParts(j, base, out, sl, s.mem[..], gap);
    PlaceAbove(j, base, out, sl.i);
    s.oldGenSize := front - gap - s.start;
  }

  lemma HeaderSame(env: Env, m: Memory, o: Obj)
    requires IsO(env, m, o) && 0 < o.p <= |m|
    ensures ValidEnv(env) && IsObject(env, m[o.p - 1 := m[o.p - 1]], o)
  {
    hide ValidEnv, IsObject;
    assert m[o.p - 1 := m[o.p - 1]] == m;
  }
}
