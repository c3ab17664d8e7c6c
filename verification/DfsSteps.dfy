// Each step of the marking traversal keeps its invariant.

module DfsSteps {
  import opened Layout
  import opened Graph
  import opened Heap
  import opened Cursor
  import opened DfsInvariant

  // ----------------------------------- writing scratch words of one object

  lemma OtherScratch(env: Env, m: Memory, H: Objects, p: nat, q: nat, a: int)
    requires AreObjects(env, m, H) && p in H && q in H && p != q && Scratch(env, H[q], a)
    ensures 0 <= a < |m| && !(H[p].front <= a < H[p].end) && !Scratch(env, H[p], a)
  {
    hide IsObject;
    ScratchInside(env, m, H[q], a);
    if Scratch(env, H[p], a) { ScratchInside(env, m, H[p], a); }
  }

  lemma CounterWord(env: Env, m: Memory, o: Obj)
    requires IsObject(env, m, o)
    ensures TagOf(env, o) == SequenceTag ==> m[o.front].Bits?
  {
  }

  lemma ScratchKeepsObject(env: Env, m: Memory, m': Memory, H: Objects, p: nat, q: nat)
    requires AreObjects(env, m, H) && p in H && q in H && ScratchOnly(env, H[p], m, m')
    ensures IsObject(env, m', H[q])
  {
    hide IsObject;
    ObjectBounds(env, m, H[q]);
    CounterWord(env, m, H[q]);
    if q != p {
      forall a | H[q].front <= a < H[q].end
        ensures m'[a] == m[a]
      {
        if Scratch(env, H[p], a) { OtherScratch(env, m, H, q, p, a); }
      }
    }
    ObjectStable(env, m, m', H[q]);
  }

  lemma ScratchKeepsObjects(env: Env, m: Memory, m': Memory, H: Objects, p: nat)
    requires AreObjects(env, m, H) && p in H && ScratchOnly(env, H[p], m, m')
    ensures AreObjects(env, m', H)
  {
    hide IsObject;
    forall q | q in H
      ensures IsObject(env, m', H[q])
    {
      ScratchKeepsObject(env, m, m', H, p, q);
    }
  }

  // The scratch words of the other objects are untouched.
  lemma ScratchElsewhere(env: Env, m: Memory, m': Memory, H: Objects, p: nat, q: nat)
    requires AreObjects(env, m, H) && p in H && q in H && p != q && ScratchOnly(env, H[p], m, m')
    ensures SameScratch(env, H[q], m, m')
  {
    hide IsObject;
    forall a | 0 <= a < |m| && Scratch(env, H[q], a)
      ensures m'[a] == m[a]
    {
      OtherScratch(env, m, H, p, q, a);
    }
  }

  // What is known of an object's scratch words depends only on those words.
  lemma SameClean(env: Env, m: Memory, m': Memory, o: Obj)
    requires Clean(env, m, o) && SameScratch(env, o, m, m')
    ensures Clean(env, m', o)
  {
    assert Scratch(env, o, o.p - 1);
  }

  lemma SameScratchOk(c: Call, r: Run, r': Run, m: Memory, m': Memory, q: nat)
    requires q in c.H && c.H[q].p == q && ScratchOk(c, r, m, q) && SameScratch(c.env, c.H[q], m, m')
    requires OnPath(r, q) ==> OnPath(r', q)
    ensures ScratchOk(c, r', m', q)
  {
    hide Clean;
    assert Scratch(c.env, c.H[q], q - 1);
    if Clean(c.env, m, c.H[q]) { SameClean(c.env, m, m', c.H[q]); }
  }

  lemma SameSaved(env: Env, m0: Memory, m: Memory, m': Memory, o: Obj, i: nat)
    requires Saved(env, m0, m, o, i) && SameScratch(env, o, m, m')
    ensures Saved(env, m0, m', o, i)
  {
    hide StackAt, SequenceAt;
    assert Scratch(env, o, o.p - 1);
    match env.types[o.ty].tag
    case SequenceTag => assert Scratch(env, o, o.p - 3);
    case StackTag => assert Scratch(env, o, o.p) && Scratch(env, o, o.p + 1);
    case _ =>
  }

  lemma ScratchStepMem(c: Call, r: Run, m: Memory, m': Memory)
    requires Inv(c, r, m) && ScratchOnly(c.env, At(c.H, r.cur), m, m')
    ensures MemOk(c, r, m')
  {
    hide AreObjects, Linked, Progress, Marks, CallOk;
    ScratchKeepsObjects(c.env, m, m', c.H, r.cur);
    forall a | 0 <= a < |m| && !InScratch(c.env, c.H, a)
      ensures m'[a] == Reversed(c, r.stk)[a]
    {
      assert !Scratch(c.env, c.H[r.cur], a);
    }
  }

  // A step inside one object; its weak link may change only when linking.
  ghost predicate InnerStep(c: Call, r: Run, m: Memory, m': Memory) {
    && Inv(c, r, m)
    && ScratchOnly(c.env, At(c.H, r.cur), m, m')
    && (IsWeak(c.env, At(c.H, r.cur)) ==> c.link || m' == m)
  }

  lemma ScratchStepCur(c: Call, r: Run, m: Memory, m': Memory)
    requires ScratchOk(c, r, m, r.cur) && IsObject(c.env, m, At(c.H, r.cur)) && At(c.H, r.cur).p == r.cur
    requires ScratchOnly(c.env, At(c.H, r.cur), m, m')
    requires IsWeak(c.env, At(c.H, r.cur)) ==> c.link || m' == m
    ensures ScratchOk(c, r, m', r.cur)
  {
    hide HasCounters, IsObject;
    ObjectBounds(c.env, m, At(c.H, r.cur));
  }

  lemma ScratchStepMarks(c: Call, r: Run, m: Memory, m': Memory)
    requires InnerStep(c, r, m, m')
    ensures Marks(c, r, m')
  {
    hide IsObject, Linked, Progress, HasCounters, Clean, Saved, ScratchOk, ScratchOnly, SlotsOk;
    forall q | q in c.H && q != r.cur
      ensures SameScratch(c.env, c.H[q], m, m')
    {
      ScratchElsewhere(c.env, m, m', c.H, r.cur, q);
    }
    ScratchStepCur(c, r, m, m');
    forall q | q in r.visited
      ensures ScratchOk(c, r, m', q)
    {
      if q != r.cur { SameScratchOk(c, r, r, m, m', q); }
    }
    forall k | 0 <= k < |r.stk|
      ensures Saved(c.env, c.m0, m', At(c.H, r.stk[k].p), r.stk[k].i)
    {
      SameSaved(c.env, c.m0, m, m', c.H[r.stk[k].p], r.stk[k].i);
    }
  }

  lemma ScratchStep(c: Call, r: Run, m: Memory, m': Memory)
    requires InnerStep(c, r, m, m')
    ensures Inv(c, r, m')
  {
    hide CallOk, Shape, Linked, Progress, MemOk, Marks;
    ScratchStepMem(c, r, m, m');
    ScratchStepMarks(c, r, m, m');
  }

  // --------------------------------------------------------- skip a slot

  lemma SkipMarks(c: Call, r: Run, r': Run, m: Memory)
    requires Marks(c, r, m) && r' == r.(i := r'.i)
    ensures Marks(c, r', m)
  {
    hide Clean, HasCounters, Saved;
    forall q
      ensures OnPath(r', q) == OnPath(r, q)
    {
    }
    forall q | q in r.visited
      ensures ScratchOk(c, r', m, q)
    {
      assert ScratchOk(c, r, m, q);
    }
  }

  lemma SkipProgress(c: Call, r: Run)
    requires Progress(c, r) && r.i < |SlotsAt(c, r.cur)|
    requires SlotDone(c, Seen(c, r), SlotsAt(c, r.cur)[r.i])
    ensures Progress(c, r.(i := r.i + 1))
  {
    hide SlotDone, SlotsAt;
    var r' := r.(i := r.i + 1);
    forall q
      ensures OnPath(r', q) == OnPath(r, q)
    {
    }
    assert Seen(c, r') == Seen(c, r);
  }

  lemma SkipMem(c: Call, r: Run, r': Run, m: Memory)
    requires MemOk(c, r, m) && Linked(c, r) && r' == r.(i := r'.i)
    ensures MemOk(c, r', m) && Linked(c, r')
  {
    hide AreObjects, SlotAddr, PointsTo, Reversed, InScratch;
    forall k | 0 <= k < |r'.stk|
      ensures PointsTo(c.m0, c.H, SlotAddr(c, r'.stk[k]), NextOnPath(r', k))
    {
      assert PointsTo(c.m0, c.H, SlotAddr(c, r.stk[k]), NextOnPath(r, k));
    }
  }

  lemma SkipStep(c: Call, r: Run, m: Memory)
    requires Inv(c, r, m) && r.i < |SlotsAt(c, r.cur)|
    requires SlotDone(c, Seen(c, r), SlotsAt(c, r.cur)[r.i])
    ensures Inv(c, r.(i := r.i + 1), m)
  {
    hide CallOk, AreObjects, SlotDone, SlotsAt, Progress, Marks, PathOk, MemOk, Linked;
    SkipProgress(c, r);
    SkipMarks(c, r, r.(i := r.i + 1), m);
    SkipMem(c, r, r.(i := r.i + 1), m);
  }

  // ------------------------------------------------- descend to a target

  function Descend(r: Run, t: nat): Run {
    Run(r.visited + {t}, r.stk + [Frame(r.cur, r.i)], t, 0)
  }

  ghost predicate CanDescend(c: Call, r: Run, m: Memory, t: nat) {
    && Inv(c, r, m)
    && r.i < |SlotsAt(c, r.cur)|
    && Saved(c.env, c.m0, m, At(c.H, r.cur), r.i)
    && PointsTo(c.m0, c.H, SlotsAt(c, r.cur)[r.i], t)
    && t !in Seen(c, r)
  }

  lemma DescendReach(c: Call, r: Run, m: Memory, t: nat)
    requires CanDescend(c, r, m, t)
    ensures t in ToMark(c)
  {
    hide AreObjects, MemOk, Marks, Linked, Progress, Reach, Saved;
    var g := PointerGraph(c.env, c.m0, c.H);
    assert t in g[r.cur];
    ReachStep(Without(g, Already(c)), {c.root}, r.cur, t);
  }

  lemma DescendShape(c: Call, r: Run, m: Memory, t: nat)
    requires CanDescend(c, r, m, t)
    ensures Shape(c, Descend(r, t))
  {
    hide CallOk, MemOk, Marks, Linked, Progress, ToMark, Already, Saved;
    DescendReach(c, r, m, t);
    assert t in c.H;
    var r' := Descend(r, t);
    forall k | 0 <= k < |r'.stk|
      ensures Follows(c, r'.stk[k])
    {
      if k < |r.stk| { assert Follows(c, r.stk[k]); }
    }
  }

  lemma DescendLinked(c: Call, r: Run, m: Memory, t: nat)
    requires CanDescend(c, r, m, t)
    ensures Linked(c, Descend(r, t))
  {
    hide CallOk, MemOk, Marks, Progress, ToMark, Already, Saved, PointsTo, SlotsAt;
    var r' := Descend(r, t);
    assert SlotAddr(c, Frame(r.cur, r.i)) == SlotsAt(c, r.cur)[r.i];
    forall k | 0 <= k < |r'.stk|
      ensures PointsTo(c.m0, c.H, SlotAddr(c, r'.stk[k]), NextOnPath(r', k))
    {
      if k < |r.stk| {
        assert PointsTo(c.m0, c.H, SlotAddr(c, r.stk[k]), NextOnPath(r, k));
      }
    }
  }

  lemma DoneMono(c: Call, seen: set<nat>, seen': set<nat>, p: nat, n: int)
    requires DoneUpTo(c, seen, p, n) && seen <= seen'
    ensures DoneUpTo(c, seen', p, n)
  {
  }

  lemma OnPathDescend(r: Run, t: nat, q: nat)
    ensures OnPath(Descend(r, t), q) <==> OnPath(r, q) || q == t
  {
    var r' := Descend(r, t);
    if OnPath(r, q) && q != t {
      if q == r.cur {
        assert r'.stk[|r.stk|].p == q;
      } else {
        var k :| 0 <= k < |r.stk| && r.stk[k].p == q;
        assert r'.stk[k].p == q;
      }
    }
  }

  lemma DescendProgress(c: Call, r: Run, m: Memory, t: nat)
    requires CanDescend(c, r, m, t)
    ensures Progress(c, Descend(r, t))
  {
    hide CallOk, Shape, MemOk, Marks, Linked, ToMark, Saved, PointsTo, SlotsAt, OnPath;
    var r' := Descend(r, t);
    var seen, seen' := Seen(c, r), Seen(c, r');
    assert seen <= seen';
    assert DoneUpTo(c, seen', t, 0);
    forall q | q in r'.visited && !OnPath(r', q)
      ensures DoneUpTo(c, seen', q, |SlotsAt(c, q)|)
    {
      OnPathDescend(r, t, q);
      DoneMono(c, seen, seen', q, |SlotsAt(c, q)|);
    }
    forall k | 0 <= k < |r'.stk|
      ensures DoneUpTo(c, seen', r'.stk[k].p, r'.stk[k].i)
    {
      DoneMono(c, seen, seen', r'.stk[k].p, r'.stk[k].i);
    }
  }

  // Storing the back pointer, and flipping the target's mark.
  function Reverse(c: Call, r: Run, m: Memory): (m': Memory)
    ensures |m'| == |m|
  {
    Set(m, SlotAddr(c, Frame(r.cur, r.i)), Ptr(Previous(r.stk)))
  }

  function Flip(m: Memory, t: nat): (m': Memory)
    ensures |m'| == |m|
  {
    if 0 < t <= |m| && m[t - 1].Header? then m[t - 1 := m[t - 1].(mark := !m[t - 1].mark)] else m
  }

  lemma DescendSlot(c: Call, r: Run, m: Memory, t: nat)
    requires CanDescend(c, r, m, t)
    ensures Follows(c, Frame(r.cur, r.i)) && SlotAddr(c, Frame(r.cur, r.i)) == SlotsAt(c, r.cur)[r.i] < |m| == |c.m0|
    ensures !InScratch(c.env, c.H, SlotAddr(c, Frame(r.cur, r.i)))
    ensures m[SlotAddr(c, Frame(r.cur, r.i))] == Ptr(t)
  {
    hide AreObjects, Marks, Progress, Linked, ToMark, Saved, SlotsOk;
    SlotInMemory(c, Frame(r.cur, r.i));
    PathSlots(c, r.stk, Frame(r.cur, r.i));
  }

  lemma HeaderScratch(c: Call, t: nat)
    requires CallOk(c) && t in c.H
    ensures c.H[t].p == t && Scratch(c.env, c.H[t], t - 1) && InScratch(c.env, c.H, t - 1)
    ensures 0 < c.H[t].front < t <= |c.m0| && Clean(c.env, c.m0, c.H[t])
    ensures c.m0[t - 1].Header? && c.m0[t - 1].ty == c.H[t].ty
    ensures TagOf(c.env, c.H[t]) == SequenceTag ==> c.H[t].front < t - 1
    ensures IsWeak(c.env, c.H[t]) ==> t < |c.m0|
  {
    hide SlotsOk;
    assert IsObject(c.env, c.m0, c.H[t]);
    assert Scratch(c.env, c.H[t], t - 1);
  }

  lemma DescendHeader(c: Call, r: Run, m: Memory, t: nat)
    requires CanDescend(c, r, m, t)
    ensures 0 < t <= |m| == |c.m0| && t in c.H && Reverse(c, r, m)[t - 1] == m[t - 1] == c.m0[t - 1]
    ensures m[t - 1].Header? && m[t - 1].mark == !c.bit && m[t - 1].ty == c.H[t].ty
    ensures SameScratch(c.env, c.H[t], c.m0, m)
  {
    hide CallOk, AreObjects, Progress, Linked, Saved, SlotsAt, SlotAddr, Clean, ToMark, HasCounters, ScratchOk,
      InScratch, Scratch, MemOk;
    DescendSlot(c, r, m, t);
    HeaderScratch(c, t);
    assert SameScratch(c.env, c.H[t], c.m0, m);
  }

  lemma SlotHarmless(c: Call, f: Frame, w: Word)
    requires Follows(c, f)
    ensures Harmless(c.env, c.H, f.p, SlotAddr(c, f), w)
  {
    assert c.H[f.p].slots[f.i] == SlotAddr(c, f);
  }

  lemma DescendObjects(c: Call, r: Run, m: Memory, t: nat)
    requires CanDescend(c, r, m, t)
    ensures AreObjects(c.env, Flip(Reverse(c, r, m), t), c.H)
  {
    hide CallOk, AreObjects, Progress, Linked, Saved, SlotsAt, SlotAddr, Marks, Shape;
    DescendSlot(c, r, m, t);
    DescendHeader(c, r, m, t);
    var f := Frame(r.cur, r.i);
    var m1 := Reverse(c, r, m);
    SlotHarmless(c, f, Ptr(Previous(r.stk)));
    WriteKeepsObjects(c.env, m, c.H, r.cur, SlotAddr(c, f), Ptr(Previous(r.stk)));
    WriteKeepsObjects(c.env, m1, c.H, t, t - 1, Flip(m1, t)[t - 1]);
  }

  lemma ReversedPush(c: Call, r: Run, t: nat)
    ensures Reversed(c, Descend(r, t).stk) == Reverse(c, r, Reversed(c, r.stk))
  {
    assert Descend(r, t).stk[..|r.stk|] == r.stk;
  }

  lemma DescendMem(c: Call, r: Run, m: Memory, t: nat)
    requires CanDescend(c, r, m, t)
    ensures MemOk(c, Descend(r, t), Flip(Reverse(c, r, m), t))
  {
    hide CallOk, AreObjects, Shape, Progress, Linked, Saved, SlotsAt, SlotAddr, Marks, Reversed, Previous, Scratch,
      InScratch;
    DescendObjects(c, r, m, t);
    DescendSlot(c, r, m, t);
    DescendHeader(c, r, m, t);
    ReversedPush(c, r, t);
    HeaderScratch(c, t);
  }

  lemma CanDescendOk(c: Call, r: Run, m: Memory, t: nat)
    requires CanDescend(c, r, m, t)
    ensures Inv(c, r, m) && CallOk(c) && AreObjects(c.env, c.m0, c.H) && t in c.H && |m| == |c.m0|
  {
    hide AreObjects, Shape, Progress, Linked, Saved, SlotsAt, Marks, SlotsOk;
  }

  // The step leaves every scratch word alone except the target's header.
  lemma DescendScratch(c: Call, r: Run, m: Memory, t: nat, q: nat, a: nat)
    requires CanDescend(c, r, m, t) && q in c.H
    requires a < |m| && Scratch(c.env, c.H[q], a) && (q != t || a != t - 1)
    ensures Flip(Reverse(c, r, m), t)[a] == m[a]
  {
    hide AreObjects, Scratch, CallOk, Inv, CanDescend, SlotAddr, Previous, SameScratch;
    CanDescendOk(c, r, m, t);
    DescendSlot(c, r, m, t);
    DescendHeader(c, r, m, t);
    HeaderScratch(c, t);
    assert InScratch(c.env, c.H, a);
    if q != t { OtherScratch(c.env, c.m0, c.H, t, q, a); }
  }

  lemma DescendSameScratch(c: Call, r: Run, m: Memory, t: nat, q: nat)
    requires CanDescend(c, r, m, t) && q in c.H && q != t
    ensures SameScratch(c.env, c.H[q], m, Flip(Reverse(c, r, m), t))
  {
    hide AreObjects, Shape, Progress, Linked, Saved, SlotsAt, SlotAddr, Marks, Previous, CanDescend, Scratch;
    forall a | 0 <= a < |m| && Scratch(c.env, c.H[q], a)
      ensures Flip(Reverse(c, r, m), t)[a] == m[a]
    {
      DescendScratch(c, r, m, t, q, a);
    }
  }

  lemma FlipHeader(m: Memory, t: nat)
    requires 0 < t <= |m| && m[t - 1].Header?
    ensures Flip(m, t)[t - 1] == m[t - 1].(mark := !m[t - 1].mark)
  {
  }

  lemma DescendTargetWords(c: Call, r: Run, m: Memory, t: nat)
    requires CanDescend(c, r, m, t)
    ensures t in c.H && c.H[t].p == t && 0 < c.H[t].front < t <= |m| == |c.m0|
    ensures var m2 := Flip(Reverse(c, r, m), t);
      && |m2| == |m|
      && m2[t - 1] == c.m0[t - 1].(mark := c.bit)
      && (TagOf(c.env, c.H[t]) == SequenceTag ==> m2[c.H[t].front] == Bits(0))
      && (IsWeak(c.env, c.H[t]) ==> t < |m| && m2[t] == c.m0[t])
      && c.m0[t - 1].Header? && c.m0[t - 1].counter == 0
  {
    hide CallOk, Inv, CanDescend, Reverse, Flip;
    CanDescendOk(c, r, m, t);
    DescendHeader(c, r, m, t);
    HeaderScratch(c, t);
    FlipHeader(Reverse(c, r, m), t);
    var o := c.H[t];
    if TagOf(c.env, o) == SequenceTag {
      DescendScratch(c, r, m, t, t, o.front);
    }
    if IsWeak(c.env, o) {
      DescendScratch(c, r, m, t, t, t);
    }
  }

  lemma DescendTarget(c: Call, r: Run, m: Memory, t: nat)
    requires CanDescend(c, r, m, t)
    ensures var m2 := Flip(Reverse(c, r, m), t);
            ScratchOk(c, Descend(r, t), m2, t) && Clean(c.env, m2, At(c.H, t))
  {
    hide AreObjects, CanDescend, Reverse, Flip;
    DescendTargetWords(c, r, m, t);
  }

  lemma DescendMarks(c: Call, r: Run, m: Memory, t: nat)
    requires CanDescend(c, r, m, t)
    ensures Marks(c, Descend(r, t), Flip(Reverse(c, r, m), t))
  {
    hide CallOk, AreObjects, Linked, Progress, HasCounters, Clean, Saved, ScratchOk, SlotsOk, Reverse, Flip, OnPath,
      SameScratch;
    var r' := Descend(r, t);
    var m2 := Flip(Reverse(c, r, m), t);
    DescendTarget(c, r, m, t);
    forall q | q in c.H && q != t
      ensures SameScratch(c.env, c.H[q], m, m2) && c.H[q].p == q
    {
      DescendSameScratch(c, r, m, t, q);
      HeaderScratch(c, q);
    }
    forall q | q in c.H && q !in r'.visited
      ensures SameScratch(c.env, c.H[q], c.m0, m2)
    {
      SameScratchTrans(c.env, c.H[q], c.m0, m, m2);
    }
    forall q | q in r'.visited
      ensures ScratchOk(c, r', m2, q)
    {
      if q != t {
        OnPathDescend(r, t, q);
        SameScratchOk(c, r, r', m, m2, q);
      }
    }
    forall k | 0 <= k < |r'.stk|
      ensures Saved(c.env, c.m0, m2, At(c.H, r'.stk[k].p), r'.stk[k].i)
    {
      SameSaved(c.env, c.m0, m, m2, At(c.H, r'.stk[k].p), r'.stk[k].i);
    }
  }

  lemma SameScratchTrans(env: Env, o: Obj, m: Memory, m1: Memory, m2: Memory)
    requires SameScratch(env, o, m, m1) && SameScratch(env, o, m1, m2)
    ensures SameScratch(env, o, m, m2)
  {
  }

  lemma DescendStep(c: Call, r: Run, m: Memory, t: nat)
    requires CanDescend(c, r, m, t)
    ensures Inv(c, Descend(r, t), Flip(Reverse(c, r, m), t))
  {
    hide CallOk, Shape, Linked, Progress, MemOk, Marks, SlotsAt, Saved, PointsTo, Seen;
    DescendShape(c, r, m, t);
    DescendLinked(c, r, m, t);
    DescendProgress(c, r, m, t);
    DescendMem(c, r, m, t);
    DescendMarks(c, r, m, t);
  }

  // ------------------------------------------------ return to the parent

  function Top(r: Run): Frame {
    if |r.stk| == 0 then Frame(0, 0) else r.stk[|r.stk| - 1]
  }

  function Rest(r: Run): seq<Frame> {
    if |r.stk| == 0 then [] else r.stk[..|r.stk| - 1]
  }

  function Ascend(r: Run): Run {
    Run(r.visited, Rest(r), Top(r).p, Top(r).i)
  }

  // Storing the finished object back into its parent's slot.
  function Restore(c: Call, r: Run, m: Memory): (m': Memory)
    ensures |m'| == |m|
  {
    Set(m, SlotAddr(c, Top(r)), Ptr(r.cur))
  }

  ghost predicate CanAscend(c: Call, r: Run, m: Memory) {
    && Inv(c, r, m)
    && |r.stk| > 0
    && r.i == |SlotsAt(c, r.cur)|
    && Clean(c.env, m, At(c.H, r.cur))
  }

  lemma AscendShape(c: Call, r: Run, m: Memory)
    requires CanAscend(c, r, m)
    ensures Shape(c, Ascend(r)) && Follows(c, Top(r)) && PathOk(c, Rest(r))
    ensures forall k :: 0 <= k < |Rest(r)| ==> Rest(r)[k].p != Top(r).p
  {
    hide CallOk, Linked, Progress, MemOk, Marks, Clean, ToMark, Already;
  }

  lemma AscendLinked(c: Call, r: Run, m: Memory)
    requires CanAscend(c, r, m)
    ensures Linked(c, Ascend(r))
    ensures PointsTo(c.m0, c.H, SlotAddr(c, Top(r)), r.cur)
  {
    hide CallOk, Shape, Progress, MemOk, Marks, Clean, PointsTo, SlotAddr;
    var r' := Ascend(r);
    forall k | 0 <= k < |r'.stk|
      ensures PointsTo(c.m0, c.H, SlotAddr(c, r'.stk[k]), NextOnPath(r', k))
    {
      assert PointsTo(c.m0, c.H, SlotAddr(c, r.stk[k]), NextOnPath(r, k));
    }
    assert PointsTo(c.m0, c.H, SlotAddr(c, r.stk[|r.stk| - 1]), NextOnPath(r, |r.stk| - 1));
  }

  lemma OnPathAscend(r: Run, q: nat)
    requires |r.stk| > 0
    ensures OnPath(Ascend(r), q) ==> OnPath(r, q)
    ensures OnPath(r, q) && q != r.cur ==> OnPath(Ascend(r), q)
  {
    var r' := Ascend(r);
    if OnPath(r', q) {
      if q == r'.cur {
        assert r.stk[|r.stk| - 1].p == q;
      } else {
        var k :| 0 <= k < |r'.stk| && r'.stk[k].p == q;
        assert r.stk[k].p == q;
      }
    }
    if OnPath(r, q) && q != r.cur {
      var k :| 0 <= k < |r.stk| && r.stk[k].p == q;
      if k < |r.stk| - 1 { assert r'.stk[k].p == q; }
    }
  }

  lemma AscendProgress(c: Call, r: Run, m: Memory)
    requires CanAscend(c, r, m)
    ensures Progress(c, Ascend(r))
  {
    hide CallOk, Shape, Linked, MemOk, Marks, Clean, SlotsAt, OnPath, DoneUpTo;
    var r' := Ascend(r);
    assert Seen(c, r') == Seen(c, r);
    forall q | q in r'.visited && !OnPath(r', q)
      ensures DoneUpTo(c, Seen(c, r), q, |SlotsAt(c, q)|)
    {
      OnPathAscend(r, q);
    }
    forall k | 0 <= k < |r'.stk|
      ensures DoneUpTo(c, Seen(c, r), r'.stk[k].p, r'.stk[k].i)
    {
      assert r'.stk[k] == r.stk[k];
    }
    assert DoneUpTo(c, Seen(c, r), r.stk[|r.stk| - 1].p, r.stk[|r.stk| - 1].i);
  }

  lemma CanAscendOk(c: Call, r: Run, m: Memory)
    requires CanAscend(c, r, m)
    ensures Inv(c, r, m) && CallOk(c) && |m| == |c.m0| && PathOk(c, r.stk)
    ensures AreObjects(c.env, c.m0, c.H) && AreObjects(c.env, m, c.H) && r.cur in c.H
  {
    hide AreObjects, Linked, Progress, SlotsAt, Marks, SlotsOk, PathOk;
  }

  // The slot holds the back pointer; putting the object back undoes it.
  lemma AscendWords(c: Call, r: Run, m: Memory)
    requires CanAscend(c, r, m)
    ensures SlotAddr(c, Top(r)) < |m| == |c.m0| && !InScratch(c.env, c.H, SlotAddr(c, Top(r)))
    ensures Reversed(c, r.stk)[SlotAddr(c, Top(r))] == Ptr(Previous(Rest(r)))
    ensures Set(Reversed(c, r.stk), SlotAddr(c, Top(r)), Ptr(r.cur)) == Reversed(c, Rest(r))
  {
    hide CallOk, CanAscend, SlotAddr, Follows, PathOk, InScratch, Previous, Reversed, Top, Rest, Set;
    CanAscendOk(c, r, m);
    AscendShape(c, r, m);
    AscendLinked(c, r, m);
    SlotInMemory(c, Top(r));
    PathSlots(c, Rest(r), Top(r));
    ReversedTop(c, r, m);
    SetBack(Reversed(c, Rest(r)), SlotAddr(c, Top(r)), Ptr(Previous(Rest(r))));
  }

  lemma SetBack(m: Memory, a: nat, w: Word)
    requires a < |m|
    ensures Set(m, a, w)[a] == w && Set(Set(m, a, w), a, m[a]) == m
  {
  }

  lemma ReversedTop(c: Call, r: Run, m: Memory)
    requires CanAscend(c, r, m)
    ensures Reversed(c, r.stk) == Set(Reversed(c, Rest(r)), SlotAddr(c, Top(r)), Ptr(Previous(Rest(r))))
  {
    hide CallOk, Inv, SlotAddr, Clean;
  }

  lemma AscendMem(c: Call, r: Run, m: Memory)
    requires CanAscend(c, r, m)
    ensures MemOk(c, Ascend(r), Restore(c, r, m))
    ensures SlotAddr(c, Top(r)) < |m| && m[SlotAddr(c, Top(r))] == Ptr(Previous(Rest(r)))
  {
    hide CallOk, AreObjects, Shape, Linked, Progress, Marks, Clean, SlotsAt, SlotAddr, InScratch, Reversed, Previous;
    CanAscendOk(c, r, m);
    AscendShape(c, r, m);
    AscendWords(c, r, m);
    SlotHarmless(c, Top(r), Ptr(r.cur));
    WriteKeepsObjects(c.env, m, c.H, Top(r).p, SlotAddr(c, Top(r)), Ptr(r.cur));
  }

  lemma AscendSameScratch(c: Call, r: Run, m: Memory, q: nat)
    requires CanAscend(c, r, m) && q in c.H
    ensures c.H[q].p == q && SameScratch(c.env, c.H[q], m, Restore(c, r, m))
  {
    hide CallOk, CanAscend, SlotAddr, Scratch, Reversed, Top, Rest, Previous, Inv, PathOk, AreObjects;
    CanAscendOk(c, r, m);
    AscendWords(c, r, m);
    HeaderScratch(c, q);
    forall a | 0 <= a < |m| && Scratch(c.env, c.H[q], a)
      ensures Restore(c, r, m)[a] == m[a]
    {
      assert InScratch(c.env, c.H, a);
    }
  }

  lemma AscendScratchOk(c: Call, r: Run, m: Memory, q: nat)
    requires CanAscend(c, r, m) && q in c.H && ScratchOk(c, r, m, q)
    ensures ScratchOk(c, Ascend(r), Restore(c, r, m), q)
  {
    hide CallOk, Inv, Restore, Ascend, HasCounters, OnPath, SameScratch;
    AscendSameScratch(c, r, m, q);
    OnPathAscend(r, q);
    var m' := Restore(c, r, m);
    assert Clean(c.env, m, c.H[q]) ==> Clean(c.env, m', c.H[q]) by {
      if Clean(c.env, m, c.H[q]) { SameClean(c.env, m, m', c.H[q]); }
    }
    SameHeader(c.env, m, m', c.H[q]);
  }

  lemma SameHeader(env: Env, m: Memory, m': Memory, o: Obj)
    requires SameScratch(env, o, m, m') && 0 < o.p <= |m|
    ensures m'[o.p - 1] == m[o.p - 1]
    ensures IsWeak(env, o) && o.p < |m| ==> m'[o.p] == m[o.p]
  {
    assert Scratch(env, o, o.p - 1);
  }

  lemma AscendMarks(c: Call, r: Run, m: Memory)
    requires CanAscend(c, r, m)
    ensures Marks(c, Ascend(r), Restore(c, r, m))
  {
    hide CallOk, AreObjects, Linked, Progress, HasCounters, Clean, Saved, ScratchOk, Restore, OnPath, SameScratch;
    var r' := Ascend(r);
    var m' := Restore(c, r, m);
    forall q | q in c.H
      ensures SameScratch(c.env, c.H[q], m, m')
    {
      AscendSameScratch(c, r, m, q);
    }
    forall q | q in c.H && q !in r'.visited
      ensures SameScratch(c.env, c.H[q], c.m0, m')
    {
      SameScratchTrans(c.env, c.H[q], c.m0, m, m');
    }
    forall q | q in r'.visited
      ensures ScratchOk(c, r', m', q)
    {
      AscendScratchOk(c, r, m, q);
    }
    forall k | 0 <= k < |r'.stk|
      ensures Saved(c.env, c.m0, m', At(c.H, r'.stk[k].p), r'.stk[k].i)
    {
      SameSaved(c.env, c.m0, m, m', At(c.H, r.stk[k].p), r.stk[k].i);
    }
  }

  lemma AscendStep(c: Call, r: Run, m: Memory)
    requires CanAscend(c, r, m)
    ensures Inv(c, Ascend(r), Restore(c, r, m))
    ensures SlotAddr(c, Top(r)) < |m| && m[SlotAddr(c, Top(r))] == Ptr(Previous(Rest(r)))
    ensures Saved(c.env, c.m0, m, At(c.H, Top(r).p), Top(r).i) && Follows(c, Top(r))
    ensures SlotDone(c, Seen(c, r), SlotAddr(c, Top(r)))
  {
    hide CallOk, Shape, Linked, Progress, MemOk, SlotsAt, Saved, Clean, SlotAddr, Previous, Rest, PathOk, Restore;
    CanAscendOk(c, r, m);
    AscendShape(c, r, m);
    AscendLinked(c, r, m);
    AscendProgress(c, r, m);
    AscendMem(c, r, m);
    AscendMarks(c, r, m);
    VisitedSeen(c, r, m);
  }

  lemma VisitedSeen(c: Call, r: Run, m: Memory)
    requires Inv(c, r, m)
    ensures r.cur in Seen(c, r)
  {
    hide CallOk, Linked, Progress, MemOk, Marks, PathOk;
  }

  // ------------------------------------------------------- start and end

  function Begin(root: nat): Run { Run({root}, [], root, 0) }

  ghost predicate CanBegin(c: Call) {
    CallOk(c) && c.root in c.H && c.root !in Already(c)
  }

  lemma BeginShape(c: Call)
    requires CanBegin(c)
    ensures Shape(c, Begin(c.root)) && Linked(c, Begin(c.root)) && Progress(c, Begin(c.root))
  {
    hide CallOk, Already;
    ReachRoot(Without(PointerGraph(c.env, c.m0, c.H), Already(c)), {c.root}, c.root);
  }

  lemma BeginHeader(c: Call)
    requires CanBegin(c)
    ensures var h := c.root - 1;
            0 <= h < |c.m0| && c.m0[h].Header? && c.m0[h].ty == c.H[c.root].ty && c.m0[h].mark == !c.bit
            && c.H[c.root].p == c.root && Flip(c.m0, c.root) == c.m0[h := c.m0[h].(mark := c.bit)]
  {
    hide CallOk;
    HeaderScratch(c, c.root);
  }

  lemma BeginMem(c: Call)
    requires CanBegin(c)
    ensures MemOk(c, Begin(c.root), Flip(c.m0, c.root))
  {
    hide AreObjects, Clean, Scratch, SlotsOk, Flip, Already;
    BeginHeader(c);
    HeaderScratch(c, c.root);
    WriteKeepsObjects(c.env, c.m0, c.H, c.root, c.root - 1, c.m0[c.root - 1].(mark := c.bit));
  }

  lemma BeginMarks(c: Call)
    requires CanBegin(c)
    ensures Marks(c, Begin(c.root), Flip(c.m0, c.root))
  {
    hide CallOk, Scratch, Flip, Already, InScratch;
    BeginHeader(c);
    var m := Flip(c.m0, c.root);
    HeaderScratch(c, c.root);
    forall q | q in c.H && q != c.root
      ensures SameScratch(c.env, c.H[q], c.m0, m)
    {
      forall a | 0 <= a < |m| && Scratch(c.env, c.H[q], a)
        ensures m[a] == c.m0[a]
      {
        CallObjects(c);
        OtherScratch(c.env, c.m0, c.H, c.root, q, a);
      }
    }
  }

  lemma CallObjects(c: Call)
    requires CallOk(c)
    ensures AreObjects(c.env, c.m0, c.H)
  {
  }

  lemma BeginStep(c: Call)
    requires CanBegin(c)
    ensures Inv(c, Begin(c.root), Flip(c.m0, c.root))
  {
    hide Quiet, SlotsOk, Within, Shape, Linked, Progress, MemOk, Marks, Already, Begin, Flip;
    BeginShape(c);
    BeginMem(c);
    BeginMarks(c);
  }

  ghost predicate AtEnd(c: Call, r: Run, m: Memory) {
    Inv(c, r, m) && |r.stk| == 0 && r.i == |SlotsAt(c, r.cur)| && Clean(c.env, m, At(c.H, r.cur))
  }

  lemma EndProgress(c: Call, r: Run, q: nat)
    requires Progress(c, r) && |r.stk| == 0 && r.i == |SlotsAt(c, r.cur)| && q in r.visited
    ensures DoneUpTo(c, Seen(c, r), q, |SlotsAt(c, q)|)
  {
    hide SlotsAt, DoneUpTo, Seen;
  }

  // Everything reachable has been visited: visited is closed.
  lemma EndVisited(c: Call, r: Run, m: Memory)
    requires AtEnd(c, r, m)
    ensures r.visited == ToMark(c)
  {
    hide CallOk, MemOk, Marks, Linked, Clean, Reach, Already, PathOk, Progress;
    var g := PointerGraph(c.env, c.m0, c.H);
    var avail := Without(g, Already(c));
    forall x, y | x in r.visited && x in avail && y in avail[x] && y in avail
      ensures y in r.visited
    {
      EndProgress(c, r, x);
      var i :| 0 <= i < |SlotsAt(c, x)| && PointsTo(c.m0, c.H, SlotsAt(c, x)[i], y);
      assert SlotDone(c, Seen(c, r), SlotsAt(c, x)[i]);
    }
    ReachUnique(avail, {c.root}, r.visited);
  }

  // What marking the objects of V does to memory.
  ghost predicate Marked(c: Call, V: set<nat>, m: Memory) {
    && |m| == |c.m0|
    && AreObjects(c.env, m, c.H)
    && V <= c.H.Keys
    && (forall a :: 0 <= a < |m| && !InScratch(c.env, c.H, a) ==> m[a] == c.m0[a])
    && (forall q :: q in c.H && q !in V ==> SameScratch(c.env, c.H[q], c.m0, m))
    && (forall q :: q in V ==> MarkedObject(c.env, c.H[q], c.bit, c.link, c.m0, m))
  }

  // Only the mark bit differs, apart from markTop, markIndex and weak links.
  ghost predicate MarkedObject(env: Env, o: Obj, bit: bool, link: bool, m0: Memory, m: Memory) {
    && 0 < o.front < o.p <= |m0| == |m|
    && m0[o.p - 1].Header? && m[o.p - 1] == m0[o.p - 1].(mark := bit)
    && (TagOf(env, o) == SequenceTag ==> m[o.front] == m0[o.front])
    && (IsWeak(env, o) && !link ==> o.p < |m| && m[o.p] == m0[o.p])
  }

  lemma EndObject(c: Call, r: Run, m: Memory, q: nat)
    requires CallOk(c) && q in c.H && IsObject(c.env, m, c.H[q]) && |m| == |c.m0|
    requires ScratchOk(c, r, m, q) && Clean(c.env, m, c.H[q])
    ensures MarkedObject(c.env, c.H[q], c.bit, c.link, c.m0, m)
  {
    hide CallOk, IsObject;
    HeaderScratch(c, q);
    ObjectBounds(c.env, m, c.H[q]);
  }

  lemma EndMarked(c: Call, r: Run, m: Memory)
    requires AtEnd(c, r, m)
    ensures Marked(c, r.visited, m)
  {
    hide Quiet, Within, SlotsOk, Linked, Progress, Clean, Already, PathOk, MarkedObject, HasCounters, IsObject;
    forall q | q in r.visited
      ensures MarkedObject(c.env, c.H[q], c.bit, c.link, c.m0, m)
    {
      assert ScratchOk(c, r, m, q);
      EndObject(c, r, m, q);
    }
  }
}
