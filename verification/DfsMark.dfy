// dfsMark: the traversal itself, with its size count and its list of weak
// objects.

module DfsMark {
  import opened Layout
  import opened Graph
  import opened Heap
  import opened State
  import opened Cursor
  import opened Align
  import opened ObjectSize
  import opened DfsInvariant
  import opened DfsSteps

  // ------------------------------------------------------- the weak list

  function LinkAt(L: seq<nat>, k: nat): nat {
    if k < |L| then L[k] else 0
  }

  // Starting at w, the link words chain the weak objects L.
  ghost predicate WeakChain(m: Memory, w: nat, L: seq<nat>) {
    && w == LinkAt(L, 0)
    && (forall k :: 0 <= k < |L| ==> L[k] < |m| && m[L[k]] == Ptr(LinkAt(L, k + 1)))
  }

  // A weak object whose target lies in the heap.
  ghost predicate Linkable(c: Call, q: nat) {
    && q in c.H && IsWeak(c.env, c.H[q]) && q + 1 < |c.m0|
    && c.m0[q + 1].Ptr? && InSpaces(c.sp, c.m0[q + 1].addr)
  }

  // L is the list L0 of the call's start extended by the linkable objects of V.
  ghost predicate Links(c: Call, V: set<nat>, m: Memory, w: nat, L: seq<nat>, L0: seq<nat>) {
    && (forall q :: q in L0 ==> q in Already(c) && IsWeak(c.env, c.H[q]))
    && Distinct(L)
    && WeakChain(m, w, L)
    && (forall q :: q in L <==> q in L0 || (c.link && q in V && Linkable(c, q)))
  }

  // The link words of weak objects are the same in m and m'.
  ghost predicate SameLinks(c: Call, m: Memory, m': Memory) {
    |m| == |m'| && forall q :: q in c.H && IsWeak(c.env, c.H[q]) && q < |m| ==> m'[q] == m[q]
  }

  lemma LinksKept(c: Call, V: set<nat>, m: Memory, m': Memory, w: nat, L: seq<nat>, L0: seq<nat>)
    requires Links(c, V, m, w, L, L0) && SameLinks(c, m, m') && V <= c.H.Keys
    ensures Links(c, V, m', w, L, L0)
  {
    forall k | 0 <= k < |L|
      ensures m'[L[k]] == m[L[k]]
    {
      assert L[k] in L;
    }
  }

  lemma LinksVisit(c: Call, V: set<nat>, q: nat, m: Memory, w: nat, L: seq<nat>, L0: seq<nat>)
    requires Links(c, V, m, w, L, L0) && (!c.link || !Linkable(c, q))
    ensures Links(c, V + {q}, m, w, L, L0)
  {
  }

  lemma ChainLonger(m: Memory, w: nat, L: seq<nat>, q: nat)
    requires WeakChain(m, w, L) && q !in L && q < |m|
    ensures WeakChain(m[q := Ptr(w)], q, [q] + L)
  {
    var L' := [q] + L;
    forall k | 0 <= k < |L'|
      ensures L'[k] < |m| && m[q := Ptr(w)][L'[k]] == Ptr(LinkAt(L', k + 1))
    {
      if k > 0 {
        assert L'[k] == L[k - 1] && L[k - 1] in L;
        assert LinkAt(L', k + 1) == LinkAt(L, k);
      }
    }
  }

  lemma LinksAdd(c: Call, V: set<nat>, q: nat, m: Memory, w: nat, L: seq<nat>, L0: seq<nat>)
    requires Links(c, V, m, w, L, L0) && c.link && Linkable(c, q)
    requires q !in V && q !in Already(c) && q < |m|
    ensures Links(c, V + {q}, m[q := Ptr(w)], q, [q] + L, L0)
  {
    hide Linkable, Already;
    assert q !in L;
    var L' := [q] + L;
    ChainLonger(m, w, L, q);
    forall x
      ensures x in L' <==> x in L0 || (c.link && x in V + {q} && Linkable(c, x))
    {
      assert x in L' <==> x == q || x in L;
    }
  }

  lemma SameLinksScratch(c: Call, r: Run, m: Memory, m': Memory)
    requires InnerStep(c, r, m, m') && (IsWeak(c.env, At(c.H, r.cur)) ==> m' == m)
    ensures SameLinks(c, m, m')
  {
    hide Shape, Linked, Progress, Marks, IsObject, ScratchOnly, SlotsOk, Quiet;
    assert r.cur in c.H && |m| == |m'| by { InnerBasics(c, r, m, m'); }
    forall q | q in c.H && IsWeak(c.env, c.H[q]) && q < |m|
      ensures m'[q] == m[q]
    {
      if q != r.cur {
        ScratchElsewhere(c.env, m, m', c.H, r.cur, q);
      }
    }
  }

  lemma InnerBasics(c: Call, r: Run, m: Memory, m': Memory)
    requires InnerStep(c, r, m, m')
    ensures r.cur in c.H && |m| == |m'|
  {
    hide CallOk, Linked, Progress, Marks, AreObjects, PathOk;
  }

  lemma SameLinksDescend(c: Call, r: Run, m: Memory, t: nat)
    requires CanDescend(c, r, m, t)
    ensures SameLinks(c, m, Flip(Reverse(c, r, m), t))
  {
    hide CallOk, CanDescend, Reverse, Flip, Inv, AreObjects;
    CanDescendOk(c, r, m, t);
    var m' := Flip(Reverse(c, r, m), t);
    forall q | q in c.H && IsWeak(c.env, c.H[q]) && q < |m|
      ensures m'[q] == m[q]
    {
      HeaderScratch(c, q);
      DescendScratch(c, r, m, t, q, q);
    }
  }

  lemma SameLinksAscend(c: Call, r: Run, m: Memory)
    requires CanAscend(c, r, m)
    ensures SameLinks(c, m, Restore(c, r, m))
  {
    hide CallOk, CanAscend, Restore;
    forall q | q in c.H && IsWeak(c.env, c.H[q]) && q < |m|
      ensures Restore(c, r, m)[q] == m[q]
    {
      AscendSameScratch(c, r, m, q);
    }
  }

  lemma SameLinksBegin(c: Call)
    requires CanBegin(c)
    ensures SameLinks(c, c.m0, Flip(c.m0, c.root))
  {
    hide CallOk, Already;
    HeaderScratch(c, c.root);
    forall q | q in c.H && IsWeak(c.env, c.H[q]) && q < |c.m0|
      ensures Flip(c.m0, c.root)[q] == c.m0[q]
    {
      HeaderScratch(c, q);
      if q == c.root - 1 {
        CallObjects(c);
        OtherScratch(c.env, c.m0, c.H, c.root, q, q);
      }
    }
  }

  // -------------------------------------------------------------- sizes

  ghost function NonWeak(c: Call, V: set<nat>): set<nat> {
    set q | q in V && !IsWeak(c.env, At(c.H, q))
  }

  // Bytes of the visited objects; weak objects are not counted.
  ghost function BytesMarked(c: Call, V: set<nat>): int {
    8 * Total(c.H, NonWeak(c, V), |c.m0| + 1)
  }

  lemma BytesVisit(c: Call, V: set<nat>, q: nat)
    requires q in c.H && q !in V && q <= |c.m0|
    ensures BytesMarked(c, V + {q})
         == BytesMarked(c, V) + if IsWeak(c.env, c.H[q]) then 0 else 8 * c.H[q].Words()
  {
    if IsWeak(c.env, c.H[q]) {
      assert NonWeak(c, V + {q}) == NonWeak(c, V);
    } else {
      assert NonWeak(c, V + {q}) == NonWeak(c, V) + {q};
      TotalAdd(c.H, NonWeak(c, V), q, |c.m0| + 1);
    }
  }

  // ------------------------------------------------------------- methods

  // What holds at each point of the traversal besides Inv.
  ghost predicate Sums(c: Call, V: set<nat>, m: Memory, size: int, w: nat, L: seq<nat>, L0: seq<nat>) {
    Links(c, V, m, w, L, L0) && size == BytesMarked(c, V)
  }

  lemma InvParts(c: Call, r: Run, m: Memory)
    requires Inv(c, r, m)
    ensures CallOk(c) && AreObjects(c.env, c.m0, c.H) && AreObjects(c.env, m, c.H) && |m| == |c.m0|
    ensures r.cur in c.H && r.cur in r.visited && ScratchOk(c, r, m, r.cur) && PathOk(c, r.stk)
    ensures r.visited <= c.H.Keys && r.visited !! Already(c)
  {
    hide Linked, Progress, SlotsOk, ScratchOk, AreObjects, PathOk, Already;
  }

  lemma CurFacts(env: Env, m: Memory, H: Objects, p: nat)
    requires AreObjects(env, m, H) && p in H
    ensures At(H, p) == H[p] && H[p].p == p && IsO(env, m, H[p])
    ensures 0 < H[p].front < p <= |m| && m[p - 1].Header? && m[p - 1].ty == H[p].ty < |env.types|
  {
    hide Apart;
  }

  lemma PreviousPositive(c: Call, r: Run)
    requires AreObjects(c.env, c.m0, c.H) && PathOk(c, r.stk) && |r.stk| > 0
    ensures 0 < Previous(r.stk)
  {
    hide AreObjects, SlotsAt;
    assert Follows(c, r.stk[|r.stk| - 1]);
    CurFacts(c.env, c.m0, c.H, r.stk[|r.stk| - 1].p);
  }

  lemma InvFacts(c: Call, r: Run, m: Memory)
    requires Inv(c, r, m)
    ensures CallOk(c) && r.cur in c.H && At(c.H, r.cur) == c.H[r.cur] && c.H[r.cur].p == r.cur
    ensures IsO(c.env, c.m0, c.H[r.cur]) && IsO(c.env, m, c.H[r.cur]) && IsObject(c.env, m, c.H[r.cur])
    ensures |m| == |c.m0| && 0 < c.H[r.cur].front < r.cur <= |m|
    ensures m[r.cur - 1].Header? && m[r.cur - 1].ty == c.H[r.cur].ty < |c.env.types|
    ensures FixedWords(c.env, c.m0, m, c.H[r.cur])
    ensures r.visited <= c.H.Keys && r.cur in r.visited && r.visited !! Already(c)
    ensures |r.stk| > 0 ==> 0 < Previous(r.stk)
    ensures HasCounters(c.env, c.H[r.cur]) || Clean(c.env, m, c.H[r.cur])
  {
    hide Inv, CallOk, AreObjects, IsObject, Clean, HasCounters, FixedWords, Already, PathOk, Previous;
    InvParts(c, r, m);
    CurFacts(c.env, c.m0, c.H, r.cur);
    CurFacts(c.env, m, c.H, r.cur);
    FixedInMemory(c, r, m, r.cur);
    if |r.stk| > 0 { PreviousPositive(c, r); }
  }

  lemma WeakShape(env: Env, m: Memory, o: Obj)
    requires IsO(env, m, o) && IsWeak(env, o)
    ensures o.front == o.p - 1 && o.end == o.p + 2 <= |m|
    ensures !Scratch(env, o, o.p + 1) && Scratch(env, o, o.p)
  {
    assert ValidType(env.types[o.ty]);
  }

  lemma WeakWords(c: Call, r: Run, m: Memory)
    requires Inv(c, r, m) && IsWeak(c.env, At(c.H, r.cur))
    ensures r.cur + 1 < |m| && m[r.cur + 1] == c.m0[r.cur + 1]
  {
    hide Shape, Linked, Progress, Marks, CallOk, AreObjects, Scratch, IsObject, SlotAddr;
    InvParts(c, r, m);
    CurFacts(c.env, c.m0, c.H, r.cur);
    WeakShape(c.env, c.m0, c.H[r.cur]);
    OnlyOwner(c, r.cur, r.cur + 1);
    WeakOffPath(c, r, m, r.cur + 1);
    ReversedAt(c, r.stk, r.cur + 1);
  }

  // The slot of a weak object is never followed.
  lemma WeakOffPath(c: Call, r: Run, m: Memory, a: nat)
    requires Inv(c, r, m) && IsWeak(c.env, At(c.H, r.cur))
    requires At(c.H, r.cur).front <= a < At(c.H, r.cur).end
    ensures forall k :: 0 <= k < |r.stk| ==> SlotAddr(c, r.stk[k]) != a
  {
    hide Linked, Progress, MemOk, Marks, SlotsOk, IsObject, SlotAddr;
    forall k | 0 <= k < |r.stk|
      ensures SlotAddr(c, r.stk[k]) != a
    {
      assert Follows(c, r.stk[k]);
      SlotInMemory(c, r.stk[k]);
    }
  }

  lemma LinkScratchOnly(env: Env, m: Memory, o: Obj, w: Word)
    requires IsO(env, m, o) && IsWeak(env, o)
    ensures o.p < |m| && ScratchOnly(env, o, m, m[o.p := w])
  {
    hide IsObject;
    ObjectBounds(env, m, o);
    WeakShape(env, m, o);
  }

  lemma LinkStep(c: Call, r: Run, m: Memory, w: nat)
    requires Inv(c, r, m) && c.link && IsWeak(c.env, At(c.H, r.cur))
    ensures r.cur < |m| && InnerStep(c, r, m, m[r.cur := Ptr(w)])
  {
    hide Inv, CallOk, IsObject, Clean, HasCounters, FixedWords, Already, ScratchOnly;
    InvFacts(c, r, m);
    LinkScratchOnly(c.env, m, c.H[r.cur], Ptr(w));
  }

  // Counting the object just marked, and linking it when it is linkable.
  lemma EnterSums(c: Call, r: Run, m: Memory, size: int, w: nat, L: seq<nat>, L0: seq<nat>)
    requires Inv(c, r, m) && Sums(c, r.visited - {r.cur}, m, size, w, L, L0)
    ensures BytesMarked(c, r.visited) == size + if IsWeak(c.env, At(c.H, r.cur)) then 0 else 8 * At(c.H, r.cur).Words()
    ensures !c.link || !Linkable(c, r.cur) ==> Links(c, r.visited, m, w, L, L0)
    ensures c.link && Linkable(c, r.cur) ==>
              r.cur < |m| && Links(c, r.visited, m[r.cur := Ptr(w)], r.cur, [r.cur] + L, L0)
  {
    hide Inv, Linkable, Links, BytesMarked, CallOk, Already;
    InvFacts(c, r, m);
    var V := r.visited - {r.cur};
    assert r.visited == V + {r.cur};
    BytesVisit(c, V, r.cur);
    if c.link && Linkable(c, r.cur) {
      LinkableBound(c, r.cur);
      LinksAdd(c, V, r.cur, m, w, L, L0);
    } else {
      LinksVisit(c, V, r.cur, m, w, L, L0);
    }
  }

  lemma LinkableBound(c: Call, q: nat)
    requires Linkable(c, q)
    ensures q + 1 < |c.m0|
  {
  }

  lemma LinkableHere(c: Call, r: Run, m: Memory)
    requires Inv(c, r, m)
    ensures IsWeak(c.env, At(c.H, r.cur)) ==>
              r.cur + 1 < |m| && (Linkable(c, r.cur) <==> m[r.cur + 1].Ptr? && InSpaces(c.sp, m[r.cur + 1].addr))
    ensures !IsWeak(c.env, At(c.H, r.cur)) ==> !Linkable(c, r.cur)
  {
    hide Inv, CallOk;
    InvFacts(c, r, m);
    if IsWeak(c.env, c.H[r.cur]) { WeakWords(c, r, m); }
  }

  // After a step inside the current object everything is as before.
  lemma InnerSums(c: Call, r: Run, m: Memory, m': Memory, size: int, w: nat, L: seq<nat>, L0: seq<nat>)
    requires Inv(c, r, m) && Sums(c, r.visited, m, size, w, L, L0)
    requires ScratchOnly(c.env, At(c.H, r.cur), m, m')
    requires IsWeak(c.env, At(c.H, r.cur)) ==> m' == m
    ensures Inv(c, r, m') && Sums(c, r.visited, m', size, w, L, L0)
  {
    hide Inv, Links, CallOk, ScratchOnly, SameLinks, BytesMarked, Already;
    InvFacts(c, r, m);
    assert InnerStep(c, r, m, m');
    ScratchStep(c, r, m, m');
    SameLinksScratch(c, r, m, m');
    LinksKept(c, r.visited, m, m', w, L, L0);
  }

  lemma LinkedInv(c: Call, r: Run, m: Memory, w: nat)
    requires Inv(c, r, m) && c.link && IsWeak(c.env, At(c.H, r.cur))
    ensures r.cur < |m| && Inv(c, r, m[r.cur := Ptr(w)])
  {
    hide Inv, InnerStep;
    LinkStep(c, r, m, w);
    ScratchStep(c, r, m, m[r.cur := Ptr(w)]);
  }

  lemma TagOfWeak(env: Env, o: Obj)
    requires o.ty < |env.types|
    ensures IsWeak(env, o) <==> env.types[o.ty].tag == WeakTag
  {
  }

  lemma SumsIntro(c: Call, V: set<nat>, m: Memory, size: int, w: nat, L: seq<nat>, L0: seq<nat>)
    requires Links(c, V, m, w, L, L0) && size == BytesMarked(c, V)
    ensures Sums(c, V, m, size, w, L, L0)
  {
  }

  // Account for an object that has just been marked: its size, its place in
  // the weak list, and the cursor before its first slot.
  method Enter(s: GCState, cur: nat, link: bool, size: nat, ghost c: Call, ghost r: Run, ghost L: seq<nat>,
          ghost L0: seq<nat>)
    returns (size': nat, cursor: Cursor, ghost L': seq<nat>)
    requires Inv(c, r, s.mem[..]) && r.cur == cur && r.i == 0
    requires s.env == c.env && link == c.link && s.Spaces() == c.sp
    requires Sums(c, r.visited - {cur}, s.mem[..], size, s.weaks, L, L0)
    modifies s`weaks, s.mem
    ensures Inv(c, r, s.mem[..])
    ensures Sums(c, r.visited, s.mem[..], size', s.weaks, L', L0)
    ensures |s.mem[..]| == |c.m0| && IsO(c.env, c.m0, At(c.H, cur))
    ensures CursorOk(c.env, c.m0, s.mem[..], At(c.H, cur), cursor, 0)
    ensures !link ==> s.weaks == old(s.weaks)
  {
    hide *;
    ghost var m := s.mem[..];
    ghost var o := At(c.H, cur);
    InvFacts(c, r, m);
    EnterSums(c, r, m, size, s.weaks, L, L0);
    LinkableHere(c, r, m);
    TagOfWeak(c.env, o);
    var t := s.env.types[s.mem[cur - 1].ty];
    L', size' := L, size;
    if t.tag == WeakTag {
      if link && s.mem[cur + 1].Ptr? && InSpaces(s.Spaces(), s.mem[cur + 1].addr) {
        LinkedInv(c, r, m, s.weaks);
        s.Store(cur, Ptr(s.weaks));
        s.weaks := cur;
        L' := [cur] + L;
      }
    } else {
      assert m[cur - 1 := m[cur - 1]] == m;
      ValidEnvOf(c.env, c.m0, o);
      var meta, data := SizeofObjectAux(s, cur, s.mem[cur - 1], o);
      size' := size + meta + data;
      WordsOf(o);
    }
    SumsIntro(c, r.visited, s.mem[..], size', s.weaks, L', L0);
    ghost var m1 := s.mem[..];
    InvFacts(c, r, m1);
    cursor := StartCursor(s, cur, t, c.m0, o);
    InnerSums(c, r, m1, s.mem[..], size', s.weaks, L', L0);
    InvFacts(c, r, s.mem[..]);
  }

  lemma ValidEnvOf(env: Env, m0: Memory, o: Obj)
    requires IsO(env, m0, o)
    ensures ValidEnv(env)
  {
  }

  lemma WordsOf(o: Obj)
    ensures o.Words() == o.end - o.front
  {
  }

  // The traversal state between two steps, with its cursor.
  ghost predicate Ready(c: Call, r: Run, m: Memory, cursor: Cursor, size: int, w: nat, L: seq<nat>, L0: seq<nat>) {
    && Inv(c, r, m)
    && Sums(c, r.visited, m, size, w, L, L0)
    && |m| == |c.m0| && IsO(c.env, c.m0, At(c.H, r.cur))
    && CursorOk(c.env, c.m0, m, At(c.H, r.cur), cursor, r.i)
  }

  lemma ReadyFacts(c: Call, r: Run, m: Memory, cursor: Cursor, size: int, w: nat, L: seq<nat>, L0: seq<nat>)
    requires Ready(c, r, m, cursor, size, w, L, L0)
    ensures Inv(c, r, m) && Sums(c, r.visited, m, size, w, L, L0)
    ensures |m| == |c.m0| && IsO(c.env, c.m0, At(c.H, r.cur))
    ensures CursorOk(c.env, c.m0, m, At(c.H, r.cur), cursor, r.i)
    ensures r.i <= |SlotsAt(c, r.cur)|
    ensures !cursor.Finished? ==>
              && r.i < |SlotsAt(c, r.cur)| && SlotsAt(c, r.cur)[r.i] == cursor.todo < |m|
              && m[cursor.todo] == c.m0[cursor.todo]
    ensures cursor.Finished? ==> r.i == |SlotsAt(c, r.cur)|
  {
    hide Inv, Sums, IsObject, CursorAt;
    InvFacts(c, r, m);
    if cursor.Finished? {
      FinishedSlots(c.env, c.m0, m, c.H[r.cur], cursor, r.i);
    } else {
      CursorSlot(c.env, c.m0, c.H[r.cur], cursor, r.i);
      CurrentSlot(c, r, m);
    }
  }

  lemma FinishedSlots(env: Env, m0: Memory, m: Memory, o: Obj, cursor: Cursor, i: nat)
    requires IsO(env, m0, o) && |m| == |m0| && CursorOk(env, m0, m, o, cursor, i) && cursor.Finished?
    ensures i == |Strong(env, o)|
  {
  }

  // The slots of the current object hold their original values.
  lemma CurrentSlot(c: Call, r: Run, m: Memory)
    requires Inv(c, r, m) && r.i < |SlotsAt(c, r.cur)|
    ensures SlotsAt(c, r.cur)[r.i] < |m| == |c.m0|
    ensures m[SlotsAt(c, r.cur)[r.i]] == c.m0[SlotsAt(c, r.cur)[r.i]]
  {
    hide Linked, Progress, Marks, CallOk, AreObjects, ToMark, Already;
    SlotInMemory(c, Frame(r.cur, r.i));
    PathSlots(c, r.stk, Frame(r.cur, r.i));
  }

  // What the header of a slot's target says about the slot.
  lemma TargetSeen(c: Call, r: Run, m: Memory, w: Word)
    requires Inv(c, r, m) && r.i < |SlotsAt(c, r.cur)|
    requires SlotsAt(c, r.cur)[r.i] < |m| == |c.m0| && w == c.m0[SlotsAt(c, r.cur)[r.i]]
    ensures w.Ptr? && InSpaces(c.sp, w.addr) ==>
              && w.addr in c.H && 0 < w.addr <= |m| && m[w.addr - 1].Header?
              && (m[w.addr - 1].mark == c.bit <==> w.addr in Seen(c, r))
              && PointsTo(c.m0, c.H, SlotsAt(c, r.cur)[r.i], w.addr)
    ensures !(w.Ptr? && InSpaces(c.sp, w.addr)) ==> SlotDone(c, Seen(c, r), SlotsAt(c, r.cur)[r.i])
    ensures w.Ptr? && w.addr in Seen(c, r) ==> SlotDone(c, Seen(c, r), SlotsAt(c, r.cur)[r.i])
  {
    hide *;
    InvParts(c, r, m);
    SlotInHeap(c, r);
    var a := SlotsAt(c, r.cur)[r.i];
    SlotTarget(c, Seen(c, r), a, w);
    if w.Ptr? && w.addr in c.H { SeenMark(c, r, m, w.addr); }
  }

  lemma SlotTarget(c: Call, seen: set<nat>, a: nat, w: Word)
    requires a < |c.m0| && w == c.m0[a] && TargetOk(c.H, c.sp, w)
    requires forall t :: t in c.H ==> InSpaces(c.sp, t)
    ensures w.Ptr? && InSpaces(c.sp, w.addr) ==> w.addr in c.H && PointsTo(c.m0, c.H, a, w.addr)
    ensures !(w.Ptr? && InSpaces(c.sp, w.addr)) ==> SlotDone(c, seen, a)
    ensures w.Ptr? && w.addr in seen ==> SlotDone(c, seen, a)
  {
    hide InSpaces;
  }

  // The mark says whether an object was seen.
  lemma SeenMark(c: Call, r: Run, m: Memory, t: nat)
    requires Inv(c, r, m) && t in c.H
    ensures 0 < t <= |m| && m[t - 1].Header? && (m[t - 1].mark == c.bit <==> t in Seen(c, r))
  {
    hide Linked, Progress, ToMark, PathOk, AreObjects, Clean, HasCounters, Saved, Reversed, MemOk, CallOk;
    InvParts(c, r, m);
    CurFacts(c.env, c.m0, c.H, t);
    CurFacts(c.env, m, c.H, t);
    if t !in r.visited { SameHeader(c.env, c.m0, m, c.H[t]); }
  }

  lemma SlotInHeap(c: Call, r: Run)
    requires CallOk(c) && r.cur in c.H && r.i < |SlotsAt(c, r.cur)| && SlotsAt(c, r.cur)[r.i] < |c.m0|
    ensures TargetOk(c.H, c.sp, c.m0[SlotsAt(c, r.cur)[r.i]])
    ensures forall t :: t in c.H ==> InSpaces(c.sp, t)
  {
    hide Quiet, TargetOk;
    assert SlotsAt(c, r.cur)[r.i] == c.H[r.cur].slots[r.i];
  }

  lemma ReadySkip(c: Call, r: Run, m: Memory, m': Memory, size: int, w: nat, L: seq<nat>, L0: seq<nat>, cursor: Cursor)
    requires Inv(c, r, m) && Sums(c, r.visited, m, size, w, L, L0) && r.i < |SlotsAt(c, r.cur)|
    requires SlotDone(c, Seen(c, r), SlotsAt(c, r.cur)[r.i])
    requires ScratchOnly(c.env, At(c.H, r.cur), m, m') && !IsWeak(c.env, At(c.H, r.cur))
    requires |m'| == |c.m0| && IsO(c.env, c.m0, At(c.H, r.cur))
    requires CursorOk(c.env, c.m0, m', At(c.H, r.cur), cursor, r.i + 1)
    ensures Ready(c, r.(i := r.i + 1), m', cursor, size, w, L, L0)
  {
    hide Inv, Sums, CallOk, ScratchOnly, SlotDone, SlotsAt, Seen, IsObject, CursorAt;
    InnerSums(c, r, m, m', size, w, L, L0);
    SkipStep(c, r, m');
  }

  // Go to the next slot of the current object.
  method Skip(s: GCState, cur: nat, cursor: Cursor, ghost c: Call, ghost r: Run, ghost size: int, ghost L: seq<nat>,
          ghost L0: seq<nat>)
    returns (cursor': Cursor)
    requires Inv(c, r, s.mem[..]) && Sums(c, r.visited, s.mem[..], size, s.weaks, L, L0)
    requires r.cur == cur && s.env == c.env && !cursor.Finished?
    requires |s.mem[..]| == |c.m0| && IsO(c.env, c.m0, At(c.H, cur))
    requires CursorOk(c.env, c.m0, s.mem[..], At(c.H, cur), cursor, r.i)
    requires r.i < |SlotsAt(c, cur)| && SlotDone(c, Seen(c, r), SlotsAt(c, cur)[r.i])
    modifies s.mem
    ensures Ready(c, r.(i := r.i + 1), s.mem[..], cursor', size, s.weaks, L, L0)
  {
    hide *;
    ghost var m := s.mem[..];
    InvFacts(c, r, m);
    var t := s.env.types[s.mem[cur - 1].ty];
    cursor' := NextCursor(s, cur, t, cursor, c.m0, c.H[cur], r.i);
    ReadySkip(c, r, m, s.mem[..], size, s.weaks, L, L0, cursor');
  }

  lemma DescendSums(c: Call, r: Run, m: Memory, t: nat, size: int, w: nat, L: seq<nat>, L0: seq<nat>)
    requires CanDescend(c, r, m, t) && Sums(c, r.visited, m, size, w, L, L0)
    ensures Sums(c, Descend(r, t).visited - {t}, Flip(Reverse(c, r, m), t), size, w, L, L0)
  {
    hide CanDescend, Links, Inv, Flip, Reverse, SameLinks, BytesMarked, CallOk, Seen;
    SameLinksDescend(c, r, m, t);
    CanDescendOk(c, r, m, t);
    InvFacts(c, r, m);
    LinksKept(c, r.visited, m, Flip(Reverse(c, r, m), t), w, L, L0);
    NotVisited(c, r, m, t);
    assert Descend(r, t).visited - {t} == r.visited;
  }

  lemma NotVisited(c: Call, r: Run, m: Memory, t: nat)
    requires CanDescend(c, r, m, t)
    ensures t !in r.visited
  {
    hide Inv;
  }

  lemma CanDescendIntro(c: Call, r: Run, m: Memory, t: nat)
    requires Inv(c, r, m) && r.i < |SlotsAt(c, r.cur)|
    requires Saved(c.env, c.m0, m, At(c.H, r.cur), r.i)
    requires PointsTo(c.m0, c.H, SlotsAt(c, r.cur)[r.i], t) && t !in Seen(c, r)
    ensures CanDescend(c, r, m, t)
    ensures SlotAddr(c, Frame(r.cur, r.i)) == SlotsAt(c, r.cur)[r.i]
  {
    hide Inv, Saved, PointsTo, Seen, SlotsAt;
  }

  lemma FlipSet(c: Call, r: Run, m: Memory, t: nat, a: nat)
    requires a == SlotAddr(c, Frame(r.cur, r.i)) && a < |m| && 0 < t <= |m|
    requires m[a := Ptr(Previous(r.stk))][t - 1].Header?
    ensures var m1 := m[a := Ptr(Previous(r.stk))];
            Flip(Reverse(c, r, m), t) == m1[t - 1 := m1[t - 1].(mark := !m1[t - 1].mark)]
  {
  }

  // markNext: leave the current object for the unmarked target of its slot.
  method Follow(s: GCState, cur: nat, prev: nat, next: nat, cursor: Cursor, link: bool, size: nat,
                ghost c: Call, ghost r: Run, ghost L: seq<nat>, ghost L0: seq<nat>)
    returns (size': nat, cursor': Cursor, ghost L': seq<nat>)
    requires Ready(c, r, s.mem[..], cursor, size, s.weaks, L, L0) && !cursor.Finished?
    requires r.cur == cur && s.env == c.env && prev == Previous(r.stk) && s.Spaces() == c.sp && link == c.link
    requires r.i < |SlotsAt(c, cur)| && PointsTo(c.m0, c.H, SlotsAt(c, cur)[r.i], next) && next !in Seen(c, r)
    modifies s`weaks, s.mem
    ensures Ready(c, Descend(r, next), s.mem[..], cursor', size', s.weaks, L', L0)
    ensures !link ==> s.weaks == old(s.weaks)
  {
    hide *;
    ghost var m := s.mem[..];
    ReadyFacts(c, r, m, cursor, size, s.weaks, L, L0);
    InvFacts(c, r, m);
    SaveCursor(s, cur, cursor, c.m0, c.H[cur], r.i);
    ghost var m1 := s.mem[..];
    InnerSums(c, r, m, m1, size, s.weaks, L, L0);
    CanDescendIntro(c, r, m1, next);
    DescendStep(c, r, m1, next);
    DescendSums(c, r, m1, next, size, s.weaks, L, L0);
    DescendHeader(c, r, m1, next);
    ReverseIs(c, r, m1);
    s.Store(cursor.todo, Ptr(prev));
    var header := s.mem[next - 1];
    FlipSet(c, r, m1, next, cursor.todo);
    s.Store(next - 1, header.(mark := !header.mark));
    DescendFields(r, next);
    size', cursor', L' := Enter(s, next, link, size, c, Descend(r, next), L, L0);
    ReadyIntro(c, Descend(r, next), s.mem[..], cursor', size', s.weaks, L', L0);
  }

  lemma ReverseIs(c: Call, r: Run, m: Memory)
    requires SlotAddr(c, Frame(r.cur, r.i)) < |m|
    ensures Reverse(c, r, m) == m[SlotAddr(c, Frame(r.cur, r.i)) := Ptr(Previous(r.stk))]
  {
  }

  lemma DescendFields(r: Run, t: nat)
    ensures Descend(r, t).cur == t && Descend(r, t).i == 0 && Previous(Descend(r, t).stk) == r.cur
    ensures Descend(r, t).visited == r.visited + {t}
  {
  }

  lemma ReadyIntro(c: Call, r: Run, m: Memory, cursor: Cursor, size: int, w: nat, L: seq<nat>, L0: seq<nat>)
    requires Inv(c, r, m) && Sums(c, r.visited, m, size, w, L, L0)
    requires |m| == |c.m0| && IsO(c.env, c.m0, At(c.H, r.cur))
    requires CursorOk(c.env, c.m0, m, At(c.H, r.cur), cursor, r.i)
    ensures Ready(c, r, m, cursor, size, w, L, L0)
  {
  }

  lemma CanAscendIntro(c: Call, r: Run, m: Memory)
    requires Inv(c, r, m) && r.i == |SlotsAt(c, r.cur)| && Clean(c.env, m, At(c.H, r.cur)) && |r.stk| > 0
    ensures CanAscend(c, r, m) && Top(r).p == Previous(r.stk)
    ensures Ascend(r).cur == Previous(r.stk) && Ascend(r).i == Top(r).i && Ascend(r).visited == r.visited
    ensures Previous(Ascend(r).stk) == Previous(Rest(r))
    ensures Seen(c, Ascend(r)) == Seen(c, r)
  {
    hide Inv, Clean, SlotsAt;
  }

  // What the parent object and its parked position look like.
  lemma ParentFacts(c: Call, r: Run, m: Memory)
    requires CanAscend(c, r, m)
    ensures var p := Top(r).p;
      && p in c.H && At(c.H, p) == c.H[p] && c.H[p].p == p
      && IsO(c.env, c.m0, c.H[p]) && |m| == |c.m0| && FixedWords(c.env, c.m0, m, c.H[p])
      && Saved(c.env, c.m0, m, c.H[p], Top(r).i)
      && 0 < p <= |m| && m[p - 1].Header? && m[p - 1].ty == c.H[p].ty < |c.env.types|
      && Top(r).i < |SlotsAt(c, p)| && SlotsAt(c, p)[Top(r).i] == SlotAddr(c, Top(r))
  {
    hide CanAscend, CallOk, Inv, AreObjects, IsObject, Saved, FixedWords, PathOk, SlotsAt;
    CanAscendOk(c, r, m);
    AscendStep(c, r, m);
    CurFacts(c.env, c.m0, c.H, Top(r).p);
    CurFacts(c.env, m, c.H, Top(r).p);
    FixedInMemory(c, r, m, Top(r).p);
  }

  lemma CursorKept(env: Env, m0: Memory, m: Memory, m': Memory, o: Obj, cursor: Cursor, i: nat)
    requires IsO(env, m0, o) && |m| == |m0| && CursorOk(env, m0, m, o, cursor, i) && SameScratch(env, o, m, m')
    ensures |m'| == |m0| && CursorOk(env, m0, m', o, cursor, i)
  {
    if cursor.StackCursor? { assert Scratch(env, o, o.p); }
  }

  lemma AscendSums(c: Call, r: Run, m: Memory, size: int, w: nat, L: seq<nat>, L0: seq<nat>)
    requires CanAscend(c, r, m) && Sums(c, r.visited, m, size, w, L, L0)
    ensures Sums(c, r.visited, Restore(c, r, m), size, w, L, L0)
  {
    hide CanAscend, Links, Restore, SameLinks, BytesMarked, CallOk, Inv;
    SameLinksAscend(c, r, m);
    CanAscendOk(c, r, m);
    InvFacts(c, r, m);
    LinksKept(c, r.visited, m, Restore(c, r, m), w, L, L0);
  }

  lemma RestoreIs(c: Call, r: Run, m: Memory)
    requires SlotAddr(c, Top(r)) < |m|
    ensures Restore(c, r, m) == m[SlotAddr(c, Top(r)) := Ptr(r.cur)]
  {
  }

  // ret: put the finished object back into its parent's slot and go on there.
  method Return(s: GCState, cur: nat, prev: nat, ghost size: int, ghost c: Call, ghost r: Run, ghost L: seq<nat>,
          ghost L0: seq<nat>)
    returns (prev': nat, cursor: Cursor)
    requires CanAscend(c, r, s.mem[..]) && Sums(c, r.visited, s.mem[..], size, s.weaks, L, L0)
    requires r.cur == cur && s.env == c.env && prev == Previous(r.stk)
    modifies s.mem
    ensures Ready(c, Ascend(r).(i := Ascend(r).i + 1), s.mem[..], cursor, size, s.weaks, L, L0)
    ensures prev' == Previous(Rest(r))
  {
    hide *;
    ghost var m := s.mem[..];
    CanAscendOk(c, r, m);
    assert |r.stk| > 0 && r.i == |SlotsAt(c, r.cur)| && Clean(c.env, m, At(c.H, r.cur)) by { AscendParts(c, r, m); }
    CanAscendIntro(c, r, m);
    ParentFacts(c, r, m);
    AscendStep(c, r, m);
    AscendSums(c, r, m, size, s.weaks, L, L0);
    AscendSameScratch(c, r, m, prev);
    RestoreIs(c, r, m);
    ghost var o := c.H[prev];
    ghost var i := Top(r).i;
    var t := s.env.types[s.mem[prev - 1].ty];
    cursor := LoadCursor(s, prev, t, c.m0, o, i);
    CursorSlotAt(c, m, prev, cursor, i);
    prev' := s.mem[cursor.todo].addr;
    s.Store(cursor.todo, Ptr(cur));
    CursorKept(c.env, c.m0, m, s.mem[..], o, cursor, i);
    cursor := Skip(s, prev, cursor, c, Ascend(r), size, L, L0);
  }

  lemma AscendParts(c: Call, r: Run, m: Memory)
    requires CanAscend(c, r, m)
    ensures |r.stk| > 0 && r.i == |SlotsAt(c, r.cur)| && Clean(c.env, m, At(c.H, r.cur))
  {
    hide Inv, Clean, SlotsAt;
  }

  lemma CursorSlotAt(c: Call, m: Memory, p: nat, cursor: Cursor, i: nat)
    requires p in c.H && IsO(c.env, c.m0, c.H[p]) && |m| == |c.m0|
    requires CursorOk(c.env, c.m0, m, c.H[p], cursor, i) && !cursor.Finished?
    ensures i < |SlotsAt(c, p)| && SlotsAt(c, p)[i] == cursor.todo
  {
    hide IsObject, CursorAt;
    CursorSlot(c.env, c.m0, c.H[p], cursor, i);
  }

  // The calls that have nothing to mark.
  lemma NothingToMark(c: Call)
    requires c.root !in c.H || c.root in Already(c)
    ensures ToMark(c) == {}
  {
    hide Already;
    var g := Without(PointerGraph(c.env, c.m0, c.H), Already(c));
    ReachLeast(g, {c.root}, {});
  }

  lemma NothingMarked(c: Call)
    requires CallOk(c)
    ensures Marked(c, {}, c.m0) && BytesMarked(c, {}) == 0
  {
    hide AreObjects, Clean, IsObject;
    assert NonWeak(c, {}) == {};
    TotalEmpty(c.H, |c.m0| + 1);
  }

  lemma RootFacts(c: Call)
    requires CallOk(c) && TargetOk(c.H, c.sp, Ptr(c.root))
    ensures InSpaces(c.sp, c.root) <==> c.root in c.H
    ensures c.root in c.H ==>
              && 0 < c.root <= |c.m0| && c.m0[c.root - 1].Header?
              && (c.m0[c.root - 1].mark == c.bit <==> c.root in Already(c))
  {
    hide SlotsOk, Clean;
    if c.root in c.H { HeaderScratch(c, c.root); }
  }

  lemma BeginIs(c: Call, L0: seq<nat>, w: nat)
    requires CanBegin(c) && Links(c, {}, c.m0, w, L0, L0)
    ensures var r := Begin(c.root);
      && Inv(c, r, Flip(c.m0, c.root)) && r.cur == c.root && r.i == 0 && Previous(r.stk) == 0
      && Sums(c, r.visited - {c.root}, Flip(c.m0, c.root), 0, w, L0, L0)
  {
    hide Inv, Links, Flip, SameLinks, BytesMarked, CallOk, Already;
    BeginStep(c);
    SameLinksBegin(c);
    LinksKept(c, {}, c.m0, Flip(c.m0, c.root), w, L0, L0);
    assert Begin(c.root).visited - {c.root} == {};
    NothingMarked(c);
  }

  // The measure of the traversal: objects left, path length, slots left.
  ghost function Left(c: Call, r: Run): nat { |c.H.Keys - r.visited| }

  lemma DescendLess(c: Call, r: Run, t: nat)
    requires t in c.H && t !in r.visited
    ensures Left(c, Descend(r, t)) < Left(c, r)
  {
    assert c.H.Keys - Descend(r, t).visited == (c.H.Keys - r.visited) - {t};
  }

  lemma AscendLess(c: Call, r: Run)
    requires |r.stk| > 0
    ensures |Ascend(r).(i := Ascend(r).i + 1).stk| < |r.stk|
    ensures Left(c, Ascend(r).(i := Ascend(r).i + 1)) == Left(c, r)
    ensures Ascend(r).(i := Ascend(r).i + 1).cur == Previous(r.stk)
    ensures Previous(Ascend(r).(i := Ascend(r).i + 1).stk) == Previous(Rest(r))
  {
  }

  lemma SkipLess(c: Call, r: Run)
    ensures Left(c, r.(i := r.i + 1)) == Left(c, r)
  {
  }

  lemma EndOf(c: Call, r: Run, m: Memory, size: int, w: nat, L: seq<nat>, L0: seq<nat>)
    requires Inv(c, r, m) && Sums(c, r.visited, m, size, w, L, L0) && |r.stk| == 0
    requires r.i == |SlotsAt(c, r.cur)| && Clean(c.env, m, At(c.H, r.cur))
    ensures r.visited == ToMark(c) && Marked(c, r.visited, m)
    ensures size == BytesMarked(c, r.visited) && Links(c, r.visited, m, w, L, L0)
  {
    hide Inv, Links, Marked, BytesMarked, Clean, SlotsAt;
    EndVisited(c, r, m);
    EndMarked(c, r, m);
  }

  lemma ClearIntro(c: Call, r: Run, m: Memory)
    requires Inv(c, r, m)
    ensures |r.stk| > 0 <==> Previous(r.stk) != 0
  {
    hide Inv;
    InvFacts(c, r, m);
  }

  lemma CanBeginIntro(c: Call)
    requires CallOk(c) && c.root in c.H && c.root !in Already(c)
    ensures CanBegin(c)
  {
  }

  lemma FlipIs(m: Memory, t: nat)
    requires 0 < t <= |m| && m[t - 1].Header?
    ensures Flip(m, t) == m[t - 1 := m[t - 1].(mark := !m[t - 1].mark)]
  {
  }

  lemma UnseenTarget(c: Call, r: Run, t: nat)
    requires t !in Seen(c, r)
    ensures t !in r.visited
  {
  }

  // Marks (or unmarks) exactly the objects reachable from root through objects
  // not yet marked (or unmarked).  All pointers and counters are as before.
  method DfsMark(s: GCState, root: nat, mode: Mode, shouldLinkWeaks: bool, ghost H: Objects, ghost L0: seq<nat>)
    returns (size: nat, ghost V: set<nat>, ghost L: seq<nat>)
    requires CallOk(Call(s.env, s.mem[..], H, s.Spaces(), Bit(mode), shouldLinkWeaks, root))
    requires TargetOk(H, s.Spaces(), Ptr(root))
    requires Links(Call(s.env, s.mem[..], H, s.Spaces(), Bit(mode), shouldLinkWeaks, root), {}, s.mem[..], s.weaks, L0,
      L0)
    modifies s`weaks, s.mem
    ensures var c := Call(s.env, old(s.mem[..]), H, old(s.Spaces()), Bit(mode), shouldLinkWeaks, root);
      && V == ToMark(c)
      && Marked(c, V, s.mem[..])
      && size == BytesMarked(c, V)
      && Links(c, V, s.mem[..], s.weaks, L, L0)
    ensures !shouldLinkWeaks ==> s.weaks == old(s.weaks)
  {
    hide *;
    ghost var c := Call(s.env, s.mem[..], H, s.Spaces(), Bit(mode), shouldLinkWeaks, root);
    size, V, L := 0, {}, L0;
    RootFacts(c);
    NothingMarked(c);
    if !InSpaces(s.Spaces(), root) || s.mem[root - 1].mark == Bit(mode) {
      NothingToMark(c);
      return;
    }
    CanBeginIntro(c);
    BeginIs(c, L0, s.weaks);
    ghost var r := Begin(root);
    var cur, prev, header := root, 0, s.mem[root - 1];
    FlipIs(s.mem[..], root);
    s.Store(root - 1, header.(mark := !header.mark));
    var cursor;
    size, cursor, L := Enter(s, root, shouldLinkWeaks, 0, c, r, L0, L0);
    ReadyIntro(c, r, s.mem[..], cursor, size, s.weaks, L, L0);
    while true
      invariant Ready(c, r, s.mem[..], cursor, size, s.weaks, L, L0)
      invariant r.cur == cur && prev == Previous(r.stk)
      invariant c.sp == s.Spaces()
      invariant !shouldLinkWeaks ==> s.weaks == old(s.weaks)
      decreases Left(c, r), |r.stk|, |SlotsAt(c, r.cur)| - r.i
    {
      ghost var m := s.mem[..];
      ReadyFacts(c, r, m, cursor, size, s.weaks, L, L0);
      InvFacts(c, r, m);
      if cursor.Finished? {
        var t := s.env.types[s.mem[cur - 1].ty];
        ClearCounters(s, cur, t, c.m0, c.H[cur]);
        InnerSums(c, r, m, s.mem[..], size, s.weaks, L, L0);
        ClearIntro(c, r, s.mem[..]);
        if prev == 0 {
          EndOf(c, r, s.mem[..], size, s.weaks, L, L0);
          V := r.visited;
          return;
        }
        CanAscendIntro(c, r, s.mem[..]);
        AscendLess(c, r);
        var next := cur;
        cur := prev;
        prev, cursor := Return(s, next, cur, size, c, r, L, L0);
        r := Ascend(r).(i := Ascend(r).i + 1);
      } else {
        var w := s.mem[cursor.todo];
        TargetSeen(c, r, m, w);
        if !w.Ptr? || !InSpaces(s.Spaces(), w.addr) || s.mem[w.addr - 1].mark == Bit(mode) {
          cursor := Skip(s, cur, cursor, c, r, size, L, L0);
          SkipLess(c, r);
          r := r.(i := r.i + 1);
        } else {
          UnseenTarget(c, r, w.addr);
          DescendLess(c, r, w.addr);
          size, cursor, L := Follow(s, cur, prev, w.addr, cursor, shouldLinkWeaks, size, c, r, L, L0);
          DescendFields(r, w.addr);
          r := Descend(r, w.addr);
          prev := cur;
          cur := w.addr;
        }
      }
    }
  }
}
