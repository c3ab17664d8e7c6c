// Redirecting one slot or root after its target was copied, and moving the
// scan on to the next object.

module CopyScan {
  import opened Layout
  import opened Graph
  import opened Heap
  import opened StackSize
  import opened StackObject
  import opened Tiling
  import opened Relocate
  import opened Cursor
  import opened DfsInvariant
  import opened DfsMark
  import opened Roots
  import opened Collection
  import opened Copying
  import opened CopyStep

  // The words that the copies and the roots are made of: no two of these meet.
  lemma {:induction false} PreBelow(t: Setting, st: Copy, m: Memory, w: nat, i: nat, j: nat)
    requires Copies(t, st, m, w) && i < j < |st.order|
    ensures PreObj(Now(t, st), st.order[i]).end <= PreObj(Now(t, st), st.order[j]).front
  {
    hide *;
    CopiesParts(t, st, m, w);
    BookParts(t, st);
    Ordered(PreObjs(Now(t, st), st.order), t.toStart, st.back, i, j);
    PreAt(Now(t, st), st.order, i);
    PreAt(Now(t, st), st.order, j);
  }

  lemma PreAt(c: Collection, order: seq<nat>, i: nat)
    requires i < |order|
    ensures |PreObjs(c, order)| == |order| && PreObjs(c, order)[i] == PreObj(c, order[i])
  {
    hide PreObj;
  }

  // The copied object number i, and its extent.
  lemma CopyAt(t: Setting, st: Copy, m: Memory, w: nat, i: nat)
    requires Copies(t, st, m, w) && i < |st.order|
    ensures var q := st.order[i];
      && q in t.c.H && q in st.dest && q in Live(t.c) && t.c.H[q].p == q && |m| == |t.c.m|
      && CopiedObj(Now(t, st), q, Done(t, st, i), m)
      && (var o, d, n := t.c.H[q], st.dest[q], PreObj(Now(t, st), q);
          && n.front == o.front + d - q && n.p == d &&
             n.end == o.end + d - q - WordsSaved(t.c.env, t.c.k, t.c.m, t.c.currentStack, o)
          && 0 < t.toStart <= n.front < d <= n.end <= st.back <= t.toLimit <= |m|
          && CopiedEnd(t.c.env, t.c.m, o) + d - q <= n.end && o.front < q <= CopiedEnd(t.c.env, t.c.m, o) <= o.end)
  {
    hide *;
    CopiesParts(t, st, m, w);
    SettingParts(t);
    BookParts(t, st);
    BackInside(t, st);
    OldPlaceBelow(t, st, m, w, i);
    ToAt(t, st, m, i);
    var q := st.order[i];
    NowIs(t, st);
    HeapParts(t.c);
    OldObject(t.c, q);
    CopyFits(t.c.env, t.c.k, t.c.m, t.c.H[q], t.c.currentStack);
    PreExtent(Now(t, st), q);
    TileBounds(PreObjs(Now(t, st), st.order), t.toStart, st.back, i);
    PreAt(Now(t, st), st.order, i);
  }

  // ------------------------------------------------------------------ one slot

  // The slot the scan stands before, old and new.
  function OldSlot(t: Setting, st: Copy): nat {
    if st.n < |st.order| && st.k < |Strong(t.c.env, At(t.c.H, st.order[st.n]))|
    then Strong(t.c.env, At(t.c.H, st.order[st.n]))[st.k] else 0
  }

  function NewSlotAddr(t: Setting, st: Copy): nat {
    if st.n < |st.order| then ToNat(OldSlot(t, st) + DestOf(Now(t, st), st.order[st.n]) - st.order[st.n]) else 0
  }

  ghost predicate AtSlot(t: Setting, st: Copy, m: Memory, w: nat) {
    && Copies(t, st, m, w)
    && st.n < |st.order| && st.k < |Strong(t.c.env, At(t.c.H, st.order[st.n]))|
  }

  lemma AtSlotParts(t: Setting, st: Copy, m: Memory, w: nat)
    requires AtSlot(t, st, m, w)
    ensures Copies(t, st, m, w) && st.n < |st.order|
    ensures var q := st.order[st.n];
      && st.k < |Strong(t.c.env, At(t.c.H, q))| && At(t.c.H, q) == (if q in t.c.H then t.c.H[q] else At(t.c.H, q))
      && OldSlot(t, st) == Strong(t.c.env, At(t.c.H, q))[st.k]
      && NewSlotAddr(t, st) == ToNat(OldSlot(t, st) + DestOf(Now(t, st), q) - q)
  {
    hide Copies, Strong;
  }

  lemma StrongIs(env: Env, o: Obj, k: nat)
    requires k < |Strong(env, o)|
    ensures !IsWeak(env, o) && Strong(env, o) == o.slots && k < |o.slots|
  {
    hide IsWeak;
  }

  lemma ScanSlot(t: Setting, st: Copy, m: Memory, w: nat)
    requires AtSlot(t, st, m, w)
    ensures var q := st.order[st.n];
      && q in t.c.H && q in st.dest && q in Live(t.c) && st.k < |t.c.H[q].slots| && !IsWeak(t.c.env, t.c.H[q])
      && Strong(t.c.env, t.c.H[q]) == t.c.H[q].slots
      && OldSlot(t, st) == t.c.H[q].slots[st.k] < |t.c.m|
      && NewSlotAddr(t, st) == OldSlot(t, st) + st.dest[q] - q
      && PreObj(Now(t, st), q).front <= NewSlotAddr(t, st) < PreObj(Now(t, st), q).end <= |m|
      && t.toStart <= NewSlotAddr(t, st) < st.back && |m| == |t.c.m|
      && m[NewSlotAddr(t, st)] == t.c.m[OldSlot(t, st)]
      && TargetOk(t.c.H, t.c.sp, t.c.m[OldSlot(t, st)])
  {
    hide *;
    AtSlotParts(t, st, m, w);
    CopyAt(t, st, m, w, st.n);
    CopiesParts(t, st, m, w);
    SettingParts(t);
    var q := st.order[st.n];
    AtIsIn(t.c.H, q);
    StrongIs(t.c.env, t.c.H[q], st.k);
    SlotBounds(t.c, q, st.k);
    OldSlotOk(t.c, q, st.k);
    NowIs(t, st);
    DestIs(Now(t, st), q);
    ToNatIs(OldSlot(t, st) + st.dest[q] - q);
    CopiedParts(Now(t, st), q, Done(t, st, st.n), m);
    DoneNow(t, st);
    HalfAt(Now(t, st), t.c.H[q], st.dest[q], st.k, m, st.k);
  }

  lemma AtIsIn(H: Objects, p: nat)
    ensures p in H ==> At(H, p) == H[p]
  {
  }

  lemma DestIs(c: Collection, p: nat)
    ensures p in c.dest ==> DestOf(c, p) == c.dest[p]
  {
  }

  lemma ToNatIs(x: int)
    ensures x >= 0 ==> ToNat(x) == x
  {
  }

  lemma DoneNow(t: Setting, st: Copy)
    requires st.n < |st.order|
    ensures Done(t, st, st.n) == st.k
  {
  }

  lemma HalfAt(c: Collection, o: Obj, d: nat, k: nat, m: Memory, i: nat)
    requires SlotsHalf(c, o, d, k, m) && i < |o.slots| && o.slots[i] < |c.m| && o.p <= o.slots[i] + d < |m| + o.p
    ensures i < k ==> Settled(c, c.m[o.slots[i]], m[o.slots[i] + d - o.p])
    ensures i >= k ==> m[o.slots[i] + d - o.p] == c.m[o.slots[i]]
  {
    hide Settled;
  }

  // The target of the slot can be reached.
  lemma SlotReached(t: Setting, st: Copy, m: Memory, w: nat)
    requires AtSlot(t, st, m, w)
    ensures var v := WordAt(t.c.m, OldSlot(t, st)); v.Ptr? && v.addr in t.c.H ==> v.addr in Live(t.c)
  {
    hide *;
    AtSlotParts(t, st, m, w);
    ScanSlot(t, st, m, w);
    var q, v := st.order[st.n], WordAt(t.c.m, OldSlot(t, st));
    if v.Ptr? && v.addr in t.c.H { ReachedBy(t.c, q, st.k, v.addr); }
  }

  lemma ReachedBy(c: Collection, p: nat, i: nat, x: nat)
    requires p in Live(c) && p in c.H && i < |Strong(c.env, c.H[p])| &&
      WordAt(c.m, Strong(c.env, c.H[p])[i]) == Ptr(x) && x in c.H
    ensures x in Live(c)
  {
    hide Reach, Strong;
    assert PointsTo(c.m, c.H, Strong(c.env, c.H[p])[i], x);
    ReachStep(PointerGraph(c.env, c.m, c.H), RootTargets(c.m, c.H, c.roots, |c.roots|), p, x);
  }

  // One word changes.
  ghost predicate Redirected(t: Setting, st: Copy, m: Memory, a: nat, v: Word, m': Memory) {
    && a < |m| && m' == m[a := NewWord(Now(t, st), v)]
    && (v.Ptr? && v.addr in t.c.H ==> v.addr in st.dest)
  }

  lemma RedirectedIs(t: Setting, st: Copy, m: Memory, a: nat, v: Word, m': Memory)
    requires Redirected(t, st, m, a, v, m')
    ensures |m'| == |m| && a < |m| && Settled(Now(t, st), v, m'[a]) &&
      (forall b: nat :: b < |m| && b != a ==> m'[b] == m[b])
  {
    hide NewWord;
  }

  function NextSlot(st: Copy): Copy { st.(k := st.k + 1) }

  lemma NextSlotSame(t: Setting, st: Copy)
    ensures var st' := NextSlot(st);
      && Now(t, st') == Now(t, st) && st'.dest == st.dest && st'.order == st.order && st'.back == st.back &&
         st'.L == st.L
      && st'.n == st.n && st'.r == st.r && st'.k == st.k + 1
    ensures forall i: nat :: i != st.n ==> Done(t, NextSlot(st), i) == Done(t, st, i)
    ensures st.n < |st.order| ==> Done(t, NextSlot(st), st.n) == st.k + 1
  {
  }

  lemma SlotFrom(t: Setting, st: Copy, m: Memory, w: nat, m': Memory)
    requires AtSlot(t, st, m, w) && Redirected(t, st, m, NewSlotAddr(t, st), WordAt(t.c.m, OldSlot(t, st)), m')
    ensures FromOk(t, NextSlot(st), m')
  {
    hide *;
    AtSlotParts(t, st, m, w);
    CopiesParts(t, st, m, w);
    SettingParts(t);
    ScanSlot(t, st, m, w);
    BackInside(t, st);
    RedirectedIs(t, st, m, NewSlotAddr(t, st), WordAt(t.c.m, OldSlot(t, st)), m');
    NextSlotSame(t, st);
    forall q | q in t.c.H
      ensures FromAt(t, NextSlot(st), m', q)
    {
      FromIs(t, st, m, q);
      Outside(t, q);
      HeaderClean(t.c, q);
      OldObject(t.c, q);
      FromAtStays(t, st, NextSlot(st), m, m', q);
    }
    FromIntro(t, NextSlot(st), m');
  }

  lemma OneSlotMore(c: Collection, p: nat, k: nat, m: Memory, m': Memory)
    requires HeapOk(c) && p in c.H && p in c.dest && CopiedObj(c, p, k, m) && k < |c.H[p].slots| &&
      !IsWeak(c.env, c.H[p])
    requires var a := c.H[p].slots[k] + c.dest[p] - p;
      && 0 <= a < |m| && |m'| == |m| && Settled(c, WordAt(c.m, c.H[p].slots[k]), m'[a])
      && forall b: nat :: b < |m| && b != a ==> m'[b] == m[b]
    ensures CopiedObj(c, p, k + 1, m')
  {
    hide *;
    HeapParts(c);
    OldObject(c, p);
    var o, d := c.H[p], c.dest[p];
    CopiedParts(c, p, k, m);
    CopyFits(c.env, c.k, c.m, o, c.currentStack);
    HeaderClean(c, p);
    SlotBounds(c, p, k);
    StackSlotHigh(c.env, c.m, o, k);
    DestAbove(c.env, c.m, o, m, d);
    SlotNotPlain(c.env, o, k);
    SameButSlot(c.env, c.m, o, m, m', d, k);
    forall i | 0 <= i < |o.slots|
      ensures p <= o.slots[i] < |c.m|
      ensures i != k ==> o.slots[i] != o.slots[k]
    {
      SlotBounds(c, p, i);
      SlotsInside(c.env, c.m, o);
      if i != k { DistinctAt(o.slots, i, k); }
    }
    HalfStep(c, o, d, k, m, m');
    CopiedIntro(c, p, k + 1, m');
  }

  lemma StackSlotHigh(env: Env, m: Memory, o: Obj, k: nat)
    requires ValidEnv(env) && IsObject(env, m, o) && k < |o.slots|
    ensures o.p <= o.slots[k] && (IsStack(env, o) ==> o.p + 4 <= o.slots[k])
  {
    SlotsInside(env, m, o);
  }

  lemma SlotNotPlain(env: Env, o: Obj, k: nat)
    requires k < |o.slots|
    ensures !Plain(env, o, o.slots[k])
  {
    hide IsStack, IsWeak;
  }

  lemma DistinctAt(s: seq<nat>, i: nat, k: nat)
    requires Distinct(s) && i < |s| && k < |s| && i != k
    ensures s[i] != s[k]
  {
  }

  lemma SameButSlot(env: Env, m0: Memory, o: Obj, m: Memory, m': Memory, d: nat, k: nat)
    requires SameWords(env, m0, o, m, d) && k < |o.slots| && !Plain(env, o, o.slots[k]) && |m'| == |m|
    requires forall b: nat :: b < |m| && b != o.slots[k] + d - o.p ==> m'[b] == m[b]
    ensures SameWords(env, m0, o, m', d)
  {
    hide CopiedEnd, Plain;
    forall a: nat | o.front <= a < CopiedEnd(env, m0, o) && Plain(env, o, a) && a < |m0| && o.p <= a + d < |m'| + o.p
      ensures m'[a + d - o.p] == m0[a]
    {
      var b: nat := a + d - o.p;
      assert a != o.slots[k];
      assert m'[b] == m[b];
    }
  }

  lemma HalfStep(c: Collection, o: Obj, d: nat, k: nat, m: Memory, m': Memory)
    requires SlotsHalf(c, o, d, k, m) && k < |o.slots| && |m'| == |m|
    requires forall i :: 0 <= i < |o.slots| ==> o.p <= o.slots[i] < |c.m| && (i != k ==> o.slots[i] != o.slots[k])
    requires 0 <= o.slots[k] + d - o.p < |m| && Settled(c, WordAt(c.m, o.slots[k]), m'[o.slots[k] + d - o.p])
    requires forall b: nat :: b < |m| && b != o.slots[k] + d - o.p ==> m'[b] == m[b]
    ensures SlotsHalf(c, o, d, k + 1, m')
  {
    hide Settled;
    forall i | 0 <= i < |o.slots| && o.p <= o.slots[i] + d < |m'| + o.p
      ensures i < k + 1 ==> Settled(c, c.m[o.slots[i]], m'[o.slots[i] + d - o.p])
      ensures i >= k + 1 ==> m'[o.slots[i] + d - o.p] == c.m[o.slots[i]]
    {
      var b: nat := o.slots[i] + d - o.p;
      if i != k { assert m'[b] == m[b]; }
    }
  }

  lemma SlotToAt(t: Setting, st: Copy, m: Memory, w: nat, m': Memory, i: nat)
    requires AtSlot(t, st, m, w) && Redirected(t, st, m, NewSlotAddr(t, st), WordAt(t.c.m, OldSlot(t, st)), m') &&
      i < |st.order|
    ensures CopiedObj(Now(t, NextSlot(st)), st.order[i], Done(t, NextSlot(st), i), m')
  {
    hide *;
    AtSlotParts(t, st, m, w);
    CopiesParts(t, st, m, w);
    SettingParts(t);
    ScanSlot(t, st, m, w);
    RedirectedIs(t, st, m, NewSlotAddr(t, st), WordAt(t.c.m, OldSlot(t, st)), m');
    NextSlotSame(t, st);
    NowIs(t, st);
    CopyAt(t, st, m, w, i);
    if i == st.n {
      DoneNow(t, st);
      OneSlotMore(Now(t, st), st.order[i], st.k, m, m');
    } else {
      if i < st.n { PreBelow(t, st, m, w, i, st.n); } else { PreBelow(t, st, m, w, st.n, i); }
      CopiedStays(Now(t, st), Now(t, st), st.order[i], Done(t, st, i), m, m');
    }
  }

  lemma SlotRest(t: Setting, st: Copy, m: Memory, w: nat, m': Memory)
    requires AtSlot(t, st, m, w) && Redirected(t, st, m, NewSlotAddr(t, st), WordAt(t.c.m, OldSlot(t, st)), m')
    ensures RootsHalf(t, NextSlot(st), m') && Elsewhere(t, m') && Book(t, NextSlot(st))
  {
    hide *;
    AtSlotParts(t, st, m, w);
    CopiesParts(t, st, m, w);
    ScanSlot(t, st, m, w);
    BackInside(t, st);
    RedirectedIs(t, st, m, NewSlotAddr(t, st), WordAt(t.c.m, OldSlot(t, st)), m');
    NextSlotSame(t, st);
    BookParts(t, st);
    BookIntro(t, NextSlot(st));
    forall i | 0 <= i < |t.c.roots| && t.c.roots[i] < |m'|
      ensures i < st.r ==> Settled(Now(t, st), t.c.m[t.c.roots[i]], m'[t.c.roots[i]])
      ensures i >= st.r ==> m'[t.c.roots[i]] == t.c.m[t.c.roots[i]]
    {
      RootUnused(t, i, st.order[st.n]);
      RootsAt(t, st, m, i);
    }
    RootsIntro(t, NextSlot(st), m');
    forall a: nat | a < |m'| && !Used(t, a)
      ensures m'[a] == t.c.m[a]
    {
      UsedBy(t, a);
      ElsewhereAt(t, m, a);
    }
    ElsewhereIntro(t, m');
  }

  // A link word is no slot of a scanned object.
  lemma SlotNoLink(t: Setting, st: Copy, m: Memory, w: nat, d: nat)
    requires AtSlot(t, st, m, w) && d in st.L
    ensures d != NewSlotAddr(t, st)
  {
    hide *;
    AtSlotParts(t, st, m, w);
    CopiesParts(t, st, m, w);
    SettingParts(t);
    ScanSlot(t, st, m, w);
    ListingBelow(t, st, m, w, d);
    var p :| p in st.dest && p in t.c.H && st.dest[p] == d && Listable(t.c, p);
    var i := CopyIndex(t, st, p);
    CopyAt(t, st, m, w, i);
    CopyAt(t, st, m, w, st.n);
    ListableWeak(t.c, p);
    OldObject(t.c, p);
    WeakSlots(t.c.env, t.c.m, t.c.H[p]);
    NoSavings(t.c.env, t.c.k, t.c.m, t.c.currentStack, t.c.H[p]);
    if i < st.n { PreBelow(t, st, m, w, i, st.n); }
    if i > st.n { PreBelow(t, st, m, w, st.n, i); }
  }

  lemma SlotKeeps(t: Setting, st: Copy, m: Memory, w: nat, m': Memory)
    requires AtSlot(t, st, m, w) && Redirected(t, st, m, NewSlotAddr(t, st), WordAt(t.c.m, OldSlot(t, st)), m')
    ensures Copies(t, NextSlot(st), m', w)
  {
    hide *;
    AtSlotParts(t, st, m, w);
    CopiesParts(t, st, m, w);
    NextSlotSame(t, st);
    SlotFrom(t, st, m, w, m');
    SlotRest(t, st, m, w, m');
    RedirectedIs(t, st, m, NewSlotAddr(t, st), WordAt(t.c.m, OldSlot(t, st)), m');
    forall i | 0 <= i < |st.order|
      ensures CopiedObj(Now(t, NextSlot(st)), st.order[i], Done(t, NextSlot(st), i), m')
    {
      SlotToAt(t, st, m, w, m', i);
    }
    ToIntro(t, NextSlot(st), m');
    ListingParts(t, st, m, w);
    forall d | d in st.L && d < |m|
      ensures m'[d] == m[d]
      ensures exists q :: q in st.dest && st.dest[q] == d && Listable(t.c, q)
    {
      SlotNoLink(t, st, m, w, d);
      ListingMember(t, st, m, w, d);
    }
    ListInMemory(m, w, st.L);
    ChainSame(m, m', w, st.L);
    ListingIntro(t, NextSlot(st), m', w);
    CopiesIntro(t, NextSlot(st), m', w);
  }

  // ------------------------------------------------------------------ one root

  function NextRootDone(st: Copy): Copy { st.(r := st.r + 1) }

  lemma NextRootSame(t: Setting, st: Copy)
    ensures var st' := NextRootDone(st);
      && Now(t, st') == Now(t, st) && st'.dest == st.dest && st'.order == st.order && st'.back == st.back &&
         st'.L == st.L
      && st'.n == st.n && st'.r == st.r + 1 && st'.k == st.k
    ensures forall i: nat :: Done(t, NextRootDone(st), i) == Done(t, st, i)
  {
  }

  lemma RootWordIs(t: Setting, st: Copy, m: Memory, w: nat)
    requires Copies(t, st, m, w) && st.r < |t.c.roots|
    ensures var a := t.c.roots[st.r];
      && 0 < a < |m| == |t.c.m| && m[a] == t.c.m[a] && WordAt(t.c.m, a) == t.c.m[a] && TargetOk(t.c.H, t.c.sp, m[a])
      && !(t.toStart <= a < t.toLimit)
      && (m[a].Ptr? && m[a].addr in t.c.H ==> m[a].addr in Live(t.c))
  {
    hide *;
    CopiesParts(t, st, m, w);
    SettingParts(t);
    HeapParts(t.c);
    RootPlaceOf(t.c.m, t.c.H, t.c.sp, t.c.roots, st.r);
    RootFree(t, st.r);
    RootsAt(t, st, m, st.r);
    RootReached(t.c, st.r);
    WordAtIs(t.c.m, t.c.roots[st.r]);
  }

  lemma WordAtIs(m: Memory, a: nat)
    ensures a < |m| ==> WordAt(m, a) == m[a]
  {
  }

  lemma RootFree(t: Setting, i: nat)
    requires SettingOk(t) && i < |t.c.roots|
    ensures !(t.toStart <= t.c.roots[i] < t.toLimit)
  {
    hide Tiles, Covers, HeapOk;
  }

  lemma RootPlaceOf(m: Memory, H: Objects, sp: Spaces, roots: seq<nat>, i: nat)
    requires RootsOk(m, H, sp, roots) && i < |roots|
    ensures 0 < roots[i] < |m| && TargetOk(H, sp, m[roots[i]])
  {
    hide TargetOk;
  }

  lemma RootReached(c: Collection, i: nat)
    requires i < |c.roots| && c.roots[i] < |c.m|
    ensures c.m[c.roots[i]].Ptr? && c.m[c.roots[i]].addr in c.H ==> c.m[c.roots[i]].addr in Live(c)
  {
    hide Reach;
    if c.m[c.roots[i]].Ptr? && c.m[c.roots[i]].addr in c.H {
      assert PointsTo(c.m, c.H, c.roots[i], c.m[c.roots[i]].addr);
      ReachRoot(PointerGraph(c.env, c.m, c.H), RootTargets(c.m, c.H, c.roots, |c.roots|), c.m[c.roots[i]].addr);
    }
  }

  lemma RootDistinct(t: Setting, i: nat, j: nat)
    requires SettingOk(t) && i < |t.c.roots| && j < |t.c.roots| && i != j
    ensures t.c.roots[i] != t.c.roots[j]
  {
    hide *;
    SettingParts(t);
    RootsDistinct(t.c);
    DistinctAt(t.c.roots, i, j);
  }

  lemma RootKeepsFrom(t: Setting, st: Copy, m: Memory, w: nat, m': Memory)
    requires Copies(t, st, m, w) && st.r < |t.c.roots| &&
      Redirected(t, st, m, t.c.roots[st.r], WordAt(t.c.m, t.c.roots[st.r]), m')
    ensures FromOk(t, NextRootDone(st), m')
  {
    hide *;
    CopiesParts(t, st, m, w);
    SettingParts(t);
    RedirectedIs(t, st, m, t.c.roots[st.r], WordAt(t.c.m, t.c.roots[st.r]), m');
    NextRootSame(t, st);
    forall q | q in t.c.H
      ensures FromAt(t, NextRootDone(st), m', q)
    {
      FromIs(t, st, m, q);
      RootUnused(t, st.r, q);
      HeaderClean(t.c, q);
      OldObject(t.c, q);
      FromAtStays(t, st, NextRootDone(st), m, m', q);
    }
    FromIntro(t, NextRootDone(st), m');
  }

  lemma RootKeeps(t: Setting, st: Copy, m: Memory, w: nat, m': Memory)
    requires Copies(t, st, m, w) && st.r < |t.c.roots| &&
      Redirected(t, st, m, t.c.roots[st.r], WordAt(t.c.m, t.c.roots[st.r]), m')
    ensures Copies(t, NextRootDone(st), m', w)
  {
    hide *;
    CopiesParts(t, st, m, w);
    BookParts(t, st);
    BackInside(t, st);
    RootWordIs(t, st, m, w);
    RedirectedIs(t, st, m, t.c.roots[st.r], WordAt(t.c.m, t.c.roots[st.r]), m');
    NextRootSame(t, st);
    var st' := NextRootDone(st);
    RootKeepsFrom(t, st, m, w, m');
    BookIntro(t, st');
    forall i | 0 <= i < |st.order|
      ensures CopiedObj(Now(t, st'), st'.order[i], Done(t, st', i), m')
    {
      CopyAt(t, st, m, w, i);
      SettingParts(t);
      NowIs(t, st);
      CopiedStays(Now(t, st), Now(t, st), st.order[i], Done(t, st, i), m, m');
    }
    ToIntro(t, st', m');
    forall i | 0 <= i < |t.c.roots| && t.c.roots[i] < |m'|
      ensures i < st'.r ==> Settled(Now(t, st), t.c.m[t.c.roots[i]], m'[t.c.roots[i]])
      ensures i >= st'.r ==> m'[t.c.roots[i]] == t.c.m[t.c.roots[i]]
    {
      RootsAt(t, st, m, i);
      if i != st.r { RootDistinct(t, i, st.r); }
    }
    RootsIntro(t, st', m');
    forall a: nat | a < |m'| && !Used(t, a)
      ensures m'[a] == t.c.m[a]
    {
      UsedBy(t, a);
      ElsewhereAt(t, m, a);
    }
    ElsewhereIntro(t, m');
    ListingParts(t, st, m, w);
    forall d | d in st.L && d < |m|
      ensures m'[d] == m[d]
      ensures exists q :: q in st.dest && st.dest[q] == d && Listable(t.c, q)
    {
      ListingBelow(t, st, m, w, d);
      ListingMember(t, st, m, w, d);
    }
    ListInMemory(m, w, st.L);
    ChainSame(m, m', w, st.L);
    ListingIntro(t, st', m', w);
    CopiesIntro(t, st', m', w);
  }

  // -------------------------------------------------------------- the next object

  function NextObject(st: Copy): Copy { st.(n := st.n + 1, k := 0) }

  lemma NextObjectKeeps(t: Setting, st: Copy, m: Memory, w: nat)
    requires Copies(t, st, m, w) && st.n < |st.order| && st.k == |Strong(t.c.env, At(t.c.H, st.order[st.n]))|
    ensures Copies(t, NextObject(st), m, w)
  {
    hide *;
    CopiesParts(t, st, m, w);
    BookParts(t, st);
    NextObjectSame(t, st);
    BookIntro(t, NextObject(st));
    forall q | q in t.c.H
      ensures FromAt(t, NextObject(st), m, q)
    {
      FromIs(t, st, m, q);
      FromAtSame(t, st, NextObject(st), m, q);
    }
    FromIntro(t, NextObject(st), m);
    forall i | 0 <= i < |st.order|
      ensures CopiedObj(Now(t, NextObject(st)), NextObject(st).order[i], Done(t, NextObject(st), i), m)
    {
      ToAt(t, st, m, i);
    }
    ToIntro(t, NextObject(st), m);
    forall i | 0 <= i < |t.c.roots| && t.c.roots[i] < |m|
      ensures i < st.r ==> Settled(Now(t, st), t.c.m[t.c.roots[i]], m[t.c.roots[i]])
      ensures i >= st.r ==> m[t.c.roots[i]] == t.c.m[t.c.roots[i]]
    {
      RootsAt(t, st, m, i);
    }
    RootsIntro(t, NextObject(st), m);
    ListingParts(t, st, m, w);
    forall d | d in st.L
      ensures exists q :: q in st.dest && st.dest[q] == d && Listable(t.c, q)
    {
      ListingMember(t, st, m, w, d);
    }
    ListingIntro(t, NextObject(st), m, w);
    CopiesIntro(t, NextObject(st), m, w);
  }

  lemma FromAtSame(t: Setting, st: Copy, st': Copy, m: Memory, q: nat)
    requires FromAt(t, st, m, q) && st'.dest == st.dest
    ensures FromAt(t, st', m, q)
  {
    hide Untouched;
  }

  lemma NextObjectSame(t: Setting, st: Copy)
    requires st.n < |st.order| && st.k == |Strong(t.c.env, At(t.c.H, st.order[st.n]))|
    ensures var st' := NextObject(st);
      && Now(t, st') == Now(t, st) && st'.dest == st.dest && st'.order == st.order && st'.back == st.back &&
         st'.L == st.L
      && st'.n == st.n + 1 && st'.r == st.r && st'.k == 0
    ensures forall i: nat :: i < |st.order| ==> Done(t, NextObject(st), i) == Done(t, st, i)
  {
  }

  // Where the scan stands: before the next object, or at the end.
  function ScanFront(t: Setting, st: Copy): nat {
    if st.n < |st.order| then PreObj(Now(t, st), st.order[st.n]).front else st.back
  }

  lemma ScanStep(t: Setting, st: Copy, m: Memory, w: nat)
    requires Copies(t, st, m, w) && st.n < |st.order|
    ensures ScanFront(t, NextObject(st)) == PreObj(Now(t, st), st.order[st.n]).end
    ensures ScanFront(t, st) == PreObj(Now(t, st), st.order[st.n]).front < st.back
  {
    hide Copies, PreObj, PreObjs;
    assert Book(t, st) by { hide *; CopiesParts(t, st, m, w); }
    hide Book;
    BookParts(t, st);
    CopyAt(t, st, m, w, st.n);
    PreAt(Now(t, st), st.order, st.n);
    TileStep(PreObjs(Now(t, st), st.order), t.toStart, st.back, st.n);
    if st.n + 1 < |st.order| { PreAt(Now(t, st), st.order, st.n + 1); }
  }

  lemma ScanStart(t: Setting, st: Copy, m: Memory, w: nat)
    requires Copies(t, st, m, w) && st.n == 0
    ensures ScanFront(t, st) == t.toStart
  {
    hide Copies, PreObj, PreObjs;
    assert Book(t, st) by { hide *; CopiesParts(t, st, m, w); }
    hide Book;
    BookParts(t, st);
    if 0 < |st.order| { PreAt(Now(t, st), st.order, 0); }
    TileStart(PreObjs(Now(t, st), st.order), t.toStart, st.back);
  }

  // The scan has caught up exactly when every object was scanned.
  lemma ScanDone(t: Setting, st: Copy, m: Memory, w: nat)
    requires Copies(t, st, m, w)
    ensures ScanFront(t, st) < st.back <==> st.n < |st.order|
    ensures ScanFront(t, st) <= st.back <= |m|
  {
    hide *;
    CopiesParts(t, st, m, w);
    BookParts(t, st);
    BackInside(t, st);
    ScanFrontIs(t, st);
    if st.n < |st.order| { CopyAt(t, st, m, w, st.n); }
  }

  lemma ScanFrontIs(t: Setting, st: Copy)
    ensures ScanFront(t, st) == if st.n < |st.order| then PreObj(Now(t, st), st.order[st.n]).front else st.back
  {
    hide PreObj;
  }

  // The object before the scan is an object of memory, with the slots to scan.
  lemma ScanObject(t: Setting, st: Copy, m: Memory, w: nat)
    requires Copies(t, st, m, w) && st.n < |st.order|
    ensures var q, n := st.order[st.n], PreObj(Now(t, st), st.order[st.n]);
      && IsO(t.c.env, m, n) && Clean(t.c.env, m, n)
      && q in t.c.H && q in st.dest && At(t.c.H, q) == t.c.H[q] && n.p == st.dest[q] && n.ty == t.c.H[q].ty
      && n.slots == ShiftSlots(t.c.H[q].slots, q, st.dest[q])
  {
    hide *;
    CopiesParts(t, st, m, w);
    SettingParts(t);
    CopyAt(t, st, m, w, st.n);
    var q := st.order[st.n];
    NowIs(t, st);
    HeapParts(t.c);
    OldObject(t.c, q);
    CopiedParts(Now(t, st), q, Done(t, st, st.n), m);
    MovedIntro(t.c.env, t.c.k, t.c.m, t.c.currentStack, t.c.H[q], m, st.dest[q]);
    MovedObject(t.c.env, t.c.k, t.c.m, t.c.currentStack, t.c.H[q], m, st.dest[q]);
    PreIs(Now(t, st), q);
    var n := PreObj(Now(t, st), q);
    BoundsOf(t.c.env, m, n);
    if TagOf(t.c.env, n) == SequenceTag {
      SameTag(t.c.env, t.c.H[q], n);
      MovedSequence(t.c.env, t.c.k, t.c.m, t.c.currentStack, t.c.H[q], m, st.dest[q]);
      CleanCounterOf(t.c.env, t.c.m, t.c.H[q]);
    }
    CleanIntro(t.c.env, m, n);
    IsOIntroOf(t.c.env, m, n);
    AtIsIn(t.c.H, q);
  }

  lemma IsOIntroOf(env: Env, m: Memory, o: Obj)
    requires ValidEnv(env) && IsObject(env, m, o)
    ensures IsO(env, m, o)
  {
    hide ValidEnv, IsObject;
  }

  lemma SameTag(env: Env, o: Obj, o': Obj)
    requires o.ty == o'.ty
    ensures TagOf(env, o) == TagOf(env, o') && (IsWeak(env, o) <==> IsWeak(env, o')) &&
      (IsStack(env, o) <==> IsStack(env, o'))
  {
  }

  lemma CleanCounterOf(env: Env, m: Memory, o: Obj)
    requires Clean(env, m, o) && TagOf(env, o) == SequenceTag
    ensures m[o.front] == Bits(0)
  {
  }

  lemma MovedIntro(env: Env, k: StackControls, m: Memory, currentStack: nat, o: Obj, m': Memory, d: nat)
    requires SameWords(env, m, o, m', d) && o.p < o.front + d && 0 < d <= |m'| && m'[d - 1] == Header(o.ty, 0, false)
    requires IsStack(env, o) ==>
          && d + 4 + ToNat(ReservedAfter(env, k, m, currentStack, o.p)) / 8 <= |m'|
          && m'[d + 2] == Bits(ReservedAfter(env, k, m, currentStack, o.p))
    ensures MovedTo(env, k, m, currentStack, o, m', d)
  {
    hide SameWords, IsStack, ReservedAfter;
  }

  lemma PreIs(c: Collection, p: nat)
    requires p in c.H && p in c.dest
    ensures PreObj(c, p) == Shift(c.H[p], c.dest[p], WordsSaved(c.env, c.k, c.m, c.currentStack, c.H[p]))
    ensures PreObj(c, p).slots == ShiftSlots(c.H[p].slots, c.H[p].p, c.dest[p]) && PreObj(c, p).ty == c.H[p].ty &&
      PreObj(c, p).p == c.dest[p]
  {
    hide WordsSaved;
  }

  // The slots the walk over the new object yields are the ones to scan.
  lemma ScanSlots(t: Setting, st: Copy, m: Memory, w: nat, i: nat)
    requires Copies(t, st, m, w) && st.n < |st.order|
    ensures var q, n := st.order[st.n], PreObj(Now(t, st), st.order[st.n]);
      && |Strong(t.c.env, n)| == |Strong(t.c.env, At(t.c.H, q))|
      && (i < |Strong(t.c.env, n)| ==> Strong(t.c.env, n)[i] == NewSlotAddr(t, st.(k := i)))
  {
    hide Copies, PreObj, IsWeak;
    ScanObject(t, st, m, w);
    var q := st.order[st.n];
    SameTag(t.c.env, t.c.H[q], PreObj(Now(t, st), q));
  }
}
