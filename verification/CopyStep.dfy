// Copying one object keeps the invariant of the copy.

module CopyStep {
  import opened Layout
  import opened Graph
  import opened Heap
  import opened StackSize
  import opened StackObject
  import opened Tiling
  import opened Relocate
  import opened Cursor
  import opened DfsInvariant
  import opened DfsMark
  import opened Roots
  import opened Collection
  import opened Copying

  function NewAddress(t: Setting, st: Copy, p: nat): nat {
    ToNat(st.back + p - At(t.c.H, p).front)
  }

  function Saved(t: Setting, p: nat): nat {
    WordsSaved(t.c.env, t.c.k, t.c.m, t.c.currentStack, At(t.c.H, p))
  }

  function NewBack(t: Setting, st: Copy, p: nat): nat {
    ToNat(st.back + At(t.c.H, p).end - At(t.c.H, p).front - Saved(t, p))
  }

  function Reserved(t: Setting, p: nat): int {
    ReservedAfter(t.c.env, t.c.k, t.c.m, t.c.currentStack, p)
  }

  function Extend(t: Setting, st: Copy, p: nat): Copy {
    st.(dest := st.dest[p := NewAddress(t, st, p)], order := st.order + [p], back := NewBack(t, st, p),
        L := if Listable(t.c, p) then [NewAddress(t, st, p)] + st.L else st.L)
  }

  // Words that the copying of p may change.
  predicate Changed(t: Setting, st: Copy, p: nat, a: nat) {
    || st.back <= a < NewBack(t, st, p)
    || a + 1 == p
    || (IsStack(t.c.env, At(t.c.H, p)) && a == p + 2)
  }

  // Words of the copy that are not taken over: a stack's size, a weak link.
  predicate Adjusted(t: Setting, p: nat, a: nat) {
    (IsStack(t.c.env, At(t.c.H, p)) && a == p + 2) || (Listable(t.c, p) && a == p)
  }

  // What forwardObjptr does to memory when it copies p.
  ghost predicate Forwarded(t: Setting, st: Copy, p: nat, m: Memory, w: nat, m': Memory, w': nat) {
    var o := At(t.c.H, p);
    var d := NewAddress(t, st, p);
    && |m'| == |m|
    && (forall a: nat :: a < |m| && !Changed(t, st, p, a) ==> m'[a] == m[a])
    && 0 < p <= |m'| && m'[p - 1] == Ptr(d)
    && (forall a: nat :: o.front <= a < CopiedEnd(t.c.env, t.c.m, o) && a < |m| && p <= a + d < |m'| + p ==>
          Adjusted(t, p, a) || m'[a + d - p] == m[a])
    && (IsStack(t.c.env, o) ==> d + 2 < |m'| && m'[d + 2] == Bits(Reserved(t, p)))
    && (Listable(t.c, p) ==> d < |m'| && m'[d] == Ptr(w))
    && w' == (if Listable(t.c, p) then d else w)
  }

  ghost predicate CanCopy(t: Setting, st: Copy, m: Memory, w: nat, p: nat) {
    Copies(t, st, m, w) && p in t.c.H && p !in st.dest && p in Live(t.c)
  }

  lemma CanCopyParts(t: Setting, st: Copy, m: Memory, w: nat, p: nat)
    requires CanCopy(t, st, m, w, p)
    ensures Copies(t, st, m, w) && p in t.c.H && p !in st.dest && p in Live(t.c) && At(t.c.H, p) == t.c.H[p]
  {
    hide Copies, Live;
  }

  // Where the new object goes.
  lemma CopyShape(t: Setting, st: Copy, m: Memory, w: nat, p: nat)
    requires CanCopy(t, st, m, w, p)
    ensures var o, d := t.c.H[p], NewAddress(t, st, p);
      && o.p == p && 0 < o.front < p <= CopiedEnd(t.c.env, t.c.m, o) <= o.end <= |m| && o.p - 1 < o.end
      && d == st.back + p - o.front && d > st.back && |m| == |t.c.m|
      && 0 < t.toStart <= st.back < d <= CopiedEnd(t.c.env, t.c.m, o) + d - p <= NewBack(t, st, p) <= t.toLimit <= |m|
      && NewBack(t, st, p) == o.end + d - p - Saved(t, p)
      && (o.end <= t.toStart || t.toLimit <= o.front)
      && (IsStack(t.c.env, o) ==>
            && NewBack(t, st, p) == d + 4 + ToNat(Reserved(t, p)) / 8 && Reserved(t, p) >= 0
            && p + 4 <= CopiedEnd(t.c.env, t.c.m, o))
      && m[p - 1] == t.c.m[p - 1] == Header(o.ty, 0, false)
  {
    hide *;
    CanCopyParts(t, st, m, w, p);
    CopiesParts(t, st, m, w);
    SettingParts(t);
    BookParts(t, st);
    HeapParts(t.c);
    OldObject(t.c, p);
    RoomFor(t, st, p);
    BackInside(t, st);
    NumbersAre(t, st, p);
    Outside(t, p);
    CopyFits(t.c.env, t.c.k, t.c.m, t.c.H[p], t.c.currentStack);
    UntouchedAt(t, st, m, p, p - 1);
    HeaderClean(t.c, p);
    if IsStack(t.c.env, t.c.H[p]) {
      StackFields(t.c.env, t.c.k, t.c.m, t.c.H[p], t.c.currentStack);
      FourWords();
    }
  }

  lemma FourWords()
    ensures STACK_STRUCT_WORDS == 4
  {
  }

  lemma NumbersAre(t: Setting, st: Copy, p: nat)
    requires p in t.c.H && t.c.H[p].front < p <= t.c.H[p].end
    ensures var o := t.c.H[p];
      && NewAddress(t, st, p) == st.back + p - o.front
      && (Saved(t, p) <= o.end - o.front ==> NewBack(t, st, p) == st.back + o.end - o.front - Saved(t, p))
      && Saved(t, p) == WordsSaved(t.c.env, t.c.k, t.c.m, t.c.currentStack, o)
    ensures Reserved(t, p) == ReservedAfter(t.c.env, t.c.k, t.c.m, t.c.currentStack, p)
    ensures Reserved(t, p) >= 0 ==> ToNat(Reserved(t, p)) == Reserved(t, p)
  {
    hide WordsSaved, ReservedAfter;
  }

  lemma Outside(t: Setting, p: nat)
    requires SettingOk(t) && p in t.c.H
    ensures t.c.H[p].end <= t.toStart || t.toLimit <= t.c.H[p].front
  {
    hide HeapOk, Tiles, Covers;
  }

  lemma UntouchedAt(t: Setting, st: Copy, m: Memory, p: nat, a: nat)
    requires FromOk(t, st, m) && p in t.c.H && p !in st.dest && t.c.H[p].front <= a < t.c.H[p].end && a < |m| &&
      a < |t.c.m|
    ensures m[a] == t.c.m[a]
  {
  }

  lemma HeaderClean(c: Collection, p: nat)
    requires HeapOk(c) && p in c.H
    ensures 0 < p <= |c.m| && c.m[p - 1] == Header(c.H[p].ty, 0, false) && c.H[p].front <= p - 1 < c.H[p].end
  {
    hide Within, SlotsOk, RootsOk, FramesBounded, AreObjects;
    OldObject(c, p);
    assert Clean(c.env, c.m, c.H[p]);
    HeaderWithin(c.env, c.m, c.H[p]);
  }

  lemma HeaderWithin(env: Env, m: Memory, o: Obj)
    requires ValidEnv(env) && IsObject(env, m, o)
    ensures o.front <= o.p - 1 && (o.p - 1 < o.end)
  {
  }

  // ------------------------------------------------------------------- the book

  lemma ExtendFields(t: Setting, st: Copy, p: nat)
    ensures var st' := Extend(t, st, p);
      && st'.dest == st.dest[p := NewAddress(t, st, p)] && st'.order == st.order + [p] && st'.back == NewBack(t, st, p)
      && st'.n == st.n && st'.k == st.k && st'.r == st.r
      && st'.L == (if Listable(t.c, p) then [NewAddress(t, st, p)] + st.L else st.L)
  {
    hide NewAddress, NewBack, Listable;
  }

  lemma ListsAdd(order: seq<nat>, S: set<nat>, p: nat)
    requires Lists(order, S) && p !in S
    ensures Lists(order + [p], S + {p})
  {
    assert p !in order;
  }

  lemma SamePre(t: Setting, st: Copy, st': Copy, order: seq<nat>)
    requires forall q :: q in order ==> q in st.dest && q in st'.dest && st'.dest[q] == st.dest[q]
    ensures PreObjs(Now(t, st'), order) == PreObjs(Now(t, st), order)
  {
    hide WordsSaved;
    forall i | 0 <= i < |order|
      ensures PreObj(Now(t, st'), order[i]) == PreObj(Now(t, st), order[i])
    {
      assert order[i] in order;
    }
  }

  lemma PreAdd(c: Collection, order: seq<nat>, p: nat)
    ensures PreObjs(c, order + [p]) == PreObjs(c, order) + [PreObj(c, p)]
  {
    hide PreObj;
  }

  lemma PreExtent(c: Collection, p: nat)
    requires p in c.H && p in c.dest && c.H[p].p == p && c.H[p].front < p
    requires p <= c.H[p].front + c.dest[p] &&
      p + WordsSaved(c.env, c.k, c.m, c.currentStack, c.H[p]) <= c.H[p].end + c.dest[p]
    ensures var n := PreObj(c, p);
      && n.front == c.H[p].front + c.dest[p] - p && n.p == c.dest[p] && n.front < n.p
      && n.end == c.H[p].end + c.dest[p] - p - WordsSaved(c.env, c.k, c.m, c.currentStack, c.H[p])
  {
    hide WordsSaved;
  }

  lemma OrderKeys(order: seq<nat>, dest: map<nat, nat>, p: nat, d: nat)
    requires Lists(order, dest.Keys) && p !in dest
    ensures forall q :: q in order ==> q in dest && q in dest[p := d] && dest[p := d][q] == dest[q]
  {
  }

  lemma ExtendBook(t: Setting, st: Copy, m: Memory, w: nat, p: nat)
    requires CanCopy(t, st, m, w, p)
    ensures Book(t, Extend(t, st, p))
  {
    hide *;
    CanCopyParts(t, st, m, w, p);
    CopiesParts(t, st, m, w);
    BookParts(t, st);
    CopyShape(t, st, m, w, p);
    RoomFor(t, st, p);
    NumbersAre(t, st, p);
    var st' := Extend(t, st, p);
    ExtendFields(t, st, p);
    ListsAdd(st.order, st.dest.Keys, p);
    assert st'.dest.Keys == st.dest.Keys + {p};
    OrderKeys(st.order, st.dest, p, NewAddress(t, st, p));
    SamePre(t, st, st', st.order);
    PreAdd(Now(t, st'), st.order, p);
    NowIs(t, st');
    PreExtent(Now(t, st'), p);
    TilesAdd(PreObjs(Now(t, st), st.order), t.toStart, st.back, PreObj(Now(t, st'), p));
    BookIntro(t, st');
  }

  lemma NowIs(t: Setting, st: Copy)
    ensures var c := Now(t, st);
      && c.dest == st.dest && c.env == t.c.env && c.k == t.c.k && c.m == t.c.m && c.H == t.c.H && c.sp == t.c.sp
      && c.roots == t.c.roots && c.currentStack == t.c.currentStack && c.clearsForeign == t.c.clearsForeign
    ensures Live(Now(t, st)) == Live(t.c)
    ensures HeapOk(t.c) ==> HeapOk(Now(t, st))
  {
    hide Reach, Quiet, Within, SlotsOk, RootsOk, FramesBounded, NoMarks;
  }

  lemma BookIntro(t: Setting, st: Copy)
    requires Lists(st.order, st.dest.Keys) && st.dest.Keys <= Live(t.c)
    requires Tiles(PreObjs(Now(t, st), st.order), t.toStart, st.back)
    requires t.toStart <= st.back <= t.toStart + Sum(t.objs, st.dest.Keys, |t.objs|)
    requires st.n <= |st.order| && (st.n == |st.order| ==> st.k == 0) && st.r <= |t.c.roots|
    ensures Book(t, st)
  {
    hide Lists, Live, Tiles, PreObjs, Sum;
  }

  // ------------------------------------------------------------------ the spaces

  lemma ForwardedSame(t: Setting, st: Copy, p: nat, m: Memory, w: nat, m': Memory, w': nat, a: nat)
    requires Forwarded(t, st, p, m, w, m', w') && a < |m| && !Changed(t, st, p, a)
    ensures |m'| == |m| && m'[a] == m[a]
  {
    hide Changed, NewAddress, CopiedEnd, Listable, Reserved;
  }

  lemma ChangedInside(t: Setting, st: Copy, m: Memory, w: nat, p: nat, a: nat)
    requires CanCopy(t, st, m, w, p) && Changed(t, st, p, a)
    ensures t.toStart <= st.back <= a < t.toLimit || t.c.H[p].front <= a < t.c.H[p].end
  {
    hide *;
    CopyShape(t, st, m, w, p);
    CanCopyParts(t, st, m, w, p);
    ChangedIs(t, st, p, a);
  }

  lemma ChangedIs(t: Setting, st: Copy, p: nat, a: nat)
    ensures Changed(t, st, p, a) <==>
      st.back <= a < NewBack(t, st, p) || a + 1 == p || (IsStack(t.c.env, At(t.c.H, p)) && a == p + 2)
  {
    hide NewBack, IsStack;
  }

  lemma OldApart(c: Collection, p: nat, q: nat)
    requires HeapOk(c) && p in c.H && q in c.H && p != q
    ensures c.H[p].end <= c.H[q].front || c.H[q].end <= c.H[p].front
  {
    hide Within, SlotsOk, RootsOk, FramesBounded, NoMarks, Clean, IsObject;
  }

  // A word of another object of the from-space stays.
  lemma OtherStays(t: Setting, st: Copy, m: Memory, w: nat, p: nat, m': Memory, w': nat, q: nat, a: nat)
    requires CanCopy(t, st, m, w, p) && Forwarded(t, st, p, m, w, m', w')
    requires q in t.c.H && q != p && t.c.H[q].front <= a < t.c.H[q].end && a < |m|
    ensures |m'| == |m| && m'[a] == m[a]
  {
    hide *;
    CanCopyParts(t, st, m, w, p);
    CopiesParts(t, st, m, w);
    SettingParts(t);
    OldApart(t.c, p, q);
    Outside(t, q);
    if Changed(t, st, p, a) { ChangedInside(t, st, m, w, p, a); }
    ForwardedSame(t, st, p, m, w, m', w', a);
  }

  lemma ForwardedHeader(t: Setting, st: Copy, p: nat, m: Memory, w: nat, m': Memory, w': nat)
    requires Forwarded(t, st, p, m, w, m', w')
    ensures |m'| == |m| && 0 < p <= |m'| && m'[p - 1] == Ptr(NewAddress(t, st, p))
  {
    hide Changed, NewAddress, CopiedEnd, Listable, Reserved;
  }

  ghost predicate FromAt(t: Setting, st: Copy, m: Memory, q: nat) {
    q in t.c.H ==>
      && (q !in st.dest ==> Untouched(t.c, t.c.H[q], m))
      && (q in st.dest ==> 0 < q <= |m| && m[q - 1] == Ptr(st.dest[q]))
  }

  lemma FromIs(t: Setting, st: Copy, m: Memory, q: nat)
    requires FromOk(t, st, m)
    ensures FromAt(t, st, m, q)
  {
    hide Untouched;
  }

  lemma FromIntro(t: Setting, st: Copy, m: Memory)
    requires forall q :: q in t.c.H ==> FromAt(t, st, m, q)
    ensures FromOk(t, st, m)
  {
    hide Untouched;
  }

  lemma ExtendFromAt(t: Setting, st: Copy, m: Memory, w: nat, p: nat, m': Memory, w': nat, q: nat)
    requires CanCopy(t, st, m, w, p) && Forwarded(t, st, p, m, w, m', w') && q in t.c.H
    ensures FromAt(t, Extend(t, st, p), m', q)
  {
    hide *;
    CanCopyParts(t, st, m, w, p);
    CopiesParts(t, st, m, w);
    SettingParts(t);
    FromIs(t, st, m, q);
    ExtendFields(t, st, p);
    ForwardedHeader(t, st, p, m, w, m', w');
    OldObject(t.c, q);
    HeaderClean(t.c, q);
    if q != p {
      forall a: nat | t.c.H[q].front <= a < t.c.H[q].end
        ensures a < |m| && m'[a] == m[a]
      {
        OtherStays(t, st, m, w, p, m', w', q, a);
      }
      FromAtStays(t, st, Extend(t, st, p), m, m', q);
    } else {
      FromAtNew(t, Extend(t, st, p), m', p);
    }
  }

  lemma FromAtStays(t: Setting, st: Copy, st': Copy, m: Memory, m': Memory, q: nat)
    requires FromAt(t, st, m, q) && q in t.c.H && |m'| == |m|
    requires (q in st.dest <==> q in st'.dest) && (q in st.dest ==> st'.dest[q] == st.dest[q])
    requires forall a: nat :: t.c.H[q].front <= a < t.c.H[q].end ==> a < |m| && m'[a] == m[a]
    requires 0 < q && t.c.H[q].front <= q - 1 < t.c.H[q].end
    ensures FromAt(t, st', m', q)
  {
  }

  lemma FromAtNew(t: Setting, st: Copy, m: Memory, p: nat)
    requires p in st.dest && 0 < p <= |m| && m[p - 1] == Ptr(st.dest[p])
    ensures FromAt(t, st, m, p)
  {
    hide Untouched;
  }

  lemma ExtendFrom(t: Setting, st: Copy, m: Memory, w: nat, p: nat, m': Memory, w': nat)
    requires CanCopy(t, st, m, w, p) && Forwarded(t, st, p, m, w, m', w')
    ensures FromOk(t, Extend(t, st, p), m')
  {
    hide *;
    forall q | q in t.c.H
      ensures FromAt(t, Extend(t, st, p), m', q)
    {
      ExtendFromAt(t, st, m, w, p, m', w', q);
    }
    FromIntro(t, Extend(t, st, p), m');
  }

  // A copy made earlier stays, and settled words stay settled.
  lemma SettledStays(t: Setting, st: Copy, p: nat, w: Word, w': Word)
    requires p in t.c.H && p !in st.dest && Settled(Now(t, st), w, w')
    ensures Settled(Now(t, Extend(t, st, p)), w, w')
  {
    hide NewAddress, NewBack, Listable;
  }

  lemma SameWordsStay(env: Env, m0: Memory, o: Obj, m: Memory, m': Memory, d: nat)
    requires SameWords(env, m0, o, m, d) && |m'| == |m|
    requires forall a: nat :: o.front + d <= a + o.p < CopiedEnd(env, m0, o) + d && a < |m| ==> m'[a] == m[a]
    ensures SameWords(env, m0, o, m', d)
  {
    hide CopiedEnd, Plain;
    forall a: nat | o.front <= a < CopiedEnd(env, m0, o) && Plain(env, o, a) && a < |m0| && o.p <= a + d < |m'| + o.p
      ensures m'[a + d - o.p] == m0[a]
    {
      var b: nat := a + d - o.p;
      assert m'[b] == m[b];
    }
  }

  lemma SlotsHalfStay(c: Collection, c': Collection, o: Obj, d: nat, k: nat, m: Memory, m': Memory)
    requires SlotsHalf(c, o, d, k, m) && |m'| == |m| && c'.m == c.m && o.p <= o.front + d
    requires forall i :: 0 <= i < |o.slots| ==> o.front <= o.slots[i]
    requires forall i :: 0 <= i < |o.slots| && o.p <= o.slots[i] + d < |m| + o.p ==>
      m'[o.slots[i] + d - o.p] == m[o.slots[i] + d - o.p]
    requires forall x: Word, y: Word :: Settled(c, x, y) ==> Settled(c', x, y)
    ensures SlotsHalf(c', o, d, k, m')
  {
    hide Settled;
  }

  // Copied objects as they were, with more objects copied.
  lemma CopiedStays(c: Collection, c': Collection, p: nat, k: nat, m: Memory, m': Memory)
    requires HeapOk(c) && c' == c.(dest := c'.dest) && p in c.H && p in c.dest && p in c'.dest &&
      c'.dest[p] == c.dest[p]
    requires CopiedObj(c, p, k, m) && |m'| == |m|
    requires forall a: nat ::
      c.H[p].front + c.dest[p] <= a + p && a < |m| &&
      a + p < c.H[p].end + c.dest[p] - WordsSaved(c.env, c.k, c.m, c.currentStack, c.H[p])
      ==> m'[a] == m[a]
    requires forall x: Word, y: Word :: Settled(c, x, y) ==> Settled(c', x, y)
    ensures CopiedObj(c', p, k, m')
  {
    hide *;
    var o, d := c.H[p], c.dest[p];
    HeapParts(c);
    OldObject(c, p);
    CopyFits(c.env, c.k, c.m, o, c.currentStack);
    HeaderClean(c, p);
    CopiedParts(c, p, k, m);
    SameWordsStay(c.env, c.m, o, m, m', d);
    forall i | 0 <= i < |o.slots|
      ensures o.front <= o.slots[i] &&
        (p <= o.slots[i] + d < |m| + p ==> m'[o.slots[i] + d - p] == m[o.slots[i] + d - p])
    {
      SlotBounds(c, p, i);
    }
    SlotsHalfStay(c, c', o, d, k, m, m');
    if IsStack(c.env, o) { FourWords(); }
    CopiedIntro(c', p, k, m');
  }

  lemma CopiedParts(c: Collection, p: nat, k: nat, m: Memory)
    requires p in c.H && p in c.dest && c.H[p].p == p && CopiedObj(c, p, k, m)
    ensures var o, d := c.H[p], c.dest[p];
      && SameWords(c.env, c.m, o, m, d) && p < o.front + d && 0 < d <= |m| && m[d - 1] == Header(o.ty, 0, false)
      && (IsStack(c.env, o) ==>
            && d + 4 + ToNat(ReservedAfter(c.env, c.k, c.m, c.currentStack, p)) / 8 <= |m|
            && m[d + 2] == Bits(ReservedAfter(c.env, c.k, c.m, c.currentStack, p)))
      && SlotsHalf(c, o, d, k, m)
  {
    hide SameWords, SlotsHalf, IsStack, ReservedAfter;
  }

  lemma CopiedIntro(c: Collection, p: nat, k: nat, m: Memory)
    requires p in c.H && p in c.dest && c.H[p].p == p
    requires var o, d := c.H[p], c.dest[p];
      && SameWords(c.env, c.m, o, m, d) && p < o.front + d && 0 < d <= |m| && m[d - 1] == Header(o.ty, 0, false)
      && (IsStack(c.env, o) ==>
            && d + 4 + ToNat(ReservedAfter(c.env, c.k, c.m, c.currentStack, p)) / 8 <= |m|
            && m[d + 2] == Bits(ReservedAfter(c.env, c.k, c.m, c.currentStack, p)))
      && SlotsHalf(c, o, d, k, m)
    ensures CopiedObj(c, p, k, m)
  {
    hide SameWords, SlotsHalf, IsStack, ReservedAfter;
  }

  // The copy just made.
  lemma CopiedNew(t: Setting, st: Copy, m: Memory, w: nat, p: nat, m': Memory, w': nat)
    requires CanCopy(t, st, m, w, p) && Forwarded(t, st, p, m, w, m', w')
    ensures CopiedObj(Now(t, Extend(t, st, p)), p, 0, m')
  {
    hide *;
    CanCopyParts(t, st, m, w, p);
    CopiesParts(t, st, m, w);
    SettingParts(t);
    HeapParts(t.c);
    CopyShape(t, st, m, w, p);
    OldObject(t.c, p);
    var o, d := t.c.H[p], NewAddress(t, st, p);
    var c' := Now(t, Extend(t, st, p));
    ExtendFields(t, st, p);
    NowIs(t, Extend(t, st, p));
    NumbersAre(t, st, p);
    ForwardedStack(t, st, p, m, w, m', w');
    forall a: nat | o.front <= a < CopiedEnd(t.c.env, t.c.m, o) && !Adjusted(t, p, a)
      ensures 0 <= a + d - p < |m'| && a < |m| && m'[a + d - p] == t.c.m[a]
    {
      ForwardedWord(t, st, p, m, w, m', w', a);
      UntouchedAt(t, st, m, p, a);
    }
    AdjustedIs(t, p);
    WeakSlotsNot(t.c.env, t.c.m, o);
    forall i | 0 <= i < |o.slots|
      ensures o.front <= o.slots[i] < CopiedEnd(t.c.env, t.c.m, o) && !Adjusted(t, p, o.slots[i])
    {
      SlotBounds(t.c, p, i);
    }
    SameWordsIntro(t.c.env, t.c.m, o, m', d);
    SlotsHalfIntro(c', o, d, m');
    CopiedIntro(c', p, 0, m');
  }

  lemma ForwardedWord(t: Setting, st: Copy, p: nat, m: Memory, w: nat, m': Memory, w': nat, a: nat)
    requires Forwarded(t, st, p, m, w, m', w') && p in t.c.H && !Adjusted(t, p, a)
    requires t.c.H[p].front <= a < CopiedEnd(t.c.env, t.c.m, t.c.H[p]) && a < |m| &&
      p <= a + NewAddress(t, st, p) < |m| + p
    ensures |m'| == |m| && m'[a + NewAddress(t, st, p) - p] == m[a]
  {
    hide Changed, NewAddress, CopiedEnd, Listable, Reserved, Adjusted;
  }

  lemma ForwardedStack(t: Setting, st: Copy, p: nat, m: Memory, w: nat, m': Memory, w': nat)
    requires Forwarded(t, st, p, m, w, m', w') && p in t.c.H
    ensures |m'| == |m|
    ensures IsStack(t.c.env, t.c.H[p]) ==>
      NewAddress(t, st, p) + 2 < |m'| && m'[NewAddress(t, st, p) + 2] == Bits(Reserved(t, p))
    ensures Listable(t.c, p) ==> NewAddress(t, st, p) < |m'| && m'[NewAddress(t, st, p)] == Ptr(w)
    ensures w' == if Listable(t.c, p) then NewAddress(t, st, p) else w
  {
    hide Changed, NewAddress, CopiedEnd, Listable, Reserved, Adjusted;
  }

  // The two adjusted words are neither plain words, nor slots, nor headers.
  lemma AdjustedIs(t: Setting, p: nat)
    requires p in t.c.H && t.c.H[p].p == p
    ensures forall a: nat :: Adjusted(t, p, a) ==>
      !Plain(t.c.env, t.c.H[p], a) && a + 1 != p
      && ((IsStack(t.c.env, t.c.H[p]) && a == p + 2) || (IsWeak(t.c.env, t.c.H[p]) && a == p))
  {
    hide IsStack, IsWeak;
  }

  lemma WeakSlotsNot(env: Env, m: Memory, o: Obj)
    requires ValidEnv(env) && IsObject(env, m, o)
    ensures IsStack(env, o) ==> o.p + 2 !in o.slots
    ensures IsWeak(env, o) ==> o.p !in o.slots
  {
    if IsStack(env, o) { SlotsInside(env, m, o); }
    if IsWeak(env, o) { WeakSlots(env, m, o); }
  }

  lemma SameWordsIntro(env: Env, m0: Memory, o: Obj, m: Memory, d: nat)
    requires o.p <= o.front + d && CopiedEnd(env, m0, o) + d <= |m| + o.p
    requires forall a: nat :: o.front <= a < CopiedEnd(env, m0, o) && Plain(env, o, a) ==>
      0 <= a + d - o.p < |m| && a < |m0| && m[a + d - o.p] == m0[a]
    ensures SameWords(env, m0, o, m, d)
  {
    hide CopiedEnd, Plain;
  }

  lemma SlotsHalfIntro(c: Collection, o: Obj, d: nat, m: Memory)
    requires forall i :: 0 <= i < |o.slots| ==>
      0 <= o.slots[i] + d - o.p < |m| && o.slots[i] < |c.m| && m[o.slots[i] + d - o.p] == c.m[o.slots[i]]
    ensures SlotsHalf(c, o, d, 0, m)
  {
    hide Settled;
  }

  lemma ToAt(t: Setting, st: Copy, m: Memory, i: nat)
    requires ToOk(t, st, m) && i < |st.order|
    ensures CopiedObj(Now(t, st), st.order[i], Done(t, st, i), m)
  {
    hide CopiedObj, Done;
  }

  lemma ToIntro(t: Setting, st: Copy, m: Memory)
    requires forall i :: 0 <= i < |st.order| ==> CopiedObj(Now(t, st), st.order[i], Done(t, st, i), m)
    ensures ToOk(t, st, m)
  {
    hide CopiedObj, Done;
  }

  lemma DoneExtend(t: Setting, st: Copy, p: nat, i: nat)
    requires i <= |st.order| && st.n <= |st.order| && (st.n == |st.order| ==> st.k == 0)
    ensures i < |st.order| ==> Done(t, Extend(t, st, p), i) == Done(t, st, i)
    ensures i == |st.order| ==> Done(t, Extend(t, st, p), i) == 0
  {
    hide NewAddress, NewBack, Listable;
    assert i < |st.order| ==> (st.order + [p])[i] == st.order[i];
  }

  // The place of an object copied earlier lies below back.
  lemma OldPlaceBelow(t: Setting, st: Copy, m: Memory, w: nat, i: nat)
    requires Copies(t, st, m, w) && i < |st.order|
    ensures var q := st.order[i];
      && q in t.c.H && q in st.dest && q in Live(t.c) && t.c.H[q].p == q
      && q < t.c.H[q].front + st.dest[q]
      && t.toStart + q <= t.c.H[q].front + st.dest[q]
      && t.c.H[q].end + st.dest[q] - WordsSaved(t.c.env, t.c.k, t.c.m, t.c.currentStack, t.c.H[q]) <= st.back + q
  {
    hide *;
    CopiesParts(t, st, m, w);
    SettingParts(t);
    BookParts(t, st);
    CopyPlace(t, st, i);
    var q := st.order[i];
    CopiedIsOld(t, st, q);
    OldObject(t.c, q);
    ToAt(t, st, m, i);
    NowIs(t, st);
    CopiedParts(Now(t, st), q, Done(t, st, i), m);
    HeapParts(t.c);
    CopyFits(t.c.env, t.c.k, t.c.m, t.c.H[q], t.c.currentStack);
    DestAbove(t.c.env, t.c.m, t.c.H[q], m, st.dest[q]);
    PreExtent(Now(t, st), q);
  }

  lemma DestAbove(env: Env, m0: Memory, o: Obj, m: Memory, d: nat)
    requires SameWords(env, m0, o, m, d)
    ensures o.p <= o.front + d
  {
    hide CopiedEnd, Plain;
  }

  lemma ExtendToAt(t: Setting, st: Copy, m: Memory, w: nat, p: nat, m': Memory, w': nat, i: nat)
    requires CanCopy(t, st, m, w, p) && Forwarded(t, st, p, m, w, m', w') && i < |st.order|
    ensures CopiedObj(Now(t, Extend(t, st, p)), st.order[i], Done(t, st, i), m')
  {
    hide *;
    CanCopyParts(t, st, m, w, p);
    CopiesParts(t, st, m, w);
    SettingParts(t);
    CopyShape(t, st, m, w, p);
    OldPlaceBelow(t, st, m, w, i);
    ToAt(t, st, m, i);
    ForwardedStack(t, st, p, m, w, m', w');
    var q, st' := st.order[i], Extend(t, st, p);
    ExtendFields(t, st, p);
    NowIs(t, st);
    NowIs(t, st');
    NowTwice(t, st, st');
    forall a: nat |
      t.c.H[q].front + st.dest[q] <= a + q &&
      a + q < t.c.H[q].end + st.dest[q] - WordsSaved(t.c.env, t.c.k, t.c.m, t.c.currentStack, t.c.H[q]) && a < |m|
      ensures m'[a] == m[a]
    {
      if Changed(t, st, p, a) { ChangedInside(t, st, m, w, p, a); ChangedIs(t, st, p, a); }
      ForwardedSame(t, st, p, m, w, m', w', a);
    }
    forall x: Word, y: Word | Settled(Now(t, st), x, y)
      ensures Settled(Now(t, st'), x, y)
    {
      SettledStays(t, st, p, x, y);
    }
    CopiedStays(Now(t, st), Now(t, st'), q, Done(t, st, i), m, m');
  }

  lemma NowTwice(t: Setting, st: Copy, st': Copy)
    ensures Now(t, st') == Now(t, st).(dest := Now(t, st').dest)
  {
  }

  lemma ExtendTo(t: Setting, st: Copy, m: Memory, w: nat, p: nat, m': Memory, w': nat)
    requires CanCopy(t, st, m, w, p) && Forwarded(t, st, p, m, w, m', w')
    ensures ToOk(t, Extend(t, st, p), m')
  {
    hide *;
    CanCopyParts(t, st, m, w, p);
    CopiesParts(t, st, m, w);
    BookParts(t, st);
    ExtendFields(t, st, p);
    var st' := Extend(t, st, p);
    forall i | 0 <= i < |st'.order|
      ensures CopiedObj(Now(t, st'), st'.order[i], Done(t, st', i), m')
    {
      DoneExtend(t, st, p, i);
      if i < |st.order| {
        assert st'.order[i] == st.order[i];
        ExtendToAt(t, st, m, w, p, m', w', i);
      } else {
        CopiedNew(t, st, m, w, p, m', w');
      }
    }
    ToIntro(t, st', m');
  }

  // ----------------------------------------------------------- roots and the rest

  lemma RootUnused(t: Setting, i: nat, p: nat)
    requires SettingOk(t) && i < |t.c.roots| && p in t.c.H
    ensures 0 < t.c.roots[i] < |t.c.m| && !(t.toStart <= t.c.roots[i] < t.toLimit)
    ensures !(t.c.H[p].front <= t.c.roots[i] < t.c.H[p].end)
  {
    hide Tiles, Covers, Quiet, Within, SlotsOk, NoMarks, FramesBounded, TargetOk;
  }

  lemma RootsAt(t: Setting, st: Copy, m: Memory, i: nat)
    requires RootsHalf(t, st, m) && i < |t.c.roots| && t.c.roots[i] < |m| && t.c.roots[i] < |t.c.m|
    ensures i < st.r ==> Settled(Now(t, st), t.c.m[t.c.roots[i]], m[t.c.roots[i]])
    ensures i >= st.r ==> m[t.c.roots[i]] == t.c.m[t.c.roots[i]]
  {
    hide Settled;
  }

  lemma RootsIntro(t: Setting, st: Copy, m: Memory)
    requires |m| == |t.c.m|
    requires forall i :: 0 <= i < |t.c.roots| && t.c.roots[i] < |m| ==>
      && (i < st.r ==> Settled(Now(t, st), t.c.m[t.c.roots[i]], m[t.c.roots[i]]))
      && (i >= st.r ==> m[t.c.roots[i]] == t.c.m[t.c.roots[i]])
    ensures RootsHalf(t, st, m)
  {
    hide Settled;
  }

  lemma ExtendRoots(t: Setting, st: Copy, m: Memory, w: nat, p: nat, m': Memory, w': nat)
    requires CanCopy(t, st, m, w, p) && Forwarded(t, st, p, m, w, m', w')
    ensures RootsHalf(t, Extend(t, st, p), m')
  {
    hide *;
    CanCopyParts(t, st, m, w, p);
    CopiesParts(t, st, m, w);
    ForwardedStack(t, st, p, m, w, m', w');
    ExtendFields(t, st, p);
    var st' := Extend(t, st, p);
    forall i | 0 <= i < |t.c.roots| && t.c.roots[i] < |m'|
      ensures i < st'.r ==> Settled(Now(t, st'), t.c.m[t.c.roots[i]], m'[t.c.roots[i]])
      ensures i >= st'.r ==> m'[t.c.roots[i]] == t.c.m[t.c.roots[i]]
    {
      RootUnused(t, i, p);
      RootsAt(t, st, m, i);
      if Changed(t, st, p, t.c.roots[i]) { ChangedInside(t, st, m, w, p, t.c.roots[i]); }
      ForwardedSame(t, st, p, m, w, m', w', t.c.roots[i]);
      if i < st.r { SettledStays(t, st, p, t.c.m[t.c.roots[i]], m[t.c.roots[i]]); }
    }
    RootsIntro(t, st', m');
  }

  lemma ElsewhereAt(t: Setting, m: Memory, a: nat)
    requires Elsewhere(t, m) && a < |m| && !Used(t, a)
    ensures |m| == |t.c.m| && m[a] == t.c.m[a]
  {
    hide Used;
  }

  lemma ElsewhereIntro(t: Setting, m: Memory)
    requires |m| == |t.c.m| && forall a: nat :: a < |m| && !Used(t, a) ==> m[a] == t.c.m[a]
    ensures Elsewhere(t, m)
  {
    hide Used;
  }

  lemma UsedBy(t: Setting, a: nat)
    ensures t.toStart <= a < t.toLimit ==> Used(t, a)
    ensures a in t.c.roots ==> Used(t, a)
    ensures forall p :: p in t.c.H && t.c.H[p].front <= a < t.c.H[p].end ==> Used(t, a)
  {
  }

  lemma ExtendElsewhere(t: Setting, st: Copy, m: Memory, w: nat, p: nat, m': Memory, w': nat)
    requires CanCopy(t, st, m, w, p) && Forwarded(t, st, p, m, w, m', w')
    ensures Elsewhere(t, m')
  {
    hide *;
    CanCopyParts(t, st, m, w, p);
    CopiesParts(t, st, m, w);
    ForwardedStack(t, st, p, m, w, m', w');
    forall a: nat | a < |m'| && !Used(t, a)
      ensures m'[a] == t.c.m[a]
    {
      UsedBy(t, a);
      if Changed(t, st, p, a) { ChangedInside(t, st, m, w, p, a); }
      ForwardedSame(t, st, p, m, w, m', w', a);
      ElsewhereAt(t, m, a);
    }
    ElsewhereIntro(t, m');
  }

  // ------------------------------------------------------------------ the weak list

  lemma ListingMember(t: Setting, st: Copy, m: Memory, w: nat, d: nat)
    requires Listing(t, st, m, w) && d in st.L
    ensures exists p :: p in st.dest && st.dest[p] == d && Listable(t.c, p)
  {
    hide Listable, WeakChain;
  }

  lemma ListingBelow(t: Setting, st: Copy, m: Memory, w: nat, d: nat)
    requires Copies(t, st, m, w) && d in st.L
    ensures t.toStart <= d < st.back
    ensures exists p :: p in st.dest && p in t.c.H && st.dest[p] == d && Listable(t.c, p)
  {
    hide *;
    CopiesParts(t, st, m, w);
    SettingParts(t);
    ListingMember(t, st, m, w, d);
    var p :| p in st.dest && st.dest[p] == d && Listable(t.c, p);
    BookParts(t, st);
    var i := CopyIndex(t, st, p);
    OldPlaceBelow(t, st, m, w, i);
    ListableWeak(t.c, p);
    OldObject(t.c, p);
    WeakSlots(t.c.env, t.c.m, t.c.H[p]);
    NoSavings(t.c.env, t.c.k, t.c.m, t.c.currentStack, t.c.H[p]);
  }

  lemma ListableWeak(c: Collection, p: nat)
    requires p in c.H && Listable(c, p)
    ensures IsWeak(c.env, c.H[p]) && |c.H[p].slots| == 1
  {
    hide IsWeak;
  }

  lemma NoSavings(env: Env, k: StackControls, m: Memory, currentStack: nat, o: Obj)
    requires !IsStack(env, o)
    ensures WordsSaved(env, k, m, currentStack, o) == 0 && CopiedEnd(env, m, o) == o.end
  {
  }

  lemma ChainSame(m: Memory, m': Memory, w: nat, L: seq<nat>)
    requires WeakChain(m, w, L) && |m'| == |m| && forall d :: d in L && d < |m| ==> m'[d] == m[d]
    ensures WeakChain(m', w, L)
  {
    forall k | 0 <= k < |L|
      ensures L[k] < |m'| && m'[L[k]] == Ptr(LinkAt(L, k + 1))
    {
      assert L[k] in L;
    }
  }

  lemma ChainAdd(m: Memory, w: nat, L: seq<nat>, d: nat)
    requires WeakChain(m, w, L) && d < |m| && m[d] == Ptr(w)
    ensures WeakChain(m, d, [d] + L)
  {
    var L' := [d] + L;
    forall k | 0 <= k < |L'|
      ensures L'[k] < |m| && m[L'[k]] == Ptr(LinkAt(L', k + 1))
    {
      if k > 0 { assert L'[k] == L[k - 1] && LinkAt(L', k + 1) == LinkAt(L, k); }
    }
  }

  lemma DistinctAdd(L: seq<nat>, d: nat)
    requires Distinct(L) && d !in L
    ensures Distinct([d] + L)
  {
  }

  lemma ListingParts(t: Setting, st: Copy, m: Memory, w: nat)
    requires Listing(t, st, m, w)
    ensures Distinct(st.L) && WeakChain(m, w, st.L)
    ensures forall p :: p in st.dest && Listable(t.c, p) ==> st.dest[p] in st.L
  {
    hide Distinct, WeakChain, Listable;
  }

  lemma ListingIntro(t: Setting, st: Copy, m: Memory, w: nat)
    requires Distinct(st.L) && WeakChain(m, w, st.L)
    requires forall d :: d in st.L ==> exists p :: p in st.dest && st.dest[p] == d && Listable(t.c, p)
    requires forall p :: p in st.dest && Listable(t.c, p) ==> st.dest[p] in st.L
    ensures Listing(t, st, m, w)
  {
    hide Distinct, WeakChain, Listable;
  }

  lemma ExtendListing(t: Setting, st: Copy, m: Memory, w: nat, p: nat, m': Memory, w': nat)
    requires CanCopy(t, st, m, w, p) && Forwarded(t, st, p, m, w, m', w')
    ensures Listing(t, Extend(t, st, p), m', w')
  {
    hide *;
    CanCopyParts(t, st, m, w, p);
    CopiesParts(t, st, m, w);
    CopyShape(t, st, m, w, p);
    ForwardedStack(t, st, p, m, w, m', w');
    ExtendFields(t, st, p);
    ListingParts(t, st, m, w);
    var st', d' := Extend(t, st, p), NewAddress(t, st, p);
    forall d | d in st.L && d < |m|
      ensures m'[d] == m[d] && d != d'
      ensures exists q :: q in st'.dest && st'.dest[q] == d && Listable(t.c, q)
    {
      ListingBelow(t, st, m, w, d);
      if Changed(t, st, p, d) { ChangedInside(t, st, m, w, p, d); }
      ForwardedSame(t, st, p, m, w, m', w', d);
      var q :| q in st.dest && q in t.c.H && st.dest[q] == d && Listable(t.c, q);
      assert q in st'.dest && st'.dest[q] == d;
    }
    ListInMemory(m, w, st.L);
    ChainSame(m, m', w, st.L);
    if Listable(t.c, p) {
      ChainAdd(m', w, st.L, d');
      DistinctAdd(st.L, d');
      assert st'.dest[p] == d';
    }
    ListingIntro(t, st', m', w');
  }

  lemma ListInMemory(m: Memory, w: nat, L: seq<nat>)
    requires WeakChain(m, w, L)
    ensures forall d :: d in L ==> d < |m|
  {
  }

  // Copying p keeps the invariant.
  lemma CopyKeeps(t: Setting, st: Copy, m: Memory, w: nat, p: nat, m': Memory, w': nat)
    requires CanCopy(t, st, m, w, p) && Forwarded(t, st, p, m, w, m', w')
    ensures Copies(t, Extend(t, st, p), m', w')
  {
    hide *;
    CanCopyParts(t, st, m, w, p);
    CopiesParts(t, st, m, w);
    ExtendBook(t, st, m, w, p);
    ExtendFrom(t, st, m, w, p, m', w');
    ExtendTo(t, st, m, w, p, m', w');
    ExtendRoots(t, st, m, w, p, m', w');
    ExtendElsewhere(t, st, m, w, p, m', w');
    ExtendListing(t, st, m, w, p, m', w');
    CopiesIntro(t, Extend(t, st, p), m', w');
  }
}
