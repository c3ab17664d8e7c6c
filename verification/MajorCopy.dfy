// From the end of the scan to the completed collection, and the major copying
// collection as a whole.

module MajorCopy {
  import opened Layout
  import opened Graph
  import opened Heap
  import opened State
  import opened StackSize
  import opened StackObject
  import opened Tiling
  import opened Relocate
  import opened Cursor
  import opened DfsInvariant
  import opened DfsMark
  import opened Roots
  import opened Collection
  import opened Copying
  import opened CopyStep
  import opened CopyScan
  import opened Forward
  import opened Cheney
  import opened CopyDone

  // Two new addresses are different.
  lemma DestInjective(t: Setting, st: Copy, m: Memory, w: nat, p: nat, q: nat)
    requires Copies(t, st, m, w) && p in st.dest && q in st.dest && p != q
    ensures PreObj(Now(t, st), p).end <= PreObj(Now(t, st), q).front ||
      PreObj(Now(t, st), q).end <= PreObj(Now(t, st), p).front
    ensures st.dest[p] != st.dest[q]
  {
    hide *;
    CopiesParts(t, st, m, w);
    var i := CopyIndex(t, st, p);
    var j := CopyIndex(t, st, q);
    CopyAt(t, st, m, w, i);
    CopyAt(t, st, m, w, j);
    if i < j { PreBelow(t, st, m, w, i, j); } else { PreBelow(t, st, m, w, j, i); }
  }

  // The words of a copy change only if it is listed, and then only two.
  lemma OwnWord(t: Setting, st: Copy, m: Memory, w: nat, G: set<nat>, K: set<nat>, m': Memory, p: nat, a: nat)
    requires Fixing(t, st, m, w, |st.L|, G, K, m') && p in st.dest && p in t.c.H
    requires t.c.H[p].front + st.dest[p] <= a + p < CopiedEnd(t.c.env, t.c.m, t.c.H[p]) + st.dest[p]
    requires st.dest[p] in st.L ==> a + 1 != st.dest[p] && a != st.dest[p] + 1
    ensures a < |m| == |m'| && m'[a] == m[a]
  {
    hide *;
    FixingParts(t, st, m, w, |st.L|, G, K, m');
    ScannedParts(t, st, m, w);
    ScannedAt(t, st, m, w, p);
    var c := Now(t, st);
    if a + 1 in G {
      FixedListed(c, m, st.L, |st.L|, G, K, a + 1);
      ListedFar(t, st, m, w, p, a + 1, a);
    }
    if a > 0 && (a - 1 in G || a - 1 in K) {
      FixedListed(c, m, st.L, |st.L|, G, K, a - 1);
      ListedFar(t, st, m, w, p, a - 1, a);
    }
    FixedElsewhere(c, G, K, m, m', a);
  }

  // A listed object whose words meet those of the copy of p is that copy.
  lemma ListedFar(t: Setting, st: Copy, m: Memory, w: nat, p: nat, e: nat, a: nat)
    requires Scanned(t, st, m, w) && ForeignHeads(t) && p in st.dest && p in t.c.H && e in st.L
    requires e <= a + 1 && a <= e + 1
    requires t.c.H[p].front + st.dest[p] <= a + p < CopiedEnd(t.c.env, t.c.m, t.c.H[p]) + st.dest[p]
    ensures e == st.dest[p]
  {
    hide *;
    ScannedParts(t, st, m, w);
    var q := ListedObject(t, st, m, w, e);
    var i := CopyIndex(t, st, p);
    CopyAt(t, st, m, w, i);
    var j := CopyIndex(t, st, q);
    CopyAt(t, st, m, w, j);
    NotStack(t.c.env, t.c.H[q]);
    NoSavings(t.c.env, t.c.k, t.c.m, t.c.currentStack, t.c.H[q]);
    if p != q { DestInjective(t, st, m, w, p, q); }
  }

  lemma ListedOwn(t: Setting, st: Copy, m: Memory, w: nat, p: nat)
    requires Scanned(t, st, m, w) && ForeignHeads(t) && p in st.dest
    ensures st.dest[p] in st.L <==> Listable(t.c, p)
  {
    hide *;
    ScannedParts(t, st, m, w);
    CopiesParts(t, st, m, w);
    ListingParts(t, st, m, w);
    if st.dest[p] in st.L {
      var q := ListedObject(t, st, m, w, st.dest[p]);
      if p != q { DestInjective(t, st, m, w, p, q); }
    }
  }

  // Cleared weak objects are listed, and a listed one is cleared if its target
  // was not copied.
  lemma ClearedListed(t: Setting, st: Copy, p: nat)
    requires HeapOk(t.c) && st.dest.Keys <= t.c.H.Keys && p in t.c.H && p in st.dest
    ensures Cleared(Now(t, st), p) ==> Listable(t.c, p)
    ensures Listable(t.c, p) ==> (Cleared(Now(t, st), p) <==> WordAt(t.c.m, t.c.H[p].slots[0]).addr !in st.dest)
  {
    hide HeapOk, IsWeak, InSpaces;
    if Listable(t.c, p) {
      var x := WordAt(t.c.m, t.c.H[p].slots[0]).addr;
      if x in st.dest { SpacesHold(t.c, x); }
    }
  }

  lemma CopiedAreOld(t: Setting, st: Copy)
    requires Book(t, st)
    ensures st.dest.Keys <= t.c.H.Keys
  {
    hide *;
    forall p | p in st.dest
      ensures p in t.c.H
    {
      CopiedIsOld(t, st, p);
    }
  }

  // Slots of objects that the weak list does not touch.
  lemma PlainSlot(t: Setting, st: Copy, m: Memory, w: nat, p: nat, i: nat)
    requires Scanned(t, st, m, w) && p in st.dest && p in t.c.H && i < |t.c.H[p].slots| && !Listable(t.c, p)
    ensures var s := t.c.H[p].slots[i];
      && t.c.H[p].front <= s < CopiedEnd(t.c.env, t.c.m, t.c.H[p]) && s < |t.c.m| && 0 <= s + st.dest[p] - p < |m|
      && m[s + st.dest[p] - p] == NewWord(Now(t, st), t.c.m[s])
  {
    hide *;
    ScannedParts(t, st, m, w);
    ScannedAt(t, st, m, w, p);
    SlotBounds(t.c, p, i);
    NowIs(t, st);
    var o := t.c.H[p];
    var s := o.slots[i];
    CopiedParts(Now(t, st), p, |Strong(t.c.env, o)|, m);
    HalfAt(Now(t, st), o, st.dest[p], |Strong(t.c.env, o)|, m, i);
    WeakNoStrong(t.c.env, o);
    if i < |Strong(t.c.env, o)| {
      SettledIs(Now(t, st), t.c.m[s], m[s + st.dest[p] - p]);
    } else {
      OldObject(t.c, p);
      WeakSlots(t.c.env, t.c.m, o);
      ListableIs(t.c, p);
      NewWordOf(Now(t, st), t.c.m[s]);
      CopiedAreOld(t, st);
      if t.c.m[s].Ptr? && t.c.m[s].addr in st.dest { SpacesHold(t.c, t.c.m[s].addr); }
    }
  }

  // The words of a listed object at the end.
  lemma ListedWords(t: Setting, st: Copy, m: Memory, w: nat, G: set<nat>, K: set<nat>, m': Memory, p: nat)
    requires Fixing(t, st, m, w, |st.L|, G, K, m') && p in st.dest && p in t.c.H && Listable(t.c, p)
    ensures var o, d, c := t.c.H[p], st.dest[p], Now(t, st);
      && o.p == p && o.front + 1 == p && o.end == p + 2 && o.slots == [p + 1] && p + 1 < |t.c.m| && IsWeak(t.c.env, o)
      && 0 < d && d + 1 < |m'|
      && (Cleared(c, p) ==> m'[d - 1] == Header(WEAK_GONE_TYPE_INDEX, 0, false) && m'[d + 1] == BOGUS_OBJPTR)
      && (!Cleared(c, p) ==> m'[d - 1] == Header(o.ty, 0, false) && m'[d + 1] == NewWord(c, t.c.m[p + 1]))
  {
    hide *;
    FixingParts(t, st, m, w, |st.L|, G, K, m');
    ScannedParts(t, st, m, w);
    ListedOwn(t, st, m, w, p);
    var d := st.dest[p];
    var q := ListedObject(t, st, m, w, d);
    if p != q { DestInjective(t, st, m, w, p, q); }
    OldObject(t.c, p);
    CopiedAreOld(t, st);
    ClearedListed(t, st, p);
    WordAtIs(t.c.m, p + 1);
    DeadIs(Now(t, st), m, d);
    NowIs(t, st);
    InList(st.L, d);
    FixedIs(Now(t, st), m, st.L, G, K, d);
    AroundListed(t, st, m, w, G, K, m', d);
    FixedHere(Now(t, st), G, K, m, m', d);
  }

  lemma InList(L: seq<nat>, d: nat)
    requires d in L
    ensures exists i :: 0 <= i < |L| && L[i] == d
  {
  }

  lemma FixedIs(c: Collection, m: Memory, L: seq<nat>, G: set<nat>, K: set<nat>, d: nat)
    requires FixedUpTo(c, m, L, |L|, G, K) && exists i :: 0 <= i < |L| && L[i] == d
    ensures d in G <==> DeadTarget(c, m, d)
    ensures d in K <==> !DeadTarget(c, m, d)
  {
    hide DeadTarget;
  }

  lemma AroundListed(t: Setting, st: Copy, m: Memory, w: nat, G: set<nat>, K: set<nat>, m': Memory, d: nat)
    requires Fixing(t, st, m, w, |st.L|, G, K, m') && d in st.L
    ensures d + 2 !in G && d + 2 !in K && (d >= 2 ==> d - 2 !in G && d - 2 !in K)
  {
    hide *;
    FixingParts(t, st, m, w, |st.L|, G, K, m');
    forall e | e in G || e in K
      ensures e != d + 2 && e + 2 != d
    {
      FixedListed(Now(t, st), m, st.L, |st.L|, G, K, e);
      if e != d { TwoApart(t, st, m, w, d, e); }
    }
  }

  lemma FixedHere(c: Collection, G: set<nat>, K: set<nat>, m: Memory, m': Memory, d: nat)
    requires WeaksFixed(c, G, K, m, m') && 0 < d && d + 1 < |m|
    requires d + 2 !in G && (d >= 2 ==> d - 2 !in G && d - 2 !in K)
    ensures |m'| == |m|
    ensures d in G ==> m'[d - 1] == Header(WEAK_GONE_TYPE_INDEX, 0, false) && m'[d + 1] == BOGUS_OBJPTR
    ensures d in K && d !in G ==> m'[d - 1] == m[d - 1] && m'[d + 1] == NewWord(c, m[d + 1])
  {
    hide NewWord;
  }

  lemma KeptPlain(t: Setting, st: Copy, m: Memory, w: nat, G: set<nat>, K: set<nat>, m': Memory, p: nat)
    requires Fixing(t, st, m, w, |st.L|, G, K, m') && p in st.dest && !Listable(t.c, p)
    ensures Kept(Now(t, st), p, m')
  {
    hide *;
    FixingParts(t, st, m, w, |st.L|, G, K, m');
    ScannedParts(t, st, m, w);
    ScannedAt(t, st, m, w, p);
    ListedOwn(t, st, m, w, p);
    CopiedAreOld(t, st);
    ClearedListed(t, st, p);
    NowIs(t, st);
    HeapParts(t.c);
    OldObject(t.c, p);
    HeaderClean(t.c, p);
    var c, o, d := Now(t, st), t.c.H[p], st.dest[p];
    CopiedParts(c, p, |Strong(t.c.env, o)|, m);
    CopyFits(t.c.env, t.c.k, t.c.m, o, t.c.currentStack);
    OwnWord(t, st, m, w, G, K, m', p, d - 1);
    if IsStack(c.env, o) {
      FourWords();
      OwnWord(t, st, m, w, G, K, m', p, d + 2);
    }
    forall a: nat | o.front <= a < CopiedEnd(c.env, c.m, o) && Plain(c.env, o, a)
      ensures 0 <= a + d - p < |m'| && a < |c.m| && m'[a + d - p] == c.m[a]
    {
      SameWordAt(c.env, c.m, o, m, d, a);
      OwnWord(t, st, m, w, G, K, m', p, a + d - p);
    }
    forall i | 0 <= i < |o.slots|
      ensures 0 <= o.slots[i] + d - p < |m'| && o.slots[i] < |c.m| &&
        m'[o.slots[i] + d - p] == NewWord(c, c.m[o.slots[i]])
    {
      PlainSlot(t, st, m, w, p, i);
      OwnWord(t, st, m, w, G, K, m', p, o.slots[i] + d - p);
    }
    KeptIntro(c, p, m');
  }

  lemma NoPlain(env: Env, o: Obj)
    requires IsWeak(env, o) && o.p == o.front + 1 && o.slots == [o.p + 1] && o.end == o.p + 2
    ensures forall a: nat :: o.front <= a < o.end ==> !Plain(env, o, a)
  {
    hide IsWeak;
  }

  lemma KeptListed(t: Setting, st: Copy, m: Memory, w: nat, G: set<nat>, K: set<nat>, m': Memory, p: nat)
    requires Fixing(t, st, m, w, |st.L|, G, K, m') && p in st.dest && Listable(t.c, p)
    ensures Kept(Now(t, st), p, m')
  {
    hide *;
    FixingParts(t, st, m, w, |st.L|, G, K, m');
    ScannedParts(t, st, m, w);
    ScannedAt(t, st, m, w, p);
    NowIs(t, st);
    ListedWords(t, st, m, w, G, K, m', p);
    var c, o, d := Now(t, st), t.c.H[p], st.dest[p];
    NotStack(c.env, o);
    NoSavings(c.env, c.k, c.m, c.currentStack, o);
    NoPlain(c.env, o);
    KeptIntro(c, p, m');
  }

  lemma NewPre(c: Collection, order: seq<nat>, lo: nat, hi: nat)
    requires Tiles(PreObjs(c, order), lo, hi)
    ensures Tiles(NewObjs(c, order), lo, hi)
  {
    hide Tiles, Cleared, WordsSaved;
    SameTiles(PreObjs(c, order), NewObjs(c, order), lo, hi);
  }

  // A finished copy with its weak pointers fixed is a completed collection.
  lemma CopyCollects(t: Setting, st: Copy, m: Memory, w: nat, G: set<nat>, K: set<nat>, m': Memory)
    requires Fixing(t, st, m, w, |st.L|, G, K, m')
    ensures Collected(Now(t, st), st.order, m', t.toStart, st.back) && st.back <= t.toLimit
  {
    hide *;
    FixingParts(t, st, m, w, |st.L|, G, K, m');
    ScannedParts(t, st, m, w);
    CopiesParts(t, st, m, w);
    BookParts(t, st);
    BackInside(t, st);
    AllCopied(t, st, m, w);
    NowIs(t, st);
    SettingParts(t);
    NewPre(Now(t, st), st.order, t.toStart, st.back);
    forall p | p in st.dest
      ensures Kept(Now(t, st), p, m')
    {
      if Listable(t.c, p) { KeptListed(t, st, m, w, G, K, m', p); } else { KeptPlain(t, st, m, w, G, K, m', p); }
    }
    forall i | 0 <= i < |t.c.roots|
      ensures t.c.roots[i] < |m'| && t.c.roots[i] < |t.c.m| &&
        m'[t.c.roots[i]] == NewWord(Now(t, st), t.c.m[t.c.roots[i]])
    {
      HeapParts(t.c);
      RootPlaceOf(t.c.m, t.c.H, t.c.sp, t.c.roots, i);
      RootFree(t, i);
      RootsAt(t, st, m, i);
      SettledIs(Now(t, st), t.c.m[t.c.roots[i]], m[t.c.roots[i]]);
      NotFixed(t, st, m, w, |st.L|, G, K, m', t.c.roots[i]);
    }
    CollectedIntro(Now(t, st), st.order, m', t.toStart, st.back);
  }

  // Words outside both spaces and the roots stay as they were.
  lemma CopyFrame(t: Setting, st: Copy, m: Memory, w: nat, G: set<nat>, K: set<nat>, m': Memory, a: nat)
    requires Fixing(t, st, m, w, |st.L|, G, K, m') && a < |m'| && !Used(t, a)
    ensures |m'| == |t.c.m| && m'[a] == t.c.m[a]
  {
    hide *;
    FixingParts(t, st, m, w, |st.L|, G, K, m');
    ScannedParts(t, st, m, w);
    CopiesParts(t, st, m, w);
    UsedBy(t, a);
    NotFixed(t, st, m, w, |st.L|, G, K, m', a);
    ElsewhereAt(t, m, a);
  }

  // ------------------------------------------------------------------- the start

  function FirstCopy(toStart: nat): Copy { Copy(map[], [], toStart, 0, 0, 0, []) }

  lemma FirstFields(toStart: nat)
    ensures var st := FirstCopy(toStart);
      st.dest == map[] && st.order == [] && st.back == toStart && st.n == 0 && st.k == 0 && st.r == 0 && st.L == []
  {
  }

  lemma FirstBook(t: Setting)
    requires SettingOk(t)
    ensures Book(t, FirstCopy(t.toStart))
  {
    hide *;
    SettingParts(t);
    var st := FirstCopy(t.toStart);
    FirstFields(t.toStart);
    SumBelow(t.objs, st.dest.Keys, |t.objs|, t.lo, t.hi);
    NoneListed(st.dest.Keys);
    NoPre(Now(t, st), t.toStart);
    BookIntro(t, st);
  }

  lemma NoneListed(S: set<nat>)
    requires S == {}
    ensures Lists([], S)
  {
  }

  lemma NoPre(c: Collection, lo: nat)
    ensures Tiles(PreObjs(c, []), lo, lo)
  {
    hide PreObj;
  }

  lemma CopyBegin(t: Setting)
    requires SettingOk(t)
    ensures Copies(t, FirstCopy(t.toStart), t.c.m, 0)
  {
    hide *;
    var st := FirstCopy(t.toStart);
    FirstFields(t.toStart);
    FirstBook(t);
    forall q | q in t.c.H
      ensures FromAt(t, st, t.c.m, q)
    {
      FirstFrom(t, st, q);
    }
    FromIntro(t, st, t.c.m);
    ToIntro(t, st, t.c.m);
    RootsIntro(t, st, t.c.m);
    ElsewhereIntro(t, t.c.m);
    NoChain(t.c.m);
    ListingIntro(t, st, t.c.m, 0);
    CopiesIntro(t, st, t.c.m, 0);
  }

  lemma FirstFrom(t: Setting, st: Copy, q: nat)
    requires st.dest == map[]
    ensures FromAt(t, st, t.c.m, q)
  {
  }

  lemma NoChain(m: Memory)
    ensures WeakChain(m, 0, []) && Distinct([])
  {
  }

  // ------------------------------------------------------------------ the method

  // The secondary heap is apart from the objects and the roots, at least as
  // large as the old generation, and no foreign pointer leads into it.
  ghost predicate SecondaryOk(c: Collection, toStart: nat, toLimit: nat) {
    && 0 < toStart <= toLimit <= |c.m|
    && (forall p :: p in c.H ==> c.H[p].end <= toStart || toLimit <= c.H[p].front)
    && (forall i :: 0 <= i < |c.roots| ==> !(toStart <= c.roots[i] < toLimit))
    && ForeignApart(c, toStart, toLimit)
  }

  // The collector's state before a major copy: every pointer from the start of
  // the heap up to the frontier is to an object of the old generation.
  ghost predicate StartsCopy(s: GCState, c: Collection, objs: seq<Obj>, currentStack: nat)
    reads s, s.mem
  {
    && c.env == s.env && c.k == s.stackControls && c.m == s.mem[..] && c.roots == s.roots
    && c.sp == Spaces(s.start, s.frontier, s.start, s.frontier)
    && c.currentStack == currentStack && c.clearsForeign
    && HeapOk(c) && s.weaks == 0
    && Tiles(objs, s.start, s.start + s.oldGenSize) && Covers(c.H, objs)
  }

  lemma StartsCopyParts(s: GCState, c: Collection, objs: seq<Obj>, currentStack: nat)
    requires StartsCopy(s, c, objs, currentStack)
    ensures c.env == s.env && c.k == s.stackControls && c.m == s.mem[..] && c.roots == s.roots
    ensures c.sp == Spaces(s.start, s.frontier, s.start, s.frontier) && c.currentStack == currentStack &&
      c.clearsForeign
    ensures HeapOk(c) && s.weaks == 0 && Tiles(objs, s.start, s.start + s.oldGenSize) && Covers(c.H, objs)
  {
    hide HeapOk, Tiles, Covers;
  }

  lemma SettingIntro(c: Collection, objs: seq<Obj>, lo: nat, hi: nat, toStart: nat, toLimit: nat)
    requires HeapOk(c) && Tiles(objs, lo, hi) && Covers(c.H, objs) && SecondaryOk(c, toStart, toLimit) &&
      hi - lo <= toLimit - toStart
    ensures SettingOk(Setting(c, objs, lo, hi, toStart, toLimit))
    ensures 0 < toStart <= toLimit <= |c.m|
  {
    hide HeapOk, Tiles, Covers, ForeignApart;
  }

  lemma RunningIntro(s: GCState, t: Setting, from: nat, to: nat, minor: bool, currentStack: nat)
    requires s.env == t.c.env && s.stackControls == t.c.k && currentStack == t.c.currentStack
    requires t.c.sp == Spaces(from, to, from, to) && t.c.clearsForeign == !minor && s.mem.Length == |t.c.m|
    requires minor ==> from == s.nursery && to == s.frontier
    ensures Running(s, t, from, to, minor, currentStack)
  {
  }

  lemma ScannedIntro(t: Setting, st: Copy, m: Memory, w: nat)
    requires Copies(t, st, m, w) && st.r == |t.c.roots| && st.n == |st.order| && st.k == 0
    ensures Scanned(t, st, m, w)
  {
    hide Copies;
  }

  lemma HeapAfter(c: Collection, c0: Collection, order: seq<nat>, m': Memory, toStart: nat, back: nat, toLimit: nat)
    requires HeapOk(c0) && c == c0.(dest := c.dest) && Collected(c, order, m', toStart, back) && back <= toLimit
    requires SecondaryOk(c0, toStart, toLimit)
    ensures ForeignApart(c, toStart, back) && RootsApart(c.roots, toStart, back)
    ensures HeapOk(Next(c, m', toStart, back))
  {
    hide *;
    HeapSame(c0, c);
    ApartLess(c0, c, toStart, toLimit, back);
    HeapStaysOk(c, order, m', toStart, back);
  }

  lemma HeapSame(c0: Collection, c: Collection)
    requires HeapOk(c0) && c == c0.(dest := c.dest)
    ensures HeapOk(c)
  {
    hide Quiet, Within, SlotsOk, RootsOk, FramesBounded, NoMarks;
  }

  lemma ApartLess(c0: Collection, c: Collection, toStart: nat, toLimit: nat, back: nat)
    requires SecondaryOk(c0, toStart, toLimit) && c == c0.(dest := c.dest) && back <= toLimit
    ensures ForeignApart(c, toStart, back) && RootsApart(c.roots, toStart, back)
  {
    hide WordAt, InSpaces;
    forall w: Word | ForeignWord(c0, w, toStart, toLimit)
      ensures ForeignWord(c, w, toStart, back)
    {
    }
  }

  lemma Tighter(c: Collection, objs: seq<Obj>, lo: nat, hi: nat, toStart: nat, toLimit: nat, limit: nat)
    requires SecondaryOk(c, toStart, toLimit) && ForeignHeads(Setting(c, objs, lo, hi, toStart, toLimit)) &&
      toStart <= limit <= toLimit
    ensures SecondaryOk(c, toStart, limit) && ForeignHeads(Setting(c, objs, lo, hi, toStart, limit))
  {
    hide InSpaces, WordAt, Listable;
    forall w: Word | ForeignWord(c, w, toStart, toLimit)
      ensures ForeignWord(c, w, toStart, limit)
    {
    }
    forall v: Word | ForeignHead(Setting(c, objs, lo, hi, toStart, toLimit), v)
      ensures ForeignHead(Setting(c, objs, lo, hi, toStart, limit), v)
    {
    }
  }

  // majorCheneyCopyGC: the heaps are swapped at the end.
  method MajorCheneyCopy(s: GCState, secondaryStart: nat, secondarySize: nat, currentStack: nat, ghost c0: Collection,
          ghost objs: seq<Obj>)
    returns (oldStart: nat, ghost c: Collection, ghost order: seq<nat>)
    requires StartsCopy(s, c0, objs, currentStack)
    requires secondarySize >= s.oldGenSize && SecondaryOk(c0, secondaryStart, secondaryStart + secondarySize)
    requires ForeignHeads(Setting(c0, objs, s.start, s.start + s.oldGenSize, secondaryStart,
      secondaryStart + secondarySize))
    modifies s.mem, s`weaks, s`start, s`oldGenSize
    ensures c == c0.(dest := c.dest)
    ensures s.start == secondaryStart && oldStart == old(s.start) && s.weaks == 0
    ensures s.oldGenSize <= old(s.oldGenSize) <= secondarySize
    ensures Collected(c, order, s.mem[..], s.start, s.start + s.oldGenSize)
    ensures ForeignApart(c, s.start, s.start + s.oldGenSize) && RootsApart(c.roots, s.start, s.start + s.oldGenSize)
    ensures HeapOk(Next(c, s.mem[..], s.start, s.start + s.oldGenSize))
  {
    hide *;
    StartsCopyParts(s, c0, objs, currentStack);
    var toStart := secondaryStart;
    // All copies fit in as much space as the old generation takes.
    ghost var toLimit := secondaryStart + s.oldGenSize;
    Tighter(c0, objs, s.start, s.start + s.oldGenSize, toStart, secondaryStart + secondarySize, toLimit);
    ghost var t := Setting(c0, objs, s.start, s.start + s.oldGenSize, toStart, toLimit);
    SettingIntro(c0, objs, s.start, s.start + s.oldGenSize, toStart, toLimit);
    var from, to, roots := s.start, s.frontier, s.roots;
    RunningIntro(s, t, from, to, false, currentStack);
    CopyBegin(t);
    FirstFields(toStart);
    var back;
    ghost var st;
    back, st := ForwardRoots(s, toStart, false, from, to, currentStack, roots, t, FirstCopy(toStart));
    back, st := ScanRange(s, toStart, back, false, from, to, currentStack, t, st);
    ScannedIntro(t, st, s.mem[..], s.weaks);
    ghost var m, w := s.mem[..], s.weaks;
    ghost var G, K := UpdateWeaks(s, t, st);
    CopyCollects(t, st, m, w, G, K, s.mem[..]);
    FixingParts(t, st, m, w, |st.L|, G, K, s.mem[..]);
    ScannedParts(t, st, m, w);
    BackInside(t, st);
    NowIs(t, st);
    NowDest(t, st);
    c, order := Now(t, st), st.order;
    HeapAfter(c, c0, order, s.mem[..], toStart, back, toLimit);
    oldStart := s.start;
    s.start := secondaryStart;
    s.oldGenSize := back - secondaryStart;
  }

  lemma NowDest(t: Setting, st: Copy)
    ensures Now(t, st) == t.c.(dest := Now(t, st).dest)
  {
  }
}
