// The state of a Cheney copy: which objects have been copied and where to, how
// far the scan has come, and what memory holds meanwhile.  Major and minor
// collections share it; they differ in what counts as the heap and as a root.

module Copying {
  import opened Layout
  import opened Graph
  import opened Heap
  import opened StackSize
  import opened StackObject
  import opened Tiling
  import opened Relocate
  import opened Cursor
  import opened DfsInvariant
  import opened DfsMark
  import opened Roots
  import opened Collection

  // What is fixed during a copy: the collection (its dest is not used), the
  // objects of the from-space in order, and the to-space.
  datatype Setting = Setting(c: Collection, objs: seq<Obj>, lo: nat, hi: nat, toStart: nat, toLimit: nat)

  // What changes: the new addresses, the order of copying, the end of the
  // copied objects, the object and slot the scan stands before, the roots done,
  // and the list of weak objects.
  datatype Copy = Copy(dest: map<nat, nat>, order: seq<nat>, back: nat, n: nat, k: nat, r: nat, L: seq<nat>)

  ghost predicate SettingOk(t: Setting) {
    && HeapOk(t.c)
    && Tiles(t.objs, t.lo, t.hi) && Covers(t.c.H, t.objs)
    && 0 < t.toStart <= t.toLimit <= |t.c.m|
    && t.hi - t.lo <= t.toLimit - t.toStart
    && (forall p :: p in t.c.H ==> t.c.H[p].end <= t.toStart || t.toLimit <= t.c.H[p].front)
    && (forall i :: 0 <= i < |t.c.roots| ==> !(t.toStart <= t.c.roots[i] < t.toLimit))
  }

  // The collection as far as it has come.
  function Now(t: Setting, st: Copy): Collection { t.c.(dest := st.dest) }

  // Words that the objects of S take in the from-space.
  function Sum(objs: seq<Obj>, S: set<nat>, n: nat): int {
    if n == 0 || n > |objs| then 0
    else Sum(objs, S, n - 1) + if objs[n - 1].p in S then objs[n - 1].end - objs[n - 1].front else 0
  }

  // Object p at its new place, before weak pointers are looked at.
  function PreObj(c: Collection, p: nat): Obj {
    Shift(At(c.H, p), DestOf(c, p), WordsSaved(c.env, c.k, c.m, c.currentStack, At(c.H, p)))
  }

  function PreObjs(c: Collection, order: seq<nat>): (objs: seq<Obj>)
    ensures |objs| == |order|
  {
    seq(|order|, i requires 0 <= i < |order| => PreObj(c, order[i]))
  }

  // Word w' is what w becomes, and this does not change any more.
  ghost predicate Settled(c: Collection, w: Word, w': Word) {
    w' == NewWord(c, w) && (w.Ptr? && w.addr in c.H ==> w.addr in c.dest)
  }

  // The first k slots of the copy of o are done.
  ghost predicate SlotsHalf(c: Collection, o: Obj, d: nat, k: nat, m: Memory) {
    forall i :: 0 <= i < |o.slots| && o.slots[i] < |c.m| && o.p <= o.slots[i] + d < |m| + o.p ==>
      && (i < k ==> Settled(c, c.m[o.slots[i]], m[o.slots[i] + d - o.p]))
      && (i >= k ==> m[o.slots[i] + d - o.p] == c.m[o.slots[i]])
  }

  ghost predicate CopiedObj(c: Collection, p: nat, k: nat, m: Memory) {
    var o := At(c.H, p);
    var d := DestOf(c, p);
    && SameWords(c.env, c.m, o, m, d)
    && o.p < o.front + d
    && 0 < d <= |m| && m[d - 1] == Header(o.ty, 0, false)
    && (IsStack(c.env, o) ==>
          && d + 4 + ToNat(ReservedAfter(c.env, c.k, c.m, c.currentStack, o.p)) / 8 <= |m|
          && m[d + 2] == Bits(ReservedAfter(c.env, c.k, c.m, c.currentStack, o.p)))
    && SlotsHalf(c, o, d, k, m)
  }

  // Slots done of the i-th copied object.
  function Done(t: Setting, st: Copy, i: nat): nat {
    if i >= |st.order| then 0
    else if i < st.n then |Strong(t.c.env, At(t.c.H, st.order[i]))|
    else if i == st.n then st.k
    else 0
  }

  ghost predicate Book(t: Setting, st: Copy) {
    && Lists(st.order, st.dest.Keys)
    && st.dest.Keys <= Live(t.c)
    && Tiles(PreObjs(Now(t, st), st.order), t.toStart, st.back)
    && t.toStart <= st.back <= t.toStart + Sum(t.objs, st.dest.Keys, |t.objs|)
    && st.n <= |st.order| && (st.n == |st.order| ==> st.k == 0) && st.r <= |t.c.roots|
  }

  // The words of object o are as they were.
  ghost predicate Untouched(c: Collection, o: Obj, m: Memory) {
    forall a: nat :: o.front <= a < o.end && a < |m| && a < |c.m| ==> m[a] == c.m[a]
  }

  ghost predicate FromOk(t: Setting, st: Copy, m: Memory) {
    forall p :: p in t.c.H ==>
      && (p !in st.dest ==> Untouched(t.c, t.c.H[p], m))
      && (p in st.dest ==> 0 < p <= |m| && m[p - 1] == Ptr(st.dest[p]))
  }

  ghost predicate ToOk(t: Setting, st: Copy, m: Memory) {
    forall i :: 0 <= i < |st.order| ==> CopiedObj(Now(t, st), st.order[i], Done(t, st, i), m)
  }

  ghost predicate RootsHalf(t: Setting, st: Copy, m: Memory) {
    forall i :: 0 <= i < |t.c.roots| && t.c.roots[i] < |m| && t.c.roots[i] < |t.c.m| ==>
      && (i < st.r ==> Settled(Now(t, st), t.c.m[t.c.roots[i]], m[t.c.roots[i]]))
      && (i >= st.r ==> m[t.c.roots[i]] == t.c.m[t.c.roots[i]])
  }

  // Address a is in the from-space, in the to-space, or a root.
  ghost predicate Used(t: Setting, a: nat) {
    || t.toStart <= a < t.toLimit
    || a in t.c.roots
    || exists p :: p in t.c.H && t.c.H[p].front <= a < t.c.H[p].end
  }

  ghost predicate Elsewhere(t: Setting, m: Memory) {
    |m| == |t.c.m| && forall a: nat :: a < |m| && !Used(t, a) ==> m[a] == t.c.m[a]
  }

  // Weak objects that go on the list: those with a pointer, and in a minor
  // collection only if it points into the nursery.
  predicate Listable(c: Collection, p: nat) {
    var o := At(c.H, p);
    && IsWeak(c.env, o) && |o.slots| == 1
    && WordAt(c.m, o.slots[0]).Ptr?
    && (c.clearsForeign || InSpaces(c.sp, WordAt(c.m, o.slots[0]).addr))
  }

  // The list holds the copies of the listable objects, by their new addresses.
  ghost predicate Listing(t: Setting, st: Copy, m: Memory, w: nat) {
    && Distinct(st.L)
    && WeakChain(m, w, st.L)
    && (forall d :: d in st.L ==> exists p :: p in st.dest && st.dest[p] == d && Listable(t.c, p))
    && (forall p :: p in st.dest && Listable(t.c, p) ==> st.dest[p] in st.L)
  }

  ghost predicate Copies(t: Setting, st: Copy, m: Memory, w: nat) {
    && SettingOk(t)
    && Book(t, st) && FromOk(t, st, m) && ToOk(t, st, m) && RootsHalf(t, st, m)
    && Elsewhere(t, m) && Listing(t, st, m, w)
  }

  lemma CopiesParts(t: Setting, st: Copy, m: Memory, w: nat)
    requires Copies(t, st, m, w)
    ensures SettingOk(t) && Book(t, st) && FromOk(t, st, m) && ToOk(t, st, m) && RootsHalf(t, st, m)
    ensures Elsewhere(t, m) && Listing(t, st, m, w) && |m| == |t.c.m|
  {
    hide SettingOk, Book, FromOk, ToOk, RootsHalf, Listing, Used;
  }

  lemma CopiesIntro(t: Setting, st: Copy, m: Memory, w: nat)
    requires SettingOk(t) && Book(t, st) && FromOk(t, st, m) && ToOk(t, st, m) && RootsHalf(t, st, m)
    requires Elsewhere(t, m) && Listing(t, st, m, w)
    ensures Copies(t, st, m, w)
  {
    hide SettingOk, Book, FromOk, ToOk, RootsHalf, Listing, Elsewhere;
  }

  // -------------------------------------------------------------------- room

  lemma {:induction false} SumAdd(objs: seq<Obj>, S: set<nat>, i: nat, n: nat, lo: nat, hi: nat)
    requires Tiles(objs, lo, hi) && i < |objs| && objs[i].p !in S && n <= |objs|
    ensures Sum(objs, S + {objs[i].p}, n) == Sum(objs, S, n) + if i < n then objs[i].end - objs[i].front else 0
  {
    hide Tiles;
    if n > 0 {
      SumAdd(objs, S, i, n - 1, lo, hi);
      if n - 1 != i { TilesApart(objs, lo, hi, n - 1, i); }
    }
  }

  lemma {:induction false} SumBelow(objs: seq<Obj>, S: set<nat>, n: nat, lo: nat, hi: nat)
    requires Tiles(objs, lo, hi) && n <= |objs|
    ensures Sum(objs, S, n) <= (if n < |objs| then objs[n].front else hi) - lo
    ensures Sum(objs, S, n) >= 0
  {
    hide Tiles;
    if n > 0 {
      SumBelow(objs, S, n - 1, lo, hi);
      TileBounds(objs, lo, hi, n - 1);
      TileStep(objs, lo, hi, n - 1);
    } else {
      TileStart(objs, lo, hi);
    }
  }

  lemma TileStep(objs: seq<Obj>, lo: nat, hi: nat, i: nat)
    requires Tiles(objs, lo, hi) && i < |objs|
    ensures objs[i].end == if i + 1 < |objs| then objs[i + 1].front else hi
  {
  }

  lemma TileStart(objs: seq<Obj>, lo: nat, hi: nat)
    requires Tiles(objs, lo, hi)
    ensures (if 0 < |objs| then objs[0].front else hi) == lo
  {
  }

  lemma SettingParts(t: Setting)
    requires SettingOk(t)
    ensures HeapOk(t.c) && Tiles(t.objs, t.lo, t.hi) && Covers(t.c.H, t.objs)
    ensures 0 < t.toStart <= t.toLimit <= |t.c.m| && t.hi - t.lo <= t.toLimit - t.toStart
  {
    hide HeapOk, Tiles, Covers;
  }

  // There is room for one more object, whatever has been copied.
  lemma RoomFor(t: Setting, st: Copy, p: nat)
    requires SettingOk(t) && Book(t, st) && p in t.c.H && p !in st.dest
    ensures var o := t.c.H[p];
      && o.front < o.p <= CopiedEnd(t.c.env, t.c.m, o) <= o.end - WordsSaved(t.c.env, t.c.k, t.c.m, t.c.currentStack, o)
      && st.back + (o.end - o.front) - WordsSaved(t.c.env, t.c.k, t.c.m, t.c.currentStack, o) <= t.toLimit
      && st.back + (o.end - o.front) <= t.toStart + Sum(t.objs, st.dest.Keys + {p}, |t.objs|)
      && t.toStart <= st.back
  {
    hide *;
    SettingParts(t);
    BookParts(t, st);
    HeapParts(t.c);
    OldObject(t.c, p);
    CopyFits(t.c.env, t.c.k, t.c.m, t.c.H[p], t.c.currentStack);
    var i := PlaceIn(t.c.H, t.objs, p);
    SumAdd(t.objs, st.dest.Keys, i, |t.objs|, t.lo, t.hi);
    SumBelow(t.objs, st.dest.Keys + {p}, |t.objs|, t.lo, t.hi);
  }

  lemma PlaceIn(H: Objects, objs: seq<Obj>, p: nat) returns (i: nat)
    requires Covers(H, objs) && p in H
    ensures i < |objs| && objs[i].p == p && objs[i] == H[p]
  {
    i :| i < |objs| && objs[i].p == p;
  }

  lemma BookParts(t: Setting, st: Copy)
    requires Book(t, st)
    ensures Lists(st.order, st.dest.Keys) && st.dest.Keys <= Live(t.c)
    ensures Tiles(PreObjs(Now(t, st), st.order), t.toStart, st.back)
    ensures t.toStart <= st.back <= t.toStart + Sum(t.objs, st.dest.Keys, |t.objs|)
    ensures st.n <= |st.order| && (st.n == |st.order| ==> st.k == 0) && st.r <= |t.c.roots|
  {
    hide Lists, Live, Tiles, PreObjs, Sum;
  }

  lemma CopiedIsOld(t: Setting, st: Copy, p: nat)
    requires Book(t, st) && p in st.dest
    ensures p in t.c.H && p in Live(t.c)
  {
    hide Lists, Live, Tiles, PreObjs, Sum;
    KeptIsOld(t.c, p);
  }

  // Copied objects have their own places in the to-space.
  lemma CopyPlace(t: Setting, st: Copy, i: nat)
    requires Book(t, st) && i < |st.order|
    ensures var n := PreObj(Now(t, st), st.order[i]);
      t.toStart <= n.front < n.end <= st.back && st.order[i] in st.dest
  {
    hide PreObj, Live, Sum, Tiles;
    TileBounds(PreObjs(Now(t, st), st.order), t.toStart, st.back, i);
    assert st.order[i] in st.order;
  }

  lemma CopyIndex(t: Setting, st: Copy, p: nat) returns (i: nat)
    requires Book(t, st) && p in st.dest
    ensures i < |st.order| && st.order[i] == p
  {
    hide Live, Tiles, PreObjs, Sum;
    assert p in st.order;
    i :| i < |st.order| && st.order[i] == p;
  }

  lemma BackInside(t: Setting, st: Copy)
    requires SettingOk(t) && Book(t, st)
    ensures 0 < t.toStart <= st.back <= t.toLimit <= |t.c.m|
  {
    hide *;
    SettingParts(t);
    BookParts(t, st);
    SumBelow(t.objs, st.dest.Keys, |t.objs|, t.lo, t.hi);
  }
}
