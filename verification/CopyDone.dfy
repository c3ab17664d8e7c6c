// The end of a copy: what was copied is what the roots reach, weak pointers
// are brought up to date, and the collection is complete.

module CopyDone {
  import opened Layout
  import opened Graph
  import opened Heap
  import opened State
  import opened StackSize
  import opened StackObject
  import opened Tiling
  import opened Relocate
  import opened Cursor
  import opened DfsInvariant
  import opened DfsMark
  import opened Roots
  import opened Collection
  import opened Copying
  import opened CopyStep
  import opened CopyScan
  import opened Forward

  // The scan is over.
  ghost predicate Scanned(t: Setting, st: Copy, m: Memory, w: nat) {
    Copies(t, st, m, w) && st.r == |t.c.roots| && st.n == |st.order| && st.k == 0
  }

  lemma ScannedParts(t: Setting, st: Copy, m: Memory, w: nat)
    requires Scanned(t, st, m, w)
    ensures Copies(t, st, m, w) && st.r == |t.c.roots| && st.n == |st.order| && st.k == 0
    ensures SettingOk(t) && HeapOk(t.c) && Book(t, st) && |m| == |t.c.m|
  {
    hide *;
    ScannedIs(t, st, m, w);
    CopiesParts(t, st, m, w);
    SettingParts(t);
  }

  lemma ScannedIs(t: Setting, st: Copy, m: Memory, w: nat)
    requires Scanned(t, st, m, w)
    ensures Copies(t, st, m, w) && st.r == |t.c.roots| && st.n == |st.order| && st.k == 0
  {
    hide Copies;
  }

  // ---------------------------------------------------- exactly what is reached

  lemma RootCopied(t: Setting, st: Copy, m: Memory, w: nat, x: nat)
    requires Scanned(t, st, m, w) && x in RootTargets(t.c.m, t.c.H, t.c.roots, |t.c.roots|)
    ensures x in st.dest
  {
    hide *;
    ScannedParts(t, st, m, w);
    CopiesParts(t, st, m, w);
    var i := RootOf(t.c.m, t.c.H, t.c.roots, x);
    HeapParts(t.c);
    RootPlaceOf(t.c.m, t.c.H, t.c.sp, t.c.roots, i);
    RootsAt(t, st, m, i);
    SettledIs(Now(t, st), t.c.m[t.c.roots[i]], m[t.c.roots[i]]);
    NowIs(t, st);
  }

  lemma RootOf(m: Memory, H: Objects, roots: seq<nat>, x: nat) returns (i: nat)
    requires x in RootTargets(m, H, roots, |roots|)
    ensures i < |roots| && roots[i] < |m| && m[roots[i]] == Ptr(x) && x in H
  {
    i :| i < |roots| && PointsTo(m, H, roots[i], x);
  }

  lemma SettledIs(c: Collection, w: Word, w': Word)
    requires Settled(c, w, w')
    ensures w' == NewWord(c, w) && (w.Ptr? && w.addr in c.H ==> w.addr in c.dest)
  {
    hide NewWord;
  }

  lemma ChildSlot(env: Env, m: Memory, H: Objects, o: Obj, x: nat) returns (i: nat)
    requires x in Children(env, m, H, o)
    ensures i < |Strong(env, o)| && Strong(env, o)[i] < |m| && m[Strong(env, o)[i]] == Ptr(x) && x in H
  {
    hide Strong;
    i :| i < |Strong(env, o)| && PointsTo(m, H, Strong(env, o)[i], x);
  }

  // The words of a scanned object.
  lemma ScannedAt(t: Setting, st: Copy, m: Memory, w: nat, p: nat)
    requires Scanned(t, st, m, w) && p in st.dest
    ensures p in t.c.H && t.c.H[p].p == p && CopiedObj(Now(t, st), p, |Strong(t.c.env, t.c.H[p])|, m)
    ensures var o, d := t.c.H[p], st.dest[p];
      && t.toStart + p <= o.front + d && p < o.front + d && CopiedEnd(t.c.env, t.c.m, o) + d <= st.back + p &&
         st.back <= t.toLimit <= |m|
      && o.front < p <= CopiedEnd(t.c.env, t.c.m, o) <= o.end
  {
    hide *;
    ScannedParts(t, st, m, w);
    var i := CopyIndex(t, st, p);
    CopyAt(t, st, m, w, i);
    DoneAll(t, st, i);
    AtIsIn(t.c.H, p);
  }

  lemma DoneAll(t: Setting, st: Copy, i: nat)
    requires i < |st.order| && st.n == |st.order|
    ensures Done(t, st, i) == |Strong(t.c.env, At(t.c.H, st.order[i]))|
  {
  }

  lemma ChildCopied(t: Setting, st: Copy, m: Memory, w: nat, p: nat, x: nat)
    requires Scanned(t, st, m, w) && p in st.dest && p in t.c.H && x in Children(t.c.env, t.c.m, t.c.H, t.c.H[p])
    ensures x in st.dest
  {
    hide *;
    ScannedParts(t, st, m, w);
    ScannedAt(t, st, m, w, p);
    var i := ChildSlot(t.c.env, t.c.m, t.c.H, t.c.H[p], x);
    StrongIs(t.c.env, t.c.H[p], i);
    NowIs(t, st);
    CopiedParts(Now(t, st), p, |Strong(t.c.env, t.c.H[p])|, m);
    SlotBounds(t.c, p, i);
    HalfAt(Now(t, st), t.c.H[p], st.dest[p], |Strong(t.c.env, t.c.H[p])|, m, i);
    SettledIs(Now(t, st), t.c.m[t.c.H[p].slots[i]], m[t.c.H[p].slots[i] + st.dest[p] - p]);
  }

  lemma AllCopied(t: Setting, st: Copy, m: Memory, w: nat)
    requires Scanned(t, st, m, w)
    ensures st.dest.Keys == Live(t.c)
  {
    hide *;
    ScannedParts(t, st, m, w);
    BookParts(t, st);
    forall x | x in RootTargets(t.c.m, t.c.H, t.c.roots, |t.c.roots|) && x in t.c.H
      ensures x in st.dest
    {
      RootCopied(t, st, m, w, x);
    }
    forall p, x | p in st.dest && p in t.c.H && x in Children(t.c.env, t.c.m, t.c.H, t.c.H[p]) && x in t.c.H
      ensures x in st.dest
    {
      ChildCopied(t, st, m, w, p, x);
    }
    LiveLeast(t.c, st.dest.Keys);
  }

  lemma LiveLeast(c: Collection, S: set<nat>)
    requires forall x :: x in RootTargets(c.m, c.H, c.roots, |c.roots|) && x in c.H ==> x in S
    requires forall p, x :: p in S && p in c.H && x in Children(c.env, c.m, c.H, c.H[p]) && x in c.H ==> x in S
    ensures Live(c) <= S
  {
    hide Reach, RootTargets, Children;
    ReachLeast(PointerGraph(c.env, c.m, c.H), RootTargets(c.m, c.H, c.roots, |c.roots|), S);
  }

  // -------------------------------------------------------------- weak pointers

  // A weak pointer that leaves the heap is to an object of its own, outside
  // both spaces.
  ghost predicate ForeignHeads(t: Setting) {
    forall p :: p in t.c.H && Listable(t.c, p) ==> ForeignHead(t, WordAt(t.c.m, p + 1))
  }

  ghost predicate ForeignHead(t: Setting, v: Word) {
    v.Ptr? && !InSpaces(t.c.sp, v.addr) ==>
      0 < v.addr <= |t.c.m| && t.c.m[v.addr - 1].Header? && !Used(t, v.addr - 1)
  }

  // Word a once the listed objects in G are gone and those in K follow their
  // targets.
  function FixedWord(c: Collection, G: set<nat>, K: set<nat>, m: Memory, a: nat): Word {
    if a + 1 in G then Header(WEAK_GONE_TYPE_INDEX, 0, false)
    else if a > 0 && a - 1 in G then BOGUS_OBJPTR
    else if a > 0 && a - 1 in K then NewWord(c, WordAt(m, a))
    else WordAt(m, a)
  }

  ghost predicate WeaksFixed(c: Collection, G: set<nat>, K: set<nat>, m: Memory, m': Memory) {
    |m'| == |m| && forall a: nat :: a < |m| ==> m'[a] == FixedWord(c, G, K, m, a)
  }

  // The weak object at d has a target that is not kept.
  predicate DeadTarget(c: Collection, m: Memory, d: nat) {
    WordAt(m, d + 1).Ptr? && WordAt(m, d + 1).addr !in c.dest
  }

  ghost predicate FixedUpTo(c: Collection, m: Memory, L: seq<nat>, k: nat, G: set<nat>, K: set<nat>) {
    && (forall d :: d in G <==> (exists i :: 0 <= i < k && i < |L| && L[i] == d) && DeadTarget(c, m, d))
    && (forall d :: d in K <==> (exists i :: 0 <= i < k && i < |L| && L[i] == d) && !DeadTarget(c, m, d))
  }

  lemma NothingFixed(c: Collection, m: Memory, L: seq<nat>)
    ensures WeaksFixed(c, {}, {}, m, m) && FixedUpTo(c, m, L, 0, {}, {})
  {
  }

  lemma FixedDead(c: Collection, m: Memory, L: seq<nat>, k: nat, G: set<nat>, K: set<nat>)
    requires FixedUpTo(c, m, L, k, G, K) && k < |L| && DeadTarget(c, m, L[k])
    ensures FixedUpTo(c, m, L, k + 1, G + {L[k]}, K)
  {
    hide DeadTarget;
    forall d
      ensures d in K <==> (exists i :: 0 <= i < k + 1 && i < |L| && L[i] == d) && !DeadTarget(c, m, d)
    {
      if i :| 0 <= i < k + 1 && i < |L| && L[i] == d && !DeadTarget(c, m, d) { assert i < k; }
    }
  }

  lemma FixedKept(c: Collection, m: Memory, L: seq<nat>, k: nat, G: set<nat>, K: set<nat>)
    requires FixedUpTo(c, m, L, k, G, K) && k < |L| && !DeadTarget(c, m, L[k])
    ensures FixedUpTo(c, m, L, k + 1, G, K + {L[k]})
  {
    hide DeadTarget;
    forall d
      ensures d in G <==> (exists i :: 0 <= i < k + 1 && i < |L| && L[i] == d) && DeadTarget(c, m, d)
    {
      if i :| 0 <= i < k + 1 && i < |L| && L[i] == d && DeadTarget(c, m, d) { assert i < k; }
    }
  }

  lemma FixedListed(c: Collection, m: Memory, L: seq<nat>, k: nat, G: set<nat>, K: set<nat>, d: nat)
    requires FixedUpTo(c, m, L, k, G, K) && k <= |L| && (d in G || d in K)
    ensures d in L && exists i :: 0 <= i < k && L[i] == d
  {
    hide DeadTarget;
  }

  // The listed weak object with new address d.
  lemma ListedObject(t: Setting, st: Copy, m: Memory, w: nat, d: nat) returns (p: nat)
    requires Scanned(t, st, m, w) && ForeignHeads(t) && d in st.L
    ensures p in t.c.H && p in st.dest && st.dest[p] == d && Listable(t.c, p)
    ensures t.c.H[p].front + 1 == p && t.c.H[p].end == p + 2 && t.c.H[p].slots == [p + 1] && p + 1 < |t.c.m| &&
      IsWeak(t.c.env, t.c.H[p])
    ensures t.toStart < d && d + 2 <= st.back <= t.toLimit <= |m| == |t.c.m|
    ensures m[d + 1] == t.c.m[p + 1] && WordAt(m, d + 1) == m[d + 1] && m[d + 1].Ptr?
    ensures ForeignHead(t, m[d + 1]) && TargetOk(t.c.H, t.c.sp, m[d + 1])
    ensures m[d - 1] == Header(t.c.H[p].ty, 0, false)
    ensures t.c.clearsForeign || InSpaces(t.c.sp, m[d + 1].addr)
  {
    hide *;
    ScannedParts(t, st, m, w);
    ListingBelow(t, st, m, w, d);
    p :| p in st.dest && p in t.c.H && st.dest[p] == d && Listable(t.c, p);
    ListableWeak(t.c, p);
    OldObject(t.c, p);
    WeakSlots(t.c.env, t.c.m, t.c.H[p]);
    OldSlotOk(t.c, p, 0);
    ListableIs(t.c, p);
    NoSavings(t.c.env, t.c.k, t.c.m, t.c.currentStack, t.c.H[p]);
    NotStack(t.c.env, t.c.H[p]);
    ScannedAt(t, st, m, w, p);
    NowIs(t, st);
    CopiedParts(Now(t, st), p, |Strong(t.c.env, t.c.H[p])|, m);
    WeakNoStrong(t.c.env, t.c.H[p]);
    HalfAt(Now(t, st), t.c.H[p], d, 0, m, 0);
    WordAtIs(m, d + 1);
    WordAtIs(t.c.m, p + 1);
    ForeignAt(t, p);
  }

  lemma NotStack(env: Env, o: Obj)
    requires IsWeak(env, o)
    ensures !IsStack(env, o)
  {
  }

  lemma WeakNoStrong(env: Env, o: Obj)
    ensures IsWeak(env, o) ==> |Strong(env, o)| == 0
    ensures !IsWeak(env, o) ==> Strong(env, o) == o.slots
  {
    hide IsWeak;
  }

  lemma ForeignAt(t: Setting, p: nat)
    requires ForeignHeads(t) && p in t.c.H && Listable(t.c, p)
    ensures ForeignHead(t, WordAt(t.c.m, p + 1))
  {
    hide Listable, ForeignHead;
  }

  lemma TwoApart(t: Setting, st: Copy, m: Memory, w: nat, d: nat, e: nat)
    requires Scanned(t, st, m, w) && ForeignHeads(t) && d in st.L && e in st.L && d != e
    ensures d + 3 <= e || e + 3 <= d
  {
    hide *;
    ScannedParts(t, st, m, w);
    var p := ListedObject(t, st, m, w, d);
    var q := ListedObject(t, st, m, w, e);
    var i := CopyIndex(t, st, p);
    var j := CopyIndex(t, st, q);
    CopyAt(t, st, m, w, i);
    CopyAt(t, st, m, w, j);
    NoSavings(t.c.env, t.c.k, t.c.m, t.c.currentStack, t.c.H[p]) by { NotStack(t.c.env, t.c.H[p]); }
    NoSavings(t.c.env, t.c.k, t.c.m, t.c.currentStack, t.c.H[q]) by { NotStack(t.c.env, t.c.H[q]); }
    if i < j { PreBelow(t, st, m, w, i, j); } else { PreBelow(t, st, m, w, j, i); }
  }

  // A word that no listed object owns.
  lemma FixedElsewhere(c: Collection, G: set<nat>, K: set<nat>, m: Memory, m': Memory, a: nat)
    requires WeaksFixed(c, G, K, m, m') && a < |m| && a + 1 !in G && (a > 0 ==> a - 1 !in G && a - 1 !in K)
    ensures |m'| == |m| && m'[a] == m[a]
  {
  }

  ghost predicate Fixing(t: Setting, st: Copy, m: Memory, w: nat, k: nat, G: set<nat>, K: set<nat>, m': Memory) {
    && Scanned(t, st, m, w) && ForeignHeads(t) && k <= |st.L|
    && WeaksFixed(Now(t, st), G, K, m, m') && FixedUpTo(Now(t, st), m, st.L, k, G, K)
  }

  lemma FixingParts(t: Setting, st: Copy, m: Memory, w: nat, k: nat, G: set<nat>, K: set<nat>, m': Memory)
    requires Fixing(t, st, m, w, k, G, K, m')
    ensures Scanned(t, st, m, w) && ForeignHeads(t) && k <= |st.L|
    ensures WeaksFixed(Now(t, st), G, K, m, m') && FixedUpTo(Now(t, st), m, st.L, k, G, K)
    ensures |m'| == |m|
  {
    hide Scanned, ForeignHeads, FixedUpTo, FixedWord;
  }

  lemma FixingIntro(t: Setting, st: Copy, m: Memory, w: nat, k: nat, G: set<nat>, K: set<nat>, m': Memory)
    requires Scanned(t, st, m, w) && ForeignHeads(t) && k <= |st.L|
    requires WeaksFixed(Now(t, st), G, K, m, m') && FixedUpTo(Now(t, st), m, st.L, k, G, K)
    ensures Fixing(t, st, m, w, k, G, K, m')
  {
    hide Scanned, ForeignHeads, WeaksFixed, FixedUpTo;
  }

  // A word outside the to-space, or a link word, is not touched.
  lemma NotFixed(t: Setting, st: Copy, m: Memory, w: nat, k: nat, G: set<nat>, K: set<nat>, m': Memory, a: nat)
    requires Fixing(t, st, m, w, k, G, K, m') && a < |m|
    requires !(t.toStart <= a < t.toLimit) || a in st.L || (a > 0 && a - 1 in st.L && a - 1 !in G && a - 1 !in K)
    ensures |m'| == |m| && m'[a] == m[a]
  {
    hide *;
    FixingParts(t, st, m, w, k, G, K, m');
    var c := Now(t, st);
    if a + 1 in G {
      FixedListed(c, m, st.L, k, G, K, a + 1);
      var p := ListedObject(t, st, m, w, a + 1);
      if a in st.L { TwoApart(t, st, m, w, a, a + 1); }
      if a > 0 && a - 1 in st.L { TwoApart(t, st, m, w, a - 1, a + 1); }
    }
    if a > 0 && (a - 1 in G || a - 1 in K) {
      FixedListed(c, m, st.L, k, G, K, a - 1);
      var p := ListedObject(t, st, m, w, a - 1);
      if a in st.L { TwoApart(t, st, m, w, a, a - 1); }
    }
    FixedElsewhere(c, G, K, m, m', a);
  }

  lemma NotMet(t: Setting, st: Copy, m: Memory, w: nat, k: nat, G: set<nat>, K: set<nat>, m': Memory)
    requires Fixing(t, st, m, w, k, G, K, m') && k < |st.L|
    ensures st.L[k] in st.L && st.L[k] !in G && st.L[k] !in K
  {
    hide *;
    FixingParts(t, st, m, w, k, G, K, m');
    ScannedParts(t, st, m, w);
    CopiesParts(t, st, m, w);
    ListingParts(t, st, m, w);
    NotMetBefore(Now(t, st), m, st.L, k, G, K);
  }

  lemma NotMetBefore(c: Collection, m: Memory, L: seq<nat>, k: nat, G: set<nat>, K: set<nat>)
    requires FixedUpTo(c, m, L, k, G, K) && k < |L| && Distinct(L)
    ensures L[k] !in G && L[k] !in K
  {
    hide DeadTarget;
    assert forall i :: 0 <= i < k ==> L[i] != L[k];
  }

  // The next weak object on the list, as the loop reads it.
  ghost predicate NextOk(c: Collection, L: seq<nat>, k: nat, m: Memory, m': Memory) {
    && k < |L|
    && (var d := L[k];
        && 0 < d && d + 1 < |m'| == |m| && m'[d] == Ptr(LinkAt(L, k + 1)) && m'[d + 1] == m[d + 1] && m'[d + 1].Ptr?
        && (var x := m[d + 1].addr;
            && 0 < x <= |m'|
            && (x in c.dest ==> m'[x - 1] == Ptr(c.dest[x]))
            && (x !in c.dest ==> m'[x - 1].Header?)
            && (DeadTarget(c, m, d) <==> x !in c.dest)))
  }

  lemma NextListed(t: Setting, st: Copy, m: Memory, w: nat, k: nat, G: set<nat>, K: set<nat>, m': Memory)
    requires Fixing(t, st, m, w, k, G, K, m') && k < |st.L|
    ensures NextOk(Now(t, st), st.L, k, m, m')
  {
    hide *;
    FixingParts(t, st, m, w, k, G, K, m');
    ScannedParts(t, st, m, w);
    CopiesParts(t, st, m, w);
    ListingParts(t, st, m, w);
    NotMet(t, st, m, w, k, G, K, m');
    var d := st.L[k];
    var p := ListedObject(t, st, m, w, d);
    LinkIs(m, w, st.L, k);
    NotFixed(t, st, m, w, k, G, K, m', d);
    NotFixed(t, st, m, w, k, G, K, m', d + 1);
    TargetHead(t, st, m, w, m[d + 1]);
    NotFixed(t, st, m, w, k, G, K, m', m[d + 1].addr - 1);
    DeadIs(Now(t, st), m, d);
    NowIs(t, st);
    NextIntro(Now(t, st), st.L, k, m, m');
  }

  lemma NextIntro(c: Collection, L: seq<nat>, k: nat, m: Memory, m': Memory)
    requires k < |L|
    requires var d := L[k];
        && 0 < d && d + 1 < |m'| == |m| && m'[d] == Ptr(LinkAt(L, k + 1)) && m'[d + 1] == m[d + 1] && m'[d + 1].Ptr?
        && (var x := m[d + 1].addr;
            && 0 < x <= |m'|
            && (x in c.dest ==> m'[x - 1] == Ptr(c.dest[x]))
            && (x !in c.dest ==> m'[x - 1].Header?)
            && (DeadTarget(c, m, d) <==> x !in c.dest))
    ensures NextOk(c, L, k, m, m')
  {
    hide DeadTarget, LinkAt;
  }

  lemma NextIs(c: Collection, L: seq<nat>, k: nat, m: Memory, m': Memory)
    requires NextOk(c, L, k, m, m')
    ensures k < |L|
    ensures var d := L[k];
        && 0 < d && d + 1 < |m'| == |m| && m'[d] == Ptr(LinkAt(L, k + 1)) && m'[d + 1] == m[d + 1] && m'[d + 1].Ptr?
        && (var x := m[d + 1].addr;
            && 0 < x <= |m'|
            && (x in c.dest ==> m'[x - 1] == Ptr(c.dest[x]))
            && (x !in c.dest ==> m'[x - 1].Header?)
            && (DeadTarget(c, m, d) <==> x !in c.dest))
  {
    hide DeadTarget, LinkAt;
  }

  lemma DeadIs(c: Collection, m: Memory, d: nat)
    requires WordAt(m, d + 1).Ptr?
    ensures DeadTarget(c, m, d) <==> WordAt(m, d + 1).addr !in c.dest
  {
  }

  lemma LinkIs(m: Memory, w: nat, L: seq<nat>, k: nat)
    requires WeakChain(m, w, L) && k < |L|
    ensures L[k] < |m| && m[L[k]] == Ptr(LinkAt(L, k + 1))
  {
  }

  lemma TargetHead(t: Setting, st: Copy, m: Memory, w: nat, v: Word)
    requires Scanned(t, st, m, w) && v.Ptr? && ForeignHead(t, v) && TargetOk(t.c.H, t.c.sp, v)
    ensures 0 < v.addr <= |m| && !(t.toStart <= v.addr - 1 < t.toLimit)
    ensures v.addr in st.dest ==> m[v.addr - 1] == Ptr(st.dest[v.addr])
    ensures v.addr !in st.dest ==> m[v.addr - 1].Header?
  {
    hide *;
    ScannedParts(t, st, m, w);
    CopiesParts(t, st, m, w);
    var x := v.addr;
    if InSpaces(t.c.sp, x) {
      TargetIsIn(t.c.H, t.c.sp, v);
      OldObject(t.c, x);
      HeaderClean(t.c, x);
      Outside(t, x);
      FromIs(t, st, m, x);
      if x in st.dest { FromHead(t, st, m, x); } else { UntouchedAt(t, st, m, x, x - 1); }
    } else {
      ForeignIs(t, v);
      ElsewhereAt(t, m, x - 1);
      UsedBy(t, x - 1);
      if x in st.dest { CopiedIsOld(t, st, x); SpacesHold(t.c, x); }
    }
  }

  lemma TargetIsIn(H: Objects, sp: Spaces, v: Word)
    requires TargetOk(H, sp, v) && v.Ptr? && InSpaces(sp, v.addr)
    ensures v.addr in H
  {
    hide InSpaces;
  }

  lemma FromHead(t: Setting, st: Copy, m: Memory, p: nat)
    requires FromAt(t, st, m, p) && p in t.c.H && p in st.dest
    ensures 0 < p <= |m| && m[p - 1] == Ptr(st.dest[p])
  {
    hide Untouched;
  }

  lemma ForeignIs(t: Setting, v: Word)
    requires ForeignHead(t, v) && v.Ptr? && !InSpaces(t.c.sp, v.addr)
    ensures 0 < v.addr <= |t.c.m| && t.c.m[v.addr - 1].Header? && !Used(t, v.addr - 1)
  {
    hide Used, InSpaces;
  }

  lemma SpacesHold(c: Collection, p: nat)
    requires HeapOk(c) && p in c.H
    ensures InSpaces(c.sp, p)
  {
    hide Quiet, SlotsOk, RootsOk, NoMarks, FramesBounded, InSpaces;
  }

  // Writing the fix of one more object.
  lemma FixOne(t: Setting, st: Copy, m: Memory, w: nat, k: nat, G: set<nat>, K: set<nat>, m': Memory)
    requires Fixing(t, st, m, w, k, G, K, m') && k < |st.L|
    requires 0 < st.L[k] && st.L[k] + 1 < |m'|
    ensures DeadTarget(Now(t, st), m, st.L[k]) ==>
      Fixing(t, st, m, w, k + 1, G + {st.L[k]}, K,
        m'[st.L[k] - 1 := Header(WEAK_GONE_TYPE_INDEX, 0, false)][st.L[k] + 1 := BOGUS_OBJPTR])
    ensures !DeadTarget(Now(t, st), m, st.L[k]) && st.L[k] + 1 < |m| ==>
      Fixing(t, st, m, w, k + 1, G, K + {st.L[k]}, m'[st.L[k] + 1 := NewWord(Now(t, st), m[st.L[k] + 1])])
  {
    hide *;
    FixingParts(t, st, m, w, k, G, K, m');
    NotMet(t, st, m, w, k, G, K, m');
    var c, d := Now(t, st), st.L[k];
    forall e | e in G || e in K
      ensures e + 3 <= d || d + 3 <= e
    {
      FixedListed(c, m, st.L, k, G, K, e);
      TwoApart(t, st, m, w, d, e);
    }
    if DeadTarget(c, m, d) {
      FixedDead(c, m, st.L, k, G, K);
      FixWords(c, G, K, m, m', d);
      FixingIntro(t, st, m, w, k + 1, G + {d}, K,
        m'[d - 1 := Header(WEAK_GONE_TYPE_INDEX, 0, false)][d + 1 := BOGUS_OBJPTR]);
    } else {
      FixedKept(c, m, st.L, k, G, K);
      FixWords(c, G, K, m, m', d);
      FixingIntro(t, st, m, w, k + 1, G, K + {d}, m'[d + 1 := NewWord(c, m[d + 1])]);
    }
  }

  lemma FixWords(c: Collection, G: set<nat>, K: set<nat>, m: Memory, m': Memory, d: nat)
    requires WeaksFixed(c, G, K, m, m') && 0 < d && d + 1 < |m'|
    requires forall e :: e in G || e in K ==> e + 3 <= d || d + 3 <= e
    ensures |m| == |m'|
    ensures WeaksFixed(c, G + {d}, K, m, m'[d - 1 := Header(WEAK_GONE_TYPE_INDEX, 0, false)][d + 1 := BOGUS_OBJPTR])
    ensures WeaksFixed(c, G, K + {d}, m, m'[d + 1 := NewWord(c, m[d + 1])])
  {
    hide NewWord;
  }

  // updateWeaksForCheneyCopy
  method UpdateWeaks(s: GCState, ghost t: Setting, ghost st: Copy) returns (ghost G: set<nat>, ghost K: set<nat>)
    requires Scanned(t, st, s.mem[..], s.weaks) && ForeignHeads(t)
    modifies s.mem, s`weaks
    ensures Fixing(t, st, old(s.mem[..]), old(s.weaks), |st.L|, G, K, s.mem[..]) && s.weaks == 0
  {
    hide *;
    ghost var m, w0, k := s.mem[..], s.weaks, 0;
    G, K := {}, {};
    ListHead(t, st, m, w0);
    NothingFixed(Now(t, st), m, st.L);
    FixingIntro(t, st, m, w0, 0, G, K, m);
    LinkZero(t, st, m, w0, 0);
    var w := s.weaks;
    while w != 0
      invariant 0 <= k <= |st.L| && w == LinkAt(st.L, k) && (w == 0 <==> k == |st.L|)
      invariant Fixing(t, st, m, w0, k, G, K, s.mem[..])
      decreases |st.L| - k
    {
      NextListed(t, st, m, w0, k, G, K, s.mem[..]);
      NextIs(Now(t, st), st.L, k, m, s.mem[..]);
      LinkAtIs(st.L, k);
      FixOne(t, st, m, w0, k, G, K, s.mem[..]);
      NewWordOf(Now(t, st), m[w + 1]);
      NowIs(t, st);
      var p, link := s.mem[w + 1].addr, s.mem[w].addr;
      if !s.mem[p - 1].Header? {
        s.Store(w + 1, s.mem[p - 1]);
        K := K + {w};
      } else {
        s.Store(w - 1, Header(WEAK_GONE_TYPE_INDEX, 0, false));
        s.Store(w + 1, BOGUS_OBJPTR);
        G := G + {w};
      }
      LinkZero(t, st, m, w0, k + 1);
      w := link;
      k := k + 1;
    }
    s.weaks := 0;
  }

  lemma NewWordOf(c: Collection, v: Word)
    ensures NewWord(c, v) == if v.Ptr? && v.addr in c.dest then Ptr(c.dest[v.addr]) else v
  {
  }

  lemma LinkAtIs(L: seq<nat>, k: nat)
    ensures LinkAt(L, k) == if k < |L| then L[k] else 0
  {
  }

  lemma ListHead(t: Setting, st: Copy, m: Memory, w: nat)
    requires Scanned(t, st, m, w)
    ensures w == LinkAt(st.L, 0)
  {
    hide *;
    ScannedParts(t, st, m, w);
    CopiesParts(t, st, m, w);
    ListingParts(t, st, m, w);
    ChainHead(m, w, st.L);
  }

  lemma ChainHead(m: Memory, w: nat, L: seq<nat>)
    requires WeakChain(m, w, L)
    ensures w == LinkAt(L, 0)
  {
  }

  lemma LinkZero(t: Setting, st: Copy, m: Memory, w: nat, k: nat)
    requires Scanned(t, st, m, w) && ForeignHeads(t) && k <= |st.L|
    ensures LinkAt(st.L, k) == 0 <==> k == |st.L|
  {
    hide *;
    LinkAtIs(st.L, k);
    if k < |st.L| { var p := ListedObject(t, st, m, w, st.L[k]); }
  }
}
