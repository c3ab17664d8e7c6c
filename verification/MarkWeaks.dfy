// updateWeaksForMarkCompact: after marking, a weak object whose target is not
// marked loses its pointer and becomes a weak object that is gone.

module MarkWeaks {
  import opened Layout
  import opened Graph
  import opened Heap
  import opened State
  import opened Cursor
  import opened DfsInvariant
  import opened DfsSteps
  import opened DfsMark
  import opened Roots
  import opened CompactSpec

  const GONE_HEADER: Word := Header(WEAK_GONE_TYPE_INDEX, 0, true)

  // The weak object q has an unmarked target.
  predicate IsGone(m: Memory, q: nat) {
    0 < q && q + 1 < |m| && m[q + 1].Ptr? && !MarkAt(m, m[q + 1].addr)
  }

  // Word a after the objects of G are gone.
  function ClearedWord(m: Memory, G: set<nat>, a: nat): Word {
    if a + 1 in G then GONE_HEADER
    else if a > 0 && a - 1 in G then BOGUS_OBJPTR
    else if a < |m| then m[a] else Bits(0)
  }

  predicate Touched(G: set<nat>, a: nat) { a + 1 in G || (a > 0 && a - 1 in G) }

  ghost predicate WeaksCleared(m: Memory, G: set<nat>, m': Memory) {
    |m'| == |m| && forall a: nat :: a < |m| ==> m'[a] == ClearedWord(m, G, a)
  }

  ghost predicate GoneOf(m: Memory, L: seq<nat>, k: nat, G: set<nat>) {
    forall q :: q in G <==> (exists i :: 0 <= i < k && i < |L| && L[i] == q) && IsGone(m, q)
  }

  // The marked heap with its weak list.
  ghost predicate WeakHeap(c: Call, V: set<nat>, m: Memory, L: seq<nat>) {
    && CallOk(c) && c.bit && c.link && Marked(c, V, m)
    && Distinct(L)
    && (forall q :: q in L <==> q in V && Linkable(c, q))
  }

  lemma Listed(c: Call, V: set<nat>, m: Memory, L: seq<nat>, q: nat)
    requires WeakHeap(c, V, m, L) && q in L
    ensures q in V && q in c.H && IsWeak(c.env, c.H[q]) && c.H[q].front == q - 1 && c.H[q].p == q && c.H[q].end == q + 2
    ensures 0 < q && q + 1 < |m| && m[q + 1].Ptr? && InSpaces(c.sp, m[q + 1].addr)
    ensures m[q + 1] == c.m0[q + 1] && |m| == |c.m0| && MarkAt(m, q)
  {
    hide Marked, CallOk;
    assert Linkable(c, q);
    MarkedLength(c, V, m);
    MarkedGone(c, V, m, q);
    MarkedHeaders(c, V, m, q);
    WeakBounds(c, q);
  }

  lemma WeakBounds(c: Call, q: nat)
    requires CallOk(c) && q in c.H && IsWeak(c.env, c.H[q])
    ensures c.H[q].front == q - 1 && c.H[q].p == q && c.H[q].end == q + 2
  {
    hide Within, SlotsOk, Apart, Clean;
    assert IsObject(c.env, c.m0, c.H[q]);
    assert ValidType(c.env.types[c.H[q].ty]);
  }

  // After marking, the mark says whether an object was reached.
  lemma MarkedHeaders(c: Call, V: set<nat>, m: Memory, p: nat)
    requires CallOk(c) && Marked(c, V, m) && p in c.H && c.bit
    ensures 0 < p <= |m| == |c.m0| && m[p - 1].Header? && c.m0[p - 1].Header?
    ensures p in V ==> MarkAt(m, p)
    ensures p !in V ==> m[p - 1] == c.m0[p - 1]
  {
    hide AreObjects, SlotsOk, Within, InScratch, Clean, Scratch;
    HeaderScratch(c, p);
    if p !in V { SameHeader(c.env, c.m0, m, c.H[p]); }
  }

  lemma ListedApart(c: Call, V: set<nat>, m: Memory, L: seq<nat>, q: nat, p: nat)
    requires WeakHeap(c, V, m, L) && q in L && p in c.H && p != q
    ensures c.H[p].end <= q - 1 || q + 2 <= c.H[p].front
  {
    hide Marked, Within, SlotsOk, Clean, Linkable, IsObject;
    Listed(c, V, m, L, q);
  }

  lemma NoneCleared(m: Memory, L: seq<nat>)
    ensures WeaksCleared(m, {}, m) && GoneOf(m, L, 0, {})
  {
  }

  lemma GoneSkip(m: Memory, L: seq<nat>, k: nat, G: set<nat>)
    requires GoneOf(m, L, k, G) && k < |L| && !IsGone(m, L[k])
    ensures GoneOf(m, L, k + 1, G)
  {
    hide IsGone;
    forall q
      ensures q in G <==> (exists i :: 0 <= i < k + 1 && i < |L| && L[i] == q) && IsGone(m, q)
    {
      if i :| 0 <= i < k + 1 && i < |L| && L[i] == q && IsGone(m, q) { assert i < k; }
    }
  }

  lemma GoneAdd(m: Memory, L: seq<nat>, k: nat, G: set<nat>)
    requires GoneOf(m, L, k, G) && k < |L| && IsGone(m, L[k])
    ensures GoneOf(m, L, k + 1, G + {L[k]})
  {
    hide IsGone;
  }

  lemma GoneListed(m: Memory, L: seq<nat>, k: nat, G: set<nat>, q: nat)
    requires GoneOf(m, L, k, G) && q in G && k <= |L|
    ensures q in L && exists i :: 0 <= i < k && L[i] == q
  {
    hide IsGone;
  }

  lemma TwoListed(c: Call, V: set<nat>, m: Memory, L: seq<nat>, p: nat, q: nat)
    requires WeakHeap(c, V, m, L) && p in L && q in L && p != q
    ensures p + 3 <= q || q + 3 <= p
  {
    hide WeakHeap;
    Listed(c, V, m, L, p);
    Listed(c, V, m, L, q);
    ListedApart(c, V, m, L, p, q);
  }

  lemma ClearOne(c: Call, V: set<nat>, m: Memory, L: seq<nat>, k: nat, G: set<nat>, m': Memory)
    requires WeakHeap(c, V, m, L) && WeaksCleared(m, G, m') && GoneOf(m, L, k, G) && k < |L| && L[k] !in G
    ensures 0 < L[k] && L[k] + 1 < |m'|
    ensures WeaksCleared(m, G + {L[k]}, m'[L[k] - 1 := GONE_HEADER][L[k] + 1 := BOGUS_OBJPTR])
  {
    hide WeakHeap, GoneOf;
    var q := L[k];
    assert q in L;
    Listed(c, V, m, L, q);
    forall a: nat | a < |m| && Touched(G, a)
      ensures a != q - 1 && a != q + 1
    {
      var p := if a + 1 in G then a + 1 else a - 1;
      GoneListed(m, L, k, G, p);
      TwoListed(c, V, m, L, p, q);
    }
    if q + 2 in G { GoneListed(m, L, k, G, q + 2); TwoListed(c, V, m, L, q, q + 2); }
  }

  // A listed object is met once.
  lemma NotYet(c: Call, V: set<nat>, m: Memory, L: seq<nat>, k: nat, G: set<nat>)
    requires WeakHeap(c, V, m, L) && GoneOf(m, L, k, G) && k < |L|
    ensures L[k] !in G
  {
    hide IsGone, CallOk, Marked, Linkable;
    assert forall i :: 0 <= i < k ==> L[i] != L[k];
  }

  // Words of other objects are not touched, and of listed objects only two.
  lemma OtherWord(c: Call, V: set<nat>, m: Memory, L: seq<nat>, k: nat, G: set<nat>, m': Memory, p: nat, a: nat)
    requires WeakHeap(c, V, m, L) && WeaksCleared(m, G, m') && GoneOf(m, L, k, G) && k <= |L|
    requires p in c.H && c.H[p].front <= a < c.H[p].end && a < |m|
    requires p in G ==> a + 1 != p && a != p + 1
    ensures m'[a] == m[a] && |m'| == |m|
  {
    hide WeakHeap, GoneOf;
    if a + 1 in G || (a > 0 && a - 1 in G) {
      var q := if a + 1 in G then a + 1 else a - 1;
      GoneListed(m, L, k, G, q);
      Listed(c, V, m, L, q);
      ListedApart(c, V, m, L, q, p);
    }
  }

  // Clearing weak pointers does not change which objects are marked.
  lemma MarksStay(c: Call, V: set<nat>, m: Memory, L: seq<nat>, k: nat, G: set<nat>, m': Memory, p: nat)
    requires WeakHeap(c, V, m, L) && WeaksCleared(m, G, m') && GoneOf(m, L, k, G) && k <= |L| && p in c.H
    ensures 0 < p <= |m'| && |m'| == |m| && m'[p - 1].Header? && (MarkAt(m', p) <==> MarkAt(m, p))
    ensures p !in G ==> m'[p - 1] == m[p - 1]
    ensures p in G ==> m'[p - 1] == GONE_HEADER
  {
    hide WeakHeap, GoneOf;
    WeakHeapParts(c, V, m, L);
    MarkedHeaders(c, V, m, p);
    HeaderPlace(c, p);
    if p in G {
      GoneListed(m, L, k, G, p);
      Listed(c, V, m, L, p);
    } else {
      OtherWord(c, V, m, L, k, G, m', p, p - 1);
    }
  }

  lemma WeakHeapParts(c: Call, V: set<nat>, m: Memory, L: seq<nat>)
    requires WeakHeap(c, V, m, L)
    ensures CallOk(c) && c.bit && c.link && Marked(c, V, m) && |m| == |c.m0|
  {
    hide CallOk, Marked, Linkable;
    MarkedLength(c, V, m);
  }

  lemma HeaderPlace(c: Call, p: nat)
    requires CallOk(c) && p in c.H
    ensures c.H[p].p == p && c.H[p].front <= p - 1 < c.H[p].end && c.H[p].end <= |c.m0| && 0 < c.H[p].front
  {
    hide Within, SlotsOk, Apart, Clean;
    assert IsObject(c.env, c.m0, c.H[p]);
  }

  lemma TargetOfListed(c: Call, V: set<nat>, m: Memory, L: seq<nat>, q: nat)
    requires WeakHeap(c, V, m, L) && q in L
    ensures q + 1 < |m| && m[q + 1].Ptr? && m[q + 1].addr in c.H
  {
    hide Marked, Clean, AreObjects;
    Listed(c, V, m, L, q);
    assert c.H[q].slots == [q + 1] by { ListedSlots(c, q); }
    assert TargetOk(c.H, c.sp, c.m0[c.H[q].slots[0]]);
  }

  // A linkable weak object is not gone yet, so its second word is its slot.
  lemma ListedSlots(c: Call, q: nat)
    requires CallOk(c) && Linkable(c, q)
    ensures c.H[q].slots == [q + 1]
  {
    hide Within, SlotsOk, Apart, Clean;
    assert IsObject(c.env, c.m0, c.H[q]);
    assert ValidType(c.env.types[c.H[q].ty]);
  }

  method UpdateWeaks(s: GCState, ghost c: Call, ghost V: set<nat>, ghost L: seq<nat>) returns (ghost G: set<nat>)
    requires WeakHeap(c, V, s.mem[..], L) && WeakChain(s.mem[..], s.weaks, L)
    modifies s.mem, s`weaks
    ensures WeaksCleared(old(s.mem[..]), G, s.mem[..]) && GoneOf(old(s.mem[..]), L, |L|, G) && s.weaks == 0
  {
    hide *;
    ghost var m, k := s.mem[..], 0;
    G := {};
    NoneCleared(m, L);
    ChainAt(c, V, m, L, 0, s.weaks);
    var w := s.weaks;
    while w != 0
      invariant 0 <= k <= |L| && w == LinkAt(L, k) && (w == 0 <==> k == |L|) && WeakChain(m, LinkAt(L, 0), L)
      invariant WeaksCleared(m, G, s.mem[..]) && GoneOf(m, L, k, G) && s.mem.Length == |m|
      decreases |L| - k
    {
      ChainStep(c, V, m, L, k, G, s.mem[..], w);
      Listed(c, V, m, L, w);
      TargetOfListed(c, V, m, L, w);
      MarksStay(c, V, m, L, k, G, s.mem[..], m[w + 1].addr);
      MarkAtIs(s.mem[..], m[w + 1].addr);
      IsGoneIs(m, w);
      NotYet(c, V, m, L, k, G);
      GoneHeaderIs();
      var p := s.mem[w + 1].addr;
      var link := s.mem[w].addr;
      if s.mem[p - 1].mark {
        GoneSkip(m, L, k, G);
      } else {
        ClearOne(c, V, m, L, k, G, s.mem[..]);
        GoneAdd(m, L, k, G);
        s.Store(w - 1, Header(WEAK_GONE_TYPE_INDEX, 0, true));
        s.Store(w + 1, BOGUS_OBJPTR);
        G := G + {w};
      }
      ChainAt(c, V, m, L, k + 1, LinkAt(L, 0));
      w := link;
      k := k + 1;
    }
    s.weaks := 0;
  }

  lemma GoneHeaderIs()
    ensures GONE_HEADER == Header(WEAK_GONE_TYPE_INDEX, 0, true)
  {
  }

  lemma MarkAtIs(m: Memory, p: nat)
    requires 0 < p <= |m| && m[p - 1].Header?
    ensures MarkAt(m, p) <==> m[p - 1].mark
  {
  }

  lemma IsGoneIs(m: Memory, q: nat)
    requires 0 < q && q + 1 < |m| && m[q + 1].Ptr?
    ensures IsGone(m, q) <==> !MarkAt(m, m[q + 1].addr)
  {
    hide MarkAt;
  }

  lemma ChainAt(c: Call, V: set<nat>, m: Memory, L: seq<nat>, k: nat, w: nat)
    requires WeakHeap(c, V, m, L) && WeakChain(m, w, L) && k <= |L|
    ensures w == LinkAt(L, 0) && (LinkAt(L, k) == 0 <==> k == |L|)
  {
    hide WeakHeap;
    if k < |L| { Listed(c, V, m, L, L[k]); }
  }

  // The words of the next weak object on the list.
  lemma ChainStep(c: Call, V: set<nat>, m: Memory, L: seq<nat>, k: nat, G: set<nat>, m': Memory, w: nat)
    requires WeakHeap(c, V, m, L) && WeakChain(m, LinkAt(L, 0), L)
    requires WeaksCleared(m, G, m') && GoneOf(m, L, k, G) && k < |L| && w == LinkAt(L, k)
    ensures w == L[k] && w in L && w + 1 < |m'| == |m| && m'[w + 1] == m[w + 1] && m'[w] == Ptr(LinkAt(L, k + 1))
  {
    hide WeakHeap, WeaksCleared, GoneOf;
    Listed(c, V, m, L, w);
    NotYet(c, V, m, L, k, G);
    OtherWord(c, V, m, L, k, G, m', w, w);
    OtherWord(c, V, m, L, k, G, m', w, w + 1);
  }
}
