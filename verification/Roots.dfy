// Marking from every global root, one dfsMark after another.

module Roots {
  import opened Layout
  import opened Graph
  import opened Heap
  import opened State
  import opened Cursor
  import opened DfsInvariant
  import opened DfsSteps
  import opened DfsMark

  // The roots are words outside all objects, and point to objects of H when
  // they point into the heap.
  ghost predicate RootsOk(m: Memory, H: Objects, sp: Spaces, roots: seq<nat>) {
    && Distinct(roots)
    && (forall i :: 0 <= i < |roots| ==> 0 < roots[i] < |m| && TargetOk(H, sp, m[roots[i]]))
    && (forall i, p :: 0 <= i < |roots| && p in H ==> !(H[p].front <= roots[i] < H[p].end))
  }

  lemma RootsOkIntro(m: Memory, H: Objects, sp: Spaces, roots: seq<nat>)
    requires Distinct(roots)
    requires forall i :: 0 <= i < |roots| ==> 0 < roots[i] < |m| && TargetOk(H, sp, m[roots[i]])
    requires forall i, p :: 0 <= i < |roots| && p in H ==> !(H[p].front <= roots[i] < H[p].end)
    ensures RootsOk(m, H, sp, roots)
  {
    hide TargetOk, Distinct;
  }

  // The objects that the first n roots point to.
  ghost function RootTargets(m: Memory, H: Objects, roots: seq<nat>, n: nat): set<nat> {
    set t | t in H && exists i :: 0 <= i < n && i < |roots| && PointsTo(m, H, roots[i], t)
  }

  // ------------------------------------------------ one marked part at a time

  // The call that continues from memory m.
  function Continue(c: Call, m: Memory, root: nat): Call {
    c.(m0 := m, root := root)
  }

  lemma MarkedScratchOther(c: Call, V: set<nat>, m: Memory, a: nat)
    requires Marked(c, V, m) && a < |m| && !InScratch(c.env, c.H, a)
    ensures m[a] == c.m0[a]
  {
    hide MarkedObject, AreObjects;
  }

  lemma SlotUnscratched(c: Call, p: nat, i: nat)
    requires CallOk(c) && p in c.H && i < |c.H[p].slots|
    ensures c.H[p].slots[i] < |c.m0| && !InScratch(c.env, c.H, c.H[p].slots[i])
  {
    hide IsObject, SlotsOk, Clean;
    CurFacts(c.env, c.m0, c.H, p);
    ObjectBounds(c.env, c.m0, c.H[p]);
    SlotOwner(c.env, c.m0, c.H, p, i);
  }

  lemma MarkedSlotsOk(c: Call, V: set<nat>, m: Memory)
    requires CallOk(c) && Marked(c, V, m)
    ensures SlotsOk(m, c.H, c.sp)
  {
    hide AreObjects, MarkedObject, SameScratch, Clean, TargetOk;
    forall p, i | p in c.H && 0 <= i < |c.H[p].slots| && c.H[p].slots[i] < |m|
      ensures TargetOk(c.H, c.sp, m[c.H[p].slots[i]])
    {
      SlotUnscratched(c, p, i);
    }
  }

  lemma MarkedClean(c: Call, V: set<nat>, m: Memory, q: nat)
    requires CallOk(c) && Marked(c, V, m) && q in c.H
    ensures Clean(c.env, m, c.H[q])
  {
    hide AreObjects, SlotsOk, Within;
    HeaderScratch(c, q);
    if q !in V { SameClean(c.env, c.m0, m, c.H[q]); }
  }

  lemma MarkedGone(c: Call, V: set<nat>, m: Memory, q: nat)
    requires CallOk(c) && Marked(c, V, m) && q in c.H && IsWeak(c.env, c.H[q])
    ensures q + 1 < |m| && m[q + 1] == c.m0[q + 1]
  {
    hide AreObjects, SlotsOk, Within, Scratch, MarkedObject, SameScratch, Clean, InScratch;
    CurFacts(c.env, c.m0, c.H, q);
    WeakShape(c.env, c.m0, c.H[q]);
    OnlyOwner(c, q, q + 1);
  }

  lemma MarkedCallOk(c: Call, V: set<nat>, m: Memory, root: nat)
    requires CallOk(c) && Marked(c, V, m)
    ensures CallOk(Continue(c, m, root))
  {
    hide AreObjects, SlotsOk, MarkedObject, SameScratch, Clean;
    MarkedSlotsOk(c, V, m);
    forall q | q in c.H
      ensures Clean(c.env, m, c.H[q])
    {
      MarkedClean(c, V, m, q);
    }
    forall q | q in c.H && IsWeak(c.env, c.H[q]) && |c.H[q].slots| == 0
      ensures q + 1 < |m| && m[q + 1].Bits?
    {
      MarkedGone(c, V, m, q);
    }
  }

  // Marking does not change the pointer graph.
  lemma MarkedGraph(c: Call, V: set<nat>, m: Memory)
    requires CallOk(c) && Marked(c, V, m)
    ensures PointerGraph(c.env, m, c.H) == PointerGraph(c.env, c.m0, c.H)
  {
    hide AreObjects, MarkedObject, SameScratch, Clean, SlotsOk, InScratch;
    forall p | p in c.H
      ensures Children(c.env, m, c.H, c.H[p]) == Children(c.env, c.m0, c.H, c.H[p])
    {
      forall i | 0 <= i < |Strong(c.env, c.H[p])|
        ensures forall t :: PointsTo(m, c.H, Strong(c.env, c.H[p])[i], t) <==>
          PointsTo(c.m0, c.H, Strong(c.env, c.H[p])[i], t)
      {
        SlotUnscratched(c, p, i);
      }
    }
  }

  lemma MarkedAlready(c: Call, V: set<nat>, m: Memory, root: nat)
    requires CallOk(c) && Marked(c, V, m)
    ensures Already(Continue(c, m, root)) == Already(c) + V
  {
    hide AreObjects, SlotsOk, Within, InScratch, Clean, Scratch;
    forall q | q in c.H
      ensures 0 < q <= |m| && m[q - 1].Header? && c.m0[q - 1].Header?
      ensures m[q - 1].mark == c.bit <==> c.m0[q - 1].mark == c.bit || q in V
    {
      HeaderScratch(c, q);
      if q !in V { SameHeader(c.env, c.m0, m, c.H[q]); }
    }
  }

  lemma MarkedMore(c: Call, V: set<nat>, m: Memory, W: set<nat>, m': Memory, root: nat)
    requires CallOk(c) && Marked(c, V, m) && Marked(Continue(c, m, root), W, m') && V !! W
    ensures Marked(c, V + W, m')
  {
    hide AreObjects, SlotsOk, Within, InScratch, Clean, Scratch, MarkedObject, SameScratch;
    var c' := Continue(c, m, root);
    forall q | q in c.H && q !in V + W
      ensures SameScratch(c.env, c.H[q], c.m0, m')
    {
      SameScratchTrans(c.env, c.H[q], c.m0, m, m');
    }
    forall q | q in V + W
      ensures MarkedObject(c.env, c.H[q], c.bit, c.link, c.m0, m')
    {
      HeaderScratch(c, q);
      if q in V {
        MarkedThenSame(c, q, m, m');
      } else {
        SameThenMarked(c, q, m, m');
      }
    }
  }

  lemma MarkedThenSame(c: Call, q: nat, m: Memory, m': Memory)
    requires q in c.H && MarkedObject(c.env, c.H[q], c.bit, c.link, c.m0, m) && SameScratch(c.env, c.H[q], m, m')
    ensures MarkedObject(c.env, c.H[q], c.bit, c.link, c.m0, m')
  {
    assert Scratch(c.env, c.H[q], c.H[q].p - 1);
  }

  lemma SameThenMarked(c: Call, q: nat, m: Memory, m': Memory)
    requires q in c.H && 0 < c.H[q].front < c.H[q].p <= |c.m0| && c.m0[c.H[q].p - 1].Header?
    requires SameScratch(c.env, c.H[q], c.m0, m) && MarkedObject(c.env, c.H[q], c.bit, c.link, m, m')
    ensures MarkedObject(c.env, c.H[q], c.bit, c.link, c.m0, m')
  {
    assert Scratch(c.env, c.H[q], c.H[q].p - 1);
  }

  // ------------------------------------------------------------- all roots

  // The state after the first n roots: exactly what they reach is marked.
  ghost predicate AllMarked(c: Call, roots: seq<nat>, n: nat, V: set<nat>, m: Memory, size: int, w: nat, L: seq<nat>,
          L0: seq<nat>) {
    && CallOk(c)
    && Marked(c, V, m)
    && V == Reach(Without(PointerGraph(c.env, c.m0, c.H), Already(c)), RootTargets(c.m0, c.H, roots, n))
    && size == BytesMarked(c, V)
    && Links(c, V, m, w, L, L0)
  }

  lemma AllMarkedStart(c: Call, roots: seq<nat>, w: nat, L0: seq<nat>)
    requires CallOk(c) && Links(c, {}, c.m0, w, L0, L0)
    ensures AllMarked(c, roots, 0, {}, c.m0, 0, w, L0, L0)
  {
    hide CallOk, Links, Marked, BytesMarked, Already, Reach;
    NothingMarked(c);
    assert RootTargets(c.m0, c.H, roots, 0) == {};
    ReachNone(Without(PointerGraph(c.env, c.m0, c.H), Already(c)));
  }

  lemma RootWord(c: Call, roots: seq<nat>, n: nat, V: set<nat>, m: Memory)
    requires CallOk(c) && RootsOk(c.m0, c.H, c.sp, roots) && Marked(c, V, m) && n < |roots|
    ensures roots[n] < |m| == |c.m0| && m[roots[n]] == c.m0[roots[n]] && TargetOk(c.H, c.sp, m[roots[n]])
  {
    hide AreObjects, SlotsOk, Within, Scratch, MarkedObject, SameScratch, Clean;
    if p :| p in c.H && Scratch(c.env, c.H[p], roots[n]) {
      CurFacts(c.env, c.m0, c.H, p);
      ScratchInside(c.env, c.m0, c.H[p], roots[n]);
      assert false;
    }
  }

  lemma RootTargetsNext(m: Memory, H: Objects, roots: seq<nat>, n: nat)
    requires n < |roots| && roots[n] < |m|
    ensures m[roots[n]].Ptr? && m[roots[n]].addr in H ==>
              RootTargets(m, H, roots, n + 1) == RootTargets(m, H, roots, n) + {m[roots[n]].addr}
    ensures !(m[roots[n]].Ptr? && m[roots[n]].addr in H) ==>
              RootTargets(m, H, roots, n + 1) == RootTargets(m, H, roots, n)
  {
    forall t | t in RootTargets(m, H, roots, n + 1)
      ensures t in RootTargets(m, H, roots, n) || m[roots[n]] == Ptr(t)
    {
      var i :| 0 <= i < n + 1 && i < |roots| && PointsTo(m, H, roots[i], t);
    }
    if m[roots[n]].Ptr? && m[roots[n]].addr in H {
      assert PointsTo(m, H, roots[n], m[roots[n]].addr);
    }
  }

  lemma SkipRoot(c: Call, roots: seq<nat>, n: nat, V: set<nat>, m: Memory, size: int, w: nat, L: seq<nat>, L0: seq<nat>)
    requires AllMarked(c, roots, n, V, m, size, w, L, L0) && RootsOk(c.m0, c.H, c.sp, roots) && n < |roots|
    requires !m[roots[n]].Ptr?
    ensures AllMarked(c, roots, n + 1, V, m, size, w, L, L0)
  {
    hide CallOk, Links, Marked, BytesMarked, Already, Reach, RootsOk, RootTargets;
    RootWord(c, roots, n, V, m);
    RootTargetsNext(c.m0, c.H, roots, n);
  }

  // The weak list carries over from one root to the next.
  lemma LinksContinue(c: Call, V: set<nat>, m: Memory, w: nat, L: seq<nat>, L0: seq<nat>, root: nat)
    requires CallOk(c) && Marked(c, V, m) && Links(c, V, m, w, L, L0)
    ensures Links(Continue(c, m, root), {}, m, w, L, L)
  {
    hide Marked, WeakChain, CallOk, Already;
    MarkedAlready(c, V, m, root);
  }

  lemma LinkableContinue(c: Call, V: set<nat>, m: Memory, root: nat, q: nat)
    requires CallOk(c) && Marked(c, V, m)
    ensures Linkable(Continue(c, m, root), q) <==> Linkable(c, q)
  {
    hide Marked, CallOk;
    if q in c.H && IsWeak(c.env, c.H[q]) { MarkedGone(c, V, m, q); }
    MarkedLength(c, V, m);
  }

  lemma MarkedLength(c: Call, V: set<nat>, m: Memory)
    requires Marked(c, V, m)
    ensures |m| == |c.m0| && V <= c.H.Keys
  {
  }

  lemma LinksJoin(c: Call, V: set<nat>, m: Memory, L: seq<nat>, L0: seq<nat>, w: nat, root: nat, W: set<nat>,
          m': Memory, w': nat, L': seq<nat>)
    requires CallOk(c) && Marked(c, V, m) && Links(c, V, m, w, L, L0)
    requires Links(Continue(c, m, root), W, m', w', L', L)
    ensures Links(c, V + W, m', w', L', L0)
  {
    hide Marked, WeakChain, CallOk, Linkable, Already;
    forall q
      ensures Linkable(Continue(c, m, root), q) <==> Linkable(c, q)
    {
      LinkableContinue(c, V, m, root, q);
    }
  }

  lemma BytesJoin(c: Call, V: set<nat>, W: set<nat>)
    requires V !! W && V <= c.H.Keys && W <= c.H.Keys
    requires forall q :: q in W ==> q <= |c.m0|
    ensures BytesMarked(c, V + W) == BytesMarked(c, V) + BytesMarked(c, W)
    decreases W
  {
    hide NonWeak;
    if W == {} {
      assert V + W == V;
      assert BytesMarked(c, {}) == 0 by { NoBytes(c); }
    } else {
      var x :| x in W;
      BytesJoin(c, V, W - {x});
      BytesVisit(c, V + (W - {x}), x);
      BytesVisit(c, W - {x}, x);
      assert V + (W - {x}) + {x} == V + W;
      assert W - {x} + {x} == W;
    }
  }

  lemma NoBytes(c: Call)
    ensures BytesMarked(c, {}) == 0
  {
    assert NonWeak(c, {}) == {};
    TotalEmpty(c.H, |c.m0| + 1);
  }

  lemma ToMarkContinue(c: Call, V: set<nat>, m: Memory, root: nat)
    requires CallOk(c) && Marked(c, V, m)
    ensures ToMark(Continue(c, m, root))
         == Reach(Without(Without(PointerGraph(c.env, c.m0, c.H), Already(c)), V), {root})
  {
    hide Marked, CallOk, Already, Reach, PointerGraph;
    MarkedGraph(c, V, m);
    MarkedAlready(c, V, m, root);
    var g := PointerGraph(c.env, c.m0, c.H);
    assert Without(g, Already(c) + V) == Without(Without(g, Already(c)), V);
  }

  lemma NextRootReach(c: Call, roots: seq<nat>, n: nat, V: set<nat>, m: Memory)
    requires CallOk(c) && Marked(c, V, m) && RootsOk(c.m0, c.H, c.sp, roots) && n < |roots|
    requires V == Reach(Without(PointerGraph(c.env, c.m0, c.H), Already(c)), RootTargets(c.m0, c.H, roots, n))
    requires roots[n] < |m| && m[roots[n]].Ptr?
    ensures var W := ToMark(Continue(c, m, m[roots[n]].addr));
      && V !! W && W <= c.H.Keys
      && V + W == Reach(Without(PointerGraph(c.env, c.m0, c.H), Already(c)), RootTargets(c.m0, c.H, roots, n + 1))
  {
    hide Marked, CallOk, Already, Reach, PointerGraph, RootsOk, RootTargets;
    RootWord(c, roots, n, V, m);
    RootTargetsNext(c.m0, c.H, roots, n);
    var t := m[roots[n]].addr;
    ToMarkContinue(c, V, m, t);
    var g := Without(PointerGraph(c.env, c.m0, c.H), Already(c));
    ReachSplit(g, RootTargets(c.m0, c.H, roots, n), t);
    ReachInside(Without(g, V), {t});
    if t !in c.H { ReachLeast(Without(g, V), {t}, {}); }
  }

  lemma NextRoot(c: Call, roots: seq<nat>, n: nat, V: set<nat>, m: Memory, size: int, w: nat, L: seq<nat>, L0: seq<nat>,
                 W: set<nat>, m': Memory, size': int, w': nat, L': seq<nat>)
    requires AllMarked(c, roots, n, V, m, size, w, L, L0) && RootsOk(c.m0, c.H, c.sp, roots) && n < |roots|
    requires roots[n] < |m| && m[roots[n]].Ptr?
    requires var c' := Continue(c, m, m[roots[n]].addr);
      && W == ToMark(c') && Marked(c', W, m') && size' == BytesMarked(c', W) && Links(c', W, m', w', L', L)
    ensures AllMarked(c, roots, n + 1, V + W, m', size + size', w', L', L0)
  {
    hide Marked, CallOk, Already, Reach, PointerGraph, RootsOk, RootTargets, Links, NonWeak, Total;
    var t := m[roots[n]].addr;
    NextRootReach(c, roots, n, V, m);
    MarkedMore(c, V, m, W, m', t);
    LinksJoin(c, V, m, L, L0, w, t, W, m', w', L');
    MarkedLength(c, V, m);
    forall q | q in W
      ensures q <= |c.m0|
    {
      HeaderScratch(c, q);
    }
    BytesJoin(c, V, W);
    SameNonWeak(c, m, t, W);
  }

  lemma SameNonWeak(c: Call, m: Memory, t: nat, W: set<nat>)
    requires |m| == |c.m0|
    ensures BytesMarked(Continue(c, m, t), W) == BytesMarked(c, W)
  {
    assert NonWeak(Continue(c, m, t), W) == NonWeak(c, W);
  }

  // foreachGlobalObjptr with the marking closure.
  method MarkAll(s: GCState, mode: Mode, shouldLinkWeaks: bool, ghost H: Objects, ghost L0: seq<nat>)
    returns (size: nat, ghost V: set<nat>, ghost L: seq<nat>)
    requires CallOk(Call(s.env, s.mem[..], H, s.Spaces(), Bit(mode), shouldLinkWeaks, 0))
    requires RootsOk(s.mem[..], H, s.Spaces(), s.roots)
    requires Links(Call(s.env, s.mem[..], H, s.Spaces(), Bit(mode), shouldLinkWeaks, 0), {}, s.mem[..], s.weaks, L0, L0)
    modifies s`weaks, s.mem
    ensures var c := Call(s.env, old(s.mem[..]), H, old(s.Spaces()), Bit(mode), shouldLinkWeaks, 0);
            AllMarked(c, s.roots, |s.roots|, V, s.mem[..], size, s.weaks, L, L0)
    ensures !shouldLinkWeaks ==> s.weaks == old(s.weaks)
  {
    hide *;
    ghost var c := Call(s.env, s.mem[..], H, s.Spaces(), Bit(mode), shouldLinkWeaks, 0);
    size, V, L := 0, {}, L0;
    AllMarkedStart(c, s.roots, s.weaks, L0);
    for i := 0 to |s.roots|
      invariant AllMarked(c, s.roots, i, V, s.mem[..], size, s.weaks, L, L0)
      invariant c.sp == s.Spaces()
      invariant !shouldLinkWeaks ==> s.weaks == old(s.weaks)
    {
      ghost var m, w, V0, L1 := s.mem[..], s.weaks, V, L;
      AllMarkedParts(c, s.roots, i, V, m, size, s.weaks, L, L0);
      RootWord(c, s.roots, i, V, m);
      if s.mem[s.roots[i]].Ptr? {
        var t := s.mem[s.roots[i]].addr;
        MarkedCallOk(c, V, m, t);
        LinksContinue(c, V, m, s.weaks, L, L0, t);
        ContinueIs(c, m, t);
        var more;
        ghost var W;
        more, W, L := DfsMark.DfsMark(s, t, mode, shouldLinkWeaks, H, L1);
        NextRoot(c, s.roots, i, V0, m, size, w, L1, L0, W, s.mem[..], more, s.weaks, L);
        size, V := size + more, V0 + W;
      } else {
        SkipRoot(c, s.roots, i, V, m, size, s.weaks, L, L0);
      }
    }
  }

  lemma AllMarkedParts(c: Call, roots: seq<nat>, n: nat, V: set<nat>, m: Memory, size: int, w: nat, L: seq<nat>,
          L0: seq<nat>)
    requires AllMarked(c, roots, n, V, m, size, w, L, L0)
    ensures CallOk(c) && Marked(c, V, m) && Links(c, V, m, w, L, L0)
  {
  }

  lemma ContinueIs(c: Call, m: Memory, t: nat)
    ensures Continue(c, m, t) == Call(c.env, m, c.H, c.sp, c.bit, c.link, t)
  {
  }
}
