// GC_size and GC_sizeAll: mark, read off the size, unmark.

module Size {
  import opened Layout
  import opened Graph
  import opened Heap
  import opened State
  import opened Cursor
  import opened DfsInvariant
  import opened DfsSteps
  import opened DfsMark
  import opened Roots

  // No object is marked.
  ghost predicate Unmarked(c: Call) {
    forall p :: p in c.H ==> 0 < p <= |c.m0| && c.m0[p - 1].Header? && !c.m0[p - 1].mark
  }

  // The total size in bytes of the objects of V that are not weak.
  ghost function SizeOfSet(env: Env, H: Objects, V: set<nat>, n: nat): int {
    8 * Total(H, (set q | q in V && !IsWeak(env, At(H, q))), n)
  }

  // m' is m again, but for markTop and markIndex of the stacks in V.
  ghost predicate Undisturbed(env: Env, H: Objects, V: set<nat>, m: Memory, m': Memory) {
    |m'| == |m| && forall a :: 0 <= a < |m| && m'[a] != m[a] ==>
      exists p :: p in V && p in H && IsStack(env, H[p]) && (a == p || a == p + 1)
  }

  lemma MarkedBothWays(c: Call, V: set<nat>, m: Memory, m': Memory, root: nat)
    requires CallOk(c) && Unmarked(c) && c.bit && !c.link
    requires Marked(c, V, m) && Marked(Continue(c, m, root).(bit := false), V, m')
    ensures Undisturbed(c.env, c.H, V, c.m0, m')
  {
    hide CallOk, Marked, IsStack, Scratch, Unmarked;
    MarkedLength(c, V, m);
    MarkedLength(Continue(c, m, root).(bit := false), V, m');
    forall a | 0 <= a < |c.m0| && m'[a] != c.m0[a]
      ensures exists p :: p in V && p in c.H && IsStack(c.env, c.H[p]) && (a == p || a == p + 1)
    {
      if !InScratch(c.env, c.H, a) {
        MarkedScratchOther(c, V, m, a);
        MarkedScratchOther(Continue(c, m, root).(bit := false), V, m', a);
        assert false;
      }
      var p :| p in c.H && Scratch(c.env, c.H[p], a);
      ScratchBothWays(c, V, m, m', root, p, a);
    }
  }

  lemma ScratchBothWays(c: Call, V: set<nat>, m: Memory, m': Memory, root: nat, p: nat, a: nat)
    requires CallOk(c) && Unmarked(c) && c.bit && !c.link
    requires Marked(c, V, m) && Marked(Continue(c, m, root).(bit := false), V, m')
    requires p in c.H && a < |c.m0| && Scratch(c.env, c.H[p], a) && |m'| == |c.m0| && m'[a] != c.m0[a]
    ensures p in V && IsStack(c.env, c.H[p]) && (a == p || a == p + 1)
  {
    hide AreObjects, SlotsOk, Within, InScratch, Clean;
    HeaderScratch(c, p);
    assert p in V ==> MarkedObject(c.env, c.H[p], true, false, c.m0, m);
    assert p in V ==> MarkedObject(c.env, c.H[p], false, false, m, m');
  }

  // The unmarking pass from the same root meets exactly what was marked.
  lemma UnmarkMeets(c: Call, V: set<nat>, m: Memory)
    requires CallOk(c) && Unmarked(c) && c.bit && Marked(c, V, m) && V == ToMark(c)
    ensures V == Reach(PointerGraph(c.env, c.m0, c.H), {c.root})
    ensures ToMark(Continue(c, m, c.root).(bit := false)) == V
    ensures CallOk(Continue(c, m, c.root).(bit := false))
  {
    hide Quiet, SlotsOk, Within, Reach, Marked, AreObjects, PointerGraph;
    MarkedCallOk(c, V, m, c.root);
    MarkedGraph(c, V, m);
    var g := PointerGraph(c.env, c.m0, c.H);
    NoneAlready(c);
    assert Without(g, {}) == g;
    MarkedComplement(c, V, m);
    assert g.Keys - (c.H.Keys - V) == V by { MarkedLength(c, V, m); }
    ReachInClosed(g, {c.root}, V);
  }

  lemma NoneAlready(c: Call)
    requires Unmarked(c) && c.bit
    ensures Already(c) == {}
  {
  }

  lemma MarkedComplement(c: Call, V: set<nat>, m: Memory)
    requires CallOk(c) && Unmarked(c) && c.bit && Marked(c, V, m)
    ensures Already(Continue(c, m, c.root).(bit := false)) == c.H.Keys - V
  {
    hide AreObjects, SlotsOk, Within, InScratch, Clean, Scratch;
    forall q | q in c.H
      ensures 0 < q <= |m| && m[q - 1].Header? && (m[q - 1].mark <==> q in V)
    {
      HeaderScratch(c, q);
      if q !in V { SameHeader(c.env, c.m0, m, c.H[q]); }
    }
  }

  // Restricting the graph to what is reachable does not lose anything.
  lemma ReachInClosed(g: Graph, roots: set<nat>, V: set<nat>)
    requires V == Reach(g, roots)
    ensures Reach(Without(g, g.Keys - V), roots) == V
  {
    hide Reach;
    var g' := Without(g, g.Keys - V);
    ReachClosed(g', roots);
    ReachClosed(g, roots);
    ReachInside(g', roots);
    ReachInside(g, roots);
    forall x | x in roots && x in g
      ensures x in Reach(g', roots)
    {
      ReachRoot(g, roots, x);
      ReachRoot(g', roots, x);
    }
    ReachLeast(g, roots, Reach(g', roots));
  }

  // GC_size on a pointer: the bytes of the distinct objects reachable from
  // root, weak objects excepted, with the heap as it was.
  method GCSize(s: GCState, root: nat, ghost H: Objects) returns (size: nat, ghost V: set<nat>)
    requires CallOk(Call(s.env, s.mem[..], H, s.Spaces(), true, false, root))
    requires Unmarked(Call(s.env, s.mem[..], H, s.Spaces(), true, false, root))
    requires TargetOk(H, s.Spaces(), Ptr(root)) && s.weaks == 0
    modifies s`weaks, s.mem
    ensures V == Reach(PointerGraph(s.env, old(s.mem[..]), H), {root})
    ensures size == SizeOfSet(s.env, H, V, |s.mem[..]| + 1)
    ensures Undisturbed(s.env, H, V, old(s.mem[..]), s.mem[..])
    ensures s.weaks == old(s.weaks)
  {
    hide *;
    ghost var c := Call(s.env, s.mem[..], H, s.Spaces(), true, false, root);
    NoLinks(c, c.m0);
    BitIs();
    ghost var L;
    size, V, L := DfsMark.DfsMark(s, root, MarkMode, false, H, []);
    ghost var m := s.mem[..];
    UnmarkMeets(c, V, m);
    ghost var c' := Continue(c, m, root).(bit := false);
    ContinueIs(c, m, root);
    NoLinks(c', m);
    var ignored;
    ghost var W;
    ignored, W, L := DfsMark.DfsMark(s, root, UnmarkMode, false, H, []);
    MarkedBothWays(c, V, m, s.mem[..], root);
    MarkedLength(c, V, m);
    MarkedLength(c', V, s.mem[..]);
    BytesAreSize(c, V);
  }

  lemma BitIs()
    ensures Bit(MarkMode) == true && Bit(UnmarkMode) == false
  {
  }

  lemma NoLinks(c: Call, m: Memory)
    requires !c.link
    ensures Links(c, {}, m, 0, [], [])
  {
  }

  lemma BytesAreSize(c: Call, V: set<nat>)
    ensures BytesMarked(c, V) == SizeOfSet(c.env, c.H, V, |c.m0| + 1)
  {
  }

  // The same for all roots at once.
  lemma UnmarkMeetsAll(c: Call, roots: seq<nat>, V: set<nat>, m: Memory, size: int)
    requires Unmarked(c) && c.bit && !c.link && RootsOk(c.m0, c.H, c.sp, roots)
    requires AllMarked(c, roots, |roots|, V, m, size, 0, [], [])
    ensures V == Reach(PointerGraph(c.env, c.m0, c.H), RootTargets(c.m0, c.H, roots, |roots|))
    ensures var c' := Continue(c, m, c.root).(bit := false);
      && CallOk(c') && RootsOk(m, c.H, c.sp, roots)
      && Reach(Without(PointerGraph(c.env, m, c.H), Already(c')), RootTargets(m, c.H, roots, |roots|)) == V
  {
    hide CallOk, Reach, Marked, PointerGraph, RootsOk, RootTargets, Links;
    MarkedCallOk(c, V, m, c.root);
    CallOkBit(Continue(c, m, c.root));
    MarkedGraph(c, V, m);
    var g := PointerGraph(c.env, c.m0, c.H);
    var R := RootTargets(c.m0, c.H, roots, |roots|);
    NoneAlready(c);
    assert Without(g, {}) == g;
    MarkedComplement(c, V, m);
    assert g.Keys - (c.H.Keys - V) == V by { MarkedLength(c, V, m); }
    ReachInClosed(g, R, V);
    SameRoots(c, roots, V, m);
  }

  lemma CallOkBit(c: Call)
    requires CallOk(c)
    ensures CallOk(c.(bit := false))
  {
  }

  lemma SameRoots(c: Call, roots: seq<nat>, V: set<nat>, m: Memory)
    requires CallOk(c) && Marked(c, V, m) && RootsOk(c.m0, c.H, c.sp, roots)
    ensures RootsOk(m, c.H, c.sp, roots)
    ensures RootTargets(m, c.H, roots, |roots|) == RootTargets(c.m0, c.H, roots, |roots|)
  {
    hide CallOk, Marked, TargetOk;
    MarkedLength(c, V, m);
    forall i | 0 <= i < |roots|
      ensures 0 < roots[i] < |m| && m[roots[i]] == c.m0[roots[i]]
    {
      RootWord(c, roots, i, V, m);
    }
  }

  method GCSizeAll(s: GCState, ghost H: Objects) returns (size: nat, ghost V: set<nat>)
    requires CallOk(Call(s.env, s.mem[..], H, s.Spaces(), true, false, 0))
    requires Unmarked(Call(s.env, s.mem[..], H, s.Spaces(), true, false, 0))
    requires RootsOk(s.mem[..], H, s.Spaces(), s.roots) && s.weaks == 0
    modifies s`weaks, s.mem
    ensures V == Reach(PointerGraph(s.env, old(s.mem[..]), H), RootTargets(old(s.mem[..]), H, s.roots, |s.roots|))
    ensures size == SizeOfSet(s.env, H, V, |s.mem[..]| + 1)
    ensures Undisturbed(s.env, H, V, old(s.mem[..]), s.mem[..])
    ensures s.weaks == old(s.weaks)
  {
    hide *;
    ghost var c := Call(s.env, s.mem[..], H, s.Spaces(), true, false, 0);
    NoLinks(c, c.m0);
    BitIs();
    ghost var L;
    size, V, L := MarkAll(s, MarkMode, false, H, []);
    ghost var m := s.mem[..];
    NoList(c, V, m, s.weaks, L, s.roots, size);
    UnmarkMeetsAll(c, s.roots, V, m, size);
    ghost var c' := Continue(c, m, 0).(bit := false);
    ContinueIs(c, m, 0);
    NoLinks(c', m);
    var ignored;
    ghost var W;
    ignored, W, L := MarkAll(s, UnmarkMode, false, H, []);
    AllMarkedParts2(c', s.roots, W, s.mem[..], ignored, s.weaks, L);
    AllMarkedParts2(c, s.roots, V, m, size, 0, []);
    MarkedBothWays(c, V, m, s.mem[..], 0);
    MarkedLength(c, V, m);
    MarkedLength(c', V, s.mem[..]);
    BytesAreSize(c, V);
  }

  lemma AllMarkedParts2(c: Call, roots: seq<nat>, V: set<nat>, m: Memory, size: int, w: nat, L: seq<nat>)
    requires AllMarked(c, roots, |roots|, V, m, size, w, L, [])
    ensures CallOk(c) && Marked(c, V, m) && size == BytesMarked(c, V)
    ensures V == Reach(Without(PointerGraph(c.env, c.m0, c.H), Already(c)), RootTargets(c.m0, c.H, roots, |roots|))
  {
  }

  lemma HasMember(L: seq<nat>)
    ensures |L| > 0 ==> exists q :: q in L
  {
    if |L| > 0 { assert L[0] in L; }
  }

  lemma NoList(c: Call, V: set<nat>, m: Memory, w: nat, L: seq<nat>, roots: seq<nat>, size: int)
    requires AllMarked(c, roots, |roots|, V, m, size, w, L, []) && !c.link
    ensures L == [] && w == 0
  {
    hide CallOk, Marked;
    HasMember(L);
  }
}
