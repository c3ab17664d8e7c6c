// The Cheney scan: forward the roots, then every slot of every copied object,
// until the scan catches up with the copying.

module Cheney {
  import opened Layout
  import opened Graph
  import opened Heap
  import opened State
  import opened ObjectSize
  import opened StackSize
  import opened StackObject
  import opened Tiling
  import opened Relocate
  import opened Foreach
  import opened Cursor
  import opened DfsInvariant
  import opened DfsMark
  import opened Roots
  import opened Collection
  import opened Copying
  import opened CopyStep
  import opened CopyScan
  import opened Forward

  // More was copied, nothing else happened.
  ghost predicate Grown(st: Copy, st': Copy) {
    && st'.n == st.n && st'.k == st.k && st'.r == st.r
    && |st.order| <= |st'.order| && st'.order[..|st.order|] == st.order
    && (forall p :: p in st.dest ==> p in st'.dest && st'.dest[p] == st.dest[p])
  }

  lemma GrownSame(st: Copy)
    ensures Grown(st, st)
  {
  }

  lemma GrownExtend(t: Setting, st: Copy, p: nat)
    requires p !in st.dest
    ensures Grown(st, Extend(t, st, p)) && p in Extend(t, st, p).dest
  {
    hide NewAddress, NewBack, Listable;
  }

  lemma GrownIs(st: Copy, st': Copy)
    requires Grown(st, st')
    ensures st'.n == st.n && st'.k == st.k && st'.r == st.r && |st.order| <= |st'.order|
    ensures forall i :: 0 <= i < |st.order| ==> st'.order[i] == st.order[i]
    ensures forall p :: p in st.dest ==> p in st'.dest && st'.dest[p] == st.dest[p]
  {
    forall i | 0 <= i < |st.order|
      ensures st'.order[i] == st.order[i]
    {
      assert st'.order[..|st.order|][i] == st.order[i];
    }
  }

  // The slot or object the scan stands before is still the same one.
  lemma GrownSlot(t: Setting, st: Copy, st': Copy, m: Memory, w: nat, m': Memory, w': nat)
    requires AtSlot(t, st, m, w) && Grown(st, st') && Copies(t, st', m', w')
    ensures AtSlot(t, st', m', w') && st'.n < |st'.order| && st.n < |st.order| && st'.order[st'.n] == st.order[st.n]
    ensures OldSlot(t, st') == OldSlot(t, st) && NewSlotAddr(t, st') == NewSlotAddr(t, st)
  {
    hide Copies, Strong, Grown;
    AtSlotParts(t, st, m, w);
    assert st.order[st.n] in st.dest by { hide *; AtSlotParts(t, st, m, w); ScanSlot(t, st, m, w); }
    GrownIs(st, st');
  }

  lemma SameHead(t: Setting, st: Copy, st': Copy)
    requires st.n < |st.order| && st'.n < |st'.order| && st'.order[st'.n] == st.order[st.n]
    requires st.order[st.n] in st.dest && st.order[st.n] in st'.dest &&
      st'.dest[st.order[st.n]] == st.dest[st.order[st.n]]
    ensures PreObj(Now(t, st'), st'.order[st'.n]) == PreObj(Now(t, st), st.order[st.n])
  {
    hide WordsSaved;
  }

  // A pointer into the heap is to an object, whose header says whether it was
  // copied.
  lemma ForwardTest(t: Setting, st: Copy, m: Memory, w: nat, p: nat)
    requires Copies(t, st, m, w) && p in t.c.H
    ensures 0 < p <= |m|
    ensures p in st.dest ==> m[p - 1] == Ptr(st.dest[p])
    ensures p !in st.dest ==> m[p - 1].Header?
  {
    hide *;
    CopiesParts(t, st, m, w);
    SettingParts(t);
    FromIs(t, st, m, p);
    HeaderClean(t.c, p);
    FromAtIs(t, st, m, p);
    if p !in st.dest { UntouchedAt(t, st, m, p, p - 1); }
  }

  lemma FromAtIs(t: Setting, st: Copy, m: Memory, p: nat)
    requires FromAt(t, st, m, p) && p in t.c.H
    ensures p in st.dest ==> 0 < p <= |m| && m[p - 1] == Ptr(st.dest[p])
  {
    hide Untouched;
  }

  lemma CanCopyIntro(t: Setting, st: Copy, m: Memory, w: nat, p: nat)
    requires Copies(t, st, m, w) && p in t.c.H && p !in st.dest && p in Live(t.c)
    ensures CanCopy(t, st, m, w, p)
  {
    hide Copies, Live;
  }

  lemma RedirectIntro(t: Setting, st: Copy, m: Memory, a: nat, v: Word, m': Memory)
    requires a < |m|
    requires v.Ptr? && v.addr in st.dest ==> m' == m[a := Ptr(st.dest[v.addr])]
    requires !(v.Ptr? && v.addr in st.dest) ==> m' == m && m[a] == v
    requires v.Ptr? && v.addr in t.c.H ==> v.addr in st.dest
    ensures Redirected(t, st, m, a, v, m')
  {
    if !(v.Ptr? && v.addr in st.dest) { assert m[a := m[a]] == m; }
  }

  // A visible word that does not point into the heap was never copied.
  lemma NotInHeap(t: Setting, st: Copy, m: Memory, w: nat, v: Word)
    requires Copies(t, st, m, w) && v.Ptr? && !InSpaces(t.c.sp, v.addr)
    ensures v.addr !in t.c.H && v.addr !in st.dest
  {
    hide *;
    CopiesParts(t, st, m, w);
    SettingParts(t);
    if v.addr in st.dest { CopiedIsOld(t, st, v.addr); }
    if v.addr in t.c.H { WithinSpaces(t.c, v.addr); }
  }

  lemma WithinSpaces(c: Collection, p: nat)
    requires HeapOk(c) && p in c.H
    ensures InSpaces(c.sp, p)
  {
    hide Quiet, SlotsOk, RootsOk, NoMarks, FramesBounded, InSpaces;
  }

  lemma TargetInside(H: Objects, sp: Spaces, v: Word)
    requires TargetOk(H, sp, v) && v.Ptr? && InSpaces(sp, v.addr)
    ensures v.addr in H
  {
    hide InSpaces;
  }

  // forwardObjptrIfInHeap and forwardObjptrIfInNursery, on the slot opp with
  // word v.
  method ForwardIfInRange(s: GCState, opp: nat, back: nat, minor: bool, from: nat, to: nat, currentStack: nat,
                          ghost t: Setting, ghost st: Copy, ghost v: Word)
    returns (back': nat, ghost st': Copy, ghost m1: Memory)
    requires Running(s, t, from, to, minor, currentStack)
    requires Copies(t, st, s.mem[..], s.weaks) && back == st.back
    requires opp < s.mem.Length && s.mem[opp] == v && TargetOk(t.c.H, t.c.sp, v) &&
      (v.Ptr? && v.addr in t.c.H ==> v.addr in Live(t.c))
    modifies s.mem, s`weaks
    ensures Copies(t, st', m1, s.weaks) && Grown(st, st') && back' == st'.back && back <= back'
    ensures Redirected(t, st', m1, opp, v, s.mem[..])
  {
    hide *;
    RunningParts(s, t, from, to, minor, currentStack);
    back', st', m1 := back, st, s.mem[..];
    GrownSame(st);
    if s.mem[opp].Ptr? {
      var p := s.mem[opp].addr;
      if p < from || p > to {
        NotInHeap(t, st, m1, s.weaks, v);
        RedirectIntro(t, st, m1, opp, v, s.mem[..]);
        return;
      }
      TargetInside(t.c.H, t.c.sp, v);
      ForwardTest(t, st, m1, s.weaks, p);
      if s.mem[p - 1].Header? {
        CanCopyIntro(t, st, m1, s.weaks, p);
        back' := CopyObject(s, p, back, minor, from, to, currentStack, t, st);
        st' := Extend(t, st, p);
        GrownExtend(t, st, p);
        m1 := s.mem[..];
        ForwardTest(t, st', m1, s.weaks, p);
      }
      s.Store(opp, s.mem[p - 1]);
      CopiesLength(t, st', m1, s.weaks);
      RedirectIntro(t, st', m1, opp, v, s.mem[..]);
    } else {
      RedirectIntro(t, st, m1, opp, v, s.mem[..]);
    }
  }

  lemma CopiesLength(t: Setting, st: Copy, m: Memory, w: nat)
    requires Copies(t, st, m, w)
    ensures |m| == |t.c.m|
  {
    hide *;
    CopiesParts(t, st, m, w);
  }

  // foreachGlobalObjptr with the forwarding closure.
  method ForwardRoots(s: GCState, back: nat, minor: bool, from: nat, to: nat, currentStack: nat, roots: seq<nat>,
          ghost t: Setting, ghost st0: Copy)
    returns (back': nat, ghost st: Copy)
    requires Running(s, t, from, to, minor, currentStack) && roots <= t.c.roots
    requires Copies(t, st0, s.mem[..], s.weaks) && back == st0.back && st0.r == 0 && st0.n == 0 && st0.k == 0
    modifies s.mem, s`weaks
    ensures Copies(t, st, s.mem[..], s.weaks) && back' == st.back && st.r == |roots| && st.n == 0 && st.k == 0
  {
    hide *;
    back', st := back, st0;
    for i := 0 to |roots|
      invariant Running(s, t, from, to, minor, currentStack)
      invariant Copies(t, st, s.mem[..], s.weaks) && back' == st.back && st.r == i && st.n == 0 && st.k == 0
    {
      RunningParts(s, t, from, to, minor, currentStack);
      assert roots[i] == t.c.roots[i];
      RootWordIs(t, st, s.mem[..], s.weaks);
      ghost var v := s.mem[roots[i]];
      ghost var st1, m1;
      back', st1, m1 := ForwardIfInRange(s, roots[i], back', minor, from, to, currentStack, t, st, v);
      GrownIs(st, st1);
      RootWordIs(t, st1, m1, s.weaks);
      RunningStays(s, t, from, to, minor, currentStack);
      RootKeeps(t, st1, m1, s.weaks, s.mem[..]);
      NextRootSame(t, st1);
      st := NextRootDone(st1);
    }
  }

  lemma RunningStays(s: GCState, t: Setting, from: nat, to: nat, minor: bool, currentStack: nat)
    requires Running(s, t, from, to, minor, currentStack)
    ensures s.mem.Length == |t.c.m|
  {
  }

  // The slots of one copied object.
  method ScanSlotsOf(s: GCState, slots: seq<nat>, back: nat, minor: bool, from: nat, to: nat, currentStack: nat,
          ghost t: Setting, ghost st0: Copy)
    returns (back': nat, ghost st: Copy)
    requires Running(s, t, from, to, minor, currentStack)
    requires Copies(t, st0, s.mem[..], s.weaks) && back == st0.back && st0.k == 0 && st0.n < |st0.order|
    requires slots == Strong(t.c.env, PreObj(Now(t, st0), st0.order[st0.n]))
    modifies s.mem, s`weaks
    ensures Copies(t, st, s.mem[..], s.weaks) && back' == st.back && st.r == st0.r && st.n == st0.n < |st.order| &&
      back <= back'
    ensures st.k == |Strong(t.c.env, At(t.c.H, st.order[st.n]))|
    ensures PreObj(Now(t, st), st.order[st.n]) == PreObj(Now(t, st0), st0.order[st0.n])
  {
    hide *;
    back', st := back, st0;
    for i := 0 to |slots|
      invariant Running(s, t, from, to, minor, currentStack)
      invariant Copies(t, st, s.mem[..], s.weaks) && back' == st.back && st.r == st0.r && st.n == st0.n < |st.order| &&
        st.k == i && back <= back'
      invariant PreObj(Now(t, st), st.order[st.n]) == PreObj(Now(t, st0), st0.order[st0.n])
    {
      ghost var m, w := s.mem[..], s.weaks;
      ScanSlots(t, st, m, w, i);
      AtSlotIntro(t, st, m, w);
      ScanSlot(t, st, m, w);
      SlotReached(t, st, m, w);
      RunningParts(s, t, from, to, minor, currentStack);
      ghost var v := s.mem[slots[i]];
      WordAtIs(t.c.m, OldSlot(t, st));
      ghost var st1, m1;
      back', st1, m1 := ForwardIfInRange(s, slots[i], back', minor, from, to, currentStack, t, st, v);
      GrownIs(st, st1);
      GrownSlot(t, st, st1, m, w, m1, s.weaks);
      SameHead(t, st, st1);
      SlotKeeps(t, st1, m1, s.weaks, s.mem[..]);
      NextSlotSame(t, st1);
      st := NextSlot(st1);
    }
    ScanSlots(t, st, s.mem[..], s.weaks, 0);
  }

  lemma AtSlotIntro(t: Setting, st: Copy, m: Memory, w: nat)
    requires Copies(t, st, m, w) && st.n < |st.order| && st.k < |Strong(t.c.env, At(t.c.H, st.order[st.n]))|
    ensures AtSlot(t, st, m, w)
  {
    hide Copies, Strong;
  }

  lemma HeaderOf(env: Env, m: Memory, o: Obj)
    requires IsO(env, m, o)
    ensures 0 < o.front < o.p <= o.end <= |m| && m[o.p - 1].Header? && m[o.p - 1].ty == o.ty && ValidEnv(env)
    ensures IsObject(env, m[o.p - 1 := m[o.p - 1]], o)
    ensures o.p == o.front + MetaWords(TagOf(env, o))
  {
    hide ValidEnv;
    assert m[o.p - 1 := m[o.p - 1]] == m;
  }

  lemma FrontWordIs(env: Env, m: Memory, o: Obj)
    requires IsO(env, m, o) && Clean(env, m, o)
    ensures StartWord(env, m, o)
  {
    hide ValidEnv, SlotsOf, DataWords, SizeFieldsOk;
  }

  // foreachObjptrInRange: scan up to the end of the copied objects, which moves
  // while the scan goes on.
  method ScanRange(s: GCState, toStart: nat, back: nat, minor: bool, from: nat, to: nat, currentStack: nat,
          ghost t: Setting, ghost st0: Copy)
    returns (back': nat, ghost st: Copy)
    requires Running(s, t, from, to, minor, currentStack) && toStart == t.toStart
    requires Copies(t, st0, s.mem[..], s.weaks) && back == st0.back && st0.k == 0 && st0.n == 0
    modifies s.mem, s`weaks
    ensures Copies(t, st, s.mem[..], s.weaks) && back' == st.back && st.r == st0.r && st.n == |st.order| && st.k == 0
  {
    hide *;
    back', st := back, st0;
    ScanStart(t, st, s.mem[..], s.weaks);
    ScanDone(t, st, s.mem[..], s.weaks);
    var front, b := toStart, back;
    while front < b
      invariant Running(s, t, from, to, minor, currentStack)
      invariant Copies(t, st, s.mem[..], s.weaks) && back' == st.back && st.r == st0.r && st.k == 0 &&
        st.n <= |st.order|
      invariant front == ScanFront(t, st) && b == st.back && front <= s.mem.Length
      decreases s.mem.Length - front
    {
      ghost var front0 := front;
      while front < b
        invariant Running(s, t, from, to, minor, currentStack)
        invariant Copies(t, st, s.mem[..], s.weaks) && back' == st.back && st.r == st0.r && st.k == 0 &&
          st.n <= |st.order|
        invariant front == ScanFront(t, st) && b <= st.back && front <= s.mem.Length
        invariant front > front0 || (front == front0 && front < b)
        decreases s.mem.Length - front
      {
        ghost var m, w := s.mem[..], s.weaks;
        ScanDone(t, st, m, w);
        ScanStep(t, st, m, w);
        ScanObject(t, st, m, w);
        ghost var n := PreObj(Now(t, st), st.order[st.n]);
        RunningParts(s, t, from, to, minor, currentStack);
        HeaderOf(s.env, m, n);
        FrontWordIs(s.env, m, n);
        var d := AdvanceToObjectData(s, front, n);
        var metaDataBytes, objectBytes := SizeofObjectAux(s, d, s.mem[d - 1], n);
        var slots := ObjectSlots(s, d, true, n);
        back', st := ScanSlotsOf(s, slots, back', minor, from, to, currentStack, t, st);
        ScanStep(t, st, s.mem[..], s.weaks);
        NextObjectKeeps(t, st, s.mem[..], s.weaks);
        NextObjectSame(t, st);
        st := NextObject(st);
        ScanDone(t, st, s.mem[..], s.weaks);
        front := d + objectBytes / 8;
      }
      b := back';
      ScanDone(t, st, s.mem[..], s.weaks);
    }
    ScanDone(t, st, s.mem[..], s.weaks);
  }
}
