// forwardObjptr: copy the target of a slot unless it was copied before, and
// redirect the slot.

module Forward {
  import opened Layout
  import opened Graph
  import opened Heap
  import opened State
  import opened MemoryCopy
  import opened StackSize
  import opened StackObject
  import opened CopySizes
  import opened Relocate
  import opened Cursor
  import opened DfsInvariant
  import opened DfsMark
  import opened Roots
  import opened Collection
  import opened Copying
  import opened CopyStep
  import opened CopyScan

  // The collector's state as a copy sees it: pointers from `from` up to `to`
  // are copied, and in a minor collection this range is the nursery.
  ghost predicate Running(s: GCState, t: Setting, from: nat, to: nat, minor: bool, currentStack: nat)
    reads s`nursery, s`frontier
  {
    && s.env == t.c.env && s.stackControls == t.c.k && currentStack == t.c.currentStack
    && t.c.sp == Spaces(from, to, from, to) && t.c.clearsForeign == !minor
    && s.mem.Length == |t.c.m|
    && (minor ==> from == s.nursery && to == s.frontier)
  }

  lemma RunningParts(s: GCState, t: Setting, from: nat, to: nat, minor: bool, currentStack: nat)
    requires Running(s, t, from, to, minor, currentStack)
    ensures s.env == t.c.env && s.stackControls == t.c.k && currentStack == t.c.currentStack
    ensures t.c.clearsForeign == !minor && s.mem.Length == |t.c.m| && (minor ==> from == s.nursery && to == s.frontier)
    ensures forall a: nat :: InSpaces(t.c.sp, a) <==> from <= a <= to
  {
  }

  // ------------------------------------------------------------ the copied words

  function Sized(t: Setting, p: nat, m: Memory): (m': Memory)
    ensures |m'| == |m|
  {
    if IsStack(t.c.env, At(t.c.H, p)) && p + 2 < |m| then m[p + 2 := Bits(Reserved(t, p))] else m
  }

  function Linked(t: Setting, st: Copy, p: nat, m: Memory, w: nat): (m': Memory)
    ensures |m'| == |m|
  {
    if Listable(t.c, p) && NewAddress(t, st, p) < |m| then m[NewAddress(t, st, p) := Ptr(w)] else m
  }

  function Headed(t: Setting, st: Copy, p: nat, m: Memory): (m': Memory)
    ensures |m'| == |m|
  {
    if 0 < p <= |m| then m[p - 1 := Ptr(NewAddress(t, st, p))] else m
  }

  function CopyMem(t: Setting, st: Copy, p: nat, m: Memory): (m': Memory)
    ensures |m'| == |m|
  {
    var o := At(t.c.H, p);
    Copied(Sized(t, p, m), o.front, st.back,
      if o.front <= CopiedEnd(t.c.env, t.c.m, o) then CopiedEnd(t.c.env, t.c.m, o) - o.front else 0)
  }

  // Outside the new object and two words of the old one nothing changes.
  lemma StepOther(t: Setting, st: Copy, m: Memory, w: nat, p: nat, a: nat)
    requires CanCopy(t, st, m, w, p) && a < |m| && !Changed(t, st, p, a)
    ensures Headed(t, st, p, Linked(t, st, p, CopyMem(t, st, p, m), w))[a] == m[a]
  {
    hide *;
    CopyShape(t, st, m, w, p);
    CanCopyParts(t, st, m, w, p);
    ChangedIs(t, st, p, a);
    CopiesParts(t, st, m, w);
    SettingParts(t);
    if Listable(t.c, p) { ListableShape(t.c, p); NoSavings(t.c.env, t.c.k, t.c.m, t.c.currentStack, t.c.H[p]); }
    OtherWords(t, st, m, w, p, a);
  }

  lemma OtherWords(t: Setting, st: Copy, m: Memory, w: nat, p: nat, a: nat)
    requires p in t.c.H && a < |m| && 0 < p <= |m|
    requires var o := t.c.H[p];
      && o.p == p && o.front < p <= CopiedEnd(t.c.env, t.c.m, o) <= |m|
      && NewAddress(t, st, p) == st.back + p - o.front &&
         CopiedEnd(t.c.env, t.c.m, o) + NewAddress(t, st, p) - p <= NewBack(t, st, p) <= |m|
    requires NewAddress(t, st, p) < NewBack(t, st, p) || !Listable(t.c, p)
    requires !(st.back <= a < NewBack(t, st, p)) && a + 1 != p && !(IsStack(t.c.env, t.c.H[p]) && a == p + 2)
    ensures Headed(t, st, p, Linked(t, st, p, CopyMem(t, st, p, m), w))[a] == m[a]
  {
    hide NewAddress, NewBack, Listable, Reserved, CopiedEnd, IsStack, Copied;
    var o := t.c.H[p];
    CopiedAt(Sized(t, p, m), o.front, st.back, CopiedEnd(t.c.env, t.c.m, o) - o.front, a);
  }

  // The copied words, but for the size of a stack and the link of a weak object.
  lemma CopiedWords(t: Setting, st: Copy, m: Memory, w: nat, p: nat, a: nat)
    requires p in t.c.H && 0 < p <= |m|
    requires var o := t.c.H[p];
      && o.p == p && o.front < p <= CopiedEnd(t.c.env, t.c.m, o) <= |m| && o.front <= a < CopiedEnd(t.c.env, t.c.m, o)
      && NewAddress(t, st, p) == st.back + p - o.front && CopiedEnd(t.c.env, t.c.m, o) + NewAddress(t, st, p) - p <= |m|
      && (p - 1 < st.back || p - 1 >= CopiedEnd(t.c.env, t.c.m, o) + NewAddress(t, st, p) - p)
    ensures var d, m' := NewAddress(t, st, p), Headed(t, st, p, Linked(t, st, p, CopyMem(t, st, p, m), w));
      && 0 <= a + d - p < |m|
      && (!Adjusted(t, p, a) ==> m'[a + d - p] == m[a])
      && (IsStack(t.c.env, t.c.H[p]) && a == p + 2 && !Listable(t.c, p) ==> m'[d + 2] == Bits(Reserved(t, p)))
  {
    hide NewAddress, Listable, Reserved, CopiedEnd, IsStack, Copied;
    var o, d := t.c.H[p], NewAddress(t, st, p);
    CopiedAt(Sized(t, p, m), o.front, st.back, CopiedEnd(t.c.env, t.c.m, o) - o.front, a + d - p);
  }

  lemma HeadWord(t: Setting, st: Copy, m: Memory, w: nat, p: nat)
    requires 0 < p <= |m|
    ensures Headed(t, st, p, Linked(t, st, p, CopyMem(t, st, p, m), w))[p - 1] == Ptr(NewAddress(t, st, p))
    ensures Listable(t.c, p) && NewAddress(t, st, p) < |m| && NewAddress(t, st, p) + 1 != p ==>
      Headed(t, st, p, Linked(t, st, p, CopyMem(t, st, p, m), w))[NewAddress(t, st, p)] == Ptr(w)
  {
    hide NewAddress, Listable, CopyMem;
  }

  lemma CopyForwards(t: Setting, st: Copy, m: Memory, w: nat, p: nat)
    requires CanCopy(t, st, m, w, p)
    ensures Forwarded(t, st, p, m, w, Headed(t, st, p, Linked(t, st, p, CopyMem(t, st, p, m), w)),
                      if Listable(t.c, p) then NewAddress(t, st, p) else w)
  {
    hide *;
    CopyShape(t, st, m, w, p);
    CanCopyParts(t, st, m, w, p);
    CopiesParts(t, st, m, w);
    SettingParts(t);
    HeapParts(t.c);
    var o, d := t.c.H[p], NewAddress(t, st, p);
    var m' := Headed(t, st, p, Linked(t, st, p, CopyMem(t, st, p, m), w));
    HeadWord(t, st, m, w, p);
    forall a: nat | a < |m| && !Changed(t, st, p, a)
      ensures m'[a] == m[a]
    {
      StepOther(t, st, m, w, p, a);
    }
    forall a: nat | o.front <= a < CopiedEnd(t.c.env, t.c.m, o) && p <= a + d < |m'| + p
      ensures Adjusted(t, p, a) || m'[a + d - p] == m[a]
    {
      CopiedWords(t, st, m, w, p, a);
    }
    if IsStack(t.c.env, o) {
      StackNotListable(t.c, p);
      CopiedWords(t, st, m, w, p, p + 2);
    }
    if Listable(t.c, p) { ListableShape(t.c, p); NoSavings(t.c.env, t.c.k, t.c.m, t.c.currentStack, o); }
    ForwardedIntro(t, st, p, m, w, m', if Listable(t.c, p) then d else w);
  }

  lemma StackNotListable(c: Collection, p: nat)
    requires p in c.H && IsStack(c.env, c.H[p])
    ensures !Listable(c, p)
  {
  }

  lemma ListableShape(c: Collection, p: nat)
    requires HeapOk(c) && p in c.H && Listable(c, p)
    ensures c.H[p].end == p + 2 && !IsStack(c.env, c.H[p])
  {
    hide *;
    ListableWeak(c, p);
    OldObject(c, p);
    WeakSlots(c.env, c.m, c.H[p]);
  }

  lemma ForwardedIntro(t: Setting, st: Copy, p: nat, m: Memory, w: nat, m': Memory, w': nat)
    requires p in t.c.H && |m'| == |m|
    requires var o, d := t.c.H[p], NewAddress(t, st, p);
      && (forall a: nat :: a < |m| && !Changed(t, st, p, a) ==> m'[a] == m[a])
      && 0 < p <= |m'| && m'[p - 1] == Ptr(d)
      && (forall a: nat :: o.front <= a < CopiedEnd(t.c.env, t.c.m, o) && p <= a + d < |m'| + p ==>
            Adjusted(t, p, a) || (a < |m| && m'[a + d - p] == m[a]))
      && (IsStack(t.c.env, o) ==> d + 2 < |m'| && m'[d + 2] == Bits(Reserved(t, p)))
      && (Listable(t.c, p) ==> d < |m'| && m'[d] == Ptr(w))
      && w' == (if Listable(t.c, p) then d else w)
    ensures Forwarded(t, st, p, m, w, m', w')
  {
    hide Changed, NewAddress, CopiedEnd, Listable, Reserved, Adjusted, IsStack;
  }

  // ----------------------------------------------------------------- what is read

  // An object not copied yet is as it was, so its sizes can be read.
  lemma FromObject(t: Setting, st: Copy, m: Memory, w: nat, p: nat)
    requires CanCopy(t, st, m, w, p)
    ensures p in t.c.H && 0 < p <= |m| && IsO(t.c.env, m, t.c.H[p]) && FramesBounded(t.c.env, t.c.k)
    ensures IsStack(t.c.env, t.c.H[p]) ==>
      && StackInfoOf(t.c.env, m, p) == StackInfoOf(t.c.env, t.c.m, p)
      && p + 4 <= |m| && m[p + 2] == Bits(StackInfoOf(t.c.env, t.c.m, p).reserved)
      && Reserved(t, p) <= StackInfoOf(t.c.env, t.c.m, p).reserved
    ensures p + 1 < |m| && p + 1 < t.c.H[p].end ==> m[p + 1] == t.c.m[p + 1]
  {
    hide *;
    CanCopyParts(t, st, m, w, p);
    CopiesParts(t, st, m, w);
    SettingParts(t);
    HeapParts(t.c);
    OldObject(t.c, p);
    CopyShape(t, st, m, w, p);
    NumbersAre(t, st, p);
    var o := t.c.H[p];
    forall a: nat | o.front <= a < o.end
      ensures a < |m| && m[a] == t.c.m[a]
    {
      UntouchedAt(t, st, m, p, a);
    }
    SameObject(t.c.env, t.c.m, m, o);
    IsOIntroOf(t.c.env, m, o);
    if IsStack(t.c.env, o) {
      StackFields(t.c.env, t.c.k, t.c.m, o, t.c.currentStack);
      StackSlotsHigh(t.c.env, t.c.m, o);
      var used := StackInfoOf(t.c.env, t.c.m, p).used;
      if used > 0 { TopNotSlot(t.c.env, t.c.m, o); }
      SameStackInfo(t.c.env, t.c.m, m, p);
    }
  }

  lemma SizedIs(t: Setting, p: nat, m: Memory)
    requires p in t.c.H
    ensures IsStack(t.c.env, t.c.H[p]) && p + 2 < |m| ==> Sized(t, p, m) == m[p + 2 := Bits(Reserved(t, p))]
    ensures IsStack(t.c.env, t.c.H[p]) && p + 2 < |m| && m[p + 2] == Bits(Reserved(t, p)) ==> Sized(t, p, m) == m
    ensures !IsStack(t.c.env, t.c.H[p]) ==> Sized(t, p, m) == m
  {
    hide IsStack, Reserved;
    if IsStack(t.c.env, t.c.H[p]) && p + 2 < |m| && m[p + 2] == Bits(Reserved(t, p)) {
      assert m[p + 2 := m[p + 2]] == m;
    }
  }

  lemma CopyMemIs(t: Setting, st: Copy, p: nat, m: Memory)
    requires p in t.c.H && t.c.H[p].front <= CopiedEnd(t.c.env, t.c.m, t.c.H[p])
    ensures CopyMem(t, st, p, m) ==
      Copied(Sized(t, p, m), t.c.H[p].front, st.back, CopiedEnd(t.c.env, t.c.m, t.c.H[p]) - t.c.H[p].front)
    ensures |CopyMem(t, st, p, m)| == |m|
  {
    hide Sized, CopiedEnd;
  }

  lemma LinkedIs(t: Setting, st: Copy, p: nat, m: Memory, w: nat)
    ensures Listable(t.c, p) && NewAddress(t, st, p) < |m| ==>
      Linked(t, st, p, m, w) == m[NewAddress(t, st, p) := Ptr(w)]
    ensures !Listable(t.c, p) ==> Linked(t, st, p, m, w) == m
    ensures 0 < p <= |m| ==> Headed(t, st, p, m) == m[p - 1 := Ptr(NewAddress(t, st, p))]
  {
    hide Listable, NewAddress;
  }

  // The test for the weak list, on the copy.
  lemma ListTest(t: Setting, st: Copy, m: Memory, w: nat, p: nat)
    requires CanCopy(t, st, m, w, p)
    ensures var o, d := t.c.H[p], NewAddress(t, st, p);
      && o.ty < |t.c.env.types| && ValidEnv(t.c.env)
      && (IsWeak(t.c.env, o) <==> t.c.env.types[o.ty].tag == WeakTag)
      && (IsStack(t.c.env, o) <==> t.c.env.types[o.ty].tag == StackTag)
      && (IsWeak(t.c.env, o) && t.c.env.types[o.ty].numObjptrs == 1 ==>
            && d + 1 < |m| && CopyMem(t, st, p, m)[d + 1] == t.c.m[p + 1] && p + 1 < |t.c.m|
            && (Listable(t.c, p) <==> t.c.m[p + 1].Ptr? && (t.c.clearsForeign || InSpaces(t.c.sp, t.c.m[p + 1].addr))))
      && (Listable(t.c, p) ==> IsWeak(t.c.env, o) && t.c.env.types[o.ty].numObjptrs == 1)
  {
    hide *;
    CanCopyParts(t, st, m, w, p);
    CopiesParts(t, st, m, w);
    SettingParts(t);
    HeapParts(t.c);
    OldObject(t.c, p);
    CopyShape(t, st, m, w, p);
    FromObject(t, st, m, w, p);
    var o := t.c.H[p];
    TagsAre(t.c.env, o);
    WeakTypes(t.c.env, t.c.m, o);
    ListableIs(t.c, p);
    if IsWeak(t.c.env, o) {
      WeakSlots(t.c.env, t.c.m, o);
      NoSavings(t.c.env, t.c.k, t.c.m, t.c.currentStack, o);
      CopyMemWord(t, st, m, p, p + 1);
    }
  }

  lemma TagsAre(env: Env, o: Obj)
    requires o.ty < |env.types|
    ensures IsWeak(env, o) <==> env.types[o.ty].tag == WeakTag
    ensures IsStack(env, o) <==> env.types[o.ty].tag == StackTag
  {
  }

  lemma WeakTypes(env: Env, m: Memory, o: Obj)
    requires ValidEnv(env) && IsObject(env, m, o)
    ensures IsWeak(env, o) ==> |o.slots| == env.types[o.ty].numObjptrs
  {
    assert ValidType(env.types[o.ty]);
  }

  lemma ListableIs(c: Collection, p: nat)
    requires p in c.H
    ensures Listable(c, p) ==> IsWeak(c.env, c.H[p]) && |c.H[p].slots| == 1
    ensures IsWeak(c.env, c.H[p]) && c.H[p].slots == [p + 1] && p + 1 < |c.m| ==>
      (Listable(c, p) <==> c.m[p + 1].Ptr? && (c.clearsForeign || InSpaces(c.sp, c.m[p + 1].addr)))
  {
    hide IsWeak, InSpaces;
  }

  lemma CopyMemWord(t: Setting, st: Copy, m: Memory, p: nat, a: nat)
    requires p in t.c.H && 0 < p <= |m|
    requires var o := t.c.H[p];
      && o.p == p && o.front < p <= CopiedEnd(t.c.env, t.c.m, o) <= |m| && o.front <= a < CopiedEnd(t.c.env, t.c.m, o)
      && NewAddress(t, st, p) == st.back + p - o.front && CopiedEnd(t.c.env, t.c.m, o) + NewAddress(t, st, p) - p <= |m|
      && !IsStack(t.c.env, o)
    ensures 0 <= a + NewAddress(t, st, p) - p < |m| && CopyMem(t, st, p, m)[a + NewAddress(t, st, p) - p] == m[a]
  {
    hide NewAddress, Listable, Reserved, CopiedEnd, IsStack, Copied;
    var o, d := t.c.H[p], NewAddress(t, st, p);
    CopiedAt(Sized(t, p, m), o.front, st.back, CopiedEnd(t.c.env, t.c.m, o) - o.front, a + d - p);
  }

  // ---------------------------------------------------------------- the methods

  // The part of forwardObjptr that copies.
  method CopyObject(s: GCState, p: nat, back: nat, minor: bool, from: nat, to: nat, currentStack: nat, ghost t: Setting,
          ghost st: Copy)
    returns (back': nat)
    requires Running(s, t, from, to, minor, currentStack)
    requires CanCopy(t, st, s.mem[..], s.weaks, p) && back == st.back
    modifies s.mem, s`weaks
    ensures Copies(t, Extend(t, st, p), s.mem[..], s.weaks) && back' == Extend(t, st, p).back && back <= back'
  {
    hide *;
    ghost var m, w := s.mem[..], s.weaks;
    RunningParts(s, t, from, to, minor, currentStack);
    CanCopyParts(t, st, m, w, p);
    ghost var o := t.c.H[p];
    CopyShape(t, st, m, w, p);
    FromObject(t, st, m, w, p);
    NumbersAre(t, st, p);
    ListTest(t, st, m, w, p);
    var header := s.mem[p - 1];
    var objType := s.env.types[header.ty];
    var metaData, size, skipFront, skipGap, reservedNew := SizesToCopy(s, p, header, currentStack, t.c.m, o);
    if objType.tag == StackTag && reservedNew < s.mem[p + 2].val {
      s.Store(p + 2, Bits(reservedNew));
    }
    SizedIs(t, p, m);
    CopyMemIs(t, st, p, m);
    MoveWords(s, p - metaData, back, size);
    ghost var m2 := s.mem[..];
    LinkedIs(t, st, p, m2, w);
    var d := back + metaData;
    if objType.tag == WeakTag && objType.numObjptrs == 1 {
      var target := s.mem[d + 1];
      if target.Ptr? && (!minor || s.nursery <= target.addr <= s.frontier) {
        s.Store(d, Ptr(s.weaks));
        s.weaks := d;
      }
    }
    ghost var m3 := s.mem[..];
    assert m3 == Linked(t, st, p, m2, w);
    LinkedIs(t, st, p, m3, w);
    s.Store(p - 1, Ptr(d));
    back' := back + size + (skipFront - skipGap);
    ExtendFields(t, st, p);
    CopyForwards(t, st, m, w, p);
    CopyKeeps(t, st, m, w, p, s.mem[..], s.weaks);
  }
}
