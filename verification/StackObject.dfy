// A stack object's sizes, what a collection does to them, and objects that keep
// their words.

module StackObject {
  import opened Layout
  import opened StackSize

  function SizeWord(m: Memory, a: nat): nat {
    if a < |m| && NonNeg(m[a]) then m[a].val else 0
  }

  function FrameBytes(env: Env, m: Memory, top: nat): nat {
    if 0 < top <= |m| && m[top - 1].Bits? && m[top - 1].val in env.frames then 8 * env.frames[m[top - 1].val].size
      else 0
  }

  // The sizes that sizeofStackShrinkReserved reads from a stack object.
  function StackInfoOf(env: Env, m: Memory, p: nat): StackInfo {
    var used := SizeWord(m, p + 3);
    StackInfo(SizeWord(m, p + 2), used, if used == 0 then 0 else FrameBytes(env, m, p + STACK_STRUCT_WORDS + used / 8))
  }

  // The reserved size of the stack at p after a collection.
  function ReservedAfter(env: Env, k: StackControls, m: Memory, currentStack: nat, p: nat): int {
    ShrinkReserved(k, StackInfoOf(env, m, p), p == currentStack)
  }

  // Words by which object o gets shorter.
  function WordsSaved(env: Env, k: StackControls, m: Memory, currentStack: nat, o: Obj): nat {
    if IsStack(env, o) && ReservedAfter(env, k, m, currentStack, o.p) <= SizeWord(m, o.p + 2)
    then (SizeWord(m, o.p + 2) - ReservedAfter(env, k, m, currentStack, o.p)) / 8 else 0
  }

  // The word after the part of object o that is copied.
  function CopiedEnd(env: Env, m: Memory, o: Obj): nat {
    if IsStack(env, o) then o.p + STACK_STRUCT_WORDS + SizeWord(m, o.p + 3) / 8 else o.end
  }

  predicate FramesBounded(env: Env, k: StackControls) {
    forall ra :: ra in env.frames ==> 8 * env.frames[ra].size <= k.maxFrameSize
  }

  lemma StackFields(env: Env, k: StackControls, m: Memory, o: Obj, currentStack: nat)
    requires ValidEnv(env) && IsObject(env, m, o) && IsStack(env, o) && FramesBounded(env, k)
    ensures var info := StackInfoOf(env, m, o.p);
      && o.end == o.p + STACK_STRUCT_WORDS + info.reserved / 8 <= |m|
      && info.used <= ReservedAfter(env, k, m, currentStack, o.p) <= info.reserved
      && ReservedAfter(env, k, m, currentStack, o.p) % 8 == 0 && info.used % 8 == 0 && info.reserved % 8 == 0
      && m[o.p + 2] == Bits(info.reserved) && m[o.p + 3] == Bits(info.used)
  {
    hide ShrinkReserved;
    ShrinkFits(k, StackInfoOf(env, m, o.p), o.p == currentStack);
  }

  // The copied part of an object and what it keeps after it fit in the object.
  lemma CopyFits(env: Env, k: StackControls, m: Memory, o: Obj, currentStack: nat)
    requires ValidEnv(env) && IsObject(env, m, o) && FramesBounded(env, k)
    ensures o.front < o.p <= CopiedEnd(env, m, o) <= o.end - WordsSaved(env, k, m, currentStack, o)
    ensures IsStack(env, o) ==>
      && o.p + STACK_STRUCT_WORDS <= CopiedEnd(env, m, o)
      && o.end - WordsSaved(env, k, m, currentStack, o)
      == o.p + STACK_STRUCT_WORDS + ReservedAfter(env, k, m, currentStack, o.p) / 8
  {
    hide ReservedAfter, ValidEnv, FramesBounded, IsObject;
    ExtentOf(env, m, o);
    if IsStack(env, o) { StackFields(env, k, m, o, currentStack); }
  }

  lemma ExtentOf(env: Env, m: Memory, o: Obj)
    requires IsObject(env, m, o)
    ensures o.front < o.p <= o.end
  {
  }

  // ------------------------------------------------------ objects left alone

  lemma SameObject(env: Env, m: Memory, m': Memory, o: Obj)
    requires ValidEnv(env) && IsObject(env, m, o) && |m'| == |m|
    requires forall a :: o.front <= a < o.end ==> m'[a] == m[a]
    requires m'[o.p - 1] == m[o.p - 1]
    ensures IsObject(env, m', o)
  {
    assert TagOf(env, o) == SequenceTag ==> m[o.front].Bits? && o.front < o.end;
    ObjectStable(env, m, m', o);
  }

  // The word with the return address of the top frame is no slot.
  lemma TopNotSlot(env: Env, m: Memory, o: Obj)
    requires ValidEnv(env) && IsObject(env, m, o) && IsStack(env, o) && m[o.p + 3].val > 0
    ensures o.p + 4 + m[o.p + 3].val / 8 - 1 !in o.slots && m[o.p + 3].val / 8 >= 1
    ensures o.p + 4 + m[o.p + 3].val / 8 <= o.end
    ensures o.p + 2 !in o.slots && o.p + 3 !in o.slots
  {
    var bottom := o.p + 4;
    var top := bottom + m[o.p + 3].val / 8;
    SlotsInside(env, m, o);
    assert SizeFieldsOk(env, m, StackTag, o.p);
    assert o.slots == FrameSlots(env, m, bottom, top);
    TopFrame(env, m, bottom, top);
  }

  lemma TopFrame(env: Env, m: Memory, bottom: nat, top: nat)
    requires ValidEnv(env) && FramesOk(env, m, bottom, top) && bottom < top
    ensures top - 1 !in FrameSlots(env, m, bottom, top)
  {
    var fi := env.frames[m[top - 1].val];
    assert ValidFrame(fi);
    FrameSlotsInside(env, m, bottom, top - fi.size);
    assert top - 1 !in OffsetSlots(top - fi.size, fi.offsets);
  }

  lemma StackSlotsHigh(env: Env, m: Memory, o: Obj)
    requires ValidEnv(env) && IsObject(env, m, o) && IsStack(env, o)
    ensures o.p + 2 !in o.slots && o.p + 3 !in o.slots && o.p + 4 <= o.end
  {
    SlotsInside(env, m, o);
  }

  lemma SameStackInfo(env: Env, m: Memory, m': Memory, p: nat)
    requires p + 4 <= |m| == |m'| && m'[p + 2] == m[p + 2] && m'[p + 3] == m[p + 3]
    requires var top := p + 4 + StackInfoOf(env, m, p).used / 8;
      StackInfoOf(env, m, p).used > 0 ==> 0 < top <= |m| && m'[top - 1] == m[top - 1]
    ensures StackInfoOf(env, m', p) == StackInfoOf(env, m, p) && SizeWord(m', p + 2) == SizeWord(m, p + 2)
  {
    hide NonNeg;
  }
}
