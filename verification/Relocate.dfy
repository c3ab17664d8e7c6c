// Moving one object: the same words at another place are the same object.

module Relocate {
  import opened Layout
  import opened StackSize
  import opened StackObject

  function ToNat(x: int): nat { if x < 0 then 0 else x }

  // Slots, seen from data pointer d instead of p.
  function ShiftSlots(slots: seq<nat>, p: nat, d: nat): (s: seq<nat>)
    ensures |s| == |slots|
  {
    seq(|slots|, i requires 0 <= i < |slots| => ToNat(slots[i] + d - p))
  }

  // Object o at data pointer d, shorter by saved words.
  function Shift(o: Obj, d: nat, saved: nat): Obj {
    Obj(ToNat(o.front + d - o.p), d, ToNat(o.end + d - o.p - saved), o.ty, ShiftSlots(o.slots, o.p, d))
  }

  // The words of o that are neither slots nor changed by a collection.
  predicate Plain(env: Env, o: Obj, a: nat) {
    && a !in o.slots
    && a + 1 != o.p
    && !(IsStack(env, o) && (a == o.p || a == o.p + 1 || a == o.p + 2))
    && !(IsWeak(env, o) && a == o.p)
  }

  // The object at d in m' has the plain words of o in m.
  ghost predicate SameWords(env: Env, m: Memory, o: Obj, m': Memory, d: nat) {
    && o.p <= o.front + d
    && CopiedEnd(env, m, o) + d <= |m'| + o.p
    && forall a: nat ::
       o.front <= a < CopiedEnd(env, m, o) && Plain(env, o, a) && a < |m| && o.p <= a + d < |m'| + o.p ==>
         m'[a + d - o.p] == m[a]
  }

  lemma SameWordAt(env: Env, m: Memory, o: Obj, m': Memory, d: nat, a: nat)
    requires SameWords(env, m, o, m', d)
    requires o.front <= a < CopiedEnd(env, m, o) && Plain(env, o, a) && a < |m|
    ensures 0 <= a + d - o.p < |m'| && m'[a + d - o.p] == m[a]
  {
    hide CopiedEnd, Plain;
  }

  // ------------------------------------------------------------------ slots

  lemma ShiftAdd(a: seq<nat>, b: seq<nat>, p: nat, d: nat)
    ensures ShiftSlots(a + b, p, d) == ShiftSlots(a, p, d) + ShiftSlots(b, p, d)
  {
  }

  lemma ShiftNormal(a: nat, n: nat, p: nat, d: nat)
    requires p <= a + d
    ensures ShiftSlots(NormalSlots(a, n), p, d) == NormalSlots(a + d - p, n)
  {
  }

  lemma {:induction false} ShiftSeq(a: nat, len: nat, nonWords: nat, n: nat, p: nat, d: nat)
    requires p <= a + d
    ensures ShiftSlots(SeqSlots(a, len, nonWords, n), p, d) == SeqSlots(a + d - p, len, nonWords, n)
    decreases len
  {
    if len > 0 {
      ShiftSeq(a + nonWords + n, len - 1, nonWords, n, p, d);
      ShiftNormal(a + nonWords, n, p, d);
      ShiftAdd(NormalSlots(a + nonWords, n), SeqSlots(a + nonWords + n, len - 1, nonWords, n), p, d);
    }
  }

  lemma ShiftOffsets(base: nat, offsets: seq<nat>, p: nat, d: nat)
    requires p <= base + d
    ensures ShiftSlots(OffsetSlots(base, offsets), p, d) == OffsetSlots(base + d - p, offsets)
  {
  }

  // Frames with the same return addresses are the same frames.
  lemma {:induction false} ShiftFrames(env: Env, m: Memory, m': Memory, bottom: nat, top: nat, p: nat, d: nat)
    requires ValidEnv(env) && FramesOk(env, m, bottom, top) && p <= bottom && top + d <= |m'| + p
    requires forall a: nat :: bottom <= a < top && a !in FrameSlots(env, m, bottom, top) ==> m'[a + d - p] == m[a]
    ensures FramesOk(env, m', bottom + d - p, top + d - p)
    ensures FrameSlots(env, m', bottom + d - p, top + d - p) == ShiftSlots(FrameSlots(env, m, bottom, top), p, d)
    decreases top
  {
    hide ValidEnv, ValidFrame, OffsetSlots, ShiftSlots;
    if bottom < top {
      var fi := env.frames[m[top - 1].val];
      var rest := FrameSlots(env, m, bottom, top - fi.size);
      TopFrame(env, m, bottom, top);
      assert m'[top - 1 + d - p] == m[top - 1];
      forall a: nat | bottom <= a < top - fi.size && a !in rest
        ensures m'[a + d - p] == m[a]
      {
        OffsetsAbove(top - fi.size, fi.offsets, a);
      }
      ShiftFrames(env, m, m', bottom, top - fi.size, p, d);
      ShiftOffsets(top - fi.size, fi.offsets, p, d);
      ShiftAdd(OffsetSlots(top - fi.size, fi.offsets), rest, p, d);
    } else {
      NoShift(p, d);
    }
  }

  lemma NoShift(p: nat, d: nat)
    ensures ShiftSlots([], p, d) == []
  {
  }

  lemma OffsetsAbove(base: nat, offsets: seq<nat>, a: nat)
    requires a < base
    ensures a !in OffsetSlots(base, offsets)
  {
  }

  // ----------------------------------------------------------------- objects

  // What holds of the object at d when o was moved there.
  ghost predicate MovedTo(env: Env, k: StackControls, m: Memory, currentStack: nat, o: Obj, m': Memory, d: nat) {
    && SameWords(env, m, o, m', d)
    && 0 < d <= |m'| && m'[d - 1].Header? && m'[d - 1].ty == o.ty
    && o.p < o.front + d
    && (IsStack(env, o) ==>
          && d + 4 + ToNat(ReservedAfter(env, k, m, currentStack, o.p)) / 8 <= |m'|
          && m'[d + 2] == Bits(ReservedAfter(env, k, m, currentStack, o.p)))
  }

  lemma MovedStack(env: Env, k: StackControls, m: Memory, currentStack: nat, o: Obj, m': Memory, d: nat)
    requires ValidEnv(env) && IsObject(env, m, o) && FramesBounded(env, k) && IsStack(env, o)
    requires MovedTo(env, k, m, currentStack, o, m', d)
    ensures SizeFieldsOk(env, m', StackTag, d)
    ensures FrameSlots(env, m', d + 4, d + 4 + m'[d + 3].val / 8) == ShiftSlots(o.slots, o.p, d)
  {
    hide *;
    StackFields(env, k, m, o, currentStack);
    MovedBasics(env, k, m, currentStack, o, m', d);
    MovedSame(env, k, m, currentStack, o, m', d);
    StackFrames(env, m, o);
    var top := o.p + 4 + m[o.p + 3].val / 8;
    PlainInStack(env, m, o);
    SameWordAt(env, m, o, m', d, o.p + 3);
    forall a: nat | o.p + 4 <= a < top && a !in o.slots
      ensures m'[a + d - o.p] == m[a]
    {
      SameWordAt(env, m, o, m', d, a);
    }
    ShiftFrames(env, m, m', o.p + 4, top, o.p, d);
    StackSizesOk(env, m', d, ReservedAfter(env, k, m, currentStack, o.p));
  }

  lemma MovedSame(env: Env, k: StackControls, m: Memory, currentStack: nat, o: Obj, m': Memory, d: nat)
    requires MovedTo(env, k, m, currentStack, o, m', d)
    ensures SameWords(env, m, o, m', d)
  {
    hide SameWords, ReservedAfter, IsStack;
  }

  lemma StackFrames(env: Env, m: Memory, o: Obj)
    requires IsObject(env, m, o) && IsStack(env, o)
    ensures o.p + 4 <= |m| && Bytes(m[o.p + 2]) && Bytes(m[o.p + 3]) && m[o.p + 3].val <= m[o.p + 2].val
    ensures FramesOk(env, m, o.p + 4, o.p + 4 + m[o.p + 3].val / 8)
    ensures o.slots == FrameSlots(env, m, o.p + 4, o.p + 4 + m[o.p + 3].val / 8)
    ensures CopiedEnd(env, m, o) == o.p + 4 + m[o.p + 3].val / 8 && o.front < o.p && o.end <= |m| &&
      CopiedEnd(env, m, o) <= o.end
    ensures STACK_STRUCT_WORDS == 4
  {
    hide FramesOk, FrameSlots;
    assert SizeFieldsOk(env, m, StackTag, o.p);
  }

  lemma PlainInStack(env: Env, m: Memory, o: Obj)
    requires ValidEnv(env) && IsObject(env, m, o) && IsStack(env, o)
    ensures forall a: nat :: a >= o.p + 3 && a !in o.slots ==> Plain(env, o, a)
    ensures o.p + 3 !in o.slots
  {
    SlotsInside(env, m, o);
  }

  lemma StackSizesOk(env: Env, m: Memory, d: nat, reserved: int)
    requires 0 <= reserved && reserved % 8 == 0 && d + 4 <= |m| && m[d + 2] == Bits(reserved) && Bytes(m[d + 3]) &&
      m[d + 3].val <= reserved
    requires FramesOk(env, m, d + 4, d + 4 + m[d + 3].val / 8)
    ensures SizeFieldsOk(env, m, StackTag, d)
  {
    hide FramesOk;
  }

  lemma MovedSequence(env: Env, k: StackControls, m: Memory, currentStack: nat, o: Obj, m': Memory, d: nat)
    requires ValidEnv(env) && IsObject(env, m, o) && TagOf(env, o) == SequenceTag
    requires MovedTo(env, k, m, currentStack, o, m', d)
    ensures o.p == o.front + 3 && 3 <= d <= |m'| && m'[d - 2] == m[o.p - 2] && m'[d - 3] == m[o.p - 3]
    ensures o.end + d <= |m'| + o.p
  {
    SlotsInside(env, m, o);
    SameWordAt(env, m, o, m', d, o.p - 2);
    SameWordAt(env, m, o, m', d, o.p - 3);
  }

  lemma MovedSequenceSlots(env: Env, m: Memory, o: Obj, m': Memory, d: nat)
    requires ValidEnv(env) && IsObject(env, m, o) && TagOf(env, o) == SequenceTag
    requires 3 <= d <= |m'| && m'[d - 2] == m[o.p - 2] && m'[d - 3] == m[o.p - 3]
    ensures var t := env.types[o.ty];
      && SizeFieldsOk(env, m', t.tag, d)
      && SlotsOf(env, m', t, d) == ShiftSlots(o.slots, o.p, d)
      && DataWords(env, m', t, d) == o.end - o.p
  {
    var t := env.types[o.ty];
    if t.numObjptrs > 0 { ShiftSeq(o.p, m[o.p - 2].val, t.bytesNonObjptrs / 8, t.numObjptrs, o.p, d); }
  }

  lemma MovedObject(env: Env, k: StackControls, m: Memory, currentStack: nat, o: Obj, m': Memory, d: nat)
    requires ValidEnv(env) && IsObject(env, m, o) && FramesBounded(env, k)
    requires MovedTo(env, k, m, currentStack, o, m', d)
    ensures IsObject(env, m', Shift(o, d, WordsSaved(env, k, m, currentStack, o)))
  {
    hide MovedTo, FramesBounded, ReservedAfter, ValidEnv;
    MovedBasics(env, k, m, currentStack, o, m', d);
    CopyFits(env, k, m, o, currentStack);
    var t := env.types[o.ty];
    match t.tag
    case SequenceTag =>
      MovedSequence(env, k, m, currentStack, o, m', d);
      MovedSequenceSlots(env, m, o, m', d);
    case StackTag =>
      StackFields(env, k, m, o, currentStack);
      MovedStack(env, k, m, currentStack, o, m', d);
    case _ =>
      ShiftNormal(o.p + t.bytesNonObjptrs / 8, t.numObjptrs, o.p, d);
  }

  lemma MovedBasics(env: Env, k: StackControls, m: Memory, currentStack: nat, o: Obj, m': Memory, d: nat)
    requires MovedTo(env, k, m, currentStack, o, m', d)
    ensures 0 < d <= |m'| && m'[d - 1].Header? && m'[d - 1].ty == o.ty && o.p < o.front + d
    ensures CopiedEnd(env, m, o) + d <= |m'| + o.p
    ensures IsStack(env, o) ==>
          && d + 4 + ToNat(ReservedAfter(env, k, m, currentStack, o.p)) / 8 <= |m'|
          && m'[d + 2] == Bits(ReservedAfter(env, k, m, currentStack, o.p))
  {
    hide CopiedEnd, ReservedAfter, Plain;
  }
}
