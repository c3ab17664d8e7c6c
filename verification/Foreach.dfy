// foreachObjptrInObject: the walk over an object's pointer slots.

module Foreach {
  import opened Layout
  import opened Heap
  import opened State
  import opened Align
  import opened ObjectSize
  import opened Cursor

  lemma NormalSlotsAdd(a: nat, n: nat)
    ensures NormalSlots(a, n + 1) == NormalSlots(a, n) + [a + n]
  {
  }

  // Slots of the pointers at a, a + 1, ... below max.
  method PointerRun(a: nat, n: nat) returns (slots: seq<nat>)
    ensures slots == NormalSlots(a, n)
  {
    var p, max := a, a + n;
    slots := [];
    while p < max
      invariant a <= p <= max
      invariant slots == NormalSlots(a, p - a)
    {
      NormalSlotsAdd(a, p - a);
      slots := slots + [p];
      p := p + 1;
    }
  }

  lemma {:induction false} SeqSlotsAdd(p: nat, len: nat, nonWords: nat, n: nat)
    ensures 0 <= len * (nonWords + n)
    ensures SeqSlots(p, len + 1, nonWords, n)
         == SeqSlots(p, len, nonWords, n) + NormalSlots(p + len * (nonWords + n) + nonWords, n)
    decreases len
  {
    if len == 0 {
      assert SeqSlots(p + nonWords + n, 0, nonWords, n) == [];
    } else {
      SeqSlotsAdd(p + nonWords + n, len - 1, nonWords, n);
      assert len * (nonWords + n) == nonWords + n + (len - 1) * (nonWords + n);
    }
  }

  // The elements of a sequence, each with its non-pointers skipped.
  method ElementRuns(a: nat, len: nat, nonWords: nat, n: nat) returns (slots: seq<nat>)
    requires n > 0
    ensures slots == SeqSlots(a, len, nonWords, n)
  {
    var p, k := a, 0;
    slots := [];
    while k < len
      invariant 0 <= k <= len
      invariant p == a + k * (nonWords + n)
      invariant slots == SeqSlots(a, k, nonWords, n)
    {
      SeqSlotsAdd(a, k, nonWords, n);
      assert (k + 1) * (nonWords + n) == k * (nonWords + n) + nonWords + n;
      p := p + nonWords;
      var run := PointerRun(p, n);
      slots := slots + run;
      p := p + n;
      k := k + 1;
    }
  }

  // The slots of the frames above top, then those of the frame below it.
  lemma {:induction false} FrameStep(env: Env, m: Memory, bottom: nat, top: nat, done: seq<nat>, all: seq<nat>)
    requires ValidEnv(env) && FramesOk(env, m, bottom, top) && bottom < top
    requires done + FrameSlots(env, m, bottom, top) == all
    ensures 0 < top <= |m| && m[top - 1].Bits? && m[top - 1].val in env.frames
    ensures var fi := env.frames[m[top - 1].val];
      && 1 <= fi.size <= top - bottom
      && FramesOk(env, m, bottom, top - fi.size)
      && (done + OffsetSlots(top - fi.size, fi.offsets)) + FrameSlots(env, m, bottom, top - fi.size) == all
  {
  }

  // The frames of a stack, from the top down.
  method FrameRuns(s: GCState, bottom: nat, top0: nat) returns (slots: seq<nat>)
    requires ValidEnv(s.env) && FramesOk(s.env, s.mem[..], bottom, top0)
    ensures slots == FrameSlots(s.env, s.mem[..], bottom, top0)
  {
    hide FrameSlots, FramesOk, ValidEnv, OffsetSlots;
    var top: nat := top0;
    slots := [];
    ghost var all := FrameSlots(s.env, s.mem[..], bottom, top0);
    FrameBounds(s.env, s.mem[..], bottom, top);
    while top > bottom
      invariant bottom <= top
      invariant FramesOk(s.env, s.mem[..], bottom, top)
      invariant slots + FrameSlots(s.env, s.mem[..], bottom, top) == all
      decreases top
    {
      FrameStep(s.env, s.mem[..], bottom, top, slots, all);
      var fi := s.env.frames[s.mem[top - 1].val];
      top := top - fi.size;
      ghost var before := slots;
      var i := 0;
      while i < |fi.offsets|
        invariant 0 <= i <= |fi.offsets|
        invariant slots == before + OffsetSlots(top, fi.offsets[..i])
      {
        OffsetAdd(top, fi.offsets, i);
        slots := slots + [top + fi.offsets[i]];
        i := i + 1;
      }
      assert fi.offsets[..i] == fi.offsets;
    }
    NoFrames(s.env, s.mem[..], bottom);
  }

  lemma OffsetAdd(base: nat, offsets: seq<nat>, i: nat)
    requires i < |offsets|
    ensures OffsetSlots(base, offsets[..i + 1]) == OffsetSlots(base, offsets[..i]) + [base + offsets[i]]
    ensures OffsetSlots(base, offsets[..0]) == []
  {
  }

  lemma FrameBounds(env: Env, m: Memory, bottom: nat, top: nat)
    requires FramesOk(env, m, bottom, top)
    ensures bottom <= top <= |m|
  {
  }

  lemma NoFrames(env: Env, m: Memory, bottom: nat)
    requires FramesOk(env, m, bottom, bottom)
    ensures FrameSlots(env, m, bottom, bottom) == []
  {
  }

  // The slots to which foreachObjptrInObject applies its closure, in order.
  method ObjectSlots(s: GCState, p: nat, skipWeaks: bool, ghost o: Obj) returns (slots: seq<nat>)
    requires IsO(s.env, s.mem[..], o) && o.p == p
    ensures slots == if skipWeaks then Strong(s.env, o) else o.slots
  {
    var t := s.env.types[s.mem[p - 1].ty];
    assert ValidType(t);
    match t.tag {
      case NormalTag =>
        slots := PointerRun(p + t.bytesNonObjptrs / 8, t.numObjptrs);
      case WeakTag =>
        slots := [];
        if t.numObjptrs == 1 && !skipWeaks {
          slots := PointerRun(p + t.bytesNonObjptrs / 8, 1);
        }
      case SequenceTag =>
        slots := [];
        if t.numObjptrs != 0 {
          slots := ElementRuns(p, s.mem[p - 2].val, t.bytesNonObjptrs / 8, t.numObjptrs);
        }
      case StackTag =>
        slots := FrameRuns(s, p + STACK_STRUCT_WORDS, p + STACK_STRUCT_WORDS + s.mem[p + 3].val / 8);
    }
  }
}
