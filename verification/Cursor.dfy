// Walking the pointer slots of one object with an interruptible cursor.
// dfsMark parks the position of a half-marked object in the object itself: in
// the header's counter bits, the sequence counter, or markTop and markIndex.

module Cursor {
  import opened Layout
  import opened Heap
  import opened State

  datatype Cursor =
    | NormalCursor(todo: nat, objptrIndex: nat)
    | SequenceCursor(todo: nat, sequenceIndex: nat, objptrIndex: nat)
    | StackCursor(todo: nat, top: nat, objptrIndex: nat)
    | Finished

  // Memory m still has the size fields and frames that m0 has for object o.
  ghost predicate FixedWords(env: Env, m0: Memory, m: Memory, o: Obj) {
    && |m| == |m0|
    && o.end <= |m|
    && forall a :: o.front <= a < o.end && a !in o.slots && !Scratch(env, o, a) ==> m[a] == m0[a]
  }

  // Marking object o ever parks an index in its header or sequence counter.
  predicate HasCounters(env: Env, o: Obj) {
    (TagOf(env, o) == NormalTag || TagOf(env, o) == SequenceTag) && |o.slots| > 0
  }

  // No position is parked in o.
  predicate Clean(env: Env, m: Memory, o: Obj) {
    && 0 < o.front < o.p <= |m|
    && m[o.p - 1].Header? && m[o.p - 1].counter == 0
    && (TagOf(env, o) == SequenceTag ==> m[o.front] == Bits(0))
  }

  // m and m' differ in scratch words of o at most, and those keep their kind.
  ghost predicate ScratchOnly(env: Env, o: Obj, m: Memory, m': Memory) {
    && 0 < o.front < o.p <= |m|
    && |m'| == |m|
    && (forall a :: 0 <= a < |m| && !Scratch(env, o, a) ==> m'[a] == m[a])
    && (m[o.p - 1].Header? ==>
          m'[o.p - 1].Header? && m'[o.p - 1].ty == m[o.p - 1].ty && m'[o.p - 1].mark == m[o.p - 1].mark)
    && (TagOf(env, o) == SequenceTag && m[o.front].Bits? ==> m'[o.front].Bits?)
    && (!HasCounters(env, o) ==>
          m'[o.p - 1] == m[o.p - 1] && (TagOf(env, o) == SequenceTag ==> m'[o.front] == m[o.front]))
  }

  ghost predicate IsO(env: Env, m0: Memory, o: Obj) {
    ValidEnv(env) && IsObject(env, m0, o)
  }

  // The walk over stack o stands in the frame below top, before slot i of o,
  // which is slot j of that frame.
  ghost predicate StackAt(env: Env, m0: Memory, o: Obj, top: int, j: int, i: int)
    requires IsO(env, m0, o) && IsStack(env, o)
  {
    var bottom := o.p + STACK_STRUCT_WORDS;
    && 0 <= j <= i
    && bottom <= top <= bottom + m0[o.p + 3].val / 8
    && FramesOk(env, m0, bottom, top)
    && i - j <= |o.slots|
    && o.slots[i - j..] == FrameSlots(env, m0, bottom, top)
    && (forall k :: 0 <= k < i - j ==> o.slots[k] >= top)
    && (if bottom == top then j == 0 else j <= |env.frames[m0[top - 1].val].offsets|)
  }

  ghost predicate SequenceAt(env: Env, m0: Memory, o: Obj, k: int, j: int, i: int)
    requires IsO(env, m0, o) && env.types[o.ty].tag == SequenceTag
  {
    var t := env.types[o.ty];
    0 <= k < m0[o.p - 2].val && 0 <= j < t.numObjptrs && i == k * t.numObjptrs + j
  }

  function ElementSlot(t: ObjectType, p: nat, k: nat, j: nat): nat {
    p + k * (t.bytesNonObjptrs / 8 + t.numObjptrs) + t.bytesNonObjptrs / 8 + j
  }

  // Cursor c stands before strong slot i of object o.
  ghost predicate CursorAt(env: Env, m0: Memory, o: Obj, c: Cursor, i: nat)
    requires IsO(env, m0, o)
  {
    var t := env.types[o.ty];
    match c
    case Finished => i == |Strong(env, o)|
    case NormalCursor(todo, j) =>
      t.tag == NormalTag && j == i < t.numObjptrs && todo == o.p + t.bytesNonObjptrs / 8 + i
    case SequenceCursor(todo, k, j) =>
      t.tag == SequenceTag && SequenceAt(env, m0, o, k, j, i) && todo == ElementSlot(t, o.p, k, j)
    case StackCursor(todo, top, j) =>
      && t.tag == StackTag && StackAt(env, m0, o, top, j, i)
      && o.p + STACK_STRUCT_WORDS < top
      && (var fi := env.frames[m0[top - 1].val];
          j < |fi.offsets| && todo == top - fi.size + fi.offsets[j])
  }

  // A stack cursor has already stored its frame in markTop.
  ghost predicate CursorOk(env: Env, m0: Memory, m: Memory, o: Obj, c: Cursor, i: nat)
    requires IsO(env, m0, o) && |m| == |m0|
  {
    CursorAt(env, m0, o, c, i) && (c.StackCursor? ==> m[o.p] == Ptr(c.top))
  }

  // The position i is parked in the scratch words of o.
  ghost predicate Saved(env: Env, m0: Memory, m: Memory, o: Obj, i: nat) {
    && IsO(env, m0, o) && |m| == |m0|
    && var t := env.types[o.ty];
    && m[o.p - 1].Header?
    && match t.tag
       case NormalTag => m[o.p - 1].counter == i < t.numObjptrs
       case SequenceTag => m[o.p - 3].Bits? && SequenceAt(env, m0, o, m[o.p - 3].val, m[o.p - 1].counter, i)
       case StackTag =>
         && m[o.p].Ptr? && m[o.p + 1].Bits?
         && StackAt(env, m0, o, m[o.p].addr, m[o.p + 1].val, i)
         && o.p + STACK_STRUCT_WORDS < m[o.p].addr
         && m[o.p + 1].val < |env.frames[m0[m[o.p].addr - 1].val].offsets|
       case WeakTag => false
  }

  lemma SequenceSlot(env: Env, m0: Memory, o: Obj, k: nat, j: nat, i: nat)
    requires IsO(env, m0, o) && env.types[o.ty].tag == SequenceTag
    requires SequenceAt(env, m0, o, k, j, i)
    ensures i < |o.slots| && o.slots[i] == ElementSlot(env.types[o.ty], o.p, k, j)
  {
    hide ValidEnv, SeqSlots;
    var t := env.types[o.ty];
    SeqSlotAt(o.p, m0[o.p - 2].val, t.bytesNonObjptrs / 8, t.numObjptrs, k, j);
  }

  // Pointer j of element k.
  lemma SeqSlotAt(p: nat, len: nat, nonWords: nat, n: nat, k: nat, j: nat)
    requires k < len && j < n
    ensures 0 <= k * n + j < |SeqSlots(p, len, nonWords, n)|
    ensures SeqSlots(p, len, nonWords, n)[k * n + j] == p + k * (nonWords + n) + nonWords + j
  {
    SeqSlotsSuffix(p, len, nonWords, n, k);
    var all := SeqSlots(p, len, nonWords, n);
    var tail := SeqSlots(p + k * (nonWords + n), len - k, nonWords, n);
    assert tail[j] == NormalSlots(p + k * (nonWords + n) + nonWords, n)[j];
    assert all[k * n..][j] == all[k * n + j];
  }

  lemma StackSlot(env: Env, m0: Memory, o: Obj, top: nat, j: nat, i: nat)
    requires IsO(env, m0, o) && IsStack(env, o) && StackAt(env, m0, o, top, j, i)
    requires o.p + STACK_STRUCT_WORDS < top && j < |env.frames[m0[top - 1].val].offsets|
    ensures i < |o.slots|
    ensures var fi := env.frames[m0[top - 1].val]; fi.size <= top && o.slots[i] == top - fi.size + fi.offsets[j]
  {
    var fi := env.frames[m0[top - 1].val];
    var rest := FrameSlots(env, m0, o.p + STACK_STRUCT_WORDS, top);
    assert rest[j] == OffsetSlots(top - fi.size, fi.offsets)[j];
    assert o.slots[i - j..][j] == o.slots[i];
  }

  // A cursor that is not finished points at the slot it stands before.
  lemma CursorSlot(env: Env, m0: Memory, o: Obj, c: Cursor, i: nat)
    requires IsO(env, m0, o) && CursorAt(env, m0, o, c, i) && !c.Finished?
    ensures i < |Strong(env, o)| && Strong(env, o)[i] == c.todo
    ensures Strong(env, o) == o.slots
  {
    match c
    case NormalCursor(_, _) =>
    case SequenceCursor(_, k, j) => SequenceSlot(env, m0, o, k, j, i);
    case StackCursor(_, top, j) => StackSlot(env, m0, o, top, j, i);
  }

  // The frame word below top is a return address, not a slot.
  lemma ReturnAddress(env: Env, m0: Memory, m: Memory, o: Obj, top: nat, j: nat, i: nat)
    requires IsO(env, m0, o) && IsStack(env, o) && StackAt(env, m0, o, top, j, i)
    requires o.p + STACK_STRUCT_WORDS != top && FixedWords(env, m0, m, o)
    ensures o.p + STACK_STRUCT_WORDS < top <= |m| == |m0|
    ensures m[top - 1] == m0[top - 1] && m0[top - 1].Bits? && m0[top - 1].val in env.frames
    ensures j <= |env.frames[m0[top - 1].val].offsets|
  {
    var bottom := o.p + STACK_STRUCT_WORDS;
    var fi := env.frames[m0[top - 1].val];
    assert ValidFrame(fi);
    FrameSlotsInside(env, m0, bottom, top - fi.size);
    var rest := FrameSlots(env, m0, bottom, top);
    forall k | 0 <= k < |o.slots|
      ensures o.slots[k] != top - 1
    {
      if k >= i - j { assert o.slots[k] == rest[k - (i - j)]; }
    }
    assert !Scratch(env, o, top - 1);
  }

  // Leaving an exhausted frame.
  lemma NextFrame(env: Env, m0: Memory, o: Obj, top: nat, j: nat, i: nat)
    requires IsO(env, m0, o) && IsStack(env, o) && StackAt(env, m0, o, top, j, i)
    requires o.p + STACK_STRUCT_WORDS < top && j == |env.frames[m0[top - 1].val].offsets|
    ensures var fi := env.frames[m0[top - 1].val];
            1 <= fi.size <= top && StackAt(env, m0, o, top - fi.size, 0, i)
  {
    var bottom := o.p + STACK_STRUCT_WORDS;
    var fi := env.frames[m0[top - 1].val];
    var here := OffsetSlots(top - fi.size, fi.offsets);
    var rest := FrameSlots(env, m0, bottom, top - fi.size);
    assert o.slots[i - j..] == here + rest;
    assert o.slots[i..] == rest;
    forall k | 0 <= k < i
      ensures o.slots[k] >= top - fi.size
    {
      if k >= i - j { assert o.slots[k] == (here + rest)[k - (i - j)]; }
    }
  }

  lemma ScratchWrite(env: Env, m0: Memory, m: Memory, o: Obj, w: Word)
    requires IsO(env, m0, o) && IsStack(env, o) && FixedWords(env, m0, m, o)
    ensures o.p < |m| && FixedWords(env, m0, m[o.p := w], o) && ScratchOnly(env, o, m, m[o.p := w])
  {
  }

  lemma ScratchRefl(env: Env, o: Obj, m: Memory)
    requires o.ty < |env.types| && 0 < o.front < o.p <= |m|
    ensures ScratchOnly(env, o, m, m)
  {
  }

  lemma TypeInTable(env: Env, m0: Memory, m: Memory, o: Obj)
    requires IsO(env, m0, o)
    ensures o.ty < |env.types| && 0 < o.front < o.p <= |m0|
    ensures FixedWords(env, m0, m, o) ==> |m| == |m0|
  {
  }

  lemma StackCursorOk(env: Env, m0: Memory, m: Memory, o: Obj, top: nat, j: nat, i: nat)
    requires IsO(env, m0, o) && IsStack(env, o) && StackAt(env, m0, o, top, j, i)
    requires o.p + STACK_STRUCT_WORDS < top && j < |env.frames[m0[top - 1].val].offsets|
    requires |m| == |m0| && m[o.p] == Ptr(top)
    ensures var fi := env.frames[m0[top - 1].val];
            fi.size <= top && CursorOk(env, m0, m, o, StackCursor(top - fi.size + fi.offsets[j], top, j), i)
  {
    StackSlot(env, m0, o, top, j, i);
  }

  lemma StackDone(env: Env, m0: Memory, m: Memory, o: Obj, j: nat, i: nat)
    requires IsO(env, m0, o) && IsStack(env, o) && |m| == |m0|
    requires StackAt(env, m0, o, o.p + STACK_STRUCT_WORDS, j, i)
    ensures CursorOk(env, m0, m, o, Finished, i)
  {
    hide IsObject, ValidEnv, SlotsOf, FramesOk;
    StackSlotsEnd(env, m0, o, j, i);
  }

  // At the bottom of the stack no slot is left.
  lemma StackSlotsEnd(env: Env, m0: Memory, o: Obj, j: nat, i: nat)
    requires IsO(env, m0, o) && IsStack(env, o) && StackAt(env, m0, o, o.p + STACK_STRUCT_WORDS, j, i)
    ensures i == |o.slots| && j == 0 && Strong(env, o) == o.slots
  {
    hide IsObject, ValidEnv, SlotsOf;
  }

  // markInStack and markInFrame: from slot j of the frame below top0, find the
  // next slot, leaving exhausted frames and recording markTop in each frame
  // that is entered.
  method SettleStack(s: GCState, cur: nat, top0: nat, j: nat, enter: bool, ghost m0: Memory, ghost o: Obj, ghost i: nat)
    returns (c: Cursor)
    requires IsO(s.env, m0, o) && IsStack(s.env, o) && cur == o.p
    requires FixedWords(s.env, m0, s.mem[..], o)
    requires StackAt(s.env, m0, o, top0, j, i)
    requires enter ==> j == 0
    requires !enter ==> cur < s.mem.Length && s.mem[cur] == Ptr(top0)
    modifies s.mem
    ensures ScratchOnly(s.env, o, old(s.mem[..]), s.mem[..])
    ensures CursorOk(s.env, m0, s.mem[..], o, c, i)
  {
    hide *;
    var top: nat, index: nat, atFrameStart := top0, j, enter;
    ghost var was := s.mem[..];
    var bottom := cur + STACK_STRUCT_WORDS;
    TypeInTable(s.env, m0, was, o);
    ScratchRefl(s.env, o, was);
    ScratchWrite(s.env, m0, was, o, Bits(0));
    while top != bottom
      invariant cur < s.mem.Length == |m0|
      invariant was[cur := s.mem[cur]] == s.mem[..]
      invariant FixedWords(s.env, m0, s.mem[..], o)
      invariant ScratchOnly(s.env, o, was, s.mem[..])
      invariant StackAt(s.env, m0, o, top, index, i)
      invariant atFrameStart ==> index == 0
      invariant !atFrameStart ==> s.mem[cur] == Ptr(top)
      decreases top
    {
      ReturnAddress(s.env, m0, s.mem[..], o, top, index, i);
      var fi := s.env.frames[s.mem[top - 1].val];
      if atFrameStart {
        ScratchWrite(s.env, m0, was, o, Ptr(top));
        ScratchWrite(s.env, m0, s.mem[..], o, Ptr(top));
        s.Store(cur, Ptr(top));
        assert s.mem[..] == was[cur := Ptr(top)];
      }
      if index == |fi.offsets| {
        NextFrame(s.env, m0, o, top, index, i);
        top, index, atFrameStart := top - fi.size, 0, true;
      } else {
        StackCursorOk(s.env, m0, s.mem[..], o, top, index, i);
        return StackCursor(top - fi.size + fi.offsets[index], top, index);
      }
    }
    StackDone(s.env, m0, s.mem[..], o, index, i);
    c := Finished;
  }

  // ----------------------------------------------------- start, step, park

  // The size fields and types that the walkers read are the original ones.
  lemma FieldsRead(env: Env, m0: Memory, m: Memory, o: Obj)
    requires IsO(env, m0, o) && FixedWords(env, m0, m, o)
    ensures o.ty < |env.types| && 0 < o.front < o.p <= |m| == |m0| && ValidType(env.types[o.ty])
    ensures env.types[o.ty].tag == SequenceTag ==>
              3 <= o.p && m[o.p - 2] == m0[o.p - 2] && NonNeg(m[o.p - 2])
              && o.front == o.p - 3
    ensures env.types[o.ty].tag == StackTag ==>
              o.p + 4 <= |m| && m[o.p + 3] == m0[o.p + 3] && Bytes(m[o.p + 3])
  {
    SlotsInside(env, m0, o);
  }

  lemma SequenceStart(env: Env, m0: Memory, m: Memory, o: Obj)
    requires IsO(env, m0, o) && env.types[o.ty].tag == SequenceTag && |m| == |m0|
    ensures o.p >= 2 && m0[o.p - 2].Bits?
    ensures CursorOk(env, m0, m, o,
              if env.types[o.ty].numObjptrs == 0 || m0[o.p - 2].val == 0 then Finished
              else SequenceCursor(o.p + env.types[o.ty].bytesNonObjptrs / 8, 0, 0), 0)
  {
    var t := env.types[o.ty];
    if t.numObjptrs != 0 {
      SeqSlotsLength(o.p, m0[o.p - 2].val, t.bytesNonObjptrs / 8, t.numObjptrs);
    }
  }

  lemma StackStart(env: Env, m0: Memory, o: Obj)
    requires IsO(env, m0, o) && IsStack(env, o)
    ensures o.p + 4 <= |m0| && NonNeg(m0[o.p + 3])
    ensures StackAt(env, m0, o, o.p + 4 + m0[o.p + 3].val / 8, 0, 0)
  {
    assert o.slots[0..] == o.slots;
  }

  // The cursor before the first strong slot of a freshly marked object.
  method StartCursor(s: GCState, cur: nat, t: ObjectType, ghost m0: Memory, ghost o: Obj) returns (c: Cursor)
    requires IsO(s.env, m0, o) && cur == o.p
    requires FixedWords(s.env, m0, s.mem[..], o)
    requires t == s.env.types[o.ty]
    modifies s.mem
    ensures ScratchOnly(s.env, o, old(s.mem[..]), s.mem[..])
    ensures CursorOk(s.env, m0, s.mem[..], o, c, 0)
    ensures IsWeak(s.env, o) ==> s.mem[..] == old(s.mem[..])
  {
    ghost var m := s.mem[..];
    FieldsRead(s.env, m0, m, o);
    ScratchRefl(s.env, o, m);
    match t.tag {
      case NormalTag =>
        c := if t.numObjptrs == 0 then Finished else NormalCursor(cur + t.bytesNonObjptrs / 8, 0);
      case WeakTag =>
        c := Finished;
      case SequenceTag =>
        SequenceStart(s.env, m0, m, o);
        c := if t.numObjptrs == 0 || s.mem[cur - 2].val == 0 then Finished
             else SequenceCursor(cur + t.bytesNonObjptrs / 8, 0, 0);
      case StackTag =>
        StackStart(s.env, m0, o);
        c := SettleStack(s, cur, cur + STACK_STRUCT_WORDS + s.mem[cur + 3].val / 8, 0, true, m0, o, 0);
    }
  }

  lemma SequenceNext(env: Env, m0: Memory, m: Memory, o: Obj, k: nat, j: nat, i: nat)
    requires IsO(env, m0, o) && env.types[o.ty].tag == SequenceTag && |m| == |m0|
    requires SequenceAt(env, m0, o, k, j, i)
    ensures m0[o.p - 2].Bits?
    ensures var t := env.types[o.ty];
            var todo := ElementSlot(t, o.p, k, j) + 1;
            CursorOk(env, m0, m, o,
              if j + 1 < t.numObjptrs then SequenceCursor(todo, k, j + 1)
              else if k + 1 < m0[o.p - 2].val then SequenceCursor(todo + t.bytesNonObjptrs / 8, k + 1, 0)
              else Finished, i + 1)
  {
    var t := env.types[o.ty];
    var e := t.bytesNonObjptrs / 8 + t.numObjptrs;
    assert (k + 1) * e == k * e + e;
    assert (k + 1) * t.numObjptrs == k * t.numObjptrs + t.numObjptrs;
    SeqSlotsLength(o.p, m0[o.p - 2].val, t.bytesNonObjptrs / 8, t.numObjptrs);
  }

  lemma StackNext(env: Env, m0: Memory, o: Obj, top: nat, j: nat, i: nat)
    requires IsO(env, m0, o) && IsStack(env, o) && StackAt(env, m0, o, top, j, i)
    requires o.p + STACK_STRUCT_WORDS < top && j < |env.frames[m0[top - 1].val].offsets|
    ensures StackAt(env, m0, o, top, j + 1, i + 1)
  {
    StackSlot(env, m0, o, top, j, i);
  }

  lemma NormalNext(env: Env, m0: Memory, m: Memory, o: Obj, todo: nat, j: nat, i: nat)
    requires IsO(env, m0, o) && |m| == |m0| && CursorOk(env, m0, m, o, NormalCursor(todo, j), i)
    ensures CursorOk(env, m0, m, o,
              if j + 1 == env.types[o.ty].numObjptrs then Finished else NormalCursor(todo + 1, j + 1), i + 1)
  {
  }

  // What each kind of cursor says about its object.
  lemma CursorFacts(env: Env, m0: Memory, m: Memory, o: Obj, c: Cursor, i: nat)
    requires IsO(env, m0, o) && |m| == |m0| && CursorOk(env, m0, m, o, c, i)
    ensures !c.Finished? ==> !IsWeak(env, o)
    ensures match c
            case Finished => true
            case NormalCursor(_, _) => true
            case SequenceCursor(todo, k, j) =>
              && env.types[o.ty].tag == SequenceTag && SequenceAt(env, m0, o, k, j, i)
              && todo == ElementSlot(env.types[o.ty], o.p, k, j)
            case StackCursor(_, top, j) =>
              && IsStack(env, o) && StackAt(env, m0, o, top, j, i) && m[o.p] == Ptr(top)
              && o.p + STACK_STRUCT_WORDS < top && top <= |m0|
              && m0[top - 1].Bits? && m0[top - 1].val in env.frames
              && j < |env.frames[m0[top - 1].val].offsets|
  {
  }

  // markNextInNormal, markNextInSequence and the frame increment.
  method NextCursor(s: GCState, cur: nat, t: ObjectType, c: Cursor, ghost m0: Memory, ghost o: Obj, ghost i: nat)
    returns (c': Cursor)
    requires IsO(s.env, m0, o) && cur == o.p
    requires FixedWords(s.env, m0, s.mem[..], o)
    requires t == s.env.types[o.ty]
    requires CursorOk(s.env, m0, s.mem[..], o, c, i) && !c.Finished?
    modifies s.mem
    ensures ScratchOnly(s.env, o, old(s.mem[..]), s.mem[..])
    ensures CursorOk(s.env, m0, s.mem[..], o, c', i + 1) && !IsWeak(s.env, o)
  {
    hide *;
    ghost var m := s.mem[..];
    TypeInTable(s.env, m0, m, o);
    FieldsRead(s.env, m0, m, o);
    ScratchRefl(s.env, o, m);
    CursorFacts(s.env, m0, m, o, c, i);
    match c {
      case NormalCursor(todo, j) =>
        NormalNext(s.env, m0, m, o, todo, j, i);
        c' := if j + 1 == t.numObjptrs then Finished else NormalCursor(todo + 1, j + 1);
      case SequenceCursor(todo, k, j) =>
        SequenceNext(s.env, m0, m, o, k, j, i);
        if j + 1 < t.numObjptrs {
          c' := SequenceCursor(todo + 1, k, j + 1);
        } else if k + 1 < s.mem[cur - 2].val {
          c' := SequenceCursor(todo + 1 + t.bytesNonObjptrs / 8, k + 1, 0);
        } else {
          c' := Finished;
        }
      case StackCursor(_, top, j) =>
        StackNext(s.env, m0, o, top, j, i);
        c' := SettleStack(s, cur, top, j + 1, false, m0, o, i + 1);
    }
  }

  lemma NormalSaved(env: Env, m0: Memory, m: Memory, o: Obj, c: Cursor, i: nat)
    requires IsO(env, m0, o) && |m| == |m0| && m[o.p - 1].Header?
    requires CursorOk(env, m0, m, o, c, i) && c.NormalCursor?
    ensures var m' := m[o.p - 1 := m[o.p - 1].(counter := c.objptrIndex)];
            ScratchOnly(env, o, m, m') && Saved(env, m0, m', o, i)
  {
  }

  lemma SequenceSaved(env: Env, m0: Memory, m: Memory, o: Obj, c: Cursor, i: nat)
    requires IsO(env, m0, o) && |m| == |m0| && m[o.p - 1].Header? && m[o.p - 2] == m0[o.p - 2]
    requires CursorOk(env, m0, m, o, c, i) && c.SequenceCursor?
    ensures o.p >= 3
    ensures var m' := m[o.p - 3 := Bits(c.sequenceIndex)][o.p - 1 := m[o.p - 1].(counter := c.objptrIndex)];
            ScratchOnly(env, o, m, m') && Saved(env, m0, m', o, i)
  {
  }

  lemma StackSaved(env: Env, m0: Memory, m: Memory, o: Obj, c: Cursor, i: nat)
    requires IsO(env, m0, o) && |m| == |m0| && m[o.p - 1].Header?
    requires CursorOk(env, m0, m, o, c, i) && c.StackCursor?
    ensures o.p + 1 < |m|
    ensures var m' := m[o.p + 1 := Bits(c.objptrIndex)];
            ScratchOnly(env, o, m, m') && Saved(env, m0, m', o, i)
  {
  }

  // Park the position in the object before descending to the slot's target.
  method SaveCursor(s: GCState, cur: nat, c: Cursor, ghost m0: Memory, ghost o: Obj, ghost i: nat)
    requires IsO(s.env, m0, o) && cur == o.p
    requires FixedWords(s.env, m0, s.mem[..], o) && IsObject(s.env, s.mem[..], o)
    requires CursorOk(s.env, m0, s.mem[..], o, c, i) && !c.Finished?
    modifies s.mem
    ensures ScratchOnly(s.env, o, old(s.mem[..]), s.mem[..])
    ensures Saved(s.env, m0, s.mem[..], o, i) && !IsWeak(s.env, o)
  {
    hide *;
    ghost var m := s.mem[..];
    FieldsRead(s.env, m0, m, o);
    CursorFacts(s.env, m0, m, o, c, i);
    IsHeader(s.env, m, o);
    var header := s.mem[cur - 1];
    match c {
      case NormalCursor(_, j) =>
        NormalSaved(s.env, m0, m, o, c, i);
        s.Store(cur - 1, header.(counter := j));
      case SequenceCursor(_, k, j) =>
        SequenceSaved(s.env, m0, m, o, c, i);
        s.Store(cur - 3, Bits(k));
        s.Store(cur - 1, header.(counter := j));
      case StackCursor(_, _, j) =>
        StackSaved(s.env, m0, m, o, c, i);
        s.Store(cur + 1, Bits(j));
    }
  }

  lemma IsHeader(env: Env, m: Memory, o: Obj)
    requires IsObject(env, m, o)
    ensures 0 < o.front < o.p <= |m| && m[o.p - 1].Header?
  {
  }

  // Read a parked position back.
  method LoadCursor(s: GCState, cur: nat, t: ObjectType, ghost m0: Memory, ghost o: Obj, ghost i: nat)
    returns (c: Cursor)
    requires IsO(s.env, m0, o) && cur == o.p
    requires FixedWords(s.env, m0, s.mem[..], o)
    requires t == s.env.types[o.ty]
    requires Saved(s.env, m0, s.mem[..], o, i)
    ensures CursorOk(s.env, m0, s.mem[..], o, c, i) && !c.Finished?
  {
    hide *;
    ghost var m := s.mem[..];
    TypeInTable(s.env, m0, m, o);
    FieldsRead(s.env, m0, m, o);
    SavedFacts(s.env, m0, m, o, i);
    match t.tag {
      case NormalTag =>
        var j := s.mem[cur - 1].counter;
        c := NormalCursor(cur + t.bytesNonObjptrs / 8 + j, j);
      case SequenceTag =>
        var k, j := s.mem[cur - 3].val, s.mem[cur - 1].counter;
        c := SequenceCursor(ElementSlot(t, cur, k, j), k, j);
      case StackTag =>
        var top, j := s.mem[cur].addr, s.mem[cur + 1].val;
        ReturnAddress(s.env, m0, m, o, top, j, i);
        var fi := s.env.frames[s.mem[top - 1].val];
        StackCursorOk(s.env, m0, m, o, top, j, i);
        c := StackCursor(top - fi.size + fi.offsets[j], top, j);
    }
  }

  lemma SavedFacts(env: Env, m0: Memory, m: Memory, o: Obj, i: nat)
    requires IsO(env, m0, o) && |m| == |m0| && Saved(env, m0, m, o, i)
    ensures o.p <= |m| && m[o.p - 1].Header?
    ensures var t := env.types[o.ty];
      match t.tag
      case NormalTag =>
        var j := m[o.p - 1].counter;
        CursorOk(env, m0, m, o, NormalCursor(o.p + t.bytesNonObjptrs / 8 + j, j), i)
      case SequenceTag =>
        && 3 <= o.p && NonNeg(m[o.p - 3])
        && (var k: nat, j := m[o.p - 3].val, m[o.p - 1].counter;
            CursorOk(env, m0, m, o, SequenceCursor(ElementSlot(t, o.p, k, j), k, j), i))
      case StackTag =>
        && IsStack(env, o) && o.p + 1 < |m| && m[o.p].Ptr? && NonNeg(m[o.p + 1])
        && StackAt(env, m0, o, m[o.p].addr, m[o.p + 1].val, i)
        && o.p + STACK_STRUCT_WORDS < m[o.p].addr <= |m0|
        && m0[m[o.p].addr - 1].Bits? && m0[m[o.p].addr - 1].val in env.frames
        && m[o.p + 1].val < |env.frames[m0[m[o.p].addr - 1].val].offsets|
      case WeakTag => false
  {
  }

  lemma ParksOrNot(env: Env, m0: Memory, o: Obj)
    requires IsO(env, m0, o)
    ensures o.ty < |env.types| && (env.types[o.ty].tag == SequenceTag ==> o.p >= 2 && m0[o.p - 2].Bits?)
    ensures HasCounters(env, o) <==>
              var t := env.types[o.ty];
              && t.numObjptrs != 0
              && (t.tag == NormalTag || (t.tag == SequenceTag && m0[o.p - 2].val != 0))
  {
    var t := env.types[o.ty];
    if t.tag == SequenceTag && t.numObjptrs != 0 {
      SeqSlotsLength(o.p, m0[o.p - 2].val, t.bytesNonObjptrs / 8, t.numObjptrs);
    }
  }

  // An object whose slots are all done gets its counters cleared.
  method ClearCounters(s: GCState, cur: nat, t: ObjectType, ghost m0: Memory, ghost o: Obj)
    requires IsO(s.env, m0, o) && cur == o.p
    requires FixedWords(s.env, m0, s.mem[..], o) && IsObject(s.env, s.mem[..], o)
    requires t == s.env.types[o.ty]
    requires HasCounters(s.env, o) || Clean(s.env, s.mem[..], o)
    modifies s.mem
    ensures ScratchOnly(s.env, o, old(s.mem[..]), s.mem[..])
    ensures Clean(s.env, s.mem[..], o)
    ensures IsWeak(s.env, o) ==> s.mem[..] == old(s.mem[..])
  {
    FieldsRead(s.env, m0, s.mem[..], o);
    ScratchRefl(s.env, o, s.mem[..]);
    ParksOrNot(s.env, m0, o);
    var header := s.mem[cur - 1];
    if t.tag == NormalTag && t.numObjptrs != 0 {
      s.Store(cur - 1, header.(counter := 0));
    } else if t.tag == SequenceTag && t.numObjptrs != 0 && s.mem[cur - 2].val != 0 {
      s.Store(cur - 3, Bits(0));
      s.Store(cur - 1, header.(counter := 0));
    }
  }
}
