// The object layout of the 64-bit native model: one word-addressed memory,
// objects made of metadata words and data words, and the pointer slots that
// the collectors visit.

module Layout {

  datatype Tag = NormalTag | SequenceTag | StackTag | WeakTag

  // One entry of the object-type table emitted with the compiled program.
  datatype ObjectType = ObjectType(tag: Tag, bytesNonObjptrs: nat, numObjptrs: nat)

  // Frame size and slot offsets, in words, measured from the frame's lower end.
  datatype FrameInfo = FrameInfo(size: nat, offsets: seq<nat>)

  // The static tables: object types by index, frames by return address.
  datatype Env = Env(types: seq<ObjectType>, frames: map<int, FrameInfo>)

  // A memory word.  A header is odd, an object pointer has its low bits clear,
  // everything else is plain data (module HeaderBits ties this to the bits).
  datatype Word = Header(ty: nat, counter: nat, mark: bool) | Ptr(addr: nat) | Bits(val: int)

  type Memory = seq<Word>

  const WEAK_GONE_TYPE_INDEX: nat := 2
  const WORD8_VECTOR_TYPE_INDEX: nat := 5

  // BOGUS_OBJPTR is the word 1, which is not an object pointer.
  const BOGUS_OBJPTR: Word := Bits(1)

  const STACK_STRUCT_WORDS: nat := 4
  const MAX_OBJPTRS: nat := 2048

  predicate Distinct(s: seq<nat>) {
    forall i, j :: 0 <= i < j < |s| ==> s[i] != s[j]
  }

  predicate ValidType(t: ObjectType) {
    && t.numObjptrs <= MAX_OBJPTRS
    && (t.tag == NormalTag ==> t.bytesNonObjptrs % 8 == 0)
    && (t.tag == SequenceTag && t.numObjptrs > 0 ==> t.bytesNonObjptrs % 8 == 0)
    && (t.tag == WeakTag ==>
          || (t.numObjptrs == 1 && t.bytesNonObjptrs == 8)
          || (t.numObjptrs == 0 && t.bytesNonObjptrs == 16))
  }

  predicate ValidFrame(f: FrameInfo) {
    && f.size >= 1
    && (forall i :: 0 <= i < |f.offsets| ==> f.offsets[i] < f.size - 1)
    && Distinct(f.offsets)
  }

  predicate ValidEnv(env: Env) {
    && |env.types| > WORD8_VECTOR_TYPE_INDEX
    && env.types[WEAK_GONE_TYPE_INDEX] == ObjectType(WeakTag, 16, 0)
    && env.types[WORD8_VECTOR_TYPE_INDEX] == ObjectType(SequenceTag, 1, 0)
    && (forall i :: 0 <= i < |env.types| ==> ValidType(env.types[i]))
    && (forall ra :: ra in env.frames ==> ValidFrame(env.frames[ra]))
  }

  // ---------------------------------------------------------------- slots

  function NormalSlots(a: nat, n: nat): (s: seq<nat>)
    ensures |s| == n
  {
    seq(n, i requires 0 <= i < n => a + i)
  }

  // Slots of len elements, each with nonWords data words and then n pointers.
  function SeqSlots(p: nat, len: nat, nonWords: nat, n: nat): seq<nat>
    decreases len
  {
    if len == 0 then []
    else NormalSlots(p + nonWords, n) + SeqSlots(p + nonWords + n, len - 1, nonWords, n)
  }

  function OffsetSlots(base: nat, offsets: seq<nat>): (s: seq<nat>)
    ensures |s| == |offsets|
  {
    seq(|offsets|, i requires 0 <= i < |offsets| => base + offsets[i])
  }

  // The words of [bottom, top) are whole frames, each ending in its return address.
  predicate FramesOk(env: Env, m: Memory, bottom: nat, top: nat)
    decreases top
  {
    && bottom <= top <= |m|
    && (bottom < top ==>
          && m[top - 1].Bits?
          && m[top - 1].val in env.frames
          && (var size := env.frames[m[top - 1].val].size;
              1 <= size <= top - bottom && FramesOk(env, m, bottom, top - size)))
  }

  // Frame slots from the topmost frame down.
  function FrameSlots(env: Env, m: Memory, bottom: nat, top: nat): seq<nat>
    requires FramesOk(env, m, bottom, top)
    decreases top
  {
    if bottom == top then []
    else
      var fi := env.frames[m[top - 1].val];
      OffsetSlots(top - fi.size, fi.offsets) + FrameSlots(env, m, bottom, top - fi.size)
  }

  // -------------------------------------------------------------- objects

  // An object: first word, data pointer, word after the last, type index, and
  // the slots that foreachObjptrInObject visits, in its order.
  datatype Obj = Obj(front: nat, p: nat, end: nat, ty: nat, slots: seq<nat>) {
    function Header(): int { p - 1 }
    function Words(): int { end - front }
  }

  function TagOf(env: Env, o: Obj): Tag {
    if o.ty < |env.types| then env.types[o.ty].tag else NormalTag
  }

  predicate NonNeg(w: Word) { w.Bits? && w.val >= 0 }

  predicate Bytes(w: Word) { w.Bits? && w.val >= 0 && w.val % 8 == 0 }

  function MetaWords(tag: Tag): nat { if tag == SequenceTag then 3 else 1 }

  // The words that carry sizes, apart from the header itself.
  predicate SizeFieldsOk(env: Env, m: Memory, tag: Tag, p: nat) {
    && (tag == SequenceTag ==> 3 <= p <= |m| && m[p - 3].Bits? && NonNeg(m[p - 2]))
    && (tag == StackTag ==>
          && p + STACK_STRUCT_WORDS <= |m|
          && Bytes(m[p + 2]) && Bytes(m[p + 3]) && m[p + 3].val <= m[p + 2].val
          && FramesOk(env, m, p + STACK_STRUCT_WORDS, p + STACK_STRUCT_WORDS + m[p + 3].val / 8))
  }

  // sizeofObjectNoMetaData in words, at the fixed alignment of one word.
  function DataWords(env: Env, m: Memory, t: ObjectType, p: nat): nat
    requires SizeFieldsOk(env, m, t.tag, p)
  {
    match t.tag
    case SequenceTag => (m[p - 2].val * (t.bytesNonObjptrs + 8 * t.numObjptrs) + 7) / 8
    case StackTag => STACK_STRUCT_WORDS + m[p + 2].val / 8
    case _ => t.bytesNonObjptrs / 8 + t.numObjptrs
  }

  function SlotsOf(env: Env, m: Memory, t: ObjectType, p: nat): seq<nat>
    requires SizeFieldsOk(env, m, t.tag, p)
  {
    match t.tag
    case NormalTag => NormalSlots(p + t.bytesNonObjptrs / 8, t.numObjptrs)
    case WeakTag => NormalSlots(p + t.bytesNonObjptrs / 8, t.numObjptrs)
    case SequenceTag =>
      if t.numObjptrs == 0 then []
      else SeqSlots(p, m[p - 2].val, t.bytesNonObjptrs / 8, t.numObjptrs)
    case StackTag =>
      FrameSlots(env, m, p + STACK_STRUCT_WORDS, p + STACK_STRUCT_WORDS + m[p + 3].val / 8)
  }

  // The words at o.front .. o.end form the object o; its header is in place.
  predicate IsObject(env: Env, m: Memory, o: Obj) {
    && 0 < o.front < o.p <= o.end <= |m|
    && o.ty < |env.types|
    && m[o.p - 1].Header? && m[o.p - 1].ty == o.ty
    && (var t := env.types[o.ty];
        && o.p == o.front + MetaWords(t.tag)
        && SizeFieldsOk(env, m, t.tag, o.p)
        && o.end == o.p + DataWords(env, m, t, o.p)
        && o.slots == SlotsOf(env, m, t, o.p))
  }

  // The words that marking and weak linking may overwrite: header, sequence
  // counter, markTop and markIndex, weak link.
  predicate Scratch(env: Env, o: Obj, a: int) {
    var tag := TagOf(env, o);
    || a == o.p - 1
    || (tag == SequenceTag && a == o.front)
    || (tag == StackTag && (a == o.p || a == o.p + 1))
    || (tag == WeakTag && a == o.p)
  }

  predicate IsWeak(env: Env, o: Obj) { TagOf(env, o) == WeakTag }

  predicate IsStack(env: Env, o: Obj) { TagOf(env, o) == StackTag }

  // The slots that keep their targets alive: all but the slot of a weak object.
  function Strong(env: Env, o: Obj): seq<nat> {
    if IsWeak(env, o) then [] else o.slots
  }

  // ----------------------------------------------------- facts about slots

  // The slots from element k on are the slots of the sequence's tail.
  lemma {:induction false} SeqSlotsSuffix(p: nat, len: nat, nonWords: nat, n: nat, k: nat)
    requires k <= len
    ensures 0 <= k * n <= |SeqSlots(p, len, nonWords, n)|
    ensures 0 <= k * (nonWords + n)
    ensures SeqSlots(p, len, nonWords, n)[k * n..] == SeqSlots(p + k * (nonWords + n), len - k, nonWords, n)
    decreases k
  {
    if k > 0 {
      SeqSlotsSuffix(p + nonWords + n, len - 1, nonWords, n, k - 1);
      assert (k - 1) * n == k * n - n;
      assert (k - 1) * (nonWords + n) == k * (nonWords + n) - (nonWords + n);
      var tail := SeqSlots(p + nonWords + n, len - 1, nonWords, n);
      assert (NormalSlots(p + nonWords, n) + tail)[k * n..] == tail[(k - 1) * n..];
    }
  }

  lemma {:induction false} SeqSlotsLength(p: nat, len: nat, nonWords: nat, n: nat)
    ensures |SeqSlots(p, len, nonWords, n)| == len * n
    decreases len
  {
    if len > 0 {
      SeqSlotsLength(p + nonWords + n, len - 1, nonWords, n);
      assert len * n == n + (len - 1) * n;
    }
  }

  lemma {:induction false} SeqSlotsInside(p: nat, len: nat, nonWords: nat, n: nat)
    ensures Distinct(SeqSlots(p, len, nonWords, n))
    ensures forall i :: 0 <= i < |SeqSlots(p, len, nonWords, n)| ==>
              p <= SeqSlots(p, len, nonWords, n)[i] < p + len * (nonWords + n)
    decreases len
  {
    if len > 0 {
      SeqSlotsInside(p + nonWords + n, len - 1, nonWords, n);
      assert len * (nonWords + n) == nonWords + n + (len - 1) * (nonWords + n);
      assert 0 <= (len - 1) * (nonWords + n);
    }
  }

  lemma {:induction false} FrameSlotsInside(env: Env, m: Memory, bottom: nat, top: nat)
    requires ValidEnv(env) && FramesOk(env, m, bottom, top)
    ensures Distinct(FrameSlots(env, m, bottom, top))
    ensures forall i :: 0 <= i < |FrameSlots(env, m, bottom, top)| ==>
              bottom <= FrameSlots(env, m, bottom, top)[i] < top
    decreases top
  {
    if bottom < top {
      var fi := env.frames[m[top - 1].val];
      assert ValidFrame(fi);
      FrameSlotsInside(env, m, bottom, top - fi.size);
    }
  }

  // A walk over frames depends only on words that are not slots.
  lemma {:induction false} FrameSlotsStable(env: Env, m: Memory, m': Memory, bottom: nat, top: nat)
    requires ValidEnv(env) && FramesOk(env, m, bottom, top) && |m'| == |m|
    requires forall a :: bottom <= a < top && a !in FrameSlots(env, m, bottom, top) ==> m'[a] == m[a]
    ensures FramesOk(env, m', bottom, top)
    ensures FrameSlots(env, m', bottom, top) == FrameSlots(env, m, bottom, top)
    decreases top
  {
    if bottom < top {
      var fi := env.frames[m[top - 1].val];
      assert ValidFrame(fi);
      var rest := FrameSlots(env, m, bottom, top - fi.size);
      FrameSlotsInside(env, m, bottom, top - fi.size);
      assert top - 1 !in OffsetSlots(top - fi.size, fi.offsets);
      assert top - 1 !in rest;
      forall a | bottom <= a < top - fi.size && a !in rest
        ensures m'[a] == m[a]
      {
        assert a !in OffsetSlots(top - fi.size, fi.offsets);
      }
      FrameSlotsStable(env, m, m', bottom, top - fi.size);
    }
  }

  lemma ElementWords(len: nat, bytes: nat, n: nat)
    requires bytes % 8 == 0
    ensures (len * (bytes + 8 * n) + 7) / 8 == len * (bytes / 8 + n)
  {
    var e := bytes / 8 + n;
    assert bytes + 8 * n == 8 * e;
    assert len * (8 * e) == 8 * (len * e);
  }

  // Slots lie in the data part, are distinct, and are never metadata.
  lemma SlotsInside(env: Env, m: Memory, o: Obj)
    requires ValidEnv(env) && IsObject(env, m, o)
    ensures Distinct(o.slots)
    ensures forall i :: 0 <= i < |o.slots| ==> o.p <= o.slots[i] < o.end
    ensures forall i :: 0 <= i < |o.slots| ==> !Scratch(env, o, o.slots[i])
    ensures env.types[o.ty].tag == StackTag ==>
              forall i :: 0 <= i < |o.slots| ==>
                o.p + 4 <= o.slots[i] < o.p + 4 + m[o.p + 3].val / 8
  {
    var t := env.types[o.ty];
    assert ValidType(t);
    match t.tag
    case SequenceTag =>
      if t.numObjptrs > 0 {
        SeqSlotsInside(o.p, m[o.p - 2].val, t.bytesNonObjptrs / 8, t.numObjptrs);
        ElementWords(m[o.p - 2].val, t.bytesNonObjptrs, t.numObjptrs);
      }
    case StackTag =>
      FrameSlotsInside(env, m, o.p + 4, o.p + 4 + m[o.p + 3].val / 8);
    case _ =>
  }

  // An object stays the same object when only its slots and scratch words change.
  lemma ObjectStable(env: Env, m: Memory, m': Memory, o: Obj)
    requires ValidEnv(env) && IsObject(env, m, o) && |m'| == |m|
    requires m'[o.p - 1].Header? && m'[o.p - 1].ty == o.ty
    requires env.types[o.ty].tag == SequenceTag ==> m'[o.front].Bits?
    requires forall a :: o.front <= a < o.end && a !in o.slots && !Scratch(env, o, a) ==> m'[a] == m[a]
    ensures IsObject(env, m', o)
  {
    SizeFieldsStable(env, m, m', o);
    var t := env.types[o.ty];
    assert SlotsOf(env, m', t, o.p) == SlotsOf(env, m, t, o.p);
  }

  lemma SizeFieldsStable(env: Env, m: Memory, m': Memory, o: Obj)
    requires ValidEnv(env) && IsObject(env, m, o) && |m'| == |m|
    requires env.types[o.ty].tag == SequenceTag ==> m'[o.front].Bits?
    requires forall a :: o.front <= a < o.end && a !in o.slots && !Scratch(env, o, a) ==> m'[a] == m[a]
    ensures SizeFieldsOk(env, m', env.types[o.ty].tag, o.p)
    ensures DataWords(env, m', env.types[o.ty], o.p) == DataWords(env, m, env.types[o.ty], o.p)
    ensures SlotsOf(env, m', env.types[o.ty], o.p) == SlotsOf(env, m, env.types[o.ty], o.p)
  {
    hide SizeFieldsOk, DataWords, SlotsOf, ValidEnv;
    SlotsInside(env, m, o);
    match env.types[o.ty].tag
    case SequenceTag =>
      SequenceStable(env, m, m', o);
    case StackTag =>
      StackStable(env, m, m', o);
    case _ =>
      FixedStable(env, m, m', o);
  }

  lemma FixedStable(env: Env, m: Memory, m': Memory, o: Obj)
    requires IsObject(env, m, o) && |m'| == |m|
    requires env.types[o.ty].tag == NormalTag || env.types[o.ty].tag == WeakTag
    ensures SizeFieldsOk(env, m', env.types[o.ty].tag, o.p)
    ensures DataWords(env, m', env.types[o.ty], o.p) == DataWords(env, m, env.types[o.ty], o.p)
    ensures SlotsOf(env, m', env.types[o.ty], o.p) == SlotsOf(env, m, env.types[o.ty], o.p)
  {
  }

  lemma SequenceStable(env: Env, m: Memory, m': Memory, o: Obj)
    requires IsObject(env, m, o) && |m'| == |m| && env.types[o.ty].tag == SequenceTag && m'[o.front].Bits?
    requires forall i :: 0 <= i < |o.slots| ==> o.p <= o.slots[i] < o.end
    requires forall a :: o.front <= a < o.end && a !in o.slots && !Scratch(env, o, a) ==> m'[a] == m[a]
    ensures SizeFieldsOk(env, m', SequenceTag, o.p)
    ensures DataWords(env, m', env.types[o.ty], o.p) == DataWords(env, m, env.types[o.ty], o.p)
    ensures SlotsOf(env, m', env.types[o.ty], o.p) == SlotsOf(env, m, env.types[o.ty], o.p)
  {
    hide SlotsOf;
    assert m'[o.p - 2] == m[o.p - 2];
    SameLength(env, m, m', env.types[o.ty], o.p);
  }

  lemma SameLength(env: Env, m: Memory, m': Memory, t: ObjectType, p: nat)
    requires t.tag == SequenceTag && SizeFieldsOk(env, m, t.tag, p) && SizeFieldsOk(env, m', t.tag, p) &&
      m'[p - 2] == m[p - 2]
    ensures SlotsOf(env, m', t, p) == SlotsOf(env, m, t, p)
  {
  }

  lemma StackStable(env: Env, m: Memory, m': Memory, o: Obj)
    requires ValidEnv(env) && IsObject(env, m, o) && |m'| == |m| && env.types[o.ty].tag == StackTag
    requires forall i :: 0 <= i < |o.slots| ==> o.p + 4 <= o.slots[i] < o.p + 4 + m[o.p + 3].val / 8
    requires forall a :: o.front <= a < o.end && a !in o.slots && !Scratch(env, o, a) ==> m'[a] == m[a]
    ensures SizeFieldsOk(env, m', StackTag, o.p)
    ensures DataWords(env, m', env.types[o.ty], o.p) == DataWords(env, m, env.types[o.ty], o.p)
    ensures SlotsOf(env, m', env.types[o.ty], o.p) == SlotsOf(env, m, env.types[o.ty], o.p)
  {
    hide ValidEnv, FramesOk, FrameSlots;
    assert m'[o.p + 2] == m[o.p + 2] && m'[o.p + 3] == m[o.p + 3];
    var top := o.p + 4 + m[o.p + 3].val / 8;
    forall a | o.p + 4 <= a < top && a !in FrameSlots(env, m, o.p + 4, top)
      ensures m'[a] == m[a]
    {
      assert !Scratch(env, o, a);
    }
    FrameSlotsStable(env, m, m', o.p + 4, top);
  }
}
