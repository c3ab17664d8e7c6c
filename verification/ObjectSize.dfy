// Object sizes in bytes, as the size functions compute them.

module ObjectSize {
  import opened Layout
  import opened State
  import opened Align

  // sizeofObjectAux on an object whose header is in place: both parts agree
  // with the object's extent in memory.
  method SizeofObjectAux(s: GCState, p: nat, header: Word, ghost o: Obj) returns (metaDataBytes: nat, objectBytes: nat)
    requires ValidEnv(s.env) && o.p == p
    requires header.Header? && header.ty == o.ty && 0 < p <= s.mem.Length
    requires IsObject(s.env, s.mem[..][p - 1 := header], o)
    ensures metaDataBytes == 8 * (o.p - o.front)
    ensures objectBytes == 8 * (o.end - o.p)
  {
    var t := s.env.types[header.ty];
    assert ValidType(t);
    match t.tag {
      case NormalTag =>
        metaDataBytes, objectBytes := NORMAL_METADATA_SIZE, t.bytesNonObjptrs + t.numObjptrs * 8;
      case WeakTag =>
        metaDataBytes, objectBytes := NORMAL_METADATA_SIZE, t.bytesNonObjptrs + t.numObjptrs * 8;
      case SequenceTag =>
        SequenceBytes(s.mem[p - 2].val, t.bytesNonObjptrs, t.numObjptrs);
        metaDataBytes := SEQUENCE_METADATA_SIZE;
        objectBytes := SizeofSequenceNoMetaData(s.mem[p - 2].val, t.bytesNonObjptrs, t.numObjptrs);
      case StackTag =>
        metaDataBytes, objectBytes := STACK_METADATA_SIZE, STACK_STRUCT_SIZE + s.mem[p + 2].val;
    }
  }

  // The first word of object o as the heap walkers meet it, its header in place or
  // not: a zero word exactly if o is a sequence, whose counter it is.
  predicate StartWord(env: Env, m: Memory, o: Obj) {
    && o.front < |m| && o.p == o.front + MetaWords(TagOf(env, o))
    && (m[o.front] == Bits(0) <==> TagOf(env, o) == SequenceTag)
  }

  lemma StartWordIntro(env: Env, m: Memory, o: Obj)
    requires o.front < |m| && o.p == o.front + MetaWords(TagOf(env, o))
    requires m[o.front] == Bits(0) <==> TagOf(env, o) == SequenceTag
    ensures StartWord(env, m, o)
  {
  }

  // advanceToObjectData finds the data pointer of the object at front.
  method AdvanceToObjectData(s: GCState, front: nat, ghost o: Obj) returns (p: nat)
    requires o.front == front && StartWord(s.env, s.mem[..], o)
    ensures p == o.p
  {
    if s.mem[front] == Bits(0) { p := front + 3; } else { p := front + 1; }
  }
}
