// The sizes that every collector computes before it copies or slides an object.

module CopySizes {
  import opened Layout
  import opened State
  import opened ObjectSize
  import opened StackSize
  import opened StackObject
  import opened Cursor

  // In words: the metadata, the part to copy, what follows it in the old
  // object, and what the object gives back; and a stack's new reserved size.
  // m0 is memory before the collection.
  method SizesToCopy(s: GCState, p: nat, header: Word, currentStack: nat, ghost m0: Memory, ghost o: Obj)
    returns (metaData: nat, size: nat, skipFront: nat, skipGap: nat, reservedNew: nat)
    requires IsO(s.env, s.mem[..], o) && o.p == p && 0 < p <= s.mem.Length && header == s.mem[p - 1]
    requires FramesBounded(s.env, s.stackControls)
    requires IsStack(s.env, o) ==> StackInfoOf(s.env, s.mem[..], p) == StackInfoOf(s.env, m0, p)
    ensures o.front <= p && metaData == p - o.front
    ensures size == CopiedEnd(s.env, m0, o) - o.front && size + skipFront == o.end - o.front
    ensures skipGap == WordsSaved(s.env, s.stackControls, m0, currentStack, o)
    ensures IsStack(s.env, o) ==> reservedNew == ReservedAfter(s.env, s.stackControls, m0, currentStack, p)
  {
    hide ShrinkReserved, FramesBounded;
    var t := s.env.types[header.ty];
    assert TagOf(s.env, o) == t.tag;
    assert o.p == o.front + MetaWords(t.tag);
    if t.tag == StackTag {
      StackFields(s.env, s.stackControls, s.mem[..], o, currentStack);
      var info := StackInfoOf(s.env, s.mem[..], p);
      reservedNew := ShrinkReserved(s.stackControls, info, p == currentStack);
      metaData := 1;
      size := 1 + STACK_STRUCT_WORDS + info.used / 8;
      skipFront := (info.reserved - info.used) / 8;
      skipGap := (info.reserved - reservedNew) / 8;
    } else {
      var metaDataBytes, objectBytes := SizeofObjectAux(s, p, header, o);
      metaData, size, skipFront, skipGap, reservedNew := metaDataBytes / 8, (metaDataBytes + objectBytes) / 8, 0, 0, 0;
    }
  }
}
