// GC_memmove and GC_memcpy, word by word.

module MemoryCopy {
  import opened Layout
  import opened State

  // Memory after the words of [src, src + size) were copied to dst.
  function Copied(m: Memory, src: nat, dst: nat, size: nat): (m': Memory)
    ensures |m'| == |m|
  {
    if dst + size <= |m| && src + size <= |m| then m[..dst] + m[src..src + size] + m[dst + size..] else m
  }

  lemma CopiedAt(m: Memory, src: nat, dst: nat, size: nat, a: nat)
    requires dst + size <= |m| && src + size <= |m| && a < |m|
    ensures Copied(m, src, dst, size)[a] == if dst <= a < dst + size then m[a - dst + src] else m[a]
  {
  }

  lemma CopiedNext(m: Memory, src: nat, dst: nat, i: nat)
    requires dst + i < |m| && src + i < |m| && (dst <= src || dst >= src + i + 1)
    ensures Copied(m, src, dst, i)[src + i] == m[src + i]
    ensures Copied(m, src, dst, i)[dst + i := m[src + i]] == Copied(m, src, dst, i + 1)
  {
  }

  lemma CopiedNone(m: Memory, src: nat, dst: nat)
    requires src <= |m| && dst <= |m|
    ensures Copied(m, src, dst, 0) == m
  {
  }

  // Right for a destination at or below the source, and for one beyond it.
  method MoveWords(s: GCState, src: nat, dst: nat, size: nat)
    requires src + size <= s.mem.Length && dst + size <= s.mem.Length
    requires dst <= src || src + size <= dst
    modifies s.mem
    ensures s.mem[..] == Copied(old(s.mem[..]), src, dst, size)
  {
    hide Copied;
    ghost var m := s.mem[..];
    CopiedNone(m, src, dst);
    for i := 0 to size
      invariant s.mem[..] == Copied(m, src, dst, i)
    {
      CopiedNext(m, src, dst, i);
      s.Store(dst + i, s.mem[src + i]);
    }
  }
}
