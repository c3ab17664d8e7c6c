// Alignment arithmetic and metadata sizes, in bytes.

module Align {

  // align and alignDown, for a power of two b.
  function AlignTo(a: nat, b: nat): nat
    requires b > 0
  {
    (a + b - 1) / b * b
  }

  const ALIGNMENT: nat := 8
  const SEQUENCE_METADATA_SIZE: nat := 24
  const NORMAL_METADATA_SIZE: nat := 8
  const STACK_METADATA_SIZE: nat := 8
  const STACK_STRUCT_SIZE: nat := 32

  function AlignWithExtra(bytes: nat, extra: nat): int {
    AlignTo(bytes + extra, ALIGNMENT) - extra
  }

  function SizeofSequenceNoMetaData(len: nat, bytesNonObjptrs: nat, numObjptrs: nat): int {
    AlignWithExtra(len * (bytesNonObjptrs + numObjptrs * 8), SEQUENCE_METADATA_SIZE)
  }

  lemma SequenceBytes(len: nat, bytesNonObjptrs: nat, numObjptrs: nat)
    ensures SizeofSequenceNoMetaData(len, bytesNonObjptrs, numObjptrs)
         == 8 * ((len * (bytesNonObjptrs + 8 * numObjptrs) + 7) / 8)
  {
    var n := len * (bytesNonObjptrs + 8 * numObjptrs);
    assert len * (bytesNonObjptrs + numObjptrs * 8) == n;
    assert (n + 24 + 7) / 8 == (n + 7) / 8 + 3;
  }
}
