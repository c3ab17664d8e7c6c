// The size computation of GC_sequenceAllocate, in 64-bit arithmetic that wraps.

module SequenceSize {
  import opened Align
  import opened Modular
  import opened MapSizes

  const WRAP: nat := 0x1_0000_0000_0000_0000

  function Wrap(n: nat): nat { n % WRAP }

  // The exact size of a sequence in the heap, with its metadata.
  function ExactSize(numElements: nat, bytesPerElement: nat): nat {
    AlignTo(numElements * bytesPerElement + SEQUENCE_METADATA_SIZE, ALIGNMENT)
  }

  // The checks fail exactly when the exact size is no 64-bit number; otherwise it
  // is the size, and what the heap walkers compute for the new sequence.
  method SequenceSizeAligned(numElements: nat, bytesNonObjptrs: nat, numObjptrs: nat)
    returns (overflow: bool, sequenceSizeAligned: nat)
    requires numElements <= SIZE_MAX && bytesNonObjptrs < 0x1_0000 && numObjptrs < 0x1_0000
    ensures overflow <==> ExactSize(numElements, bytesNonObjptrs + numObjptrs * 8) > SIZE_MAX
    ensures !overflow ==> sequenceSizeAligned == ExactSize(numElements, bytesNonObjptrs + numObjptrs * 8)
    ensures !overflow ==>
      sequenceSizeAligned == SizeofSequenceNoMetaData(numElements, bytesNonObjptrs, numObjptrs) + SEQUENCE_METADATA_SIZE
    ensures !overflow ==> sequenceSizeAligned % ALIGNMENT == 0
  {
    hide AlignTo, Wrap, ExactSize, SizeofSequenceNoMetaData;
    sequenceSizeAligned := 0;
    var bytesPerElement := bytesNonObjptrs + numObjptrs * 8;
    Exact(numElements, bytesNonObjptrs, numObjptrs);
    if bytesPerElement > 0 && numElements > SIZE_MAX / bytesPerElement {
      TooMany(numElements, bytesPerElement);
      return true, 0;
    }
    NotTooMany(numElements, bytesPerElement);
    var sequenceSize := Wrap(bytesPerElement * numElements);
    if sequenceSize > SIZE_MAX - SEQUENCE_METADATA_SIZE { return true, 0; }
    sequenceSize := sequenceSize + SEQUENCE_METADATA_SIZE;
    sequenceSizeAligned := AlignDown(Wrap(sequenceSize + ALIGNMENT - 1), ALIGNMENT);
    WrappedAlign(sequenceSize);
    if sequenceSizeAligned < sequenceSize { return true, 0; }
    return false, sequenceSizeAligned;
  }

  lemma Exact(n: nat, bytesNonObjptrs: nat, numObjptrs: nat)
    ensures var b := bytesNonObjptrs + numObjptrs * 8;
      && n * b >= 0 && n * b == b * n
      && ExactSize(n, b) == AlignTo(n * b + SEQUENCE_METADATA_SIZE, ALIGNMENT) >= n * b + SEQUENCE_METADATA_SIZE
      && SizeofSequenceNoMetaData(n, bytesNonObjptrs, numObjptrs) + SEQUENCE_METADATA_SIZE == ExactSize(n, b)
      && ExactSize(n, b) % ALIGNMENT == 0
  {
    var b := bytesNonObjptrs + numObjptrs * 8;
    Commute(n, b);
    AlignIs(n * b + SEQUENCE_METADATA_SIZE, ALIGNMENT);
  }

  lemma TooMany(n: nat, b: nat)
    requires b > 0 && n > SIZE_MAX / b
    ensures n * b > SIZE_MAX
  {
    DivMod(SIZE_MAX, b);
    MulLess(b, SIZE_MAX / b, n);
    Commute(n, b);
  }

  lemma NotTooMany(n: nat, b: nat)
    requires b == 0 || n <= SIZE_MAX / b
    ensures 0 <= b * n <= SIZE_MAX && Wrap(b * n) == b * n
  {
    if b > 0 {
      DivMod(SIZE_MAX, b);
      Scaled(b, n, SIZE_MAX / b);
    }
    SmallMod(b * n, WRAP);
  }

  // Aligning wraps exactly when the aligned size is no 64-bit number, and then the
  // result is too small.
  lemma WrappedAlign(size: nat)
    requires size <= SIZE_MAX
    ensures AlignTo(size, ALIGNMENT) <= SIZE_MAX ==>
      AlignDown(Wrap(size + ALIGNMENT - 1), ALIGNMENT) == AlignTo(size, ALIGNMENT)
    ensures AlignTo(size, ALIGNMENT) > SIZE_MAX ==> AlignDown(Wrap(size + ALIGNMENT - 1), ALIGNMENT) < size
    ensures AlignTo(size, ALIGNMENT) >= size
  {
  }
}
