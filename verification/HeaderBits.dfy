// Object headers as bits.  A header is 1 | type index << 1 | counter << 20 | mark
// bit, with 19 bits of type index and 11 of counter; the memory model's word
// `Header(ty, counter, mark)` stands for it.  The masks written out here are
// TYPE_INDEX_MASK 0x000FFFFE, COUNTER_MASK 0x7FF00000 and MARK_MASK 0x80000000.

module HeaderBits {
  import opened Layout

  // Reading back the parts of a header: the valid bit, the type index, the counter
  // and the mark.
  lemma ReadParts(ty: bv64, counter: bv64, mark: bv64)
    requires ty < 0x8_0000 && counter < 0x800 && (mark == 0 || mark == 0x8000_0000)
    ensures var h := 1 | (ty << 1) | (counter << 20) | mark; h & 1 == 1 && h & 0xFFFF_FFFF_0000_0000 == 0
    ensures var h := 1 | (ty << 1) | (counter << 20) | mark; (h & 0x000F_FFFE) >> 1 == ty
    ensures var h := 1 | (ty << 1) | (counter << 20) | mark; (h & 0x7FF0_0000) >> 20 == counter
    ensures var h := 1 | (ty << 1) | (counter << 20) | mark; h & 0x8000_0000 == mark
  {
  }

  // Every odd word with its upper half clear is the header of its parts.
  lemma PartsMakeHeader(h: bv64)
    requires h & 1 == 1 && h & 0xFFFF_FFFF_0000_0000 == 0
    ensures (h & 0x000F_FFFE) >> 1 < 0x8_0000 && (h & 0x7FF0_0000) >> 20 < 0x800
    ensures h & 0x8000_0000 == 0 || h & 0x8000_0000 == 0x8000_0000
    ensures 1 | (((h & 0x000F_FFFE) >> 1) << 1) | (((h & 0x7FF0_0000) >> 20) << 20) | (h & 0x8000_0000) == h
  {
  }

  // header ^ MARK_MASK flips the mark and nothing else.
  lemma FlipMark(ty: bv64, counter: bv64, mark: bv64)
    requires ty < 0x8_0000 && counter < 0x800 && (mark == 0 || mark == 0x8000_0000)
    ensures (1 | (ty << 1) | (counter << 20) | mark) ^ 0x8000_0000 ==
      1 | (ty << 1) | (counter << 20) | (mark ^ 0x8000_0000)
  {
  }

  // (header & ~COUNTER_MASK) | (index << COUNTER_SHIFT) sets the counter and
  // nothing else.
  lemma SetCounter(ty: bv64, counter: bv64, mark: bv64, index: bv64)
    requires ty < 0x8_0000 && counter < 0x800 && index < 0x800 && (mark == 0 || mark == 0x8000_0000)
    ensures ((1 | (ty << 1) | (counter << 20) | mark) & !0x7FF0_0000) | (index << 20) ==
      1 | (ty << 1) | (index << 20) | mark
  {
  }

  // header & ~MARK_MASK clears the mark and nothing else.
  lemma ClearMark(ty: bv64, counter: bv64, mark: bv64)
    requires ty < 0x8_0000 && counter < 0x800 && (mark == 0 || mark == 0x8000_0000)
    ensures (1 | (ty << 1) | (counter << 20) | mark) & !0x8000_0000 == 1 | (ty << 1) | (counter << 20)
  {
  }

  // ---------------------------------------------------------- headers of the model

  function TypePart(h: bv64): bv64 { (h & 0x000F_FFFE) >> 1 }

  function CounterPart(h: bv64): bv64 { (h & 0x7FF0_0000) >> 20 }

  predicate Marked(h: bv64) { h & 0x8000_0000 != 0 }

  predicate IsHeader(h: bv64) { h & 1 == 1 && h & 0xFFFF_FFFF_0000_0000 == 0 }

  // The bits h are those of the header word w of the memory model.
  ghost predicate BitsOf(h: bv64, w: Word) {
    && w.Header?
    && IsHeader(h)
    && TypePart(h) as int == w.ty
    && CounterPart(h) as int == w.counter
    && Marked(h) == w.mark
  }

  lemma FlipParts(h: bv64)
    ensures IsHeader(h ^ 0x8000_0000) == IsHeader(h) && Marked(h ^ 0x8000_0000) != Marked(h)
    ensures TypePart(h ^ 0x8000_0000) == TypePart(h) && CounterPart(h ^ 0x8000_0000) == CounterPart(h)
  {
  }

  lemma SetParts(h: bv64, index: bv64)
    requires index < 0x800
    ensures var k := (h & !0x7FF0_0000) | (index << 20); IsHeader(k) == IsHeader(h) && Marked(k) == Marked(h)
    ensures var k := (h & !0x7FF0_0000) | (index << 20); TypePart(k) == TypePart(h) && CounterPart(k) == index
  {
  }

  // What the collectors do to the bits is what the model does to the word: the
  // mark is flipped, the counter is set, and nothing else changes.
  lemma MarkUpdate(h: bv64, w: Word)
    requires BitsOf(h, w)
    ensures BitsOf(h ^ 0x8000_0000, w.(mark := !w.mark))
  {
    hide IsHeader, TypePart, CounterPart, Marked;
    FlipParts(h);
  }

  lemma CounterUpdate(h: bv64, w: Word, index: bv64)
    requires BitsOf(h, w) && index < 0x800
    ensures BitsOf((h & !0x7FF0_0000) | (index << 20), w.(counter := index as int))
  {
    hide IsHeader, TypePart, CounterPart, Marked;
    SetParts(h, index);
  }
}
