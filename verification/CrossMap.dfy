// The cross map: for each card of the old generation, the last place in the
// card where an object starts.  updateCrossMap extends it incrementally;
// isCrossMapOk says from scratch what it should hold.

module CrossMap {
  import opened Layout
  import opened Heap
  import opened State
  import opened ObjectSize
  import opened Tiling
  import opened Cursor

  const CARD_WORDS: nat := 32
  const CROSS_MAP_EMPTY: nat := 255

  class GenerationalMaps {
    const cardMap: array<bool>
    const crossMap: array<nat>
    var crossMapValidSize: nat

    constructor (cardMap: array<bool>, crossMap: array<nat>)
      ensures this.cardMap == cardMap && this.crossMap == crossMap && crossMapValidSize == 0
    {
      this.cardMap, this.crossMap, crossMapValidSize := cardMap, crossMap, 0;
    }
  }

  // sizeToCardMapIndex and cardMapIndexToSize, in words.
  function SizeToCard(z: nat): nat { z / CARD_WORDS }
  function CardToSize(k: nat): nat { k * CARD_WORDS }

  // A boundary at the start of a card belongs to the card before it, except at
  // the start of the heap (getCrossMapCardStart).
  function CardOf(z: nat): nat { if z == 0 then 0 else SizeToCard(z - 1) }

  // The offset of boundary z in its card, as a map entry: bytes divided by four.
  function Offset(z: nat): nat { 2 * (z - CardToSize(CardOf(z))) }

  // Boundary i of the old generation, measured from its start.
  function Boundary(objs: seq<Obj>, start: nat, end: nat, i: nat): nat {
    var b := if i < |objs| then objs[i].front else end;
    if b >= start then b - start else 0
  }

  // Entry k as isCrossMapOk computes it, walking boundaries 0 to n.
  function Entry(objs: seq<Obj>, start: nat, end: nat, k: nat, n: nat): nat {
    if CardOf(Boundary(objs, start, end, n)) == k then Offset(Boundary(objs, start, end, n))
    else if n == 0 then CROSS_MAP_EMPTY
    else Entry(objs, start, end, k, n - 1)
  }

  // The map is right for the objects up to boundary n: below the card of that
  // boundary it holds the entries, above that card nothing.
  ghost predicate MapOk(objs: seq<Obj>, start: nat, end: nat, n: nat, map_: seq<nat>, validSize: nat) {
    && n <= |objs| && validSize == Boundary(objs, start, end, n)
    && (forall k: nat :: k < |map_| && k < CardOf(validSize) ==> map_[k] == Entry(objs, start, end, k, n))
    && (forall k: nat :: k < |map_| && k > CardOf(validSize) ==> map_[k] == CROSS_MAP_EMPTY)
  }

  // ---------------------------------------------------------------- arithmetic

  lemma CardBounds(z: nat)
    ensures CardToSize(CardOf(z)) <= z <= CardToSize(CardOf(z)) + CARD_WORDS
    ensures z > 0 ==> CardToSize(CardOf(z)) < z
    ensures Offset(z) <= 64
  {
  }

  lemma CardMono(y: nat, z: nat)
    requires y <= z
    ensures CardOf(y) <= CardOf(z)
  {
  }

  // Beyond the end of its card, a boundary is in a later card.
  lemma NextCard(y: nat, z: nat)
    requires y <= z
    ensures z > CardToSize(CardOf(y)) + CARD_WORDS <==> CardOf(y) < CardOf(z)
  {
  }

  lemma BoundaryAt(objs: seq<Obj>, start: nat, end: nat, i: nat)
    requires Tiles(objs, start, end) && i <= |objs|
    ensures start <= end && start + Boundary(objs, start, end, i) <= end
    ensures Boundary(objs, start, end, 0) == 0 && Boundary(objs, start, end, |objs|) == end - start
    ensures i < |objs| ==>
      && start + Boundary(objs, start, end, i) == objs[i].front
      && start + Boundary(objs, start, end, i + 1) == objs[i].end
      && Boundary(objs, start, end, i) < Boundary(objs, start, end, i + 1)
    ensures start + Boundary(objs, start, end, i) == end <==> i == |objs|
  {
    if i < |objs| {
      TileBounds(objs, start, end, i);
      if i + 1 < |objs| { TileBounds(objs, start, end, i + 1); }
    }
    if |objs| > 0 { TileBounds(objs, start, end, 0); }
  }

  lemma {:induction false} BoundaryMono(objs: seq<Obj>, start: nat, end: nat, i: nat, j: nat)
    requires Tiles(objs, start, end) && i <= j <= |objs|
    ensures Boundary(objs, start, end, i) <= Boundary(objs, start, end, j)
    decreases j
  {
    hide Tiles, Boundary;
    if i < j {
      BoundaryMono(objs, start, end, i, j - 1);
      BoundaryAt(objs, start, end, j - 1);
    }
  }

  // -------------------------------------------------------- what an entry means

  // An entry is empty exactly when no boundary lies in the card; otherwise it
  // is the offset of the last one that does.
  lemma {:induction false} EntryMeans(objs: seq<Obj>, start: nat, end: nat, k: nat, n: nat)
    requires Tiles(objs, start, end) && n <= |objs|
    ensures Entry(objs, start, end, k, n) == CROSS_MAP_EMPTY <==> forall i: nat :: i <= n ==>
      CardOf(Boundary(objs, start, end, i)) != k
    ensures Entry(objs, start, end, k, n) != CROSS_MAP_EMPTY ==>
      exists i: nat :: i <= n && CardOf(Boundary(objs, start, end, i)) == k
        && Entry(objs, start, end, k, n) == Offset(Boundary(objs, start, end, i))
        && forall j: nat :: i < j <= n ==> CardOf(Boundary(objs, start, end, j)) != k
  {
    hide Tiles, Boundary, CardOf, Offset;
    CardBounds(Boundary(objs, start, end, n));
    if CardOf(Boundary(objs, start, end, n)) == k {
    } else if n > 0 {
      EntryMeans(objs, start, end, k, n - 1);
      if Entry(objs, start, end, k, n) != CROSS_MAP_EMPTY {
        var i: nat :| i <= n - 1 && CardOf(Boundary(objs, start, end, i)) == k
          && Entry(objs, start, end, k, n - 1) == Offset(Boundary(objs, start, end, i))
          && forall j: nat :: i < j <= n - 1 ==> CardOf(Boundary(objs, start, end, j)) != k;
        assert forall j: nat :: i < j <= n ==> CardOf(Boundary(objs, start, end, j)) != k;
      }
    }
  }

  // Later boundaries do not touch the entries of earlier cards.
  lemma EntryStays(objs: seq<Obj>, start: nat, end: nat, k: nat, n: nat)
    requires n < |objs| && CardOf(Boundary(objs, start, end, n + 1)) != k
    ensures Entry(objs, start, end, k, n + 1) == Entry(objs, start, end, k, n)
  {
  }

  lemma EntryHere(objs: seq<Obj>, start: nat, end: nat, n: nat)
    ensures Entry(objs, start, end, CardOf(Boundary(objs, start, end, n)), n) == Offset(Boundary(objs, start, end, n))
  {
  }

  lemma {:induction false} EntryNone(objs: seq<Obj>, start: nat, end: nat, k: nat, n: nat)
    requires Tiles(objs, start, end) && n <= |objs| && k > CardOf(Boundary(objs, start, end, n))
    ensures Entry(objs, start, end, k, n) == CROSS_MAP_EMPTY
  {
    hide Tiles, Boundary, CardOf, Offset;
    if n > 0 {
      BoundaryMono(objs, start, end, n - 1, n);
      CardMono(Boundary(objs, start, end, n - 1), Boundary(objs, start, end, n));
      EntryNone(objs, start, end, k, n - 1);
    }
  }

  // ------------------------------------------------------------------ the steps

  // The next object stays in the card.
  lemma SameCardStep(objs: seq<Obj>, start: nat, end: nat, n: nat, map_: seq<nat>)
    requires Tiles(objs, start, end) && n < |objs|
    requires MapOk(objs, start, end, n, map_, Boundary(objs, start, end, n))
    requires CardOf(Boundary(objs, start, end, n + 1)) == CardOf(Boundary(objs, start, end, n))
    ensures MapOk(objs, start, end, n + 1, map_, Boundary(objs, start, end, n + 1))
  {
    hide Tiles, Boundary, CardOf, Offset, Entry;
    forall k: nat | k < |map_| && k < CardOf(Boundary(objs, start, end, n + 1))
      ensures map_[k] == Entry(objs, start, end, k, n + 1)
    {
      EntryStays(objs, start, end, k, n);
    }
  }

  // The next object ends in a later card: the entry of this card is final.
  lemma NextCardStep(objs: seq<Obj>, start: nat, end: nat, n: nat, map_: seq<nat>)
    requires Tiles(objs, start, end) && n < |objs|
    requires MapOk(objs, start, end, n, map_, Boundary(objs, start, end, n))
    requires CardOf(Boundary(objs, start, end, n)) < CardOf(Boundary(objs, start, end, n + 1)) < |map_|
    ensures MapOk(objs, start, end, n + 1,
      map_[CardOf(Boundary(objs, start, end, n)) := Offset(Boundary(objs, start, end, n))],
      Boundary(objs, start, end, n + 1))
  {
    hide Tiles, Boundary, CardOf, Offset, Entry;
    var c := CardOf(Boundary(objs, start, end, n));
    var map' := map_[c := Offset(Boundary(objs, start, end, n))];
    forall k: nat | k < |map'| && k < CardOf(Boundary(objs, start, end, n + 1))
      ensures map'[k] == Entry(objs, start, end, k, n + 1)
    {
      EntryStays(objs, start, end, k, n);
      if k == c { EntryHere(objs, start, end, n); }
      else if k > c { EntryNone(objs, start, end, k, n); }
    }
  }

  // What is stored for the last card does not matter.
  lemma LastCardStep(objs: seq<Obj>, start: nat, end: nat, n: nat, map_: seq<nat>, v: nat)
    requires MapOk(objs, start, end, n, map_, Boundary(objs, start, end, n))
    requires CardOf(Boundary(objs, start, end, n)) < |map_|
    ensures MapOk(objs, start, end, n, map_[CardOf(Boundary(objs, start, end, n)) := v], Boundary(objs, start, end, n))
  {
    hide Boundary, CardOf, Entry;
  }

  // The entry stored for the last card: the cast to one byte comes first.
  function LastEntry(z: nat): nat {
    (8 * (z - CardToSize(CardOf(z)))) % 256 / 4
  }

  // It is right exactly when the old generation does not end on a card boundary.
  lemma LastEntryRight(z: nat)
    requires z > 0
    ensures LastEntry(z) == Offset(z) <==> z % CARD_WORDS != 0
    ensures LastEntry(z) != Offset(z) ==> LastEntry(z) == 0
  {
  }

  // Every object of the old generation can be read.
  ghost predicate Walkable(env: Env, m: Memory, objs: seq<Obj>, start: nat, end: nat) {
    && Tiles(objs, start, end) && end <= |m|
    && (forall i :: 0 <= i < |objs| ==> IsO(env, m, objs[i]) && Clean(env, m, objs[i]))
  }

  lemma WalkAt(env: Env, m: Memory, objs: seq<Obj>, start: nat, end: nat, i: nat)
    requires Walkable(env, m, objs, start, end) && i < |objs|
    ensures var o := objs[i];
      && IsO(env, m, o) && Clean(env, m, o) && ValidEnv(env)
      && 0 < o.front < o.p <= o.end <= |m| && m[o.p - 1].Header? && m[o.p - 1].ty == o.ty
      && IsObject(env, m[o.p - 1 := m[o.p - 1]], o)
      && StartWord(env, m, o)
  {
    hide Tiles, ValidEnv, SlotsOf, DataWords, SizeFieldsOk;
    var o := objs[i];
    assert m[o.p - 1 := m[o.p - 1]] == m;
  }

  // The size of the object at front, in words.
  method SizeofObjectAt(s: GCState, front: nat, ghost objs: seq<Obj>, ghost start: nat, ghost end: nat, ghost i: nat)
    returns (size: nat)
    requires Walkable(s.env, s.mem[..], objs, start, end) && i < |objs| && objs[i].front == front
    ensures size == objs[i].end - front
  {
    hide *;
    WalkAt(s.env, s.mem[..], objs, start, end, i);
    var p := AdvanceToObjectData(s, front, objs[i]);
    var metaDataBytes, objectBytes := SizeofObjectAux(s, p, s.mem[p - 1], objs[i]);
    size := (metaDataBytes + objectBytes) / 8;
  }

  // updateCrossMap.  n0 objects were seen by the last update.
  method UpdateCrossMap(s: GCState, g: GenerationalMaps, ghost objs: seq<Obj>, ghost n0: nat)
    requires Walkable(s.env, s.mem[..], objs, s.start, s.start + s.oldGenSize)
    requires MapOk(objs, s.start, s.start + s.oldGenSize, n0, g.crossMap[..], g.crossMapValidSize)
    requires s.oldGenSize <= CardToSize(g.crossMap.Length)
    modifies g.crossMap, g`crossMapValidSize
    ensures MapOk(objs, s.start, s.start + s.oldGenSize, |objs|, g.crossMap[..], g.crossMapValidSize)
    ensures g.crossMapValidSize == s.oldGenSize
    ensures n0 < |objs| ==>
      CardOf(s.oldGenSize) < g.crossMap.Length && g.crossMap[CardOf(s.oldGenSize)] == LastEntry(s.oldGenSize)
  {
    hide *;
    ghost var start, end := s.start, s.start + s.oldGenSize;
    WalkTiles(s.env, s.mem[..], objs, start, end);
    MapOkIs(objs, start, end, n0, g.crossMap[..], g.crossMapValidSize);
    BoundaryAt(objs, start, end, n0);
    BoundaryAt(objs, start, end, |objs|);
    if g.crossMapValidSize == s.oldGenSize {
      return;
    }
    var oldGenEnd := s.start + s.oldGenSize;
    var objectStart := s.start + g.crossMapValidSize;
    CardMapFits(s.oldGenSize, g.crossMap.Length);
    CardIs(g.crossMapValidSize);
    var cardIndex := if objectStart == s.start then 0 else SizeToCard(objectStart - s.start - 1);
    var cardStart := s.start + CardToSize(cardIndex);
    CardConstants();
    var cardEnd := cardStart + CARD_WORDS;
    ghost var n := n0;
    while objectStart < oldGenEnd
      invariant n0 <= n <= |objs| && objectStart == start + Boundary(objs, start, end, n)
      invariant MapOk(objs, start, end, n, g.crossMap[..], Boundary(objs, start, end, n))
      invariant cardIndex == CardOf(Boundary(objs, start, end, n)) && cardStart == start + CardToSize(cardIndex) &&
        cardEnd == cardStart + CARD_WORDS
      decreases |objs| - n
    {
      BoundaryAt(objs, start, end, n);
      BoundaryAt(objs, start, end, n + 1);
      ghost var y, z := Boundary(objs, start, end, n), Boundary(objs, start, end, n + 1);
      NextCard(y, z);
      CardMono(y, z);
      CardMono(z, s.oldGenSize);
      CardMapFits(s.oldGenSize, g.crossMap.Length);
      CardBounds(y);
      OffsetIs(y);
      CardIs(z);
      var size := SizeofObjectAt(s, objectStart, objs, start, end, n);
      var nextObject := objectStart + size;
      if nextObject > cardEnd {
        NextCardStep(objs, start, end, n, g.crossMap[..]);
        var offset := 8 * (objectStart - cardStart) / 4;
        g.crossMap[cardIndex] := offset;
        cardIndex := SizeToCard(nextObject - s.start - 1);
        cardStart := s.start + CardToSize(cardIndex);
        cardEnd := cardStart + CARD_WORDS;
      } else {
        SameCardStep(objs, start, end, n, g.crossMap[..]);
      }
      objectStart := nextObject;
      n := n + 1;
    }
    BoundaryAt(objs, start, end, n);
    CardBounds(s.oldGenSize);
    CardMapFits(s.oldGenSize, g.crossMap.Length);
    LastCardStep(objs, start, end, n, g.crossMap[..], LastEntry(s.oldGenSize));
    LastEntryIs(s.oldGenSize);
    g.crossMap[cardIndex] := 8 * (oldGenEnd - cardStart) % 256 / 4;
    g.crossMapValidSize := s.oldGenSize;
  }

  lemma WalkTiles(env: Env, m: Memory, objs: seq<Obj>, start: nat, end: nat)
    requires Walkable(env, m, objs, start, end)
    ensures Tiles(objs, start, end) && end <= |m|
  {
    hide Tiles, IsO, Clean;
  }

  lemma MapOkIs(objs: seq<Obj>, start: nat, end: nat, n: nat, map_: seq<nat>, validSize: nat)
    requires MapOk(objs, start, end, n, map_, validSize)
    ensures n <= |objs| && validSize == Boundary(objs, start, end, n)
  {
  }

  lemma CardMapFits(size: nat, length: nat)
    requires size <= CardToSize(length)
    ensures size > 0 ==> CardOf(size) < length
  {
  }

  lemma CardConstants()
    ensures CARD_WORDS == 32
  {
  }

  lemma CardIs(z: nat)
    ensures CardOf(z) == if z == 0 then 0 else SizeToCard(z - 1)
  {
  }

  lemma OffsetIs(z: nat)
    requires CardToSize(CardOf(z)) <= z
    ensures Offset(z) == 8 * (z - CardToSize(CardOf(z))) / 4
  {
  }

  lemma LastEntryIs(z: nat)
    requires CardToSize(CardOf(z)) <= z
    ensures LastEntry(z) == 8 * (z - CardToSize(CardOf(z))) % 256 / 4
  {
  }

  // clearCrossMap: an empty map is right for an old generation of which nothing
  // was seen.
  method ClearCrossMap(g: GenerationalMaps, ghost objs: seq<Obj>, ghost start: nat, ghost end: nat)
    requires Tiles(objs, start, end)
    modifies g.crossMap, g`crossMapValidSize
    ensures MapOk(objs, start, end, 0, g.crossMap[..], g.crossMapValidSize)
  {
    BoundaryAt(objs, start, end, 0);
    g.crossMapValidSize := 0;
    for i := 0 to g.crossMap.Length
      invariant g.crossMapValidSize == 0
      invariant forall k :: 0 <= k < i ==> g.crossMap[k] == CROSS_MAP_EMPTY
    {
      g.crossMap[i] := CROSS_MAP_EMPTY;
    }
  }

  // Extending the old generation does not change what was right before.
  lemma MapOkExtends(objs: seq<Obj>, more: seq<Obj>, start: nat, mid: nat, end: nat, n: nat, map_: seq<nat>,
          validSize: nat)
    requires Tiles(objs, start, mid) && Tiles(objs + more, start, end)
    requires MapOk(objs, start, mid, n, map_, validSize)
    ensures MapOk(objs + more, start, end, n, map_, validSize)
  {
    hide Tiles, Entry, Offset, CardOf;
    SameBoundary(objs, more, start, mid, end, n);
    forall k: nat | k < |map_| && k < CardOf(validSize)
      ensures map_[k] == Entry(objs + more, start, end, k, n)
    {
      SameEntry(objs, more, start, mid, end, k, n);
    }
  }

  lemma SameBoundary(objs: seq<Obj>, more: seq<Obj>, start: nat, mid: nat, end: nat, i: nat)
    requires Tiles(objs, start, mid) && Tiles(objs + more, start, end) && i <= |objs|
    ensures Boundary(objs + more, start, end, i) == Boundary(objs, start, mid, i)
  {
    if i == |objs| {
      if |more| > 0 && |objs| > 0 {
        assert (objs + more)[|objs| - 1].end == (objs + more)[|objs|].front;
      }
    }
  }

  lemma {:induction false} SameEntry(objs: seq<Obj>, more: seq<Obj>, start: nat, mid: nat, end: nat, k: nat, n: nat)
    requires Tiles(objs, start, mid) && Tiles(objs + more, start, end) && n <= |objs|
    ensures Entry(objs + more, start, end, k, n) == Entry(objs, start, mid, k, n)
  {
    hide Tiles, Boundary, Offset, CardOf;
    SameBoundary(objs, more, start, mid, end, n);
    if n > 0 { SameEntry(objs, more, start, mid, end, k, n - 1); }
  }
}
