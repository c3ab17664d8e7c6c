// forwardInterGenerationalObjptrs: visit every object on a marked card, in
// address order and once, using the cross map to find where objects start.

module CardScan {
  import opened Layout
  import opened Heap
  import opened State
  import opened ObjectSize
  import opened Tiling
  import opened Foreach
  import opened Cursor
  import opened CrossMap
  import opened Collection
  import opened Copying
  import opened CopyStep
  import opened CopyScan
  import opened Forward
  import opened Cheney
  import opened OldScan

  // All roots up to the slots of old object u are done.
  ghost predicate Visited(t: Setting, globals: seq<nat>, old_: seq<Obj>, u: nat, st: Copy, m: Memory, w: nat) {
    && Copies(t, st, m, w) && st.n == 0 && st.k == 0
    && u <= |old_| && st.r == |globals| + |OldSlots(old_, u)|
  }

  lemma VisitedParts(t: Setting, globals: seq<nat>, old_: seq<Obj>, u: nat, st: Copy, m: Memory, w: nat)
    requires Visited(t, globals, old_, u, st, m, w)
    ensures Copies(t, st, m, w) && st.n == 0 && st.k == 0 && u <= |old_| && st.r == |globals| + |OldSlots(old_, u)|
    ensures Elsewhere(t, m) && |m| == |t.c.m|
  {
    hide *;
    VisitedIs(t, globals, old_, u, st, m, w);
    CopiesParts(t, st, m, w);
  }

  lemma VisitedIs(t: Setting, globals: seq<nat>, old_: seq<Obj>, u: nat, st: Copy, m: Memory, w: nat)
    requires Visited(t, globals, old_, u, st, m, w)
    ensures Copies(t, st, m, w) && st.n == 0 && st.k == 0 && u <= |old_| && st.r == |globals| + |OldSlots(old_, u)|
  {
    hide Copies, OldSlots;
  }

  lemma VisitedIntro(t: Setting, globals: seq<nat>, old_: seq<Obj>, u: nat, st: Copy, m: Memory, w: nat)
    requires Copies(t, st, m, w) && st.n == 0 && st.k == 0 && u <= |old_| && st.r == |globals| + |OldSlots(old_, u)|
    ensures Visited(t, globals, old_, u, st, m, w)
  {
    hide Copies, OldSlots;
  }

  lemma VisitedOn(t: Setting, globals: seq<nat>, cards: seq<bool>, old_: seq<Obj>, start: nat, end: nat, u: nat, v: nat,
          k: nat, st: Copy, m: Memory, w: nat)
    returns (st': Copy)
    requires MinorOk(t, globals, old_, start, end) && CardsOk(t.c, cards, old_, start, end)
    requires u <= v <= |old_| && QuietCards(cards, old_, start, end, u, k) &&
      Boundary(old_, start, end, v) <= CardToSize(k)
    requires Visited(t, globals, old_, u, st, m, w)
    ensures Visited(t, globals, old_, v, st', m, w) && st'.back == st.back
  {
    hide *;
    VisitedParts(t, globals, old_, u, st, m, w);
    PassObjects(t, globals, cards, old_, start, end, u, v, k, st, m, w);
    var n := |OldSlots(old_, v)| - |OldSlots(old_, u)|;
    RootsDoneFields(st, n);
    st' := RootsDone(st, n);
    VisitedIntro(t, globals, old_, v, st', m, w);
  }

  // ------------------------------------------------------------- one old object

  lemma SlotRoot(t: Setting, globals: seq<nat>, old_: seq<Obj>, start: nat, end: nat, u: nat, i: nat)
    requires MinorOk(t, globals, old_, start, end) && u < |old_| && i < |old_[u].slots|
    ensures |globals| + |OldSlots(old_, u)| + i < |t.c.roots|
    ensures t.c.roots[|globals| + |OldSlots(old_, u)| + i] == old_[u].slots[i]
  {
    hide *;
    MinorParts(t, globals, old_, start, end);
    SlotIsRoot(globals, old_, u, i);
  }

  method VisitObject(s: GCState, slots: seq<nat>, back: nat, from: nat, to: nat, currentStack: nat,
                     ghost t: Setting, ghost globals: seq<nat>, ghost old_: seq<Obj>, ghost start: nat, ghost end: nat,
                     ghost u: nat, ghost st0: Copy)
    returns (back': nat, ghost st: Copy)
    requires Running(s, t, from, to, true, currentStack) && MinorOk(t, globals, old_, start, end)
    requires u < |old_| && slots == old_[u].slots
    requires Visited(t, globals, old_, u, st0, s.mem[..], s.weaks) && back == st0.back
    modifies s.mem, s`weaks
    ensures Visited(t, globals, old_, u + 1, st, s.mem[..], s.weaks) && back' == st.back
  {
    hide *;
    back', st := back, st0;
    VisitedParts(t, globals, old_, u, st, s.mem[..], s.weaks);
    for i := 0 to |slots|
      invariant Running(s, t, from, to, true, currentStack)
      invariant Copies(t, st, s.mem[..], s.weaks) && back' == st.back && st.n == 0 && st.k == 0
      invariant st.r == |globals| + |OldSlots(old_, u)| + i
    {
      SlotRoot(t, globals, old_, start, end, u, i);
      RootWordIs(t, st, s.mem[..], s.weaks);
      RunningParts(s, t, from, to, true, currentStack);
      ghost var v := s.mem[slots[i]];
      ghost var st1, m1;
      back', st1, m1 := ForwardIfInRange(s, slots[i], back', true, from, to, currentStack, t, st, v);
      GrownIs(st, st1);
      RootWordIs(t, st1, m1, s.weaks);
      RootKeeps(t, st1, m1, s.weaks, s.mem[..]);
      NextRootSame(t, st1);
      st := NextRootDone(st1);
    }
    OldSlotsNext(old_, u);
    VisitedIntro(t, globals, old_, u + 1, st, s.mem[..], s.weaks);
  }

  // foreachObjptrInRange over old objects, up to the end of a card.
  method VisitRange(s: GCState, objectStart: nat, cardEnd: nat, back: nat, from: nat, to: nat, currentStack: nat,
                    ghost t: Setting, ghost globals: seq<nat>, ghost old_: seq<Obj>, ghost start: nat, ghost end: nat,
                    ghost u0: nat, ghost st0: Copy)
    returns (front: nat, back': nat, ghost u: nat, ghost st: Copy)
    requires Running(s, t, from, to, true, currentStack) && MinorOk(t, globals, old_, start, end)
    requires Visited(t, globals, old_, u0, st0, s.mem[..], s.weaks) && back == st0.back
    requires u0 <= |old_| && objectStart == start + Boundary(old_, start, end, u0) && objectStart < cardEnd <= end
    modifies s.mem, s`weaks
    ensures Visited(t, globals, old_, u, st, s.mem[..], s.weaks) && back' == st.back
    ensures u0 < u <= |old_| && front == start + Boundary(old_, start, end, u) && cardEnd <= front
  {
    hide *;
    front, back', u, st := objectStart, back, u0, st0;
    MinorParts(t, globals, old_, start, end);
    while front < cardEnd
      invariant Running(s, t, from, to, true, currentStack)
      invariant Visited(t, globals, old_, u, st, s.mem[..], s.weaks) && back' == st.back
      invariant u0 <= u <= |old_| && front == start + Boundary(old_, start, end, u)
      invariant u0 < u || front < cardEnd
      decreases |old_| - u
    {
      ghost var m := s.mem[..];
      BoundaryAt(old_, start, end, u);
      BoundaryAt(old_, start, end, u + 1);
      VisitedParts(t, globals, old_, u, st, m, s.weaks);
      OldReadable(t, globals, old_, start, end, m, u);
      RunningParts(s, t, from, to, true, currentStack);
      HeaderOf(s.env, m, old_[u]);
      FrontWordIs(s.env, m, old_[u]);
      var p := AdvanceToObjectData(s, front, old_[u]);
      var metaDataBytes, objectBytes := SizeofObjectAux(s, p, s.mem[p - 1], old_[u]);
      var slots := ObjectSlots(s, p, false, old_[u]);
      back', st := VisitObject(s, slots, back', from, to, currentStack, t, globals, old_, start, end, u, st);
      front := p + objectBytes / 8;
      u := u + 1;
    }
  }

  // ------------------------------------------------------------------ the cards

  // The scan stands before card k; old object u is the first not visited, and
  // no marked card lies between.
  ghost predicate ScanAt(cards: seq<bool>, old_: seq<Obj>, start: nat, end: nat, u: nat, k: nat) {
    && u <= |old_|
    && Boundary(old_, start, end, u) < CardToSize(k + 1)
    && QuietCards(cards, old_, start, end, u, k)
  }

  lemma ScanAtParts(cards: seq<bool>, old_: seq<Obj>, start: nat, end: nat, u: nat, k: nat)
    requires ScanAt(cards, old_, start, end, u, k)
    ensures u <= |old_| && Boundary(old_, start, end, u) < CardToSize(k + 1) &&
      QuietCards(cards, old_, start, end, u, k)
  {
    hide Boundary, QuietCards;
  }

  lemma ScanFirst(cards: seq<bool>, old_: seq<Obj>, start: nat, end: nat)
    requires Tiles(old_, start, end)
    ensures ScanAt(cards, old_, start, end, 0, 0)
  {
    BoundaryAt(old_, start, end, 0);
  }

  // After a marked card the scan goes on in the card of the next boundary.
  lemma ScanAfter(cards: seq<bool>, old_: seq<Obj>, start: nat, end: nat, u: nat)
    requires u <= |old_|
    ensures ScanAt(cards, old_, start, end, u, SizeToCard(Boundary(old_, start, end, u)))
    ensures CardToSize(SizeToCard(Boundary(old_, start, end, u))) <= Boundary(old_, start, end, u)
  {
    hide Boundary;
  }

  lemma QuietMore(cards: seq<bool>, old_: seq<Obj>, start: nat, end: nat, u: nat, k: nat)
    requires QuietCards(cards, old_, start, end, u, k) && k < |cards| && !cards[k]
    ensures QuietCards(cards, old_, start, end, u, k + 1)
  {
    hide Boundary;
  }

  // An unmarked card without a boundary is skipped.
  lemma ScanEmpty(cards: seq<bool>, old_: seq<Obj>, start: nat, end: nat, u: nat, k: nat)
    requires ScanAt(cards, old_, start, end, u, k) && k < |cards| && !cards[k]
    ensures ScanAt(cards, old_, start, end, u, k + 1)
  {
    hide Boundary, QuietCards;
    QuietMore(cards, old_, start, end, u, k);
  }

  // An unmarked card with a boundary: its last one is where the scan goes on.
  lemma ScanBoundary(cards: seq<bool>, old_: seq<Obj>, start: nat, end: nat, u: nat, k: nat, i: nat)
    requires Tiles(old_, start, end) && ScanAt(cards, old_, start, end, u, k) && k < |cards| && !cards[k]
    requires i <= |old_| && CardOf(Boundary(old_, start, end, i)) == k
    requires forall j: nat :: i < j <= |old_| ==> CardOf(Boundary(old_, start, end, j)) != k
    ensures u <= i && QuietCards(cards, old_, start, end, u, k + 1) &&
      Boundary(old_, start, end, i) <= CardToSize(k + 1)
    ensures ScanAt(cards, old_, start, end, i, k + 1)
  {
    hide Tiles, Boundary;
    ScanAtParts(cards, old_, start, end, u, k);
    QuietMore(cards, old_, start, end, u, k);
    if i < u {
      BoundaryMono(old_, start, end, i, u);
      LastOfCard(Boundary(old_, start, end, i), Boundary(old_, start, end, u), k);
      assert false;
    }
    CardBounds(Boundary(old_, start, end, i));
  }

  lemma LastOfCard(y: nat, z: nat, k: nat)
    requires y <= z < CardToSize(k + 1) && CardOf(y) == k
    ensures CardOf(z) == k
  {
  }

  lemma EntryTimes(objs: seq<Obj>, start: nat, end: nat, k: nat, i: nat)
    requires CardOf(Boundary(objs, start, end, i)) == k
    ensures CardToSize(k) + Offset(Boundary(objs, start, end, i)) * 4 / 8 == Boundary(objs, start, end, i)
  {
    hide Boundary;
    CardBounds(Boundary(objs, start, end, i));
  }

  lemma CardsUp(size: nat)
    ensures size <= CardToSize((size + CARD_WORDS - 1) / CARD_WORDS)
    ensures size > 0 ==> (size + CARD_WORDS - 1) / CARD_WORDS == CardOf(size) + 1
    ensures size == 0 ==> (size + CARD_WORDS - 1) / CARD_WORDS == 0
    ensures forall z: nat :: z < size ==> SizeToCard(z) < (size + CARD_WORDS - 1) / CARD_WORDS
  {
  }

  lemma MapEntry(objs: seq<Obj>, start: nat, end: nat, n: nat, map_: seq<nat>, validSize: nat, k: nat)
    requires MapOk(objs, start, end, n, map_, validSize) && k < |map_| && k < CardOf(validSize)
    ensures map_[k] == Entry(objs, start, end, k, n)
  {
    hide Boundary, CardOf, Entry;
  }

  lemma SizesScale(k: nat, cards: nat, size: nat)
    requires size <= CardToSize(cards) && (size + CARD_WORDS - 1) / CARD_WORDS > k
    ensures k < cards
  {
  }

  lemma CardTimes(k: nat)
    ensures CardToSize(k) == k * CARD_WORDS && CardToSize(k + 1) == CardToSize(k) + CARD_WORDS
    ensures CARD_WORDS == 32 && CROSS_MAP_EMPTY == 255
  {
  }

  // Every slot of the old generation ends up done, though only objects on
  // marked cards are visited.
  method ForwardInterGenerational(s: GCState, g: GenerationalMaps, back: nat, from: nat, to: nat, currentStack: nat,
                                  ghost t: Setting, ghost globals: seq<nat>, ghost old_: seq<Obj>, ghost n0: nat,
                                  ghost st0: Copy)
    returns (back': nat, ghost st: Copy)
    requires Running(s, t, from, to, true, currentStack) && MinorOk(t, globals, old_, s.start, s.start + s.oldGenSize)
    requires CardsOk(t.c, g.cardMap[..], old_, s.start, s.start + s.oldGenSize)
    requires MapOk(old_, s.start, s.start + s.oldGenSize, n0, g.crossMap[..], g.crossMapValidSize)
    requires s.oldGenSize <= CardToSize(g.crossMap.Length) && s.oldGenSize <= CardToSize(g.cardMap.Length)
    requires Visited(t, globals, old_, 0, st0, s.mem[..], s.weaks) && back == st0.back
    modifies s.mem, s`weaks, g.crossMap, g`crossMapValidSize
    ensures Copies(t, st, s.mem[..], s.weaks) && back' == st.back && st.r == |t.c.roots| && st.n == 0 && st.k == 0
    ensures MapOk(old_, s.start, s.start + s.oldGenSize, |old_|, g.crossMap[..], g.crossMapValidSize)
  {
    hide *;
    ghost var start, end := s.start, s.start + s.oldGenSize;
    ghost var cards := g.cardMap[..];
    MinorParts(t, globals, old_, start, end);
    VisitedParts(t, globals, old_, 0, st0, s.mem[..], s.weaks);
    RunningParts(s, t, from, to, true, currentStack);
    WalkNow(t, globals, old_, start, end, s.mem[..]);
    UpdateCrossMap(s, g, old_, n0);
    ghost var crosses := g.crossMap[..];
    CardsUp(s.oldGenSize);
    CardTimes(0);
    var maxCardIndex := (s.oldGenSize + CARD_WORDS - 1) / CARD_WORDS;
    var oldGenStart, oldGenEnd := s.start, s.start + s.oldGenSize;
    var objectStart, cardIndex: nat, cardStart := s.start, 0, oldGenStart;
    ghost var u: nat := 0;
    back', st := back, st0;
    ScanFirst(cards, old_, start, end);
    BoundaryAt(old_, start, end, 0);
    BoundaryAt(old_, start, end, |old_|);
    while cardIndex != maxCardIndex
      invariant Running(s, t, from, to, true, currentStack)
      invariant g.crossMap[..] == crosses && g.crossMapValidSize == s.oldGenSize && g.cardMap[..] == cards
      invariant u <= |old_| && Visited(t, globals, old_, u, st, s.mem[..], s.weaks) && back' == st.back
      invariant cardIndex <= maxCardIndex && cardStart == start + CardToSize(cardIndex)
      invariant ScanAt(cards, old_, start, end, u, cardIndex)
      invariant cardIndex < maxCardIndex ==> u < |old_| && objectStart == start + Boundary(old_, start, end, u)
      decreases |old_| - u, maxCardIndex - cardIndex
    {
      ScanAtParts(cards, old_, start, end, u, cardIndex);
      CardTimes(cardIndex);
      SizesScale(cardIndex, g.cardMap.Length, s.oldGenSize);
      SizesScale(cardIndex, g.crossMap.Length, s.oldGenSize);
      BoundaryAt(old_, start, end, u);
      if g.cardMap[cardIndex] {
        var cardEnd := cardStart + CARD_WORDS;
        if oldGenEnd < cardEnd { cardEnd := oldGenEnd; }
        ScanShort(old_, start, end, u, cardIndex, maxCardIndex, s.oldGenSize);
        objectStart, back', u, st :=
          VisitRange(s, objectStart, cardEnd, back', from, to, currentStack, t, globals, old_, start, end, u, st);
        if objectStart == oldGenEnd {
          BoundaryAt(old_, start, end, u);
          break;
        }
        BoundaryAt(old_, start, end, u);
        ScanAfter(cards, old_, start, end, u);
        cardIndex := SizeToCard(objectStart - oldGenStart);
        cardStart := oldGenStart + CardToSize(cardIndex);
      } else {
        if g.crossMap[cardIndex] != CROSS_MAP_EMPTY {
          objectStart := cardStart + g.crossMap[cardIndex] * 4 / 8;
        }
        if cardIndex < CardOf(s.oldGenSize) {
          MapEntry(old_, start, end, |old_|, crosses, g.crossMapValidSize, cardIndex);
          EntryMeans(old_, start, end, cardIndex, |old_|);
          if g.crossMap[cardIndex] != CROSS_MAP_EMPTY {
            ghost var i: nat :| i <= |old_| && CardOf(Boundary(old_, start, end, i)) == cardIndex
              && Entry(old_, start, end, cardIndex, |old_|) == Offset(Boundary(old_, start, end, i))
              && forall j: nat :: i < j <= |old_| ==> CardOf(Boundary(old_, start, end, j)) != cardIndex;
            ScanBoundary(cards, old_, start, end, u, cardIndex, i);
            BoundaryAt(old_, start, end, i);
            EntryTimes(old_, start, end, cardIndex, i);
            st := VisitedOn(t, globals, cards, old_, start, end, u, i, cardIndex + 1, st, s.mem[..], s.weaks);
            u := i;
          } else {
            ScanEmpty(cards, old_, start, end, u, cardIndex);
          }
        } else {
          ScanEmpty(cards, old_, start, end, u, cardIndex);
        }
        cardIndex := cardIndex + 1;
        cardStart := cardStart + CARD_WORDS;
      }
    }
    if u < |old_| {
      ScanAtParts(cards, old_, start, end, u, cardIndex);
      CardsUp(s.oldGenSize);
      st := VisitedOn(t, globals, cards, old_, start, end, u, |old_|, cardIndex, st, s.mem[..], s.weaks);
      u := |old_|;
    }
    VisitedParts(t, globals, old_, u, st, s.mem[..], s.weaks);
    AllRoots(t, globals, old_, start, end);
  }

  lemma AllRoots(t: Setting, globals: seq<nat>, old_: seq<Obj>, start: nat, end: nat)
    requires MinorOk(t, globals, old_, start, end)
    ensures |t.c.roots| == |globals| + |OldSlots(old_, |old_|)|
  {
    hide *;
    MinorParts(t, globals, old_, start, end);
  }

  // The boundary of an object that is not past the last card lies before the end.
  lemma ScanShort(old_: seq<Obj>, start: nat, end: nat, u: nat, k: nat, maxCard: nat, size: nat)
    requires Tiles(old_, start, end) && size == end - start && maxCard == (size + CARD_WORDS - 1) / CARD_WORDS &&
      k < maxCard
    requires u <= |old_| && Boundary(old_, start, end, u) < CardToSize(k + 1)
    ensures u < |old_| ==> Boundary(old_, start, end, u) < size
  {
    BoundaryAt(old_, start, end, u);
  }

  lemma WalkNow(t: Setting, globals: seq<nat>, old_: seq<Obj>, start: nat, end: nat, m: Memory)
    requires MinorOk(t, globals, old_, start, end) && Elsewhere(t, m)
    ensures Walkable(t.c.env, m, old_, start, end)
  {
    hide *;
    MinorParts(t, globals, old_, start, end);
    ElsewhereLength(t, m);
    forall i | 0 <= i < |old_|
      ensures IsO(t.c.env, m, old_[i]) && Clean(t.c.env, m, old_[i])
    {
      OldReadable(t, globals, old_, start, end, m, i);
    }
    WalkIntro(t.c.env, m, old_, start, end);
  }

  lemma WalkIntro(env: Env, m: Memory, objs: seq<Obj>, start: nat, end: nat)
    requires Tiles(objs, start, end) && end <= |m|
    requires forall i :: 0 <= i < |objs| ==> IsO(env, m, objs[i]) && Clean(env, m, objs[i])
    ensures Walkable(env, m, objs, start, end)
  {
    hide Tiles, IsO, Clean;
  }
}
