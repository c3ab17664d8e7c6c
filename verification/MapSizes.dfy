// Sizes of the card map and the cross map, and the largest heap that fits with
// its maps into a given space.

module MapSizes {
  import opened Align
  import opened Modular

  const CARD_SIZE: nat := 256
  const SIZE_MAX: nat := 0xFFFF_FFFF_FFFF_FFFF

  // A page is a whole number of cards.
  predicate PageOk(page: nat) { page > 0 && page % CARD_SIZE == 0 }

  function AlignDown(a: nat, b: nat): nat
    requires b > 0
  {
    a / b * b
  }

  // One byte per card, in whole pages.
  function SizeofCardMap(marksCards: bool, page: nat, heapSize: nat): nat
    requires page > 0
  {
    if !marksCards then 0 else AlignTo(heapSize / CARD_SIZE, page)
  }

  function SizeofCrossMap(marksCards: bool, page: nat, heapSize: nat): nat
    requires page > 0
  {
    if !marksCards then 0 else AlignTo(heapSize / CARD_SIZE, page)
  }

  function SizeofMaps(marksCards: bool, page: nat, heapSize: nat): nat
    requires page > 0
  {
    SizeofCardMap(marksCards, page, heapSize) + SizeofCrossMap(marksCards, page, heapSize)
  }

  function WithMaps(marksCards: bool, page: nat, heapSize: nat): nat
    requires page > 0
  {
    heapSize + SizeofMaps(marksCards, page, heapSize)
  }

  // ------------------------------------------------------------------ alignment

  lemma AlignIs(a: nat, b: nat)
    requires b > 0
    ensures AlignTo(a, b) % b == 0 && a <= AlignTo(a, b) < a + b
    ensures a % b == 0 ==> AlignTo(a, b) == a
  {
    var q := (a + b - 1) / b;
    DivMod(a + b - 1, b);
    Commute(q, b);
    ModMultiple(0, q, b);
    if a % b == 0 {
      DivMod(a, b);
      DivModUnique(a + b - 1, b, a / b, b - 1);
    }
  }

  lemma AlignDownIs(a: nat, b: nat)
    requires b > 0
    ensures AlignDown(a, b) % b == 0 && AlignDown(a, b) <= a < AlignDown(a, b) + b
  {
    DivMod(a, b);
    Commute(a / b, b);
    ModMultiple(0, a / b, b);
  }

  lemma Commute(a: nat, b: nat)
    ensures a * b == b * a && a * b >= 0
  {
  }

  // Two multiples differ by at least one unit.
  lemma NextMultiple(a: nat, c: nat, b: nat)
    requires b > 0 && a % b == 0 && c % b == 0 && a < c
    ensures a + b <= c
  {
    DivMod(a, b);
    DivMod(c, b);
    if a / b < c / b { MulLess(b, a / b, c / b); } else if c / b < a / b { MulLess(b, c / b, a / b); }
  }

  lemma AlignBelow(a: nat, c: nat, b: nat)
    requires b > 0 && c % b == 0 && a <= c
    ensures AlignTo(a, b) <= c
  {
    hide AlignTo;
    AlignIs(a, b);
    if c < AlignTo(a, b) { NextMultiple(c, AlignTo(a, b), b); }
  }

  lemma AlignDownAbove(a: nat, c: nat, b: nat)
    requires b > 0 && c % b == 0 && c <= a
    ensures c <= AlignDown(a, b)
  {
    hide AlignDown;
    AlignDownIs(a, b);
    if AlignDown(a, b) < c { NextMultiple(AlignDown(a, b), c, b); }
  }

  lemma SumAligned(a: nat, c: nat, b: nat)
    requires b > 0 && a % b == 0 && c % b == 0
    ensures (a + c) % b == 0
  {
    DivMod(a, b);
    ModMultiple(c, a / b, b);
  }

  lemma DifferenceAligned(a: nat, c: nat, b: nat)
    requires b > 0 && a % b == 0 && c % b == 0 && c <= a
    ensures (a - c) % b == 0
  {
    ModMultiple(0, c / b, b);
    DivMod(c, b);
    SameMod(c, a - c, b);
  }

  // -------------------------------------------------------------- sizes of maps

  lemma MapMono(marksCards: bool, page: nat, x: nat, y: nat)
    requires page > 0 && x <= y
    ensures SizeofCardMap(marksCards, page, x) <= SizeofCardMap(marksCards, page, y)
  {
    hide AlignTo;
    AlignIs(y / CARD_SIZE, page);
    if marksCards { AlignBelow(x / CARD_SIZE, AlignTo(y / CARD_SIZE, page), page); }
  }

  lemma MapsMono(marksCards: bool, page: nat, x: nat, y: nat)
    requires page > 0 && x <= y
    ensures SizeofMaps(marksCards, page, x) <= SizeofMaps(marksCards, page, y)
    ensures WithMaps(marksCards, page, x) + (y - x) <= WithMaps(marksCards, page, y)
  {
    MapMono(marksCards, page, x, y);
  }

  lemma MapsAligned(marksCards: bool, page: nat, x: nat)
    requires page > 0
    ensures SizeofMaps(marksCards, page, x) % page == 0
    ensures x % page == 0 ==> WithMaps(marksCards, page, x) % page == 0
  {
    hide AlignTo;
    var y := SizeofCardMap(marksCards, page, x);
    assert y % page == 0 by {
      if marksCards { AlignIs(x / CARD_SIZE, page); } else { SmallMod(0, page); }
    }
    SumAligned(y, y, page);
    if x % page == 0 { SumAligned(x, y + y, page); }
  }

  // A heap of n pages needs a page of card map for every 256 pages begun.
  lemma MapPages(page: nat, n: nat)
    requires PageOk(page)
    ensures n * page >= 0 && SizeofCardMap(true, page, n * page) == page * ((n + 255) / 256)
  {
    var c, q := page / 256, (n + 255) / 256;
    var r := 256 * q - n;
    assert page == 256 * c && 0 <= r <= 255 && c >= 1;
    CardsOf(n, c);
    Enough(n, c, q, r);
    assert n * page / CARD_SIZE == n * c;
    DivModUnique(n * c + page - 1, page, q, page - 1 - r * c);
    Commute(q, page);
  }

  lemma CardsOf(n: nat, c: nat)
    ensures n * (256 * c) / 256 == n * c && n * c >= 0
  {
    assert n * (256 * c) == 256 * (n * c);
    DivModUnique(256 * (n * c), 256, n * c, 0);
  }

  lemma Enough(n: nat, c: nat, q: nat, r: nat)
    requires n + r == 256 * q && r <= 255 && c >= 1
    ensures n * c + 256 * c - 1 == 256 * c * q + (256 * c - 1 - r * c)
    ensures 0 <= 256 * c - 1 - r * c < 256 * c && r * c >= 0
  {
    assert (n + r) * c == n * c + r * c;
    assert 256 * q * c == 256 * c * q;
    assert (255 - r) * c >= 0;
    assert (255 - r) * c == 255 * c - r * c;
  }

  // ------------------------------------------------------------------ inversion

  // The closed-form start of the search, before rounding down to a page.
  function Guess(page: nat, heapWithMapsSize: nat): real {
    256.0 / 258.0 * ((heapWithMapsSize - 3 * page) as real) - 2.0 / 258.0 * (page as real)
  }

  // The guess never overshoots.
  lemma GuessFits(page: nat, heapWithMapsSize: nat)
    requires PageOk(page) && heapWithMapsSize % page == 0 && heapWithMapsSize > 3 * page
    ensures Guess(page, heapWithMapsSize).Floor >= 0
    ensures WithMaps(true, page, AlignDown(Guess(page, heapWithMapsSize).Floor, page)) <= heapWithMapsSize
  {
    hide AlignDown, WithMaps, Guess;
    NextMultipleOf3(page, heapWithMapsSize);
    GuessBounds(page, heapWithMapsSize);
    var g := Guess(page, heapWithMapsSize).Floor;
    AlignDownIs(g, page);
    var h := AlignDown(g, page);
    var n := h / page;
    DivMod(h, page);
    Commute(n, page);
    PagesWithMaps(page, n);
    PagesFit(page, n, heapWithMapsSize);
  }

  lemma PagesWithMaps(page: nat, n: nat)
    requires PageOk(page)
    ensures n * page >= 0
    ensures WithMaps(true, page, n * page) == n * page + page * ((n + 255) / 256) + page * ((n + 255) / 256)
  {
    hide SizeofCardMap, AlignTo;
    MapPages(page, n);
    SameMaps(page, n * page);
  }

  lemma SameMaps(page: nat, x: nat)
    requires page > 0
    ensures SizeofMaps(true, page, x) == SizeofCardMap(true, page, x) + SizeofCardMap(true, page, x)
  {
  }

  lemma NextMultipleOf3(page: nat, size: nat)
    requires page > 0 && size % page == 0 && size > 3 * page
    ensures size >= 4 * page
  {
    ModMultiple(0, 3, page);
    NextMultiple(3 * page, size, page);
  }

  lemma GuessBounds(page: nat, size: nat)
    requires page > 0 && size >= 4 * page
    ensures 0 <= Guess(page, size).Floor && 258 * Guess(page, size).Floor <= 256 * size - 770 * page
  {
    var g := Guess(page, size);
    assert 258.0 * g == 256.0 * ((size - 3 * page) as real) - 2.0 * (page as real);
    assert g >= 0.0;
    assert g.Floor as real <= g;
  }

  // n pages of heap within the guess, with their maps, are within the space.
  lemma PagesFit(page: nat, n: nat, size: nat)
    requires page > 0 && n * page >= 0 && 258 * (n * page) <= 256 * size - 770 * page
    ensures page * ((n + 255) / 256) >= 0
    ensures n * page + page * ((n + 255) / 256) + page * ((n + 255) / 256) <= size
  {
    var q := (n + 255) / 256;
    assert 256 * q <= n + 255;
    assert page * (256 * q) <= page * (n + 255) by { Scaled(page, 256 * q, n + 255); }
    assert page * (256 * q) == 256 * (page * q);
    assert page * (n + 255) == n * page + 255 * page;
  }

  lemma Scaled(m: nat, a: nat, b: nat)
    requires a <= b
    ensures m * a <= m * b
  {
    if a < b { MulLess(m, a, b); }
  }

  // Each map has an entry for the card of every byte of the heap, in whole pages
  // and with less than a page to spare; without card marking there are no maps.
  lemma MapsCover(page: nat, heapSize: nat, a: nat)
    requires PageOk(page) && heapSize % page == 0 && a < heapSize
    ensures a / 256 < SizeofCardMap(true, page, heapSize) && a / 256 < SizeofCrossMap(true, page, heapSize)
    ensures SizeofCardMap(true, page, heapSize) % page == 0 && SizeofCrossMap(true, page, heapSize) % page == 0
    ensures 256 * SizeofCardMap(true, page, heapSize) < heapSize + 256 * page
    ensures 256 * SizeofCrossMap(true, page, heapSize) < heapSize + 256 * page
    ensures SizeofMaps(false, page, heapSize) == 0
    ensures WithMaps(true, page, heapSize) ==
      heapSize + SizeofCardMap(true, page, heapSize) + SizeofCrossMap(true, page, heapSize)
  {
    hide AlignTo;
    AlignIs(heapSize / CARD_SIZE, page);
    WholeCards(page, heapSize);
  }

  lemma WholeCards(page: nat, heapSize: nat)
    requires PageOk(page) && heapSize % page == 0
    ensures heapSize == 256 * (heapSize / 256)
  {
    var n, c := heapSize / page, page / 256;
    DivMod(heapSize, page);
    DivMod(page, 256);
    assert heapSize == 256 * (c * n);
  }

  // invertSizeofCardMapAndCrossMap: the largest multiple of the page size that
  // fits with its maps.
  method InvertSizeofMaps(marksCards: bool, page: nat, heapWithMapsSize: nat) returns (heapSize: nat)
    requires PageOk(page) && heapWithMapsSize % page == 0
    ensures heapSize % page == 0
    ensures forall x: nat :: x % page == 0 ==> (WithMaps(marksCards, page, x) <= heapWithMapsSize <==> x <= heapSize)
  {
    hide WithMaps, SizeofMaps, AlignDown, Guess;
    if !marksCards {
      NoMaps(page);
      return heapWithMapsSize;
    }
    var minHeapSize := 0;
    Nothing(page, heapWithMapsSize);
    if heapWithMapsSize > 3 * page {
      GuessFits(page, heapWithMapsSize);
      minHeapSize := AlignDown(Guess(page, heapWithMapsSize).Floor, page);
      AlignDownIs(Guess(page, heapWithMapsSize).Floor, page);
    }
    heapSize := minHeapSize;
    var nextHeapSize := heapSize + page;
    NextAligned(heapSize, page);
    MapsAre(page, nextHeapSize);
    while heapWithMapsSize >= SizeofMaps(marksCards, page, nextHeapSize) &&
      heapWithMapsSize - SizeofMaps(marksCards, page, nextHeapSize) >= nextHeapSize
      invariant heapSize % page == 0 && nextHeapSize == heapSize + page
      invariant WithMaps(true, page, heapSize) <= heapWithMapsSize
      invariant WithMaps(true, page, nextHeapSize) == nextHeapSize + SizeofMaps(true, page, nextHeapSize)
      decreases heapWithMapsSize + page - heapSize
    {
      NextAligned(heapSize, page);
      heapSize := nextHeapSize;
      nextHeapSize := nextHeapSize + page;
      MapsAre(page, nextHeapSize);
    }
    LargestFit(page, heapWithMapsSize, heapSize);
  }

  lemma NoMaps(page: nat)
    requires page > 0
    ensures forall x: nat {:trigger WithMaps(false, page, x)} :: WithMaps(false, page, x) == x
  {
  }

  lemma Nothing(page: nat, space: nat)
    requires page > 0
    ensures 0 % page == 0 && WithMaps(true, page, 0) <= space
  {
    AlignIs(0, page);
    SmallMod(0, page);
  }

  lemma NextAligned(x: nat, page: nat)
    requires page > 0 && x % page == 0
    ensures (x + page) % page == 0
  {
    ModMultiple(0, 1, page);
    SumAligned(x, page, page);
  }

  lemma MapsAre(page: nat, x: nat)
    requires page > 0
    ensures WithMaps(true, page, x) == x + SizeofMaps(true, page, x)
  {
  }

  lemma LargestFit(page: nat, space: nat, h: nat)
    requires page > 0 && h % page == 0 && WithMaps(true, page, h) <= space < WithMaps(true, page, h + page)
    ensures forall x: nat :: x % page == 0 ==> (WithMaps(true, page, x) <= space <==> x <= h)
  {
    hide WithMaps;
    forall x: nat | x % page == 0
      ensures WithMaps(true, page, x) <= space <==> x <= h
    {
      if x <= h {
        MapsMono(true, page, x, h);
      } else {
        NextMultiple(h, x, page);
        MapsMono(true, page, h + page, x);
      }
    }
  }
}
