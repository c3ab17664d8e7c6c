// How large the heap should be for a given amount of live data.

module HeapDesired {
  import opened Align
  import opened Modular
  import opened MapSizes

  // The controls and system values that heap sizing uses; ratios are exact reals.
  datatype Sizing = Sizing(
    marksCards: bool,
    page: nat,
    ram: nat,
    fixedHeap: nat,
    maxHeap: nat,
    live: real,
    grow: real,
    copy: real,
    markCompact: real)

  // What the argument parser and initialisation establish.
  predicate ValidSizing(k: Sizing) {
    && PageOk(k.page)
    && k.ram % k.page == 0 && 0 < k.ram <= SIZE_MAX
    && k.fixedHeap % (2 * k.page) == 0 && k.fixedHeap <= SIZE_MAX
    && k.maxHeap % (2 * k.page) == 0 && k.maxHeap <= SIZE_MAX
    && (k.fixedHeap == 0 || k.maxHeap == 0)
    && k.live > 1.0 && k.grow > 1.0 && k.copy > 1.0 && k.markCompact > 1.0
  }

  datatype Desired = Size(size: nat) | OutOfMemory

  // The space for a heap and its maps that the system and the controls allow.
  function Limit(k: Sizing): nat
    requires k.page > 0
  {
    if k.fixedHeap > 0 then k.fixedHeap
    else if k.maxHeap > 0 then k.maxHeap
    else AlignDown(SIZE_MAX, k.page)
  }

  function Scale(size: nat, ratio: real): real { size as real * ratio }

  // ratio >= x, where ratio is RAM over live data (infinite if nothing is live).
  predicate RatioAtLeast(k: Sizing, liveWithMaps: nat, x: real) {
    Scale(liveWithMaps, x) <= k.ram as real
  }

  // A heap this close in size is left alone.
  predicate CloseToLive(current: nat, res: nat) {
    0.5 * current as real <= res as real <= 1.1 * current as real
  }

  predicate CloseToRam(current: nat, res: nat) {
    1.0 * current as real <= res as real <= 1.1 * current as real
  }

  predicate KeepsForLive(k: Sizing, liveWithMaps: nat, current: nat) {
    RatioAtLeast(k, liveWithMaps, k.live + k.grow) && CloseToLive(current, Trunc(Scale(liveWithMaps, k.live)))
  }

  predicate KeepsForRam(k: Sizing, liveWithMaps: nat, current: nat) {
    && !RatioAtLeast(k, liveWithMaps, k.live + k.grow)
    && !(k.grow >= k.copy && RatioAtLeast(k, liveWithMaps, 2.0 * k.copy))
    && RatioAtLeast(k, liveWithMaps, k.copy + k.grow)
    && CloseToRam(current, Trunc(k.ram as real - Trunc(Scale(liveWithMaps, k.grow)) as real))
  }

  // The current size is left alone although it is too small for the live data.
  predicate KeepsTooSmall(k: Sizing, liveWithMaps: nat, current: nat) {
    current < liveWithMaps && (KeepsForLive(k, liveWithMaps, current) || KeepsForRam(k, liveWithMaps, current))
  }

  // A conversion to a size.
  function Trunc(x: real): nat { if x < 0.0 then 0 else x.Floor }

  // -------------------------------------------------------------------- scaling

  lemma ScaleMono(size: nat, x: real, y: real)
    requires x <= y
    ensures Scale(size, x) <= Scale(size, y)
  {
    RealMono(size as real, x, y);
  }

  lemma RealMono(z: real, x: real, y: real)
    requires x <= y && z >= 0.0
    ensures z * x <= z * y
  {
  }

  lemma ScaleAdd(size: nat, x: real, y: real)
    ensures Scale(size, x + y) == Scale(size, x) + Scale(size, y)
  {
  }

  lemma ScaleOne(size: nat)
    ensures Scale(size, 1.0) == size as real && Scale(size, 0.0) == 0.0 && Scale(size, 1.1) == 1.1 * size as real
    ensures Scale(size, 2.0) == 2.0 * size as real
  {
  }

  lemma TruncIs(x: real)
    requires x >= 0.0
    ensures Trunc(x) as real <= x < Trunc(x) as real + 1.0
  {
  }

  lemma TruncAbove(x: real, n: nat)
    requires n as real <= x
    ensures n <= Trunc(x)
  {
  }

  lemma TruncBelow(x: real, n: nat)
    requires x <= n as real
    ensures Trunc(x) <= n
  {
  }

  // ------------------------------------------------------------------- branches

  lemma ForLive(k: Sizing, liveWithMaps: nat, current: nat)
    requires k.live > 1.0 && k.grow > 1.0 && RatioAtLeast(k, liveWithMaps, k.live + k.grow)
    ensures liveWithMaps <= Trunc(Scale(liveWithMaps, k.live)) <= k.ram
    ensures k.live >= 1.1 && CloseToLive(current, Trunc(Scale(liveWithMaps, k.live))) ==> liveWithMaps <= current
  {
    hide Scale, Trunc;
    ScaleOne(liveWithMaps);
    ScaleMono(liveWithMaps, 1.0, k.live);
    ScaleMono(liveWithMaps, 0.0, k.grow);
    ScaleAdd(liveWithMaps, k.live, k.grow);
    TruncIs(Scale(liveWithMaps, k.live));
    TruncAbove(Scale(liveWithMaps, k.live), liveWithMaps);
    TruncBelow(Scale(liveWithMaps, k.live), k.ram);
    if k.live >= 1.1 { ScaleMono(liveWithMaps, 1.1, k.live); }
  }

  lemma HalfRam(k: Sizing, liveWithMaps: nat)
    requires k.page > 0 && k.copy > 1.0 && RatioAtLeast(k, liveWithMaps, 2.0 * k.copy) && liveWithMaps % k.page == 0
    ensures liveWithMaps <= AlignDown(k.ram / 2, k.page) <= k.ram && AlignDown(k.ram / 2, k.page) % k.page == 0
  {
    hide Scale, AlignDown;
    ScaleOne(liveWithMaps);
    ScaleMono(liveWithMaps, 2.0, 2.0 * k.copy);
    AlignDownIs(k.ram / 2, k.page);
    AlignDownAbove(k.ram / 2, liveWithMaps, k.page);
  }

  lemma ForRam(k: Sizing, liveWithMaps: nat, current: nat)
    requires k.copy > 1.0 && k.grow > 1.0 && RatioAtLeast(k, liveWithMaps, k.copy + k.grow)
    ensures liveWithMaps <= Trunc(k.ram as real - Trunc(Scale(liveWithMaps, k.grow)) as real) <= k.ram
    ensures k.copy >= 1.1 && CloseToRam(current, Trunc(k.ram as real - Trunc(Scale(liveWithMaps, k.grow)) as real)) ==>
      liveWithMaps <= current
  {
    hide Scale, Trunc;
    ScaleOne(liveWithMaps);
    ScaleMono(liveWithMaps, 1.0, k.copy);
    ScaleMono(liveWithMaps, 0.0, k.grow);
    ScaleAdd(liveWithMaps, k.copy, k.grow);
    TruncIs(Scale(liveWithMaps, k.grow));
    var x := k.ram as real - Trunc(Scale(liveWithMaps, k.grow)) as real;
    TruncIs(x);
    TruncAbove(x, liveWithMaps);
    TruncBelow(x, k.ram);
    if k.copy >= 1.1 { ScaleMono(liveWithMaps, 1.1, k.copy); }
  }

  lemma AllRam(k: Sizing, liveWithMaps: nat)
    requires k.markCompact > 1.0 && RatioAtLeast(k, liveWithMaps, k.markCompact)
    ensures liveWithMaps <= k.ram
  {
    hide Scale;
    ScaleOne(liveWithMaps);
    ScaleMono(liveWithMaps, 1.0, k.markCompact);
  }

  lemma Required(k: Sizing, liveWithMaps: nat)
    requires k.markCompact > 1.0
    ensures liveWithMaps <= Trunc(Scale(liveWithMaps, k.markCompact))
  {
    hide Scale, Trunc;
    ScaleOne(liveWithMaps);
    ScaleMono(liveWithMaps, 1.0, k.markCompact);
    TruncAbove(Scale(liveWithMaps, k.markCompact), liveWithMaps);
  }

  lemma Rounded(res: nat, liveWithMaps: nat, bound: nat, page: nat)
    requires page > 0 && liveWithMaps <= res <= bound && bound % page == 0
    ensures liveWithMaps <= AlignTo(res, page) <= bound && AlignTo(res, page) % page == 0
  {
    hide AlignTo;
    AlignIs(res, page);
    AlignBelow(res, bound, page);
  }

  // With ratios of at least 1.1 no heap is ever kept too small.
  lemma RatiosSuffice(k: Sizing, liveWithMaps: nat, current: nat)
    requires k.live >= 1.1 && k.copy >= 1.1 && k.grow > 1.0
    ensures !KeepsTooSmall(k, liveWithMaps, current)
  {
    hide Scale, Trunc, RatioAtLeast, CloseToLive, CloseToRam;
    if KeepsForLive(k, liveWithMaps, current) { ForLive(k, liveWithMaps, current); }
    if KeepsForRam(k, liveWithMaps, current) { ForRam(k, liveWithMaps, current); }
  }

  // The parser admits smaller ratios, with which it does happen: 97 pages are
  // kept for 101 pages of live data.
  lemma KeepsTooSmallHappens()
    ensures var k := Sizing(false, 4096, 4096 * 1024, 0, 0, 1.05, 2.0, 1.04, 1.04);
      ValidSizing(k) && k.markCompact <= k.copy <= k.live
      && KeepsTooSmall(k, WithMaps(false, 4096, 101 * 4096), WithMaps(false, 4096, 97 * 4096))
  {
    hide Scale, Trunc, RatioAtLeast, CloseToLive, CloseToRam, KeepsForRam, WithMaps;
    var k := Sizing(false, 4096, 4096 * 1024, 0, 0, 1.05, 2.0, 1.04, 1.04);
    NoMaps(4096);
    assert WithMaps(false, 4096, 413696) == 413696;
    assert WithMaps(false, 4096, 397312) == 397312;
    Small(k);
  }

  lemma Small(k: Sizing)
    requires k.live == 1.05 && k.grow == 2.0 && k.ram == 4096 * 1024
    ensures KeepsForLive(k, 413696, 397312)
  {
    hide Scale, Trunc;
    assert Scale(413696, 3.05) <= 4194304.0 by { ScaleIs(413696, 3.05); }
    assert Scale(413696, 1.05) == 434380.8 by { ScaleIs(413696, 1.05); }
    TruncIs(434380.8);
  }

  lemma ScaleIs(size: nat, ratio: real)
    ensures Scale(size, ratio) == size as real * ratio
  {
  }

  lemma SysLimit(k: Sizing)
    requires ValidSizing(k)
    ensures AlignDown(SIZE_MAX, k.page) % k.page == 0 && k.ram <= AlignDown(SIZE_MAX, k.page) <= SIZE_MAX
    ensures Limit(k) % k.page == 0 && Limit(k) <= AlignDown(SIZE_MAX, k.page)
    ensures k.fixedHeap / 2 % k.page == 0 && k.fixedHeap % k.page == 0 && k.maxHeap % k.page == 0
  {
    SizingParts(k);
    hide AlignDown, PageOk;
    AlignDownIs(SIZE_MAX, k.page);
    AlignDownAbove(SIZE_MAX, k.ram, k.page);
    Halves(k.fixedHeap, k.page);
    Halves(k.maxHeap, k.page);
    AlignDownAbove(SIZE_MAX, k.fixedHeap, k.page);
    AlignDownAbove(SIZE_MAX, k.maxHeap, k.page);
  }

  lemma Halves(size: nat, page: nat)
    requires page > 0 && size % (2 * page) == 0
    ensures size / 2 % page == 0 && size % page == 0
  {
    var q := size / (2 * page);
    DivMod(size, 2 * page);
    TimesTwo(page, q);
    ModMultiple(0, q, page);
    SumAligned(page * q, page * q, page);
  }

  // ------------------------------------------------------------ what is desired

  // The size wanted, in whole pages, unless the current size is close enough: at
  // most 10% smaller, and at most 1 / low times as large.
  predicate WholePagesOrCurrent(want: int, low: real, page: nat, current: nat, res: nat) {
    if low * current as real <= want as real <= 1.1 * current as real then res == current
    else page > 0 && res % page == 0 && want <= res < want + page
  }

  // RAM holds ratio times the live data.
  predicate RamHolds(k: Sizing, live: nat, ratio: real) { k.ram as real >= ratio * live as real }

  function Product(ratio: real, live: nat): int { (ratio * live as real).Floor }

  // The size of heap and maps that the ratios ask for.  In words: if RAM has room
  // for growing and a copy at the live ratio, the live ratio; else half of RAM, if
  // growing is no more than copying twice; else what copying while growing leaves
  // of RAM; else RAM; and if not even mark-compact fits in RAM, its ratio.
  predicate Asked(k: Sizing, live: nat, current: nat, res: nat) {
    var ample := RamHolds(k, live, k.live + k.grow);
    var half := k.grow >= k.copy && RamHolds(k, live, 2.0 * k.copy);
    var copying := RamHolds(k, live, k.copy + k.grow);
    && (ample ==> WholePagesOrCurrent(Product(k.live, live), 0.5, k.page, current, res))
    && (!ample && half ==> k.page > 0 && res % k.page == 0 && res <= k.ram / 2 < res + k.page)
    && (!ample && !half && copying ==>
          WholePagesOrCurrent(k.ram - Product(k.grow, live), 1.0, k.page, current, res))
    && (!ample && !half && !copying && RamHolds(k, live, k.markCompact) ==> res == k.ram)
    && (!ample && !half && !copying && !RamHolds(k, live, k.markCompact) ==> RequiredRatio(k, live, res))
  }

  // Whole pages for the ratio of mark-compact, but no more than an address space.
  predicate RequiredRatio(k: Sizing, live: nat, res: nat) {
    var top := 0xFFFF_FFFF_FFFF_FFFF;
    && k.page > 0 && res % k.page == 0
    && (if k.markCompact * live as real > (top - top % k.page) as real then res <= top < res + k.page
        else Product(k.markCompact, live) <= res < Product(k.markCompact, live) + k.page)
  }

  lemma RatioIs(k: Sizing, live: nat, x: real)
    ensures RatioAtLeast(k, live, x) <==> RamHolds(k, live, x)
    ensures Scale(live, x) == x * live as real
  {
  }

  lemma RatiosAre(k: Sizing, live: nat)
    ensures RatioAtLeast(k, live, k.live + k.grow) <==> RamHolds(k, live, k.live + k.grow)
    ensures RatioAtLeast(k, live, 2.0 * k.copy) <==> RamHolds(k, live, 2.0 * k.copy)
    ensures RatioAtLeast(k, live, k.copy + k.grow) <==> RamHolds(k, live, k.copy + k.grow)
    ensures RatioAtLeast(k, live, k.markCompact) <==> RamHolds(k, live, k.markCompact)
  {
    hide *;
    RatioIs(k, live, k.live + k.grow);
    RatioIs(k, live, 2.0 * k.copy);
    RatioIs(k, live, k.copy + k.grow);
    RatioIs(k, live, k.markCompact);
  }

  lemma TruncFloor(x: real)
    ensures x >= 0.0 ==> Trunc(x) == x.Floor
  {
  }

  lemma TruncScale(live: nat, ratio: real)
    requires ratio >= 0.0
    ensures Scale(live, ratio) >= 0.0 && Trunc(Scale(live, ratio)) == Product(ratio, live)
  {
    assert ratio * live as real >= 0.0;
  }

  lemma RoundedToPages(want: nat, page: nat)
    requires page > 0
    ensures AlignTo(want, page) % page == 0 && want <= AlignTo(want, page) < want + page
  {
    AlignIs(want, page);
  }

  lemma PagesOrCurrent(want: nat, low: real, page: nat, current: nat, res: nat)
    requires page > 0
    requires res ==
      if low * current as real <= want as real <= 1.1 * current as real then current else AlignTo(want, page)
    ensures WholePagesOrCurrent(want, low, page, current, res)
  {
    hide AlignTo;
    RoundedToPages(want, page);
  }

  lemma CloseAre(current: nat, want: nat)
    ensures CloseToLive(current, want) <==> 0.5 * current as real <= want as real <= 1.1 * current as real
    ensures CloseToRam(current, want) <==> 1.0 * current as real <= want as real <= 1.1 * current as real
  {
  }

  // The branches, as the code has them.
  lemma AskedLive(k: Sizing, live: nat, current: nat, res: nat)
    requires k.page > 0 && k.live > 1.0 && RatioAtLeast(k, live, k.live + k.grow)
    requires var want := Trunc(Scale(live, k.live));
      res == if CloseToLive(current, want) then current else AlignTo(want, k.page)
    ensures Asked(k, live, current, res)
  {
    hide *;
    TruncScale(live, k.live);
    CloseAre(current, Trunc(Scale(live, k.live)));
    PagesOrCurrent(Trunc(Scale(live, k.live)), 0.5, k.page, current, res);
    AskedFirst(k, live, current, res);
  }

  lemma AskedFirst(k: Sizing, live: nat, current: nat, res: nat)
    requires RatioAtLeast(k, live, k.live + k.grow)
    requires WholePagesOrCurrent(Product(k.live, live), 0.5, k.page, current, res)
    ensures Asked(k, live, current, res)
  {
    hide RatioAtLeast, RamHolds, Product, WholePagesOrCurrent, RequiredRatio;
    RatiosAre(k, live);
  }

  lemma AskedThird(k: Sizing, live: nat, current: nat, res: nat)
    requires !RatioAtLeast(k, live, k.live + k.grow) && RatioAtLeast(k, live, k.copy + k.grow)
    requires !(k.grow >= k.copy && RatioAtLeast(k, live, 2.0 * k.copy))
    requires WholePagesOrCurrent(k.ram - Product(k.grow, live), 1.0, k.page, current, res)
    ensures Asked(k, live, current, res)
  {
    hide RatioAtLeast, RamHolds, Product, WholePagesOrCurrent, RequiredRatio;
    RatiosAre(k, live);
  }

  lemma AskedHalf(k: Sizing, live: nat, current: nat, res: nat)
    requires k.page > 0 && !RatioAtLeast(k, live, k.live + k.grow)
    requires k.grow >= k.copy && RatioAtLeast(k, live, 2.0 * k.copy) && res == AlignDown(k.ram / 2, k.page)
    ensures Asked(k, live, current, res)
  {
    hide RatioAtLeast, RamHolds, Product, AlignDown, WholePagesOrCurrent, RequiredRatio;
    RatiosAre(k, live);
    AlignDownIs(k.ram / 2, k.page);
  }

  lemma AskedRam(k: Sizing, live: nat, current: nat, res: nat)
    requires k.page > 0 && k.grow > 1.0 && k.copy > 1.0 && !RatioAtLeast(k, live, k.live + k.grow)
    requires !(k.grow >= k.copy && RatioAtLeast(k, live, 2.0 * k.copy)) && RatioAtLeast(k, live, k.copy + k.grow)
    requires var want := Trunc(k.ram as real - Trunc(Scale(live, k.grow)) as real);
      res == if CloseToRam(current, want) then current else AlignTo(want, k.page)
    ensures Asked(k, live, current, res)
  {
    hide *;
    TruncScale(live, k.grow);
    GrowBelowRam(k, live);
    LeftOfRam(k.ram, Trunc(Scale(live, k.grow)));
    var want := Trunc(k.ram as real - Trunc(Scale(live, k.grow)) as real);
    CloseAre(current, want);
    PagesOrCurrent(want, 1.0, k.page, current, res);
    AskedThird(k, live, current, res);
  }

  lemma LeftOfRam(ram: nat, grow: nat)
    requires grow <= ram
    ensures Trunc(ram as real - grow as real) == ram - grow
  {
    assert ram as real - grow as real == (ram - grow) as real;
  }

  lemma GrowBelowRam(k: Sizing, live: nat)
    requires k.copy > 1.0 && k.grow > 1.0 && RatioAtLeast(k, live, k.copy + k.grow)
    ensures Trunc(Scale(live, k.grow)) <= k.ram
  {
    hide Scale, Trunc;
    ScaleMono(live, k.grow, k.copy + k.grow);
    ScaleMono(live, 0.0, k.grow);
    ScaleOne(live);
    TruncIs(Scale(live, k.grow));
  }

  lemma AskedAll(k: Sizing, live: nat, current: nat, res: nat)
    requires !RatioAtLeast(k, live, k.live + k.grow) && !RatioAtLeast(k, live, k.copy + k.grow)
    requires !(k.grow >= k.copy && RatioAtLeast(k, live, 2.0 * k.copy))
    requires RatioAtLeast(k, live, k.markCompact) && res == k.ram
    ensures Asked(k, live, current, res)
  {
    hide RatioAtLeast, RamHolds, Product, WholePagesOrCurrent, RequiredRatio;
    RatiosAre(k, live);
  }

  lemma AskedRequired(k: Sizing, live: nat, current: nat, res: nat)
    requires !RatioAtLeast(k, live, k.live + k.grow) && !RatioAtLeast(k, live, k.copy + k.grow)
    requires !(k.grow >= k.copy && RatioAtLeast(k, live, 2.0 * k.copy)) && !RatioAtLeast(k, live, k.markCompact)
    requires RequiredRatio(k, live, res)
    ensures Asked(k, live, current, res)
  {
    hide RatioAtLeast, RamHolds, Product, WholePagesOrCurrent, RequiredRatio;
    RatiosAre(k, live);
  }

  lemma RequiredIs(k: Sizing, live: nat, res: nat)
    requires k.page > 0 && k.markCompact > 1.0
    requires res == if Scale(live, k.markCompact) > AlignDown(SIZE_MAX, k.page) as real then AlignDown(SIZE_MAX, k.page)
      else AlignTo(Trunc(Scale(live, k.markCompact)), k.page)
    ensures RequiredRatio(k, live, res)
  {
    hide *;
    TruncScale(live, k.markCompact);
    RatioIs(k, live, k.markCompact);
    RoundedToPages(Trunc(Scale(live, k.markCompact)), k.page);
    AlignDownIs(SIZE_MAX, k.page);
    DownIs(SIZE_MAX, k.page);
    RequiredIntro(k, live, res, AlignDown(SIZE_MAX, k.page));
  }

  lemma RequiredIntro(k: Sizing, live: nat, res: nat, top: nat)
    requires k.page > 0 && res % k.page == 0 && top == SIZE_MAX - SIZE_MAX % k.page && top <= SIZE_MAX < top + k.page
    requires if k.markCompact * live as real > top as real then res == top
      else Product(k.markCompact, live) <= res < Product(k.markCompact, live) + k.page
    ensures RequiredRatio(k, live, res)
  {
    hide Product;
  }

  lemma DownIs(a: nat, b: nat)
    requires b > 0
    ensures AlignDown(a, b) == a - a % b
  {
    DivMod(a, b);
    Commute(a / b, b);
  }

  // If RAM is ample the live ratio is met, up to 10%, and no more than a page is
  // given beyond it, but that a current heap of up to twice the size is kept.
  lemma LiveRatioMet(k: Sizing, live: nat, current: nat, res: nat)
    requires Asked(k, live, current, res) && k.ram as real >= (k.live + k.grow) * live as real && k.live >= 0.0
    ensures Product(k.live, live) as real <= 1.1 * res as real
    ensures res as real < k.live * live as real + k.page as real ||
      (res == current && res as real <= 2.0 * Product(k.live, live) as real)
  {
    hide *;
    AskedAmple(k, live, current, res);
    TruncScale(live, k.live);
    ProductIs(k.live, live);
    NearBounds(k.live * live as real, Product(k.live, live), k.page, current, res);
  }

  lemma ProductIs(ratio: real, live: nat)
    ensures Product(ratio, live) == (ratio * live as real).Floor
    ensures Product(ratio, live) as real <= ratio * live as real
    ensures ratio >= 0.0 ==> Product(ratio, live) >= 0
  {
    if ratio >= 0.0 { assert ratio * live as real >= 0.0; }
  }

  lemma AskedAmple(k: Sizing, live: nat, current: nat, res: nat)
    requires Asked(k, live, current, res) && k.ram as real >= (k.live + k.grow) * live as real
    ensures WholePagesOrCurrent(Product(k.live, live), 0.5, k.page, current, res)
  {
    hide Product, WholePagesOrCurrent, RequiredRatio;
    assert RamHolds(k, live, k.live + k.grow);
  }

  lemma NearBounds(want: real, floor: int, page: nat, current: nat, res: nat)
    requires WholePagesOrCurrent(floor, 0.5, page, current, res) && 0 <= floor && floor as real <= want
    ensures floor as real <= 1.1 * res as real
    ensures res as real < want + page as real || (res == current && res as real <= 2.0 * floor as real)
  {
    if page > 0 && floor <= res < floor + page {
      assert res as real < (floor + page) as real;
    }
  }

  // resWithMapsSize, branch by branch.
  method ResWithMaps(k: Sizing, liveWithMapsSize: nat, currentWithMapsSize: nat) returns (resWithMapsSize: nat)
    requires ValidSizing(k) && liveWithMapsSize % k.page == 0 && currentWithMapsSize % k.page == 0
    requires liveWithMapsSize <= AlignDown(SIZE_MAX, k.page) && currentWithMapsSize <= AlignDown(SIZE_MAX, k.page)
    ensures resWithMapsSize % k.page == 0 && resWithMapsSize <= AlignDown(SIZE_MAX, k.page)
    ensures resWithMapsSize >= liveWithMapsSize <==> !KeepsTooSmall(k, liveWithMapsSize, currentWithMapsSize)
    ensures KeepsTooSmall(k, liveWithMapsSize, currentWithMapsSize) ==> resWithMapsSize == currentWithMapsSize
    ensures Asked(k, liveWithMapsSize, currentWithMapsSize, resWithMapsSize)
  {
    hide Scale, Trunc, RatioAtLeast, CloseToLive, CloseToRam, AlignTo, AlignDown, PageOk, Limit, KeepsForLive,
      KeepsForRam, Asked, RequiredRatio;
    SizingParts(k);
    SysLimit(k);
    KeepsAre(k, liveWithMapsSize, currentWithMapsSize);
    var syslimWithMapsSize := AlignDown(SIZE_MAX, k.page);
    if RatioAtLeast(k, liveWithMapsSize, k.live + k.grow) {
      resWithMapsSize := Trunc(Scale(liveWithMapsSize, k.live));
      ForLive(k, liveWithMapsSize, currentWithMapsSize);
      if CloseToLive(currentWithMapsSize, resWithMapsSize) {
        resWithMapsSize := currentWithMapsSize;
      } else {
        Rounded(resWithMapsSize, liveWithMapsSize, k.ram, k.page);
        resWithMapsSize := AlignTo(resWithMapsSize, k.page);
      }
      AskedLive(k, liveWithMapsSize, currentWithMapsSize, resWithMapsSize);
    } else if k.grow >= k.copy && RatioAtLeast(k, liveWithMapsSize, 2.0 * k.copy) {
      HalfRam(k, liveWithMapsSize);
      resWithMapsSize := AlignDown(k.ram / 2, k.page);
      AskedHalf(k, liveWithMapsSize, currentWithMapsSize, resWithMapsSize);
    } else if RatioAtLeast(k, liveWithMapsSize, k.copy + k.grow) {
      ForRam(k, liveWithMapsSize, currentWithMapsSize);
      resWithMapsSize := Trunc(k.ram as real - Trunc(Scale(liveWithMapsSize, k.grow)) as real);
      if CloseToRam(currentWithMapsSize, resWithMapsSize) {
        resWithMapsSize := currentWithMapsSize;
      } else {
        Rounded(resWithMapsSize, liveWithMapsSize, k.ram, k.page);
        resWithMapsSize := AlignTo(resWithMapsSize, k.page);
      }
      AskedRam(k, liveWithMapsSize, currentWithMapsSize, resWithMapsSize);
    } else if RatioAtLeast(k, liveWithMapsSize, k.markCompact) {
      AllRam(k, liveWithMapsSize);
      resWithMapsSize := k.ram;
      AskedAll(k, liveWithMapsSize, currentWithMapsSize, resWithMapsSize);
    } else {
      var resWithMapsSizeD := Scale(liveWithMapsSize, k.markCompact);
      if resWithMapsSizeD > syslimWithMapsSize as real {
        resWithMapsSize := syslimWithMapsSize;
      } else {
        Required(k, liveWithMapsSize);
        TruncBelow(resWithMapsSizeD, syslimWithMapsSize);
        Rounded(Trunc(resWithMapsSizeD), liveWithMapsSize, syslimWithMapsSize, k.page);
        resWithMapsSize := AlignTo(Trunc(resWithMapsSizeD), k.page);
      }
      RequiredIs(k, liveWithMapsSize, resWithMapsSize);
      AskedRequired(k, liveWithMapsSize, currentWithMapsSize, resWithMapsSize);
    }
  }

  lemma KeepsAre(k: Sizing, liveWithMaps: nat, current: nat)
    ensures KeepsForLive(k, liveWithMaps, current) <==>
      RatioAtLeast(k, liveWithMaps, k.live + k.grow) && CloseToLive(current, Trunc(Scale(liveWithMaps, k.live)))
    ensures KeepsForRam(k, liveWithMaps, current) <==>
      !RatioAtLeast(k, liveWithMaps, k.live + k.grow) &&
        !(k.grow >= k.copy && RatioAtLeast(k, liveWithMaps, 2.0 * k.copy))
      && RatioAtLeast(k, liveWithMaps, k.copy + k.grow)
      && CloseToRam(current, Trunc(k.ram as real - Trunc(Scale(liveWithMaps, k.grow)) as real))
  {
  }

  // When a heap that is kept too small makes the program die: always under a
  // maximal heap, and under a fixed heap if the kept size is at most half of it
  // and the live data is not; otherwise only if the live data exceeds the limit.
  predicate KeptDies(k: Sizing, liveWithMaps: nat, current: nat)
    requires k.page > 0
  {
    || liveWithMaps > Limit(k)
    || k.maxHeap > 0
    || (k.fixedHeap > 0 && liveWithMaps > k.fixedHeap / 2 && current <= k.fixedHeap / 2)
  }

  lemma KeptDiesIs(k: Sizing, liveWithMaps: nat, current: nat)
    requires k.page > 0
    ensures KeptDies(k, liveWithMaps, current) <==>
      liveWithMaps > Limit(k) || k.maxHeap > 0 ||
        (k.fixedHeap > 0 && liveWithMaps > k.fixedHeap / 2 && current <= k.fixedHeap / 2)
  {
  }

  // 101 pages of live data, with the current 97 pages kept.  They fit into the
  // limit, yet the program dies, under a maximal heap of 400 pages and under a
  // fixed heap of 200 pages; under a fixed heap of 180 pages it does not.
  lemma KeptTooSmallUnderLimits(max: Sizing, fixed: Sizing, smaller: Sizing)
    requires max == Limited(0, 1638400) && fixed == Limited(819200, 0) && smaller == Limited(737280, 0)
    ensures KeptWith(max, true) && KeptWith(fixed, true) && KeptWith(smaller, false)
  {
    hide KeptWith;
    KeptUnder(max, true);
    KeptUnder(fixed, true);
    KeptUnder(smaller, false);
  }

  // The live data fits, and whether the program dies.
  predicate KeptWith(k: Sizing, dies: bool) {
    && ValidSizing(k) && TooSmallFor(k, 413696, 397312)
    && WithMaps(k.marksCards, k.page, AlignTo(413696, k.page)) == 413696 <= Limit(k)
    && WithMaps(k.marksCards, k.page, 397312) == 397312
    && (KeptDies(k, 413696, 397312) <==> dies)
  }

  function Limited(fixedHeap: nat, maxHeap: nat): Sizing {
    Sizing(false, 4096, 4096 * 1024, fixedHeap, maxHeap, 1.05, 2.0, 1.04, 1.04)
  }

  lemma KeptUnder(k: Sizing, dies: bool)
    requires k == Limited(k.fixedHeap, k.maxHeap)
    requires k.fixedHeap % 8192 == 0 && k.maxHeap % 8192 == 0 && (k.fixedHeap == 0) != (k.maxHeap == 0)
    requires 413696 <= k.fixedHeap + k.maxHeap <= 4194304
    requires dies <==> k.maxHeap > 0 || (413696 > k.fixedHeap / 2 && 397312 <= k.fixedHeap / 2)
    ensures KeptWith(k, dies)
  {
    hide Scale, Trunc, RatioAtLeast, CloseToLive, CloseToRam, KeepsForRam, KeepsForLive, WithMaps, AlignTo, AlignDown;
    NoMaps(4096);
    assert WithMaps(false, 4096, 413696) == 413696;
    assert WithMaps(false, 4096, 397312) == 397312;
    AlignIs(413696, 4096);
    Small(k);
  }

  // What a fixed heap, all or half of it, or a maximal heap makes of the size asked.
  function BoundedSize(k: Sizing, asked: nat): nat {
    if k.fixedHeap > 0 then if asked > k.fixedHeap / 2 then k.fixedHeap else k.fixedHeap / 2
    else if k.maxHeap > 0 && asked > k.maxHeap then k.maxHeap
    else asked
  }

  // The heap of this size is the largest that, with its maps, takes no more than
  // is asked for, within the controls.
  ghost predicate Sought(k: Sizing, liveSize: nat, currentSize: nat, size: nat) {
    exists asked :: SoughtFor(k, liveSize, currentSize, asked, size)
  }

  predicate SoughtFor(k: Sizing, liveSize: nat, currentSize: nat, asked: nat, size: nat) {
    && k.page > 0
    && Asked(k, WithMaps(k.marksCards, k.page, AlignTo(liveSize, k.page)), WithMaps(k.marksCards, k.page, currentSize),
         asked)
    && WithMaps(k.marksCards, k.page, size) <= BoundedSize(k, asked) < WithMaps(k.marksCards, k.page, size + k.page)
  }

  lemma BoundedIs(k: Sizing, asked: nat)
    ensures BoundedSize(k, asked) ==
      if k.fixedHeap > 0 then if asked > k.fixedHeap / 2 then k.fixedHeap else k.fixedHeap / 2
      else if k.maxHeap > 0 && asked > k.maxHeap then k.maxHeap
      else asked
  {
  }

  lemma SoughtIntro(k: Sizing, liveSize: nat, currentSize: nat, asked: nat, size: nat)
    requires k.page > 0
    requires Asked(k, WithMaps(k.marksCards, k.page, AlignTo(liveSize, k.page)),
      WithMaps(k.marksCards, k.page, currentSize), asked)
    requires WithMaps(k.marksCards, k.page, size) <= BoundedSize(k, asked)
    requires BoundedSize(k, asked) < WithMaps(k.marksCards, k.page, size + k.page)
    ensures Sought(k, liveSize, currentSize, size)
  {
    hide Asked, WithMaps, BoundedSize, AlignTo;
    assert SoughtFor(k, liveSize, currentSize, asked, size);
  }

  // sizeofHeapDesired.  Unless the current size is kept although too small, it
  // fails exactly when the live data with its maps exceeds the limit, and
  // otherwise gives whole pages, at least the live size, within the limit.
  method SizeofHeapDesired(k: Sizing, liveSize: nat, currentSize: nat) returns (r: Desired)
    requires ValidSizing(k) && liveSize + k.page <= SIZE_MAX
    requires currentSize % k.page == 0 && WithMaps(k.marksCards, k.page, currentSize) <= AlignDown(SIZE_MAX, k.page)
    ensures r.Size? ==> r.size % k.page == 0 && WithMaps(k.marksCards, k.page, r.size) <= Limit(k)
    ensures !TooSmallFor(k, liveSize, currentSize) ==>
      (r.OutOfMemory? <==> WithMaps(k.marksCards, k.page, AlignTo(liveSize, k.page)) > Limit(k))
    ensures !TooSmallFor(k, liveSize, currentSize) && r.Size? ==> liveSize <= AlignTo(liveSize, k.page) <= r.size
    ensures k.fixedHeap == 0 && k.maxHeap == 0 && r.Size? ==>
      (AlignTo(liveSize, k.page) <= r.size <==> !TooSmallFor(k, liveSize, currentSize))
    ensures (k.fixedHeap > 0 || k.maxHeap > 0) && r.Size? ==> AlignTo(liveSize, k.page) <= r.size
    ensures TooSmallFor(k, liveSize, currentSize) ==>
      (r.OutOfMemory? <==>
        KeptDies(k, WithMaps(k.marksCards, k.page, AlignTo(liveSize, k.page)),
        WithMaps(k.marksCards, k.page, currentSize)))
    ensures r.Size? ==> Sought(k, liveSize, currentSize, r.size)
  {
    hide *;
    SizingParts(k);
    SysLimit(k);
    LimitIs(k);
    AlignIs(liveSize, k.page);
    TooSmallIs(k, liveSize, currentSize);
    KeptDiesIs(k, WithMaps(k.marksCards, k.page, AlignTo(liveSize, k.page)),
      WithMaps(k.marksCards, k.page, currentSize));
    var syslimWithMapsSize := AlignDown(SIZE_MAX, k.page);
    var syslimSize := InvertSizeofMaps(k.marksCards, k.page, syslimWithMapsSize);
    ghost var liveSize0 := liveSize;
    var liveSize := AlignTo(liveSize, k.page);
    if syslimSize < liveSize { return OutOfMemory; }
    var liveWithMapsSize := WithMaps(k.marksCards, k.page, liveSize);
    var currentWithMapsSize := WithMaps(k.marksCards, k.page, currentSize);
    MapsAligned(k.marksCards, k.page, liveSize);
    MapsAligned(k.marksCards, k.page, currentSize);
    var resWithMapsSize := ResWithMaps(k, liveWithMapsSize, currentWithMapsSize);
    ghost var asked := resWithMapsSize;
    BoundedIs(k, asked);
    if k.fixedHeap > 0 {
      if resWithMapsSize > k.fixedHeap / 2 {
        resWithMapsSize := k.fixedHeap;
      } else {
        resWithMapsSize := k.fixedHeap / 2;
      }
      if resWithMapsSize < liveWithMapsSize { return OutOfMemory; }
    } else if k.maxHeap > 0 {
      if resWithMapsSize > k.maxHeap {
        resWithMapsSize := k.maxHeap;
      }
      if resWithMapsSize < liveWithMapsSize { return OutOfMemory; }
    }
    var resSize := InvertSizeofMaps(k.marksCards, k.page, resWithMapsSize);
    NextAligned(resSize, k.page);
    SoughtIntro(k, liveSize0, currentSize, asked, resSize);
    return Size(resSize);
  }

  predicate TooSmallFor(k: Sizing, liveSize: nat, currentSize: nat)
    requires k.page > 0
  {
    KeepsTooSmall(k, WithMaps(k.marksCards, k.page, AlignTo(liveSize, k.page)),
      WithMaps(k.marksCards, k.page, currentSize))
  }

  lemma TooSmallIs(k: Sizing, liveSize: nat, currentSize: nat)
    requires k.page > 0
    ensures TooSmallFor(k, liveSize, currentSize) <==>
      KeepsTooSmall(k, WithMaps(k.marksCards, k.page, AlignTo(liveSize, k.page)),
        WithMaps(k.marksCards, k.page, currentSize))
  {
  }

  lemma SizingParts(k: Sizing)
    requires ValidSizing(k)
    ensures PageOk(k.page) && k.page > 0 && (k.fixedHeap == 0 || k.maxHeap == 0)
    ensures SIZE_MAX == 0xFFFF_FFFF_FFFF_FFFF
  {
  }

  lemma LimitIs(k: Sizing)
    requires k.page > 0
    ensures Limit(k) ==
      (if k.fixedHeap > 0 then k.fixedHeap else if k.maxHeap > 0 then k.maxHeap else AlignDown(SIZE_MAX, k.page))
  {
  }
}
