// A small heap that meets every requirement of a collection: a stack whose frame
// points to a sequence, a pair that points to a weak pointer and to a pair in the
// nursery, which points to itself and back, and a dead object that only the weak
// pointer refers to.

module Sample {
  import opened Layout
  import opened Heap
  import opened StackSize
  import opened StackObject
  import opened State
  import opened Tiling
  import opened Cursor
  import opened DfsInvariant
  import opened Roots
  import opened Collection
  import opened CrossMap
  import opened OldScan
  import opened MinorHeap
  import opened MajorCopy
  import opened MinorThenMajor

  function SampleEnv(): Env {
    Env([ObjectType(WeakTag, 8, 1), ObjectType(NormalTag, 0, 2), ObjectType(WeakTag, 16, 0), ObjectType(StackTag, 0, 0),
         ObjectType(NormalTag, 8, 0), ObjectType(SequenceTag, 1, 0), ObjectType(SequenceTag, 0, 1)],
        map[7 := FrameInfo(2, [0])])
  }

  function Controls(): StackControls { StackControls(16, 2.0, 32.0, 4.0, 0.5, 8.0, 0.5) }

  function SampleMemory(): Memory {
    [Bits(0), Ptr(16), Bits(0),
     Header(1, 0, false), Ptr(9), Ptr(31),
     Header(4, 0, false), Bits(42),
     Header(0, 0, false), Bits(0), Ptr(7),
     Bits(0), Bits(1), Header(6, 0, false), Ptr(4),
     Header(3, 0, false), Bits(0), Bits(0), Bits(24), Bits(16), Ptr(14), Bits(7), Bits(0),
     Bits(0), Bits(0), Bits(0), Bits(0), Bits(0), Bits(0), Bits(0),
     Header(1, 0, false), Ptr(31), Ptr(4)]
    + seq(20, _ => Bits(0))
  }

  function SampleObjects(): seq<Obj> {
    [Obj(3, 4, 6, 1, [4, 5]), Obj(6, 7, 8, 4, []), Obj(8, 9, 11, 0, [10]), Obj(11, 14, 15, 6, [14]),
      Obj(15, 16, 23, 3, [20])]
  }

  function SampleHeap(): Objects {
    map[4 := SampleObjects()[0], 7 := SampleObjects()[1], 9 := SampleObjects()[2], 14 := SampleObjects()[3],
      16 := SampleObjects()[4]]
  }

  function SampleCollection(): Collection {
    Collection(SampleEnv(), Controls(), SampleMemory(), SampleHeap(), Spaces(3, 23, 23, 23), [1], 16, false, map[])
  }

  lemma EnvOk()
    ensures ValidEnv(SampleEnv()) && FramesBounded(SampleEnv(), Controls())
  {
  }

  lemma FixedObjects()
    ensures IsObject(SampleEnv(), SampleMemory(), SampleObjects()[0])
    ensures IsObject(SampleEnv(), SampleMemory(), SampleObjects()[1])
    ensures IsObject(SampleEnv(), SampleMemory(), SampleObjects()[2])
  {
  }

  lemma SequenceObject()
    ensures IsObject(SampleEnv(), SampleMemory(), SampleObjects()[3])
  {
    assert SeqSlots(14, 1, 0, 1) == NormalSlots(14, 1) + SeqSlots(15, 0, 0, 1) == [14];
  }

  lemma StackIsObject()
    ensures IsObject(SampleEnv(), SampleMemory(), SampleObjects()[4])
  {
    var m := SampleMemory();
    assert FramesOk(SampleEnv(), m, 20, 20);
    assert FramesOk(SampleEnv(), m, 20, 22);
    assert FrameSlots(SampleEnv(), m, 20, 20) == [];
    assert FrameSlots(SampleEnv(), m, 20, 22) == OffsetSlots(20, [0]) + [] == [20];
  }

  lemma SampleTiles()
    ensures Tiles(SampleObjects(), 3, 23) && Covers(SampleHeap(), SampleObjects())
  {
    var objs := SampleObjects();
    assert objs[0].p == 4 && objs[1].p == 7 && objs[2].p == 9 && objs[3].p == 14 && objs[4].p == 16;
  }

  lemma Keys(p: nat)
    ensures p in SampleHeap() <==> p == 4 || p == 7 || p == 9 || p == 14 || p == 16
  {
  }

  lemma Extents(p: nat)
    requires p in SampleHeap()
    ensures var o := SampleHeap()[p]; o.p == p && o.front < p <= o.end
    ensures var o := SampleHeap()[p];
      || (p == 4 && o.front == 3 && o.end == 6) || (p == 7 && o.front == 6 && o.end == 8)
      || (p == 9 && o.front == 8 && o.end == 11) || (p == 14 && o.front == 11 && o.end == 15)
      || (p == 16 && o.front == 15 && o.end == 23)
  {
    if p == 4 {} else if p == 7 {} else if p == 9 {} else if p == 14 {} else { assert p == 16; }
  }

  lemma ObjectAt(p: nat)
    requires p in SampleHeap()
    ensures IsObject(SampleEnv(), SampleMemory(), SampleHeap()[p])
  {
    hide IsObject, SampleEnv, SampleMemory, SampleObjects;
    FixedObjects();
    SequenceObject();
    StackIsObject();
  }

  lemma ObjectsOk()
    ensures AreObjects(SampleEnv(), SampleMemory(), SampleHeap())
  {
    hide IsObject, ValidEnv, FramesBounded, SampleEnv, SampleMemory, SampleHeap, Controls;
    EnvOk();
    forall p | p in SampleHeap()
      ensures SampleHeap()[p].p == p && IsObject(SampleEnv(), SampleMemory(), SampleHeap()[p])
    {
      Extents(p);
      ObjectAt(p);
    }
    forall p, q | p in SampleHeap() && q in SampleHeap() && p != q
      ensures SampleHeap()[p].end <= SampleHeap()[q].front || SampleHeap()[q].end <= SampleHeap()[p].front
    {
      Extents(p);
      Extents(q);
    }
  }

  lemma HeadersOk(p: nat)
    requires p in SampleHeap()
    ensures var o := SampleHeap()[p];
      Clean(SampleEnv(), SampleMemory(), o) && o.p == p && 0 < p <= |SampleMemory()|
      && SampleMemory()[p - 1].Header? && !SampleMemory()[p - 1].mark && (IsWeak(SampleEnv(), o) ==> |o.slots| == 1)
  {
    if p == 4 {} else if p == 7 {} else if p == 9 {} else if p == 14 {} else { assert p == 16; }
  }

  lemma QuietSample()
    ensures Quiet(SampleEnv(), SampleMemory(), SampleHeap()) && NoMarks(SampleMemory(), SampleHeap())
  {
    ObjectsOk();
    hide AreObjects, SampleHeap, SampleMemory, SampleEnv, Clean, IsWeak;
    forall p | p in SampleHeap()
      ensures var o := SampleHeap()[p];
        Clean(SampleEnv(), SampleMemory(), o) && o.p == p && 0 < p <= |SampleMemory()|
        && SampleMemory()[p - 1].Header? && !SampleMemory()[p - 1].mark && (IsWeak(SampleEnv(), o) ==> |o.slots| == 1)
    {
      HeadersOk(p);
    }
  }

  lemma OldTarget(p: nat, i: nat)
    requires p in SampleHeap() && i < |SampleHeap()[p].slots|
    ensures SampleHeap()[p].slots[i] < |SampleMemory()|
    ensures var w := SampleMemory()[SampleHeap()[p].slots[i]];
      w.Ptr? && (w.addr == 4 || w.addr == 7 || w.addr == 9 || w.addr == 14 || w.addr == 31)
  {
    if p == 4 {} else if p == 7 {} else if p == 9 {} else if p == 14 {} else { assert p == 16; }
  }

  lemma RootWord()
    ensures |SampleMemory()| == 53 && SampleMemory()[1] == Ptr(16)
  {
  }

  lemma PointersOk()
    ensures Within(SampleHeap(), Spaces(3, 23, 23, 23)) && SlotsOk(SampleMemory(), SampleHeap(), Spaces(3, 23, 23, 23))
    ensures RootsOk(SampleMemory(), SampleHeap(), Spaces(3, 23, 23, 23), [1])
  {
    hide SampleMemory, SampleHeap;
    RootWord();
    forall p: nat
      ensures p in SampleHeap() <==> p == 4 || p == 7 || p == 9 || p == 14 || p == 16
    {
      Keys(p);
    }
    forall p | p in SampleHeap()
      ensures !(SampleHeap()[p].front <= 1 < SampleHeap()[p].end)
    {
      Extents(p);
    }
    forall p, i |
      p in SampleHeap() && 0 <= i < |SampleHeap()[p].slots| && SampleHeap()[p].slots[i] < |SampleMemory()|
      ensures TargetOk(SampleHeap(), Spaces(3, 23, 23, 23), SampleMemory()[SampleHeap()[p].slots[i]])
    {
      OldTarget(p, i);
    }
  }

  // The requirements of a collection are met.
  lemma SampleIsOk()
    ensures HeapOk(SampleCollection())
    ensures Tiles(SampleObjects(), 3, 23) && Covers(SampleHeap(), SampleObjects())
  {
    EnvOk();
    QuietSample();
    PointersOk();
    SampleTiles();
    hide Quiet, NoMarks, Within, SlotsOk, RootsOk, FramesBounded, Tiles, Covers, SampleEnv, SampleMemory, SampleHeap,
      SampleObjects, Controls;
  }

  // ------------------------------------------------------------------ two generations

  function YoungObjects(): seq<Obj> { [Obj(30, 31, 33, 1, [31, 32])] }

  function WholeHeap(): Objects { SampleHeap()[31 := YoungObjects()[0]] }

  function SampleGenerations(): Generations {
    Generations(SampleCollection().(H := WholeHeap(), sp := Spaces(3, 23, 30, 33)), SampleObjects(), YoungObjects())
  }

  lemma YoungIsObject()
    ensures IsObject(SampleEnv(), SampleMemory(), YoungObjects()[0])
  {
  }

  lemma OldBelow(p: nat)
    ensures p in SampleHeap() ==> SampleHeap()[p].end <= 23
    ensures YoungObjects()[0].front == 30 && YoungObjects()[0].p == 31
  {
  }

  lemma WholeObjectsOk()
    ensures AreObjects(SampleEnv(), SampleMemory(), WholeHeap())
  {
    hide IsObject, ValidEnv, SampleHeap, YoungObjects, SampleEnv, SampleMemory, SampleObjects;
    ObjectsOk();
    YoungIsObject();
    OldBelow(0);
    forall p | p in SampleHeap()
      ensures SampleHeap()[p].end <= 23
    {
      OldBelow(p);
    }
  }

  lemma QuietWhole()
    ensures Quiet(SampleEnv(), SampleMemory(), WholeHeap()) && NoMarks(SampleMemory(), WholeHeap())
  {
    WholeObjectsOk();
    QuietSample();
    YoungHeader();
    hide AreObjects, SampleHeap, SampleMemory, SampleEnv, Clean, IsWeak, YoungObjects;
  }

  lemma YoungHeader()
    ensures var o := YoungObjects()[0];
      Clean(SampleEnv(), SampleMemory(), o) && o.p == 31 && 31 <= |SampleMemory()|
      && SampleMemory()[30].Header? && !SampleMemory()[30].mark && !IsWeak(SampleEnv(), o)
  {
  }

  lemma SlotTarget(p: nat, i: nat)
    requires p in WholeHeap() && i < |WholeHeap()[p].slots|
    ensures var w := WordAt(SampleMemory(), WholeHeap()[p].slots[i]);
      w.Ptr? && (w.addr == 4 || w.addr == 7 || w.addr == 9 || w.addr == 14 || w.addr == 31)
      && WholeHeap()[p].slots[i] < |SampleMemory()|
  {
    if p == 4 {} else if p == 7 {} else if p == 9 {} else if p == 14 {} else if p == 16 {} else { assert p == 31; }
  }

  lemma WholeKeys(p: nat)
    ensures p in WholeHeap() <==> p == 4 || p == 7 || p == 9 || p == 14 || p == 16 || p == 31
    ensures SampleMemory()[1] == Ptr(16) && |SampleMemory()| == 53
    ensures p in WholeHeap() ==> !(WholeHeap()[p].front <= 1 < WholeHeap()[p].end)
  {
  }

  lemma WholePointersOk()
    ensures Within(WholeHeap(), Spaces(3, 23, 30, 33)) && SlotsOk(SampleMemory(), WholeHeap(), Spaces(3, 23, 30, 33))
    ensures RootsOk(SampleMemory(), WholeHeap(), Spaces(3, 23, 30, 33), [1])
    ensures GapFree(SampleGenerations().f)
  {
    hide WholeHeap, SampleMemory, SampleObjects, YoungObjects, SampleEnv, Controls;
    WholeKeys(4);
    WholeKeys(7);
    WholeKeys(9);
    WholeKeys(14);
    WholeKeys(16);
    WholeKeys(31);
    forall p: nat
      ensures p in WholeHeap() ==>
        !(WholeHeap()[p].front <= 1 < WholeHeap()[p].end) && InSpaces(Spaces(3, 23, 30, 33), p)
    {
      WholeKeys(p);
    }
    forall p, i | p in WholeHeap() && 0 <= i < |WholeHeap()[p].slots|
      ensures TargetOk(WholeHeap(), Spaces(3, 23, 30, 33), WordAt(SampleMemory(), WholeHeap()[p].slots[i]))
      ensures NotInGap(SampleGenerations().f, WordAt(SampleMemory(), WholeHeap()[p].slots[i]))
    {
      SlotTarget(p, i);
    }
  }

  lemma WholeTiles()
    ensures Tiles(YoungObjects(), 30, 33)
    ensures forall i :: 0 <= i < |SampleObjects()| ==>
      SampleObjects()[i].p in WholeHeap() && WholeHeap()[SampleObjects()[i].p] == SampleObjects()[i]
    ensures forall i :: 0 <= i < |YoungObjects()| ==>
      YoungObjects()[i].p in WholeHeap() && WholeHeap()[YoungObjects()[i].p] == YoungObjects()[i]
    ensures forall p :: p in WholeHeap() ==> p in Contains(SampleObjects()) || p in Contains(YoungObjects())
  {
    var objs := SampleObjects();
    assert objs[0].p == 4 && objs[1].p == 7 && objs[2].p == 9 && objs[3].p == 14 && objs[4].p == 16 &&
      YoungObjects()[0].p == 31;
  }

  // The requirements of a minor collection are met, with the first card marked.
  lemma GenerationsAreOk()
    ensures GenerationsOk(SampleGenerations())
    ensures CardsOk(Nursery(SampleGenerations()), [true], SampleObjects(), 3, 23)
    ensures MapOk(SampleObjects(), 3, 23, 0, [CROSS_MAP_EMPTY], 0)
  {
    EnvOk();
    QuietWhole();
    WholePointersOk();
    SampleTiles();
    WholeTiles();
    FirstCard();
    hide Quiet, NoMarks, Within, SlotsOk, RootsOk, FramesBounded, Tiles, GapFree, SampleEnv, SampleHeap, WholeHeap,
      SampleObjects, YoungObjects, Contains, Controls, CardsOk, MapOk;
    assert |SampleMemory()| == 53;
  }

  // The whole old generation is on one card.
  lemma FirstCard()
    ensures CardsOk(Nursery(SampleGenerations()), [true], SampleObjects(), 3, 23)
    ensures MapOk(SampleObjects(), 3, 23, 0, [CROSS_MAP_EMPTY], 0)
  {
    hide Young, Nursery, SampleObjects, Boundary, Tiles, Entry, Covers;
    SampleTiles();
    var objs := SampleObjects();
    BoundaryAt(objs, 3, 23, 0);
    forall u | 0 <= u < |objs|
      ensures OnMarkedCard([true], objs, 3, 23, u)
    {
      OnFirstCard(objs, u);
    }
  }

  lemma OnFirstCard(objs: seq<Obj>, u: nat)
    requires Tiles(objs, 3, 23) && u < |objs|
    ensures OnMarkedCard([true], objs, 3, 23, u)
  {
    hide Tiles, Boundary;
    BoundaryAt(objs, 3, 23, u);
    BoundaryAt(objs, 3, 23, u + 1);
    var k: nat, cards := 0, [true];
    assert Marked(cards, k);
    assert Boundary(objs, 3, 23, u) < CardToSize(k + 1) && CardToSize(k) < Boundary(objs, 3, 23, u + 1);
  }

  // ------------------------------------------------------------------ a secondary heap

  // The words from 33 on can be the secondary heap, of a collection of the old
  // generation alone and of one of both generations.
  lemma SecondaryIsApart()
    ensures SecondaryApart(SampleGenerations(), 33, 53)
  {
    hide WholeHeap, SampleMemory, SampleObjects, YoungObjects, SampleEnv, Controls;
    WholeKeys(4);
    var h := SampleGenerations();
    forall p, i | p in h.f.H && 0 <= i < |h.f.H[p].slots|
      ensures ForeignWord(h.f, WordAt(h.f.m, h.f.H[p].slots[i]), 33, 53)
      ensures ForeignTarget(h, 33, 53, WordAt(h.f.m, h.f.H[p].slots[i]))
    {
      SlotTarget(p, i);
    }
  }

  lemma CopyingIsOk()
    ensures var c := SampleCollection().(sp := Spaces(3, 23, 3, 23), clearsForeign := true);
      HeapOk(c) && SecondaryOk(c, 33, 53)
  {
    hide WholeHeap, SampleMemory, SampleHeap, SampleObjects, YoungObjects, SampleEnv, Controls, HeapOk;
    SampleIsOk();
    var f := SampleCollection();
    var c := f.(sp := Spaces(3, 23, 3, 23), clearsForeign := true);
    AbsorbedHeapOk(f, c.sp, true);
    WholeKeys(4);
    forall p | p in c.H
      ensures c.H[p].end <= 33
    {
      OldBelow(p);
    }
    forall p, i | p in c.H && 0 <= i < |c.H[p].slots|
      ensures ForeignWord(c, WordAt(c.m, c.H[p].slots[i]), 33, 53)
    {
      InWhole(p);
      SlotTarget(p, i);
    }
  }

  lemma InWhole(p: nat)
    requires p in SampleHeap()
    ensures p in WholeHeap() && WholeHeap()[p] == SampleHeap()[p]
  {
  }
}
