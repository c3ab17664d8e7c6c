// The hash table of objects: open addressing with double hashing in a table
// whose size is a power of two, grown when half full.  Probing always ends,
// growth loses no entry, and equal objects get one representative.

module HashCons {
  import opened Align
  import opened Modular

  const TWO32: nat := 0x1_0000_0000

  // floor ((sqrt 5 - 1) / 2 * 2^32)
  const MULTIPLIER: nat := 2654435769

  // What the table sees of memory: objects with a header, a length if they are
  // sequences, and the bytes from their address on.  Of a header it uses whether
  // it is a sequence header, whether its objects have identity, and the bytes and
  // pointers of an object or of one element.
  datatype Store = Store(
    header: map<nat, nat>,
    length: map<nat, nat>,
    bytes: map<nat, nat>,
    sequences: set<nat>,
    identities: set<nat>,
    bytesNonObjptrs: map<nat, nat>,
    numObjptrs: map<nat, nat>)

  function Get(m: map<nat, nat>, a: nat): nat { if a in m then m[a] else 0 }

  function HeaderOf(s: Store, p: nat): nat { Get(s.header, p) }

  predicate IsSequence(s: Store, header: nat) { header in s.sequences }

  predicate HasIdentity(s: Store, header: nat) { header in s.identities }

  function NonObjptrs(s: Store, p: nat): nat { Get(s.bytesNonObjptrs, HeaderOf(s, p)) }

  function Objptrs(s: Store, p: nat): nat { Get(s.numObjptrs, HeaderOf(s, p)) }

  // The bytes of the body that hold data.
  function DataBytes(s: Store, p: nat): nat {
    if IsSequence(s, HeaderOf(s, p)) then Get(s.length, p) * (NonObjptrs(s, p) + 8 * Objptrs(s, p))
    else NonObjptrs(s, p) + 8 * Objptrs(s, p)
  }

  // max - object: for a sequence this includes the padding after the data.
  function BodyBytes(s: Store, p: nat): int {
    if IsSequence(s, HeaderOf(s, p)) then SizeofSequenceNoMetaData(Get(s.length, p), NonObjptrs(s, p), Objptrs(s, p))
    else NonObjptrs(s, p) + 8 * Objptrs(s, p)
  }

  // The 32-bit words that a loop up to max reads.
  function Size(s: Store, p: nat): nat {
    if BodyBytes(s, p) <= 0 then 0 else (BodyBytes(s, p) + 3) / 4
  }

  function Byte(s: Store, p: nat, k: nat): nat { Get(s.bytes, p + k) % 256 }

  function BodyWord(s: Store, p: nat, i: nat): nat {
    Byte(s, p, 4 * i) + 256 * Byte(s, p, 4 * i + 1) + 65536 * Byte(s, p, 4 * i + 2) + 16777216 * Byte(s, p, 4 * i + 3)
  }

  // A sequence is read to the end of its padding: in words of 64 bits.
  lemma SizeIs(s: Store, p: nat)
    ensures DataBytes(s, p) <= BodyBytes(s, p) <= 4 * Size(s, p) < BodyBytes(s, p) + 4
    ensures IsSequence(s, HeaderOf(s, p)) ==>
      BodyBytes(s, p) == 4 * Size(s, p) && Size(s, p) == 2 * ((DataBytes(s, p) + 7) / 8)
    ensures !IsSequence(s, HeaderOf(s, p)) ==> Size(s, p) == (DataBytes(s, p) + 3) / 4
  {
    hide SizeofSequenceNoMetaData;
    SequenceBytes(Get(s.length, p), NonObjptrs(s, p), Objptrs(s, p));
    var n := Get(s.length, p) * (NonObjptrs(s, p) + 8 * Objptrs(s, p));
    assert n >= 0;
  }

  // What the comparison calls equal: header, length and all words read.
  ghost predicate Same(s: Store, p: nat, q: nat) {
    && HeaderOf(s, p) == HeaderOf(s, q)
    && (IsSequence(s, HeaderOf(s, p)) ==> Get(s.length, p) == Get(s.length, q))
    && forall i: nat :: i < Size(s, p) ==> BodyWord(s, p, i) == BodyWord(s, q, i)
  }

  lemma SameIsEquivalence(s: Store, p: nat, q: nat, r: nat)
    ensures Same(s, p, p)
    ensures Same(s, p, q) ==> Same(s, q, p)
    ensures Same(s, p, q) && Same(s, q, r) ==> Same(s, p, r)
  {
  }

  // What the program would call equal: header, length and data.
  ghost predicate SameData(s: Store, p: nat, q: nat) {
    && HeaderOf(s, p) == HeaderOf(s, q)
    && (IsSequence(s, HeaderOf(s, p)) ==> Get(s.length, p) == Get(s.length, q))
    && forall k: nat :: k < DataBytes(s, p) ==> Byte(s, p, k) == Byte(s, q, k)
  }

  // The bytes read after the data agree.
  ghost predicate SamePadding(s: Store, p: nat, q: nat) {
    forall k: nat :: DataBytes(s, p) <= k < 4 * Size(s, p) ==> Byte(s, p, k) == Byte(s, q, k)
  }

  lemma WordIsBytes(s: Store, p: nat, q: nat, i: nat)
    ensures BodyWord(s, p, i) == BodyWord(s, q, i) <==>
      && Byte(s, p, 4 * i) == Byte(s, q, 4 * i) && Byte(s, p, 4 * i + 1) == Byte(s, q, 4 * i + 1)
      && Byte(s, p, 4 * i + 2) == Byte(s, q, 4 * i + 2) && Byte(s, p, 4 * i + 3) == Byte(s, q, 4 * i + 3)
  {
    hide Get;
    if BodyWord(s, p, i) == BodyWord(s, q, i) {
      FourBytes(Byte(s, p, 4 * i), Byte(s, p, 4 * i + 1), Byte(s, p, 4 * i + 2), Byte(s, p, 4 * i + 3),
                Byte(s, q, 4 * i), Byte(s, q, 4 * i + 1), Byte(s, q, 4 * i + 2), Byte(s, q, 4 * i + 3));
    }
  }

  lemma FourBytes(a: nat, b: nat, c: nat, d: nat, a': nat, b': nat, c': nat, d': nat)
    requires a < 256 && b < 256 && c < 256 && d < 256 && a' < 256 && b' < 256 && c' < 256 && d' < 256
    requires a + 256 * b + 65536 * c + 16777216 * d == a' + 256 * b' + 65536 * c' + 16777216 * d'
    ensures a == a' && b == b' && c == c' && d == d'
  {
  }

  // The comparison holds exactly if data and padding agree.
  lemma SameIs(s: Store, p: nat, q: nat)
    ensures Same(s, p, q) <==> SameData(s, p, q) && SamePadding(s, p, q)
  {
    hide Byte, BodyWord, DataBytes, BodyBytes, Size;
    SizeIs(s, p);
    if Same(s, p, q) {
      forall k: nat | k < 4 * Size(s, p)
        ensures Byte(s, p, k) == Byte(s, q, k)
      {
        assert k / 4 < Size(s, p) && BodyWord(s, p, k / 4) == BodyWord(s, q, k / 4);
        WordIsBytes(s, p, q, k / 4);
        assert k == 4 * (k / 4) + k % 4;
      }
    }
    if SameData(s, p, q) && SamePadding(s, p, q) {
      forall i: nat | i < Size(s, p)
        ensures BodyWord(s, p, i) == BodyWord(s, q, i)
      {
        WordIsBytes(s, p, q, i);
      }
    }
  }

  // ------------------------------------------------------------------- hashing

  function HashWords(s: Store, p: nat, n: nat): nat {
    if n == 0 then HeaderOf(s, p) % TWO32
    else (HashWords(s, p, n - 1) * 31 + BodyWord(s, p, n - 1)) % TWO32
  }

  function Hash(s: Store, p: nat): nat { HashWords(s, p, Size(s, p)) }

  lemma {:induction false} SameHashWords(s: Store, p: nat, q: nat, n: nat)
    requires Same(s, p, q) && n <= Size(s, p)
    ensures HashWords(s, p, n) == HashWords(s, q, n)
  {
    hide BodyWord, Size, HeaderOf;
    if n > 0 { SameHashWords(s, p, q, n - 1); }
  }

  lemma SameHash(s: Store, p: nat, q: nat)
    requires Same(s, p, q)
    ensures Hash(s, p) == Hash(s, q)
  {
    SameHashWords(s, p, q, Size(s, p));
  }

  function Product(hash: nat): nat { MULTIPLIER * hash % TWO32 }

  function FirstSlot(hash: nat, log2: nat): nat
    requires log2 <= 32
  {
    Quotient(Product(hash), Pow2(32 - log2))
  }

  // An odd step; for slot 0 it wraps to 2^32 - 1.
  function ProbeStep(slot: nat): nat {
    if slot % 2 == 1 then slot else (slot + TWO32 - 1) % TWO32
  }

  // The next slot, computed in 32 bits.
  function NextSlot(slot: nat, probe: nat, length: nat): nat
    requires length > 0
  {
    (slot + probe) % TWO32 % length
  }

  // Slot number k of the probe sequence.
  function ProbeSlot(hash: nat, log2: nat, k: nat): nat
    requires log2 <= 32
  {
    (FirstSlot(hash, log2) + k * ProbeStep(FirstSlot(hash, log2))) % Pow2(log2)
  }

  lemma TwoTo32()
    ensures Pow2(32) == TWO32
  {
    Pow2Add(16, 16);
    assert Pow2(8) == 256;
    Pow2Add(8, 8);
  }

  lemma ProductFits(hash: nat)
    ensures Product(hash) < TWO32
  {
  }

  lemma FirstSlotFits(hash: nat, log2: nat)
    requires log2 <= 32
    ensures FirstSlot(hash, log2) < Pow2(log2) <= TWO32
    ensures Odd(ProbeStep(FirstSlot(hash, log2)))
  {
    hide Pow2, Product;
    TwoTo32();
    ProductFits(hash);
    Pow2Add(32 - log2, log2);
    Pow2Mono(log2, 32);
    DivLess(Product(hash), Pow2(32 - log2), Pow2(log2));
  }

  // Stepping slot by slot follows the probe sequence.
  lemma NextProbe(hash: nat, log2: nat, k: nat)
    requires log2 <= 32
    ensures NextSlot(ProbeSlot(hash, log2, k), ProbeStep(FirstSlot(hash, log2)), Pow2(log2)) ==
      ProbeSlot(hash, log2, k + 1)
    ensures ProbeSlot(hash, log2, 0) == FirstSlot(hash, log2)
  {
    hide Pow2, FirstSlot, ProbeStep;
    TwoTo32();
    Pow2Add(log2, 32 - log2);
    FirstSlotFits(hash, log2);
    StepMod(FirstSlot(hash, log2), k, ProbeStep(FirstSlot(hash, log2)), Pow2(log2), Pow2(32 - log2));
  }

  lemma StepMod(f: nat, k: nat, q: nat, m: nat, c: nat)
    requires m > 0 && c > 0 && f < m
    ensures m * c > 0 && k * q >= 0 && (k + 1) * q >= 0
    ensures ((f + k * q) % m + q) % (m * c) % m == (f + (k + 1) * q) % m
    ensures (f + 0 * q) % m == f
  {
    MulPositive(m, c);
    Distribute(q, k, 1);
    ModMod((f + k * q) % m + q, m, c);
    ModAdd(f + k * q, q, m);
    SmallMod(f, m);
  }

  // The first Pow2(log2) slots of a probe sequence are all different.
  lemma ProbesDistinct(hash: nat, log2: nat, i: nat, k: nat)
    requires log2 <= 32 && i < k < Pow2(log2)
    ensures ProbeSlot(hash, log2, i) != ProbeSlot(hash, log2, k)
  {
    hide Pow2, FirstSlot, ProbeStep, Odd;
    FirstSlotFits(hash, log2);
    var f, q, m := FirstSlot(hash, log2), ProbeStep(FirstSlot(hash, log2)), Pow2(log2);
    if (f + i * q) % m == (f + k * q) % m {
      Differ(i, k, q);
      SameMod(f + i * q, (k - i) * q, m);
      OddFactor(k - i, q, log2);
      SmallMod(k - i, m);
    }
  }

  lemma Differ(i: nat, k: nat, q: nat)
    requires i < k
    ensures k * q == i * q + (k - i) * q && (k - i) * q >= 0 && i * q >= 0
  {
  }

  // ----------------------------------------------------------------- the table

  datatype Element = Element(hash: nat, object_: nat)

  const EMPTY: Element := Element(0, 0)

  predicate Occupied(e: Element) { e.object_ != 0 }

  function Count(es: seq<Element>, n: nat): nat {
    if n == 0 || n > |es| then 0 else Count(es, n - 1) + if Occupied(es[n - 1]) then 1 else 0
  }

  // Slot j can be found by probing for the hash of its entry.
  ghost predicate Reachable(es: seq<Element>, log2: nat, j: nat)
    requires log2 <= 32 && |es| == Pow2(log2) && j < |es|
  {
    exists k: nat :: k < |es| && ProbeSlot(es[j].hash, log2, k) == j && OccupiedUpTo(es, log2, es[j].hash, k)
  }

  // The first k slots of the probe sequence are occupied.
  ghost predicate OccupiedUpTo(es: seq<Element>, log2: nat, hash: nat, k: nat)
    requires log2 <= 32 && |es| == Pow2(log2)
  {
    forall i: nat :: i < k ==> Occupied(es[ProbeSlot(hash, log2, i)])
  }

  ghost predicate TableOk(s: Store, es: seq<Element>, log2: nat) {
    && log2 <= 32 && |es| == Pow2(log2)
    && (forall j: nat :: j < |es| && Occupied(es[j]) ==> es[j].hash == Hash(s, es[j].object_) && Reachable(es, log2, j))
    && (forall i: nat, j: nat :: i < j < |es| && Occupied(es[i]) && Occupied(es[j]) ==>
       !Same(s, es[i].object_, es[j].object_))
  }

  ghost function Objects(es: seq<Element>): set<nat> {
    set j: nat | j < |es| && Occupied(es[j]) :: es[j].object_
  }

  lemma ProbeInside(hash: nat, log2: nat, k: nat)
    requires log2 <= 32
    ensures ProbeSlot(hash, log2, k) < Pow2(log2)
  {
  }

  lemma {:induction false} CountBound(es: seq<Element>, n: nat)
    requires n <= |es|
    ensures Count(es, n) <= n
    ensures Count(es, n) == n ==> forall j: nat :: j < n ==> Occupied(es[j])
  {
    if n > 0 { CountBound(es, n - 1); }
  }

  lemma {:induction false} CountSet(es: seq<Element>, j: nat, e: Element, n: nat)
    requires j < |es| && !Occupied(es[j]) && Occupied(e) && n <= |es|
    ensures Count(es[j := e], n) == Count(es, n) + if j < n then 1 else 0
  {
    if n > 0 { CountSet(es, j, e, n - 1); }
  }

  // A table that is not full has a free slot.
  lemma FreeSlot(es: seq<Element>) returns (j: nat)
    requires Count(es, |es|) < |es|
    ensures j < |es| && !Occupied(es[j])
  {
    if forall j: nat :: j < |es| ==> Occupied(es[j]) { AllOccupied(es, |es|); }
    j :| j < |es| && !Occupied(es[j]);
  }

  lemma {:induction false} AllOccupied(es: seq<Element>, n: nat)
    requires n <= |es| && forall j: nat :: j < n ==> Occupied(es[j])
    ensures Count(es, n) == n
  {
    if n > 0 { AllOccupied(es, n - 1); }
  }

  // The slots visited by the first k probes.
  ghost function Visited(hash: nat, log2: nat, k: nat): set<nat>
    requires log2 <= 32
  {
    set i: nat | i < k :: ProbeSlot(hash, log2, i)
  }

  lemma {:induction false} VisitedSize(hash: nat, log2: nat, k: nat)
    requires log2 <= 32 && k <= Pow2(log2)
    ensures |Visited(hash, log2, k)| == k
    ensures forall j :: j in Visited(hash, log2, k) ==> j < Pow2(log2)
  {
    hide ProbeSlot;
    if k == 0 {
      assert Visited(hash, log2, 0) == {};
    } else {
      VisitedSize(hash, log2, k - 1);
      ProbeInside(hash, log2, k - 1);
      forall i: nat | i < k - 1
        ensures ProbeSlot(hash, log2, i) != ProbeSlot(hash, log2, k - 1)
      {
        ProbesDistinct(hash, log2, i, k - 1);
      }
      assert Visited(hash, log2, k) == Visited(hash, log2, k - 1) + {ProbeSlot(hash, log2, k - 1)};
      forall i: nat | i < k
        ensures ProbeSlot(hash, log2, i) < Pow2(log2)
      {
        ProbeInside(hash, log2, i);
      }
    }
  }

  // A set of numbers below n has at most n members, and all of them if n.
  lemma {:induction false} SetBelow(S: set<nat>, n: nat)
    requires forall x :: x in S ==> x < n
    ensures |S| <= n
    ensures |S| == n ==> forall j: nat :: j < n ==> j in S
    decreases n
  {
    if n > 0 {
      var rest := S - {n - 1};
      SetBelow(rest, n - 1);
      if n - 1 in S { assert S == rest + {n - 1}; } else { assert S == rest; }
    } else {
      assert S == {};
    }
  }

  // Fewer probes than slots were made if a free slot was not met.
  lemma ProbesLeft(es: seq<Element>, log2: nat, hash: nat, k: nat)
    requires log2 <= 32 && |es| == Pow2(log2) && Count(es, |es|) < |es|
    requires k <= |es| && OccupiedUpTo(es, log2, hash, k)
    ensures k < |es|
  {
    hide ProbeSlot;
    var f := FreeSlot(es);
    VisitedSize(hash, log2, k);
    forall i: nat | i < k
      ensures ProbeSlot(hash, log2, i) != f
    {
      ProbeInside(hash, log2, i);
    }
    assert f !in Visited(hash, log2, k);
    SetBelow(Visited(hash, log2, k), |es|);
  }

  // An equal object in the table is met before a free slot.
  lemma NotPast(s: Store, es: seq<Element>, log2: nat, object_: nat, k: nat, j: nat)
    requires TableOk(s, es, log2) && j < |es| && Occupied(es[j]) && Same(s, es[j].object_, object_)
    requires k < |es| && OccupiedUpTo(es, log2, Hash(s, object_), k)
    requires ProbeSlot(Hash(s, object_), log2, k) < |es| && !Occupied(es[ProbeSlot(Hash(s, object_), log2, k)])
    ensures exists i: nat :: i < k && ProbeSlot(Hash(s, object_), log2, i) == j
  {
    hide ProbeSlot, Same, Hash;
    SameHash(s, es[j].object_, object_);
    var i: nat :| i < |es| && ProbeSlot(es[j].hash, log2, i) == j && OccupiedUpTo(es, log2, es[j].hash, i);
    assert i <= k;
    assert i != k;
  }

  // Putting an object into the free slot its probes lead to keeps the table.
  lemma InsertKeeps(s: Store, es: seq<Element>, log2: nat, object_: nat, k: nat)
    requires TableOk(s, es, log2) && object_ != 0 && k < |es|
    requires OccupiedUpTo(es, log2, Hash(s, object_), k)
    requires var j := ProbeSlot(Hash(s, object_), log2, k); j < |es| && !Occupied(es[j])
    requires forall i: nat :: i < |es| && Occupied(es[i]) ==> !Same(s, es[i].object_, object_)
    ensures var j := ProbeSlot(Hash(s, object_), log2, k);
      TableOk(s, es[j := Element(Hash(s, object_), object_)], log2)
      && Objects(es[j := Element(Hash(s, object_), object_)]) == Objects(es) + {object_}
  {
    hide ProbeSlot, Same, Hash;
    var j := ProbeSlot(Hash(s, object_), log2, k);
    var es' := es[j := Element(Hash(s, object_), object_)];
    forall i: nat | i < |es'| && Occupied(es'[i])
      ensures es'[i].hash == Hash(s, es'[i].object_) && Reachable(es', log2, i)
    {
      if i != j {
        var n: nat :| n < |es| && ProbeSlot(es[i].hash, log2, n) == i && OccupiedUpTo(es, log2, es[i].hash, n);
        StillOccupied(es, log2, es[i].hash, n, j, es'[j]);
      } else {
        StillOccupied(es, log2, Hash(s, object_), k, j, es'[j]);
      }
    }
    forall a: nat, b: nat | a < b < |es'| && Occupied(es'[a]) && Occupied(es'[b])
      ensures !Same(s, es'[a].object_, es'[b].object_)
    {
      if a == j { SameIsEquivalence(s, object_, es[b].object_, object_); }
    }
    assert es'[j].object_ == object_;
    forall x | x in Objects(es)
      ensures x in Objects(es')
    {
      var i: nat :| i < |es| && Occupied(es[i]) && es[i].object_ == x;
      assert es'[i] == es[i];
    }
  }

  lemma StillOccupied(es: seq<Element>, log2: nat, hash: nat, k: nat, j: nat, e: Element)
    requires log2 <= 32 && |es| == Pow2(log2) && j < |es| && Occupied(e) && OccupiedUpTo(es, log2, hash, k)
    ensures OccupiedUpTo(es[j := e], log2, hash, k)
  {
    hide ProbeSlot;
    forall i: nat | i < k
      ensures ProbeSlot(hash, log2, i) < |es| && Occupied(es[j := e][ProbeSlot(hash, log2, i)])
    {
      ProbeInside(hash, log2, i);
    }
  }

  // No object of the table equals object_.
  ghost predicate NoneEqual(s: Store, es: seq<Element>, object_: nat) {
    forall i: nat :: i < |es| && Occupied(es[i]) ==> !Same(s, es[i].object_, object_)
  }

  // No object in the first k slots of the probe sequence equals object_.
  ghost predicate NoneSame(s: Store, es: seq<Element>, log2: nat, hash: nat, object_: nat, k: nat) {
    forall i: nat :: i < k && log2 <= 32 && ProbeSlot(hash, log2, i) < |es| ==>
      !Same(s, es[ProbeSlot(hash, log2, i)].object_, object_)
  }

  lemma TableParts(s: Store, es: seq<Element>, log2: nat)
    requires TableOk(s, es, log2)
    ensures log2 <= 32 && |es| == Pow2(log2)
  {
  }

  lemma OccupiedIs(e: Element)
    ensures Occupied(e) <==> e.object_ != 0
  {
  }

  lemma NothingProbed(s: Store, es: seq<Element>, log2: nat, hash: nat, object_: nat)
    requires log2 <= 32 && |es| == Pow2(log2)
    ensures OccupiedUpTo(es, log2, hash, 0) && NoneSame(s, es, log2, hash, object_, 0)
  {
  }

  lemma StartProbing(s: Store, es: seq<Element>, log2: nat, hash: nat, object_: nat)
    requires log2 <= 32 && |es| == Pow2(log2)
    ensures OccupiedUpTo(es, log2, hash, 0) && NoneSame(s, es, log2, hash, object_, 0)
    ensures 0 < |es| && FirstSlot(hash, log2) < |es| && FirstSlot(hash, log2) == ProbeSlot(hash, log2, 0)
    ensures FirstSlot(hash, log2) == Quotient(Product(hash), Pow2(32 - log2))
  {
    hide Pow2, Product, ProbeSlot, ProbeStep;
    NothingProbed(s, es, log2, hash, object_);
    FirstSlotFits(hash, log2);
    NextProbe(hash, log2, 0);
  }

  lemma ProbedMore(s: Store, es: seq<Element>, log2: nat, hash: nat, object_: nat, k: nat)
    requires log2 <= 32 && |es| == Pow2(log2) && ProbeSlot(hash, log2, k) < |es|
    requires Occupied(es[ProbeSlot(hash, log2, k)]) && OccupiedUpTo(es, log2, hash, k)
    requires NoneSame(s, es, log2, hash, object_, k) && !Same(s, es[ProbeSlot(hash, log2, k)].object_, object_)
    ensures OccupiedUpTo(es, log2, hash, k + 1) && NoneSame(s, es, log2, hash, object_, k + 1)
  {
    hide ProbeSlot, Same;
    forall i: nat | i < k + 1
      ensures ProbeSlot(hash, log2, i) < |es| && Occupied(es[ProbeSlot(hash, log2, i)])
    {
      ProbeInside(hash, log2, i);
    }
  }

  lemma NotThere(s: Store, es: seq<Element>, log2: nat, object_: nat, k: nat)
    requires TableOk(s, es, log2) && k < |es|
    requires OccupiedUpTo(es, log2, Hash(s, object_), k) && NoneSame(s, es, log2, Hash(s, object_), object_, k)
    requires ProbeSlot(Hash(s, object_), log2, k) < |es| && !Occupied(es[ProbeSlot(Hash(s, object_), log2, k)])
    ensures NoneEqual(s, es, object_)
  {
    hide ProbeSlot, Same, Hash, TableOk, OccupiedUpTo;
    TableParts(s, es, log2);
    forall j: nat | j < |es| && Occupied(es[j])
      ensures !Same(s, es[j].object_, object_)
    {
      if Same(s, es[j].object_, object_) { NotPast(s, es, log2, object_, k, j); }
    }
  }

  // From an occupied slot with another object to the next.
  lemma ProbeOn(s: Store, es: seq<Element>, log2: nat, hash: nat, object_: nat, k: nat)
    requires log2 <= 32 && |es| == Pow2(log2) && ProbeSlot(hash, log2, k) < |es| && k < |es|
    requires Occupied(es[ProbeSlot(hash, log2, k)]) && OccupiedUpTo(es, log2, hash, k) && Count(es, |es|) < |es|
    requires NoneSame(s, es, log2, hash, object_, k) && !Same(s, es[ProbeSlot(hash, log2, k)].object_, object_)
    ensures OccupiedUpTo(es, log2, hash, k + 1) && NoneSame(s, es, log2, hash, object_, k + 1)
    ensures k + 1 < |es| && ProbeSlot(hash, log2, k + 1) < |es|
    ensures NextSlot(ProbeSlot(hash, log2, k), ProbeStep(FirstSlot(hash, log2)), |es|) == ProbeSlot(hash, log2, k + 1)
  {
    hide Pow2, ProbeSlot, Same, OccupiedUpTo, NoneSame, Count, FirstSlot, ProbeStep, NextSlot;
    ProbedMore(s, es, log2, hash, object_, k);
    ProbesLeft(es, log2, hash, k + 1);
    NextProbe(hash, log2, k);
    ProbeInside(hash, log2, k + 1);
  }

  // Putting the object into the free slot.
  lemma Inserted(s: Store, es: seq<Element>, log2: nat, object_: nat, k: nat)
    requires TableOk(s, es, log2) && object_ != 0 && k < |es| && ProbeSlot(Hash(s, object_), log2, k) < |es|
    requires OccupiedUpTo(es, log2, Hash(s, object_), k) && NoneEqual(s, es, object_)
    requires !Occupied(es[ProbeSlot(Hash(s, object_), log2, k)])
    ensures var es' := es[ProbeSlot(Hash(s, object_), log2, k) := Element(Hash(s, object_), object_)];
      TableOk(s, es', log2) && Objects(es') == Objects(es) + {object_} && Count(es', |es'|) == Count(es, |es|) + 1
  {
    hide Pow2, ProbeSlot, Same, OccupiedUpTo, Hash, TableOk, Objects, Count;
    TableParts(s, es, log2);
    InsertKeeps(s, es, log2, object_, k);
    CountSet(es, ProbeSlot(Hash(s, object_), log2, k), Element(Hash(s, object_), object_), |es|);
  }

  // What the table knows of an occupied slot.
  lemma SlotObject(s: Store, es: seq<Element>, log2: nat, j: nat, object_: nat)
    requires TableOk(s, es, log2) && j < |es| && Occupied(es[j])
    ensures es[j].object_ in Objects(es)
    ensures Same(s, es[j].object_, object_) ==> es[j].hash == Hash(s, object_) && !NoneEqual(s, es, object_)
    ensures Same(s, es[j].object_, object_) <==> Same(s, object_, es[j].object_)
    ensures es[j].object_ == object_ ==> Same(s, object_, es[j].object_)
  {
    hide Same, Hash;
    SameIsEquivalence(s, es[j].object_, object_, object_);
    SameIsEquivalence(s, object_, es[j].object_, object_);
    if Same(s, es[j].object_, object_) { SameHash(s, es[j].object_, object_); }
  }

  // Entries, the counter that growing never resets, and the table's length:
  // at most half of the slots are taken.
  predicate Load(count: nat, cur: nat, length: nat, mayInsert: bool) {
    && count <= cur
    && count * 2 <= length + (if mayInsert then 0 else 2)
    && cur <= length + (if mayInsert then 0 else 1)
  }

  // After an insertion, before the table has had its chance to grow.
  predicate Loaded(count: nat, cur: nat, length: nat, mayInsert: bool) {
    count <= cur && count * 2 <= length + 2 && cur <= length + 1
  }

  lemma LoadCases(count: nat, cur: nat, length: nat, mayInsert: bool)
    requires Loaded(count, cur, length, mayInsert) && 64 <= length <= 0x4000_0000
    ensures !mayInsert || cur * 2 <= length ==> Load(count, cur, length, mayInsert)
    ensures Load(count, cur, length, false)
    ensures Load(count, cur + count, 2 * length, true) && count < length
    ensures cur * 2 < TWO32
  {
  }

  predicate MustGrow(cur: nat, length: nat, mayInsert: bool) { mayInsert && cur * 2 > length }

  lemma MustGrowIs(cur: nat, length: nat, mayInsert: bool)
    ensures MustGrow(cur, length, mayInsert) <==> mayInsert && cur * 2 > length
  {
  }

  // After growing, the counter is up by the entries entered again; the next call
  // grows the table once more exactly if it then exceeds the old length, and so
  // always after the first time, when the counter was the number of entries.
  lemma GrowsAgain(count: nat, cur: nat, length: nat)
    requires Loaded(count, cur, length, true) && MustGrow(cur, length, true)
    ensures MustGrow(cur + count, 2 * length, true) <==> cur + count > length
    ensures cur == count ==> MustGrow(cur + count, 2 * length, true)
  {
  }

  lemma LoadSpare(count: nat, cur: nat, length: nat, mayInsert: bool)
    requires Load(count, cur, length, mayInsert) && length >= 64
    ensures count < length && Loaded(count, cur, length, mayInsert)
    ensures mayInsert ==> Loaded(count + 1, cur + 1, length, mayInsert)
  {
  }

  lemma Double(p: nat)
    ensures Pow2(p + 1) == 2 * Pow2(p)
  {
  }

  lemma SmallTable(log2: nat)
    requires 6 <= log2 <= 31
    ensures 64 <= Pow2(log2) && Pow2(log2 + 1) == 2 * Pow2(log2)
    ensures log2 < 31 ==> Pow2(log2) <= 0x4000_0000
  {
    hide Pow2;
    Sixty();
    Double(log2);
    Pow2Mono(6, log2);
    if log2 < 31 {
      TwoTo31();
      Double(30);
      Pow2Mono(log2, 30);
    }
  }

  lemma {:induction false} NoneCounted(es: seq<Element>, n: nat)
    requires n <= |es| && forall i: nat :: i < |es| ==> es[i] == EMPTY
    ensures Count(es, n) == 0
  {
    if n > 0 { NoneCounted(es, n - 1); }
  }

  lemma EmptyTable(s: Store, es: seq<Element>, log2: nat)
    requires log2 <= 32 && |es| == Pow2(log2) && forall i: nat :: i < |es| ==> es[i] == EMPTY
    ensures TableOk(s, es, log2) && Objects(es) == {} && Count(es, |es|) == 0
  {
    hide Pow2;
    NoneCounted(es, |es|);
  }

  lemma NoEntries(es: seq<Element>)
    ensures Objects(es[..0]) == {} && Count(es, 0) == 0
  {
  }

  // Entry i is new among the entries before it.
  lemma OneMoreEntry(s: Store, es: seq<Element>, log2: nat, i: nat)
    requires TableOk(s, es, log2) && i < |es|
    ensures Count(es, i + 1) == Count(es, i) + (if es[i].object_ != 0 then 1 else 0)
    ensures es[i].object_ != 0 ==> es[i].hash == Hash(s, es[i].object_)
    ensures es[i].object_ != 0 ==> Objects(es[..i + 1]) == Objects(es[..i]) + {es[i].object_}
    ensures es[i].object_ == 0 ==> Objects(es[..i + 1]) == Objects(es[..i])
  {
    hide Same, Hash, Reachable;
    var before, after := es[..i], es[..i + 1];
    assert after == before + [es[i]];
    forall x
      ensures x in Objects(after) <==> x in Objects(before) || (Occupied(es[i]) && x == es[i].object_)
    {
      if x in Objects(before) {
        var j: nat :| j < |before| && Occupied(before[j]) && before[j].object_ == x;
        assert after[j] == before[j];
      }
      if x in Objects(after) {
        var j: nat :| j < |after| && Occupied(after[j]) && after[j].object_ == x;
        if j < i { assert before[j] == after[j]; }
      }
      assert after[i] == es[i];
    }
  }

  lemma NoneEqualIn(s: Store, es: seq<Element>, log2: nat, i: nat, es': seq<Element>)
    requires TableOk(s, es, log2) && i < |es| && Occupied(es[i]) && Objects(es') == Objects(es[..i])
    ensures NoneEqual(s, es', es[i].object_)
  {
    hide Same, Hash, Reachable;
    var before := es[..i];
    forall j: nat | j < |es'| && Occupied(es'[j])
      ensures !Same(s, es'[j].object_, es[i].object_)
    {
      assert es'[j].object_ in Objects(before);
      var k: nat :| k < |before| && Occupied(before[k]) && before[k].object_ == es'[j].object_;
      assert before[k] == es[k];
    }
  }

  // ---------------------------------------------------------- one call, and runs

  // What one call of hashConsPointer does to the objects of the table.
  ghost predicate HashConsed(s: Store, objects: set<nat>, mayInsert: bool, object_: nat, res: nat, objects': set<nat>) {
    if HasIdentity(s, HeaderOf(s, object_)) then
      res == object_ && objects' == objects
    else if exists e :: e in objects && Same(s, e, object_) then
      objects' == objects && forall e :: e in objects && Same(s, e, object_) ==> res == e
    else
      res == object_ && objects' == if mayInsert then objects + {object_} else objects
  }

  lemma KeptIdentity(s: Store, objects: set<nat>, mayInsert: bool, object_: nat)
    requires HasIdentity(s, HeaderOf(s, object_))
    ensures HashConsed(s, objects, mayInsert, object_, object_, objects)
  {
  }

  lemma OneSlot(s: Store, es: seq<Element>, log2: nat, i: nat, j: nat)
    requires TableOk(s, es, log2) && i < |es| && j < |es| && Occupied(es[i]) && Occupied(es[j])
    requires Same(s, es[i].object_, es[j].object_)
    ensures i == j
  {
    hide Same, Hash, Reachable;
    SameIsEquivalence(s, es[i].object_, es[j].object_, es[i].object_);
  }

  lemma OneRepresentative(s: Store, es: seq<Element>, log2: nat, object_: nat, res: nat, mayInsert: bool,
          objects': set<nat>)
    requires TableOk(s, es, log2) && Same(s, res, object_) && !HasIdentity(s, HeaderOf(s, object_))
    requires !NoneEqual(s, es, object_) ==> res in Objects(es) && objects' == Objects(es)
    requires NoneEqual(s, es, object_) ==>
      res == object_ && objects' == if mayInsert then Objects(es) + {object_} else Objects(es)
    ensures HashConsed(s, Objects(es), mayInsert, object_, res, objects')
  {
    hide Same, Hash, Reachable, HasIdentity, HeaderOf;
    forall e | e in Objects(es) && Same(s, e, object_)
      ensures res == e && !NoneEqual(s, es, object_)
    {
      var i: nat :| i < |es| && Occupied(es[i]) && es[i].object_ == e;
      assert !NoneEqual(s, es, object_);
      var j: nat :| j < |es| && Occupied(es[j]) && es[j].object_ == res;
      SameIsEquivalence(s, e, object_, res);
      SameIsEquivalence(s, res, object_, e);
      OneSlot(s, es, log2, i, j);
    }
    if !NoneEqual(s, es, object_) { assert res in Objects(es) && Same(s, res, object_); }
  }

  // A run of calls with insertion allowed: the table's objects before call i, its
  // argument and its result.
  ghost predicate Run(s: Store, tables: seq<set<nat>>, calls: seq<nat>, results: seq<nat>) {
    && |tables| == |calls| + 1 && |results| == |calls|
    && forall i: nat :: i < |calls| ==> HashConsed(s, tables[i], true, calls[i], results[i], tables[i + 1])
  }

  lemma {:induction false} TablesGrow(s: Store, tables: seq<set<nat>>, calls: seq<nat>, results: seq<nat>, i: nat,
          j: nat)
    requires Run(s, tables, calls, results) && i <= j < |tables|
    ensures tables[i] <= tables[j]
    decreases j
  {
    hide Same, HasIdentity, HeaderOf;
    if i < j {
      TablesGrow(s, tables, calls, results, i, j - 1);
      assert HashConsed(s, tables[j - 1], true, calls[j - 1], results[j - 1], tables[j]);
    }
  }

  // Two calls of one run return the same pointer for equal objects without
  // identity, however the table grew between them, and only for equal objects.
  lemma Canonical(s: Store, tables: seq<set<nat>>, calls: seq<nat>, results: seq<nat>, i: nat, j: nat)
    requires Run(s, tables, calls, results) && i < j < |calls|
    requires !HasIdentity(s, HeaderOf(s, calls[i])) && !HasIdentity(s, HeaderOf(s, calls[j]))
    ensures results[i] == results[j] <==> Same(s, calls[i], calls[j])
  {
    hide Same, HasIdentity, HeaderOf;
    assert HashConsed(s, tables[i], true, calls[i], results[i], tables[i + 1]);
    assert HashConsed(s, tables[j], true, calls[j], results[j], tables[j + 1]);
    Stands(s, tables[i], calls[i], results[i], tables[i + 1]);
    Stands(s, tables[j], calls[j], results[j], tables[j + 1]);
    TablesGrow(s, tables, calls, results, i + 1, j);
    if Same(s, calls[i], calls[j]) {
      SameIsEquivalence(s, results[i], calls[i], calls[j]);
    }
    SameIsEquivalence(s, results[i], calls[i], calls[i]);
    SameIsEquivalence(s, calls[i], results[i], calls[j]);
  }

  // Equal data is not enough: two objects get one representative exactly if the
  // bytes read after the data agree too.
  lemma SharedExactly(s: Store, tables: seq<set<nat>>, calls: seq<nat>, results: seq<nat>, i: nat, j: nat)
    requires Run(s, tables, calls, results) && i < j < |calls|
    requires !HasIdentity(s, HeaderOf(s, calls[i])) && !HasIdentity(s, HeaderOf(s, calls[j]))
    ensures results[i] == results[j] <==> SameData(s, calls[i], calls[j]) && SamePadding(s, calls[i], calls[j])
  {
    hide Same, HasIdentity, HeaderOf, Run, SameData, SamePadding;
    Canonical(s, tables, calls, results, i, j);
    SameIs(s, calls[i], calls[j]);
  }

  // Two vectors of the same three bytes, with different bytes where the padding
  // is not cleared by allocation.
  function TwoVectors(): Store {
    Store(map[64 := 11, 128 := 11], map[64 := 3, 128 := 3], map[68 := 7], {11}, {}, map[11 := 1], map[])
  }

  // They are equal for the program, but both enter the table.
  lemma PaddingSeparates()
    ensures SameData(TwoVectors(), 64, 128) && !SamePadding(TwoVectors(), 64, 128)
    ensures Run(TwoVectors(), [{}, {64}, {64, 128}], [64, 128], [64, 128])
  {
    var s := TwoVectors();
    SizeIs(s, 64);
    assert DataBytes(s, 64) == 3 && Size(s, 64) == 2;
    assert Byte(s, 64, 4) == 7 && Byte(s, 128, 4) == 0;
    SameIs(s, 64, 128);
    SameIsEquivalence(s, 64, 128, 64);
    Enters(s, {}, 64);
    Enters(s, {64}, 128);
  }

  lemma Enters(s: Store, objects: set<nat>, object_: nat)
    requires !HasIdentity(s, HeaderOf(s, object_)) && forall e :: e in objects ==> !Same(s, e, object_)
    ensures HashConsed(s, objects, true, object_, object_, objects + {object_})
  {
  }

  // The result stands for its object and is in the table afterwards.
  lemma Stands(s: Store, objects: set<nat>, object_: nat, res: nat, objects': set<nat>)
    requires HashConsed(s, objects, true, object_, res, objects') && !HasIdentity(s, HeaderOf(s, object_))
    ensures Same(s, res, object_) && res in objects'
  {
    hide Same, HasIdentity, HeaderOf;
    SameIsEquivalence(s, object_, object_, object_);
  }

  // ---------------------------------------------------------------- the methods

  class ObjectHashTable {
    var elements: array<Element>
    var elementsLengthCur: nat
    var elementsLengthMaxLog2: nat
    var mayInsert: bool

    // allocHashTable, given the number of entries that fit into free heap space.
    constructor (fits: nat)
      requires fits < 0x8000_0000
      ensures elementsLengthMaxLog2 <= 31 && elements.Length == Pow2(elementsLengthMaxLog2)
      ensures elementsLengthMaxLog2 >= 6 && (fits >= 64 ==> elements.Length <= fits < 2 * elements.Length)
      ensures mayInsert && elementsLengthCur == 0 && fresh(elements)
      ensures forall i :: 0 <= i < elements.Length ==> elements[i] == EMPTY
    {
      Sixty();
      var lengthMax, log2 := 64, 6;
      if fits >= lengthMax {
        while lengthMax <= fits
          invariant 6 <= log2 <= 31 && lengthMax == Pow2(log2)
          invariant log2 == 6 || Pow2(log2 - 1) <= fits
          decreases fits + 1 - lengthMax
        {
          Thirtyone(log2);
          lengthMax, log2 := lengthMax * 2, log2 + 1;
        }
        lengthMax, log2 := lengthMax / 2, log2 - 1;
      }
      elements := new Element[lengthMax](_ => EMPTY);
      elementsLengthMaxLog2 := log2;
      elementsLengthCur, mayInsert := 0, true;
    }

    // At most half of the slots are taken, or one more once growing has failed.
    ghost predicate Valid(s: Store)
      reads this, elements
    {
      && TableOk(s, elements[..], elementsLengthMaxLog2)
      && 6 <= elementsLengthMaxLog2 <= 31
      && Load(Count(elements[..], elements.Length), elementsLengthCur, elements.Length, mayInsert)
    }

    // The comparison of insertHashTableElem: headers, then the words up to max,
    // then the lengths of sequences.
    method Equal(s: Store, object_: nat, size: nat, other: nat) returns (equal: bool)
      requires size == Size(s, object_)
      ensures equal <==> Same(s, object_, other)
    {
      if HeaderOf(s, object_) != HeaderOf(s, other) { return false; }
      for i := 0 to size
        invariant forall k: nat :: k < i ==> BodyWord(s, object_, k) == BodyWord(s, other, k)
      {
        if BodyWord(s, object_, i) != BodyWord(s, other, i) { return false; }
      }
      if IsSequence(s, HeaderOf(s, object_)) && Get(s.length, object_) != Get(s.length, other) { return false; }
      return true;
    }

    // insertHashTableElem.  The table has a free slot, so the probing ends.
    method Insert(s: Store, hash: nat, object_: nat, size: nat, mightBeThere: bool) returns (res: nat)
      requires TableOk(s, elements[..], elementsLengthMaxLog2)
      requires Count(elements[..], elements.Length) < elements.Length
      requires object_ != 0 && hash == Hash(s, object_)
      requires mightBeThere ==> size == Size(s, object_)
      requires !mightBeThere ==> NoneEqual(s, elements[..], object_)
      modifies elements, `elementsLengthCur
      ensures TableOk(s, elements[..], elementsLengthMaxLog2)
      ensures Same(s, res, object_)
      ensures !NoneEqual(s, old(elements[..]), object_) ==>
        res in Objects(old(elements[..])) && elements[..] == old(elements[..]) &&
          elementsLengthCur == old(elementsLengthCur)
      ensures NoneEqual(s, old(elements[..]), object_) ==> res == object_
      ensures NoneEqual(s, old(elements[..]), object_) && !mayInsert ==>
        elements[..] == old(elements[..]) && elementsLengthCur == old(elementsLengthCur)
      ensures NoneEqual(s, old(elements[..]), object_) && mayInsert ==>
        && Objects(elements[..]) == Objects(old(elements[..])) + {object_}
        && Count(elements[..], elements.Length) == old(Count(elements[..], elements.Length)) + 1
        && elementsLengthCur == old(elementsLengthCur) + 1
    {
      hide *;
      ghost var es, log2, k: nat := elements[..], elementsLengthMaxLog2, 0;
      TableParts(s, es, log2);
      StartProbing(s, es, log2, hash, object_);
      SameIsEquivalence(s, object_, object_, object_);
      var slot := Quotient(Product(hash), Pow2(32 - elementsLengthMaxLog2));
      var probe := ProbeStep(slot);
      while true
        invariant slot == ProbeSlot(hash, log2, k) && k < |es| && slot < |es|
        invariant OccupiedUpTo(es, log2, hash, k)
        invariant NoneSame(s, es, log2, hash, object_, k)
        invariant elements[..] == es && elementsLengthCur == old(elementsLengthCur)
        decreases |es| - k
      {
        var e := elements[slot];
        assert e == es[slot];
        OccupiedIs(e);
        if e.object_ == 0 {
          NotThere(s, es, log2, object_, k);
          res := object_;
          if !mayInsert { return; }
          Inserted(s, es, log2, object_, k);
          elements[slot] := Element(hash, object_);
          elementsLengthCur := elementsLengthCur + 1;
          assert elements[..] == es[slot := Element(hash, object_)];
          return;
        }
        SlotObject(s, es, log2, slot, object_);
        if hash == e.hash && mightBeThere {
          var equal := object_ == e.object_;
          if !equal { equal := Equal(s, object_, size, e.object_); }
          if equal { return e.object_; }
        }
        ProbeOn(s, es, log2, hash, object_, k);
        slot := NextSlot(slot, probe, elements.Length);
        k := k + 1;
      }
    }

    // growHashTableMaybe; callocOk tells whether calloc succeeds.
    method GrowMaybe(s: Store, callocOk: bool)
      requires TableOk(s, elements[..], elementsLengthMaxLog2) && 6 <= elementsLengthMaxLog2 < 31
      requires Loaded(Count(elements[..], elements.Length), elementsLengthCur, elements.Length, mayInsert)
      modifies this
      ensures Valid(s) && Objects(elements[..]) == Objects(old(elements[..]))
      ensures elements == old(elements) || (fresh(elements) && elements.Length == 2 * old(elements.Length))
      ensures mayInsert ==> old(mayInsert)
      ensures old(mayInsert) && callocOk ==> mayInsert
      ensures elements != old(elements) <==>
        callocOk && MustGrow(old(elementsLengthCur), old(elements.Length), old(mayInsert))
      ensures elements != old(elements) ==>
        elementsLengthCur == old(elementsLengthCur) + old(Count(elements[..], elements.Length))
      ensures elements == old(elements) ==> elementsLengthCur == old(elementsLengthCur)
    {
      hide *;
      MustGrowIs(elementsLengthCur, elements.Length, mayInsert);
      TableParts(s, elements[..], elementsLengthMaxLog2);
      SmallTable(elementsLengthMaxLog2);
      LoadCases(Count(elements[..], elements.Length), elementsLengthCur, elements.Length, mayInsert);
      if !mayInsert || elementsLengthCur * 2 <= elements.Length {
        ValidIntro(s);
        return;
      }
      if !callocOk {
        mayInsert := false;
        ValidIntro(s);
        return;
      }
      var oldElements := elements;
      ghost var es := oldElements[..];
      elements := new Element[oldElements.Length * 2](_ => EMPTY);
      elementsLengthMaxLog2 := elementsLengthMaxLog2 + 1;
      EmptyTable(s, elements[..], elementsLengthMaxLog2);
      NoEntries(es);
      for i := 0 to oldElements.Length
        invariant oldElements[..] == es && elements != oldElements && fresh(elements)
        invariant mayInsert && elements.Length == 2 * |es|
        invariant elementsLengthMaxLog2 == old(elementsLengthMaxLog2) + 1
        invariant TableOk(s, elements[..], elementsLengthMaxLog2)
        invariant Objects(elements[..]) == Objects(es[..i])
        invariant Count(elements[..], elements.Length) == Count(es, i)
        invariant elementsLengthCur == old(elementsLengthCur) + Count(es, i)
      {
        var oldElement := oldElements[i];
        OccupiedIs(oldElement);
        OneMoreEntry(s, es, old(elementsLengthMaxLog2), i);
        CountBound(es, i);
        if oldElement.object_ != 0 {
          NoneEqualIn(s, es, old(elementsLengthMaxLog2), i, elements[..]);
          var _ := Insert(s, oldElement.hash, oldElement.object_, 0, false);
        }
      }
      assert es[..oldElements.Length] == es;
      ValidIntro(s);
    }

    lemma ValidIntro(s: Store)
      requires TableOk(s, elements[..], elementsLengthMaxLog2) && 6 <= elementsLengthMaxLog2 <= 31
      requires Load(Count(elements[..], elements.Length), elementsLengthCur, elements.Length, mayInsert)
      ensures Valid(s)
    {
    }

    // The hash loop of hashConsPointer.
    static method ComputeHash(s: Store, header: nat, object_: nat, size: nat) returns (hash: nat)
      requires header == HeaderOf(s, object_) && size == Size(s, object_)
      ensures hash == Hash(s, object_)
    {
      hash := header % TWO32;
      for i := 0 to size
        invariant hash == HashWords(s, object_, i)
      {
        hash := (hash * 31 + BodyWord(s, object_, i)) % TWO32;
      }
    }

    // hashConsPointer.
    method HashConsPointer(s: Store, object_: nat, callocOk: bool) returns (res: nat)
      requires Valid(s) && elementsLengthMaxLog2 < 31 && object_ != 0
      modifies this, elements
      ensures Valid(s)
      ensures HashConsed(s, Objects(old(elements[..])), old(mayInsert), object_, res, Objects(elements[..]))
      ensures elements == old(elements) || fresh(elements)
      ensures mayInsert ==> old(mayInsert)
      ensures old(mayInsert) && callocOk ==> mayInsert
    {
      hide *;
      SameIsEquivalence(s, object_, object_, object_);
      ValidParts(s);
      var header := HeaderOf(s, object_);
      if HasIdentity(s, header) {
        KeptIdentity(s, Objects(elements[..]), mayInsert, object_);
        return object_;
      }
      var size := Size(s, object_);
      var hash := ComputeHash(s, header, object_, size);
      SmallTable(elementsLengthMaxLog2);
      LoadSpare(Count(elements[..], elements.Length), elementsLengthCur, elements.Length, mayInsert);
      res := Insert(s, hash, object_, size, true);
      OneRepresentative(s, old(elements[..]), elementsLengthMaxLog2, object_, res, mayInsert, Objects(elements[..]));
      GrowMaybe(s, callocOk);
    }

    lemma ValidParts(s: Store)
      requires Valid(s)
      ensures TableOk(s, elements[..], elementsLengthMaxLog2) && 6 <= elementsLengthMaxLog2 <= 31
      ensures elements.Length == Pow2(elementsLengthMaxLog2)
      ensures Load(Count(elements[..], elements.Length), elementsLengthCur, elements.Length, mayInsert)
    {
    }
  }

  lemma Sixty()
    ensures Pow2(6) == 64
  {
  }

  lemma TwoTo31()
    ensures Pow2(31) == 0x8000_0000
  {
    Pow2Add(16, 15);
    Pow2Add(8, 8);
    Pow2Add(8, 7);
  }

  lemma Thirtyone(log2: nat)
    requires Pow2(log2) < 0x8000_0000
    ensures log2 < 31
  {
    hide Pow2;
    TwoTo31();
    if log2 >= 31 { Pow2Mono(31, log2); }
  }
}
