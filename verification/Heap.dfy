// Sets of objects in memory: disjointness, stability, the pointer graph, and
// total sizes.  H maps the data pointer of each object to its layout.

module Heap {
  import opened Layout
  import opened Graph

  type Objects = map<nat, Obj>

  function At(H: Objects, p: nat): Obj {
    if p in H then H[p] else Obj(1, 2, 2, 0, [])
  }

  ghost predicate Apart(H: Objects) {
    forall p, q :: p in H && q in H && p != q ==> H[p].end <= H[q].front || H[q].end <= H[p].front
  }

  // Every p in H is an object of memory m, and the objects do not overlap.
  ghost predicate AreObjects(env: Env, m: Memory, H: Objects) {
    && ValidEnv(env)
    && (forall p :: p in H ==> H[p].p == p && IsObject(env, m, H[p]))
    && Apart(H)
  }

  // The old generation and the nursery, by their first and last addresses.
  datatype Spaces = Spaces(start: nat, oldEnd: nat, nursery: nat, frontier: nat)

  // isPointerInHeap on a pointer.  Both ends count, since an empty sequence at
  // the end of a space has its data pointer there.
  predicate InSpaces(sp: Spaces, a: nat) {
    sp.start <= a <= sp.oldEnd || sp.nursery <= a <= sp.frontier
  }

  // Objects of H lie in the spaces.
  ghost predicate Within(H: Objects, sp: Spaces) {
    && 0 < sp.start && 0 < sp.nursery
    && (forall p :: p in H ==> InSpaces(sp, p))
  }

  // A word that points into the spaces points to an object of H.
  predicate TargetOk(H: Objects, sp: Spaces, w: Word) {
    w.Ptr? && InSpaces(sp, w.addr) ==> w.addr in H
  }

  ghost predicate SlotsOk(m: Memory, H: Objects, sp: Spaces) {
    forall p, i :: p in H && 0 <= i < |H[p].slots| && H[p].slots[i] < |m| ==>
      TargetOk(H, sp, m[H[p].slots[i]])
  }

  // Word a holds a pointer to the object t of H.
  predicate PointsTo(m: Memory, H: Objects, a: nat, t: nat) {
    a < |m| && m[a] == Ptr(t) && t in H
  }

  ghost predicate InScratch(env: Env, H: Objects, a: int) {
    exists p :: p in H && Scratch(env, H[p], a)
  }

  // The objects that o keeps alive.
  ghost function Children(env: Env, m: Memory, H: Objects, o: Obj): set<nat> {
    set t | t in H && exists i :: 0 <= i < |Strong(env, o)| && PointsTo(m, H, Strong(env, o)[i], t)
  }

  ghost function PointerGraph(env: Env, m: Memory, H: Objects): (g: Graph)
    ensures g.Keys == H.Keys
    ensures forall p :: p in H ==> g[p] == Children(env, m, H, H[p])
  {
    map p | p in H.Keys :: Children(env, m, H, H[p])
  }

  lemma ScratchInside(env: Env, m: Memory, o: Obj, a: int)
    requires ValidEnv(env) && IsObject(env, m, o) && Scratch(env, o, a)
    ensures o.front <= a < o.end || (a == o.p - 1 && o.front <= a)
    ensures o.front <= a < |m|
    ensures a < o.end
  {
    assert ValidType(env.types[o.ty]);
  }

  // The slot of one object is neither a scratch word nor a slot of another.
  lemma SlotOwner(env: Env, m: Memory, H: Objects, p: nat, i: nat)
    requires AreObjects(env, m, H) && p in H && i < |H[p].slots|
    ensures H[p].p <= H[p].slots[i] < H[p].end
    ensures !InScratch(env, H, H[p].slots[i])
    ensures forall q, j :: q in H && 0 <= j < |H[q].slots| && H[q].slots[j] == H[p].slots[i] ==> q == p && j == i
  {
    SlotsInside(env, m, H[p]);
    if q :| q in H && Scratch(env, H[q], H[p].slots[i]) {
      ScratchInside(env, m, H[q], H[p].slots[i]);
      assert false;
    }
    forall q, j | q in H && 0 <= j < |H[q].slots| && H[q].slots[j] == H[p].slots[i]
      ensures q == p && j == i
    {
      SlotsInside(env, m, H[q]);
    }
  }

  // What a write may change without changing which objects there are.
  ghost predicate Harmless(env: Env, H: Objects, p: nat, a: nat, w: Word)
    requires p in H
  {
    || (exists i :: 0 <= i < |H[p].slots| && H[p].slots[i] == a)
    || (a == p - 1 && w.Header? && w.ty == H[p].ty)
    || (a != p - 1 && Scratch(env, H[p], a) && (TagOf(env, H[p]) == SequenceTag ==> w.Bits?))
  }

  lemma WriteInside(env: Env, m: Memory, H: Objects, p: nat, a: nat, w: Word)
    requires AreObjects(env, m, H) && p in H && Harmless(env, H, p, a, w)
    ensures H[p].front <= a < H[p].end <= |m|
    ensures IsObject(env, m[a := w], H[p])
  {
    hide Apart, IsObject, Scratch, ValidEnv;
    var o := H[p];
    SlotsInside(env, m, o);
    ScratchHeader(env, m, o);
    if Scratch(env, o, a) { ScratchInside(env, m, o, a); }
    ObjectStable(env, m, m[a := w], o);
  }

  // The header and a sequence's counter.
  lemma ScratchHeader(env: Env, m: Memory, o: Obj)
    requires ValidEnv(env) && IsObject(env, m, o)
    ensures 0 < o.front < o.p <= o.end <= |m| && m[o.p - 1].Header? && m[o.p - 1].ty == o.ty < |env.types|
    ensures Scratch(env, o, o.p - 1)
    ensures TagOf(env, o) == env.types[o.ty].tag
    ensures TagOf(env, o) == SequenceTag ==> m[o.front].Bits? && Scratch(env, o, o.front) && o.front + 3 == o.p
  {
  }

  // Writing outside an object does not affect it.
  lemma WriteOutside(env: Env, m: Memory, o: Obj, a: nat, w: Word)
    requires ValidEnv(env) && IsObject(env, m, o) && a < |m| && !(o.front <= a < o.end)
    ensures IsObject(env, m[a := w], o)
  {
    ObjectStable(env, m, m[a := w], o);
  }

  lemma WriteKeepsObjects(env: Env, m: Memory, H: Objects, p: nat, a: nat, w: Word)
    requires AreObjects(env, m, H) && p in H && Harmless(env, H, p, a, w)
    ensures a < |m| && H[p].front <= a < H[p].end
    ensures AreObjects(env, m[a := w], H)
  {
    WriteInside(env, m, H, p, a, w);
    forall q | q in H && q != p
      ensures IsObject(env, m[a := w], H[q])
    {
      WriteOutside(env, m, H[q], a, w);
    }
  }

  // ---------------------------------------------------------- total sizes

  // Words of the objects of S below address n.
  function Total(H: Objects, S: set<nat>, n: nat): int
  {
    if n == 0 then 0
    else Total(H, S, n - 1) + if n - 1 in S && n - 1 in H then H[n - 1].Words() else 0
  }

  lemma {:induction false} TotalAdd(H: Objects, S: set<nat>, x: nat, n: nat)
    requires x !in S
    ensures Total(H, S + {x}, n) == Total(H, S, n) + if x < n && x in H then H[x].Words() else 0
  {
    if n > 0 { TotalAdd(H, S, x, n - 1); }
  }

  lemma {:induction false} TotalMono(H: Objects, S: set<nat>, S': set<nat>, n: nat)
    requires S <= S'
    requires forall p :: p in H ==> H[p].front <= H[p].end
    ensures Total(H, S, n) <= Total(H, S', n)
  {
    if n > 0 { TotalMono(H, S, S', n - 1); }
  }

  lemma {:induction false} TotalEmpty(H: Objects, n: nat)
    ensures Total(H, {}, n) == 0
  {
    if n > 0 { TotalEmpty(H, n - 1); }
  }
}
