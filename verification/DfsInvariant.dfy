// Depth-first marking by pointer reversal.  The path from the root to the
// current object is kept in the heap: each object on it holds, in the slot
// being followed, the object before it on the path.

module DfsInvariant {
  import opened Layout
  import opened Graph
  import opened Heap
  import opened State
  import opened Cursor
  import opened ObjectSize

  datatype Mode = MarkMode | UnmarkMode

  // The value the mark bit has once an object is done in this mode.
  function Bit(mode: Mode): bool { mode == MarkMode }

  // An object on the path and the index of the slot being followed.
  datatype Frame = Frame(p: nat, i: nat)

  // What one call starts from.
  datatype Call = Call(env: Env, m0: Memory, H: Objects, sp: Spaces, bit: bool, link: bool, root: nat)

  // Where the traversal stands: objects visited, the path, the current object
  // and its next slot.
  datatype Run = Run(visited: set<nat>, stk: seq<Frame>, cur: nat, i: nat)

  // The heap a call may start from: no position parked anywhere, and a weak
  // object that is gone holds a non-pointer.
  ghost predicate Quiet(env: Env, m: Memory, H: Objects) {
    && AreObjects(env, m, H)
    && (forall p :: p in H ==> Clean(env, m, H[p]))
    && (forall p :: p in H && IsWeak(env, H[p]) && |H[p].slots| == 0 ==> m[p + 1].Bits?)
  }

  ghost predicate CallOk(c: Call) {
    Quiet(c.env, c.m0, c.H) && Within(c.H, c.sp) && SlotsOk(c.m0, c.H, c.sp)
  }

  // Objects whose mark bit already has the final value.
  ghost function Already(c: Call): set<nat> {
    set p | p in c.H && 0 < p <= |c.m0| && c.m0[p - 1].Header? && c.m0[p - 1].mark == c.bit
  }

  // The objects this call is to mark: those reachable from the root through
  // objects that are not yet marked.
  ghost function ToMark(c: Call): set<nat> {
    Reach(Without(PointerGraph(c.env, c.m0, c.H), Already(c)), {c.root})
  }

  ghost function Seen(c: Call, r: Run): set<nat> {
    r.visited + Already(c)
  }

  ghost predicate OnPath(r: Run, q: nat) {
    q == r.cur || exists k :: 0 <= k < |r.stk| && r.stk[k].p == q
  }

  function SlotsAt(c: Call, p: nat): seq<nat> {
    Strong(c.env, At(c.H, p))
  }

  ghost predicate Follows(c: Call, f: Frame) {
    f.p in c.H && f.i < |SlotsAt(c, f.p)|
  }

  function SlotAddr(c: Call, f: Frame): nat {
    if f.i < |SlotsAt(c, f.p)| then SlotsAt(c, f.p)[f.i] else 0
  }

  function Previous(stk: seq<Frame>): nat {
    if |stk| == 0 then 0 else stk[|stk| - 1].p
  }

  ghost predicate PathOk(c: Call, stk: seq<Frame>) {
    && (forall k :: 0 <= k < |stk| ==> Follows(c, stk[k]))
    && (forall k, l :: 0 <= k < l < |stk| ==> stk[k].p != stk[l].p)
  }

  function Set(m: Memory, a: nat, w: Word): (m': Memory)
    ensures |m'| == |m|
    ensures a < |m| ==> m' == m[a := w]
  {
    if a < |m| then m[a := w] else m
  }

  // The initial memory with the pointers along the path reversed.
  ghost function Reversed(c: Call, stk: seq<Frame>): (m: Memory)
    ensures |m| == |c.m0|
  {
    if |stk| == 0 then c.m0
    else
      var rest := stk[..|stk| - 1];
      Set(Reversed(c, rest), SlotAddr(c, stk[|stk| - 1]), Ptr(Previous(rest)))
  }

  lemma SlotInMemory(c: Call, f: Frame)
    requires CallOk(c) && Follows(c, f)
    ensures SlotAddr(c, f) < |c.m0|
    ensures !InScratch(c.env, c.H, SlotAddr(c, f))
    ensures c.H[f.p].front <= SlotAddr(c, f) < c.H[f.p].end
  {
    hide IsObject;
    assert IsObject(c.env, c.m0, c.H[f.p]);
    ObjectBounds(c.env, c.m0, c.H[f.p]);
    SlotOwner(c.env, c.m0, c.H, f.p, f.i);
  }

  lemma ObjectBounds(env: Env, m: Memory, o: Obj)
    requires IsObject(env, m, o)
    ensures 0 < o.front < o.p <= o.end <= |m| && m[o.p - 1].Header? && m[o.p - 1].ty == o.ty < |env.types|
  {
  }

  // -------------------------------------------------------- the invariant

  ghost predicate SlotDone(c: Call, seen: set<nat>, a: nat) {
    forall t :: PointsTo(c.m0, c.H, a, t) ==> t in seen
  }

  ghost predicate DoneUpTo(c: Call, seen: set<nat>, p: nat, n: int) {
    forall j :: 0 <= j < n && j < |SlotsAt(c, p)| ==> SlotDone(c, seen, SlotsAt(c, p)[j])
  }

  ghost predicate Shape(c: Call, r: Run) {
    && PathOk(c, r.stk)
    && r.cur in r.visited
    && (forall k :: 0 <= k < |r.stk| ==> r.stk[k].p != r.cur && r.stk[k].p in r.visited)
    && r.visited <= c.H.Keys
    && r.visited !! Already(c)
    && r.visited <= ToMark(c)
    && c.root in r.visited
    && r.i <= |SlotsAt(c, r.cur)|
  }

  function NextOnPath(r: Run, k: nat): nat {
    if k + 1 < |r.stk| then r.stk[k + 1].p else r.cur
  }

  // In the initial memory each object on the path points to the next one.
  ghost predicate Linked(c: Call, r: Run) {
    forall k :: 0 <= k < |r.stk| ==> PointsTo(c.m0, c.H, SlotAddr(c, r.stk[k]), NextOnPath(r, k))
  }

  ghost predicate Progress(c: Call, r: Run) {
    && (forall q :: q in r.visited && !OnPath(r, q) ==> DoneUpTo(c, Seen(c, r), q, |SlotsAt(c, q)|))
    && (forall k :: 0 <= k < |r.stk| ==> DoneUpTo(c, Seen(c, r), r.stk[k].p, r.stk[k].i))
    && DoneUpTo(c, Seen(c, r), r.cur, r.i)
  }

  // Outside the scratch words memory is the reversed initial memory.
  ghost predicate MemOk(c: Call, r: Run, m: Memory) {
    && |m| == |c.m0|
    && AreObjects(c.env, m, c.H)
    && (forall a :: 0 <= a < |m| && !InScratch(c.env, c.H, a) ==> m[a] == Reversed(c, r.stk)[a])
  }

  ghost predicate SameScratch(env: Env, o: Obj, m: Memory, m': Memory) {
    |m| == |m'| && forall a :: 0 <= a < |m| && Scratch(env, o, a) ==> m'[a] == m[a]
  }

  // The scratch words of one visited object.
  ghost predicate ScratchOk(c: Call, r: Run, m: Memory, q: nat) {
    && 0 < q <= |m| == |c.m0|
    && m[q - 1].Header? && m[q - 1].mark == c.bit
    && ((HasCounters(c.env, At(c.H, q)) && OnPath(r, q)) || Clean(c.env, m, At(c.H, q)))
    && (!c.link && IsWeak(c.env, At(c.H, q)) ==> q < |m| && m[q] == c.m0[q])
  }

  ghost predicate Marks(c: Call, r: Run, m: Memory) {
    && (forall q :: q in c.H && q !in r.visited ==> SameScratch(c.env, c.H[q], c.m0, m))
    && (forall q :: q in r.visited ==> ScratchOk(c, r, m, q))
    && (forall k :: 0 <= k < |r.stk| ==> Saved(c.env, c.m0, m, At(c.H, r.stk[k].p), r.stk[k].i))
  }

  ghost predicate Inv(c: Call, r: Run, m: Memory) {
    && CallOk(c) && Shape(c, r) && Linked(c, r) && Progress(c, r)
    && MemOk(c, r, m) && Marks(c, r, m)
  }

  // ------------------------------------------------- facts about Reversed

  lemma {:induction false} ReversedAt(c: Call, stk: seq<Frame>, a: nat)
    requires a < |c.m0|
    requires forall k :: 0 <= k < |stk| ==> SlotAddr(c, stk[k]) != a
    ensures Reversed(c, stk)[a] == c.m0[a]
  {
    if |stk| > 0 {
      var rest := stk[..|stk| - 1];
      forall k | 0 <= k < |rest|
        ensures SlotAddr(c, rest[k]) != a
      {
        assert rest[k] == stk[k];
      }
      ReversedAt(c, rest, a);
    }
  }

  // Slots followed by different objects on the path are different words.
  lemma PathSlots(c: Call, stk: seq<Frame>, f: Frame)
    requires CallOk(c) && PathOk(c, stk) && Follows(c, f)
    requires forall k :: 0 <= k < |stk| ==> stk[k].p != f.p
    ensures forall k :: 0 <= k < |stk| ==> SlotAddr(c, stk[k]) != SlotAddr(c, f)
    ensures SlotAddr(c, f) < |c.m0| && Reversed(c, stk)[SlotAddr(c, f)] == c.m0[SlotAddr(c, f)]
  {
    hide IsObject;
    SlotInMemory(c, f);
    forall k | 0 <= k < |stk|
      ensures SlotAddr(c, stk[k]) != SlotAddr(c, f)
    {
      assert Follows(c, stk[k]);
      SlotInMemory(c, stk[k]);
    }
    ReversedAt(c, stk, SlotAddr(c, f));
  }

  // A slot on the path is a slot of its own object, hence not of another.
  lemma PathAvoids(c: Call, stk: seq<Frame>, p: nat, a: nat)
    requires CallOk(c) && PathOk(c, stk) && p in c.H
    requires c.H[p].front <= a < c.H[p].end && a !in c.H[p].slots
    ensures forall k :: 0 <= k < |stk| ==> SlotAddr(c, stk[k]) != a
  {
    hide IsObject;
    forall k | 0 <= k < |stk|
      ensures SlotAddr(c, stk[k]) != a
    {
      assert Follows(c, stk[k]);
      SlotInMemory(c, stk[k]);
    }
  }

  lemma OnlyOwner(c: Call, p: nat, a: nat)
    requires CallOk(c) && p in c.H && c.H[p].front <= a < c.H[p].end && !Scratch(c.env, c.H[p], a)
    ensures !InScratch(c.env, c.H, a)
  {
    hide IsObject;
    if q :| q in c.H && Scratch(c.env, c.H[q], a) {
      ScratchInside(c.env, c.m0, c.H[q], a);
      assert false;
    }
  }

  lemma FixedWord(c: Call, r: Run, m: Memory, p: nat, a: nat)
    requires Inv(c, r, m) && p in c.H
    requires c.H[p].front <= a < c.H[p].end && a !in c.H[p].slots && !Scratch(c.env, c.H[p], a)
    ensures a < |m| == |c.m0| && m[a] == c.m0[a]
  {
    hide IsObject;
    assert IsObject(c.env, c.m0, c.H[p]);
    ObjectBounds(c.env, c.m0, c.H[p]);
    OnlyOwner(c, p, a);
    PathAvoids(c, r.stk, p, a);
    ReversedAt(c, r.stk, a);
  }

  // A word of an object that is neither slot nor scratch keeps its value.
  lemma FixedInMemory(c: Call, r: Run, m: Memory, p: nat)
    requires Inv(c, r, m) && p in c.H
    ensures FixedWords(c.env, c.m0, m, c.H[p])
  {
    var o := c.H[p];
    hide Shape, Linked, Progress, Marks, IsObject;
    assert IsObject(c.env, c.m0, o);
    ObjectBounds(c.env, c.m0, o);
    hide Inv, CallOk, AreObjects, Scratch, InScratch;
    forall a | o.front <= a < o.end && a !in o.slots && !Scratch(c.env, o, a)
      ensures m[a] == c.m0[a]
    {
      FixedWord(c, r, m, p, a);
    }
    assert |m| == |c.m0| by { InvLength(c, r, m); }
  }

  lemma InvLength(c: Call, r: Run, m: Memory)
    requires Inv(c, r, m)
    ensures |m| == |c.m0|
  {
  }
}
