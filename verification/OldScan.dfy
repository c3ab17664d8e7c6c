// Scanning the old generation for pointers into the nursery: its slots are
// roots of a minor collection, and only objects on marked cards are visited.

module OldScan {
  import opened Layout
  import opened Graph
  import opened Heap
  import opened State
  import opened ObjectSize
  import opened StackObject
  import opened Tiling
  import opened Foreach
  import opened Cursor
  import opened DfsInvariant
  import opened DfsMark
  import opened Roots
  import opened CrossMap
  import opened Collection
  import opened Copying
  import opened CopyStep
  import opened CopyScan
  import opened Forward
  import opened Cheney

  // All slots of the first n old objects, weak pointers included.
  function OldSlots(old_: seq<Obj>, n: nat): seq<nat> {
    if n == 0 || n > |old_| then [] else OldSlots(old_, n - 1) + old_[n - 1].slots
  }

  lemma OldSlotsNext(old_: seq<Obj>, n: nat)
    requires n < |old_|
    ensures OldSlots(old_, n + 1) == OldSlots(old_, n) + old_[n].slots
    ensures OldSlots(old_, 0) == []
  {
  }

  lemma {:induction false} OldSlotsPrefix(old_: seq<Obj>, i: nat, n: nat)
    requires i <= n <= |old_|
    ensures OldSlots(old_, i) <= OldSlots(old_, n)
    decreases n
  {
    if i < n {
      OldSlotsPrefix(old_, i, n - 1);
      OldSlotsNext(old_, n - 1);
    }
  }

  lemma {:induction false} OldSlotsMember(old_: seq<Obj>, n: nat, s: nat)
    requires n <= |old_|
    ensures s in OldSlots(old_, n) <==> exists i :: 0 <= i < n && s in old_[i].slots
  {
    if n > 0 {
      OldSlotsMember(old_, n - 1, s);
      OldSlotsNext(old_, n - 1);
    }
  }

  // Slot i of old object u is a root.
  lemma SlotIsRoot(globals: seq<nat>, old_: seq<Obj>, u: nat, i: nat)
    requires u < |old_| && i < |old_[u].slots|
    ensures var roots := globals + OldSlots(old_, |old_|);
      |globals| + |OldSlots(old_, u)| + i < |roots| && roots[|globals| + |OldSlots(old_, u)| + i] == old_[u].slots[i]
  {
    OldSlotsNext(old_, u);
    OldSlotsPrefix(old_, u + 1, |old_|);
    var a, b := OldSlots(old_, u + 1), OldSlots(old_, |old_|);
    assert b[|OldSlots(old_, u)| + i] == a[|OldSlots(old_, u)| + i];
  }

  // ------------------------------------------------------------------ the cards

  // Card k is marked.
  ghost predicate Marked(cards: seq<bool>, k: int) { 0 <= k < |cards| && cards[k] }

  // Some card that object u overlaps is marked.
  ghost predicate OnMarkedCard(cards: seq<bool>, old_: seq<Obj>, start: nat, end: nat, u: nat) {
    exists k: nat :: Marked(cards, k)
      && Boundary(old_, start, end, u) < CardToSize(k + 1) && CardToSize(k) < Boundary(old_, start, end, u + 1)
  }

  predicate Young(c: Collection, w: Word) { w.Ptr? && w.addr in c.H }

  // The write barrier's promise: an old object with a pointer into the nursery
  // is on a marked card.
  ghost predicate CardsOk(c: Collection, cards: seq<bool>, old_: seq<Obj>, start: nat, end: nat) {
    forall u, i :: 0 <= u < |old_| && 0 <= i < |old_[u].slots| && Young(c, WordAt(c.m, old_[u].slots[i])) ==>
      OnMarkedCard(cards, old_, start, end, u)
  }

  // The setting of a minor collection over the old generation [start, end).
  ghost predicate MinorOk(t: Setting, globals: seq<nat>, old_: seq<Obj>, start: nat, end: nat) {
    && SettingOk(t)
    && t.c.roots == globals + OldSlots(old_, |old_|)
    && Walkable(t.c.env, t.c.m, old_, start, end)
    && 0 < start && end <= t.toStart
    && (forall p :: p in t.c.H ==> end <= t.c.H[p].front)
    && (forall i :: 0 <= i < |globals| ==> !(start <= globals[i] < end))
  }

  lemma MinorParts(t: Setting, globals: seq<nat>, old_: seq<Obj>, start: nat, end: nat)
    requires MinorOk(t, globals, old_, start, end)
    ensures SettingOk(t) && t.c.roots == globals + OldSlots(old_, |old_|) && Walkable(t.c.env, t.c.m, old_, start, end)
    ensures Tiles(old_, start, end) && 0 < start <= end <= t.toStart && end <= |t.c.m|
  {
    hide SettingOk, Walkable, Tiles;
    WalkTiles(t.c.env, t.c.m, old_, start, end);
    BoundaryAt(old_, start, end, 0);
  }

  // ------------------------------------------------ reading an old object

  lemma OldUnused(t: Setting, globals: seq<nat>, old_: seq<Obj>, start: nat, end: nat, u: nat, a: nat)
    requires MinorOk(t, globals, old_, start, end) && u < |old_| && old_[u].front <= a < old_[u].end &&
      a !in old_[u].slots
    ensures !Used(t, a) && a < |t.c.m|
  {
    hide SettingOk, Walkable, Tiles, OldSlots;
    MinorParts(t, globals, old_, start, end);
    TileBounds(old_, start, end, u);
    if a in t.c.roots {
      GlobalOrSlot(globals, OldSlots(old_, |old_|), a);
      OldSlotsMember(old_, |old_|, a);
      if a in OldSlots(old_, |old_|) {
        var v :| 0 <= v < |old_| && a in old_[v].slots;
        WalkAt(t.c.env, t.c.m, old_, start, end, v);
        IsObjectSlot(t.c.env, t.c.m, old_[v], a);
        if v != u { TilesApart(old_, start, end, u, v); }
      }
    }
  }

  lemma GlobalOrSlot(globals: seq<nat>, slots: seq<nat>, a: nat)
    requires a in globals + slots
    ensures a in slots || exists i :: 0 <= i < |globals| && globals[i] == a
  {
  }

  lemma IsObjectSlot(env: Env, m: Memory, o: Obj, a: nat)
    requires IsO(env, m, o) && a in o.slots
    ensures o.p <= a < o.end && o.front < o.p
  {
    SlotsInside(env, m, o);
  }

  lemma OldReadable(t: Setting, globals: seq<nat>, old_: seq<Obj>, start: nat, end: nat, m: Memory, u: nat)
    requires MinorOk(t, globals, old_, start, end) && Elsewhere(t, m) && u < |old_|
    ensures IsO(t.c.env, m, old_[u]) && Clean(t.c.env, m, old_[u])
  {
    hide *;
    MinorParts(t, globals, old_, start, end);
    WalkAt(t.c.env, t.c.m, old_, start, end, u);
    var o := old_[u];
    SlotsAbove(t.c.env, t.c.m, o);
    forall a: nat | o.front <= a < o.end && a !in o.slots
      ensures a < |m| == |t.c.m| && m[a] == t.c.m[a]
    {
      OldUnused(t, globals, old_, start, end, u, a);
      ElsewhereLength(t, m);
      ElsewhereAt(t, m, a);
    }
    ElsewhereLength(t, m);
    StillThere(t.c.env, t.c.m, m, o);
  }

  lemma ElsewhereLength(t: Setting, m: Memory)
    requires Elsewhere(t, m)
    ensures |m| == |t.c.m|
  {
    hide Used;
  }

  lemma SlotsAbove(env: Env, m: Memory, o: Obj)
    requires IsO(env, m, o)
    ensures forall a: nat :: a < o.p ==> a !in o.slots
    ensures o.front < o.p <= o.end && o.p - 1 < o.end
  {
    SlotsInside(env, m, o);
  }

  lemma StillThere(env: Env, m: Memory, m': Memory, o: Obj)
    requires IsO(env, m, o) && Clean(env, m, o) && |m'| == |m| && o.p - 1 < o.end
    requires forall a: nat :: a < o.p ==> a !in o.slots
    requires forall a: nat :: o.front <= a < o.end && a !in o.slots ==> m'[a] == m[a]
    ensures IsO(env, m', o) && Clean(env, m', o)
  {
    hide ValidEnv, SlotsOf, DataWords;
    assert m'[o.p - 1] == m[o.p - 1] && m'[o.front] == m[o.front];
    ObjectStable(env, m, m', o);
  }

  // ------------------------------------------------------------- passing roots by

  lemma RedirectSame(t: Setting, st: Copy, m: Memory, a: nat, v: Word)
    requires a < |m| && m[a] == v && !Young(t.c, v) && (v.Ptr? ==> v.addr !in st.dest)
    ensures Redirected(t, st, m, a, v, m)
  {
    RedirectIntro(t, st, m, a, v, m);
  }

  function RootsDone(st: Copy, n: nat): Copy { st.(r := st.r + n) }

  // Roots that do not point into the nursery need no visit.
  lemma {:induction false} PassRoots(t: Setting, st: Copy, m: Memory, w: nat, n: nat)
    requires Copies(t, st, m, w) && st.r + n <= |t.c.roots|
    requires forall i :: st.r <= i < st.r + n ==> !Young(t.c, WordAt(t.c.m, t.c.roots[i]))
    ensures Copies(t, RootsDone(st, n), m, w)
    decreases n
  {
    hide *;
    if n == 0 {
      NoneDone(st);
    } else {
      RootWordIs(t, st, m, w);
      var v := WordAt(t.c.m, t.c.roots[st.r]);
      if v.Ptr? && v.addr in st.dest {
        CopiesParts(t, st, m, w);
        CopiedIsOld(t, st, v.addr);
      }
      YoungIs(t.c, v);
      RedirectSame(t, st, m, t.c.roots[st.r], v);
      RootKeeps(t, st, m, w, m);
      NextRootSame(t, st);
      PassRoots(t, NextRootDone(st), m, w, n - 1);
      DoneTogether(st, n);
    }
  }

  lemma YoungIs(c: Collection, w: Word)
    ensures Young(c, w) <==> w.Ptr? && w.addr in c.H
  {
  }

  lemma NoneDone(st: Copy)
    ensures RootsDone(st, 0) == st
  {
  }

  lemma DoneTogether(st: Copy, n: nat)
    requires n > 0
    ensures RootsDone(NextRootDone(st), n - 1) == RootsDone(st, n)
  {
  }

  lemma RootsDoneFields(st: Copy, n: nat)
    ensures var st' := RootsDone(st, n);
      st'.r == st.r + n && st'.n == st.n && st'.k == st.k && st'.back == st.back && st'.order == st.order &&
        st'.dest == st.dest && st'.L == st.L
  {
  }

  // ----------------------------------------------------- unmarked stretches

  // No card from that of boundary u up to card k is marked.
  ghost predicate QuietCards(cards: seq<bool>, old_: seq<Obj>, start: nat, end: nat, u: nat, k: nat) {
    forall c: nat :: SizeToCard(Boundary(old_, start, end, u)) <= c < k ==> !Marked(cards, c)
  }

  lemma NotOnMarked(cards: seq<bool>, old_: seq<Obj>, start: nat, end: nat, u: nat, v: nat, k: nat)
    requires Tiles(old_, start, end) && u <= v < |old_| && QuietCards(cards, old_, start, end, u, k)
    requires Boundary(old_, start, end, v + 1) <= CardToSize(k)
    ensures !OnMarkedCard(cards, old_, start, end, v)
  {
    hide Tiles, Boundary, Marked;
    BoundaryMono(old_, start, end, u, v);
    forall c: nat | Marked(cards, c) && Boundary(old_, start, end, v) < CardToSize(c + 1) &&
      CardToSize(c) < Boundary(old_, start, end, v + 1)
      ensures false
    {
      CardRange(Boundary(old_, start, end, u), Boundary(old_, start, end, v), Boundary(old_, start, end, v + 1), c, k);
    }
  }

  lemma CardRange(x: nat, y: nat, z: nat, c: nat, k: nat)
    requires x <= y && y < CardToSize(c + 1) && CardToSize(c) < z <= CardToSize(k)
    ensures SizeToCard(x) <= c < k
  {
  }

  // Objects on unmarked cards hold no pointers into the nursery.
  lemma QuietSlots(t: Setting, globals: seq<nat>, cards: seq<bool>, old_: seq<Obj>, start: nat, end: nat, u: nat,
          v: nat, k: nat, i: nat)
    requires MinorOk(t, globals, old_, start, end) && CardsOk(t.c, cards, old_, start, end)
    requires u <= v < |old_| && QuietCards(cards, old_, start, end, u, k) &&
      Boundary(old_, start, end, v + 1) <= CardToSize(k)
    requires i < |old_[v].slots|
    ensures !Young(t.c, WordAt(t.c.m, old_[v].slots[i]))
  {
    hide MinorOk, Young, OnMarkedCard, QuietCards, Boundary;
    MinorParts(t, globals, old_, start, end);
    NotOnMarked(cards, old_, start, end, u, v, k);
  }

  lemma {:induction false} PassObjects(t: Setting, globals: seq<nat>, cards: seq<bool>, old_: seq<Obj>, start: nat,
          end: nat, u: nat, v: nat, k: nat, st: Copy, m: Memory, w: nat)
    requires MinorOk(t, globals, old_, start, end) && CardsOk(t.c, cards, old_, start, end)
    requires u <= v <= |old_| && QuietCards(cards, old_, start, end, u, k) &&
      Boundary(old_, start, end, v) <= CardToSize(k)
    requires Copies(t, st, m, w) && st.r == |globals| + |OldSlots(old_, u)|
    ensures |OldSlots(old_, v)| >= |OldSlots(old_, u)|
    ensures Copies(t, RootsDone(st, |OldSlots(old_, v)| - |OldSlots(old_, u)|), m, w)
    decreases v
  {
    hide *;
    if u == v {
      NoneDone(st);
    } else {
      MinorParts(t, globals, old_, start, end);
      BoundaryAt(old_, start, end, v - 1);
      PassObjects(t, globals, cards, old_, start, end, u, v - 1, k, st, m, w);
      OldSlotsNext(old_, v - 1);
      var n1 := |OldSlots(old_, v - 1)| - |OldSlots(old_, u)|;
      var n2 := |old_[v - 1].slots|;
      var st1 := RootsDone(st, n1);
      RootsDoneFields(st, n1);
      RootsReach(t.c.roots, globals, old_, v);
      forall i | st1.r <= i < st1.r + n2
        ensures !Young(t.c, WordAt(t.c.m, t.c.roots[i]))
      {
        SlotIsRoot(globals, old_, v - 1, i - st1.r);
        QuietSlots(t, globals, cards, old_, start, end, u, v - 1, k, i - st1.r);
      }
      PassRoots(t, st1, m, w, n2);
      DoneTwice(st, n1, n2);
    }
  }

  lemma RootsReach(roots: seq<nat>, globals: seq<nat>, old_: seq<Obj>, v: nat)
    requires roots == globals + OldSlots(old_, |old_|) && v <= |old_|
    ensures |globals| + |OldSlots(old_, v)| <= |roots|
  {
    OldSlotsPrefix(old_, v, |old_|);
  }

  lemma DoneTwice(st: Copy, a: nat, b: nat)
    ensures RootsDone(RootsDone(st, a), b) == RootsDone(st, a + b)
  {
  }
}
