// Contiguous runs of objects: a space is a sequence of objects, each starting
// where the one before it ends.

module Tiling {
  import opened Layout
  import opened Heap

  ghost predicate Tiles(objs: seq<Obj>, lo: nat, hi: nat) {
    && (|objs| == 0 ==> lo == hi)
    && (|objs| > 0 ==> objs[0].front == lo && objs[|objs| - 1].end == hi)
    && (forall i :: 0 <= i < |objs| ==> objs[i].front < objs[i].p <= objs[i].end)
    && (forall i, j :: 0 <= i && j == i + 1 && j < |objs| ==> objs[i].end == objs[j].front)
  }

  // H and objs hold the same objects.
  ghost predicate Covers(H: Objects, objs: seq<Obj>) {
    && (forall i :: 0 <= i < |objs| ==> objs[i].p in H && H[objs[i].p] == objs[i])
    && (forall p :: p in H ==> exists i :: 0 <= i < |objs| && objs[i].p == p)
  }

  lemma {:induction false} Ordered(objs: seq<Obj>, lo: nat, hi: nat, i: nat, j: nat)
    requires Tiles(objs, lo, hi) && i < j < |objs|
    ensures objs[i].end <= objs[j].front
    decreases j
  {
    assert objs[j - 1].end == objs[j].front;
    if i < j - 1 { Ordered(objs, lo, hi, i, j - 1); }
  }

  lemma TileBounds(objs: seq<Obj>, lo: nat, hi: nat, i: nat)
    requires Tiles(objs, lo, hi) && i < |objs|
    ensures lo <= objs[i].front < objs[i].end <= hi
  {
    if i > 0 { Ordered(objs, lo, hi, 0, i); }
    if i < |objs| - 1 { Ordered(objs, lo, hi, i, |objs| - 1); }
  }

  lemma TilesApart(objs: seq<Obj>, lo: nat, hi: nat, i: nat, j: nat)
    requires Tiles(objs, lo, hi) && i < |objs| && j < |objs| && i != j
    ensures objs[i].end <= objs[j].front || objs[j].end <= objs[i].front
    ensures objs[i].p != objs[j].p
  {
    if i < j { Ordered(objs, lo, hi, i, j); } else { Ordered(objs, lo, hi, j, i); }
  }

  lemma TilesAdd(objs: seq<Obj>, lo: nat, hi: nat, o: Obj)
    requires Tiles(objs, lo, hi) && o.front == hi && o.front < o.p <= o.end
    ensures Tiles(objs + [o], lo, o.end)
  {
  }

  lemma TilesJoin(a: seq<Obj>, b: seq<Obj>, lo: nat, mid: nat, hi: nat)
    requires Tiles(a, lo, mid) && Tiles(b, mid, hi)
    ensures Tiles(a + b, lo, hi)
  {
    forall i, j | 0 <= i && j == i + 1 && j < |a + b|
      ensures (a + b)[i].end == (a + b)[j].front
    {
      if i >= |a| { assert b[i - |a|].end == b[j - |a|].front; }
      else if j < |a| { assert a[i].end == a[j].front; }
    }
  }

  lemma TilesSplit(objs: seq<Obj>, lo: nat, hi: nat, k: nat)
    requires Tiles(objs, lo, hi) && k <= |objs|
    ensures var mid := if k < |objs| then objs[k].front else hi;
            Tiles(objs[..k], lo, mid) && Tiles(objs[k..], mid, hi)
  {
    if 0 < k < |objs| { assert objs[k - 1].end == objs[k].front; }
  }

  lemma SameTiles(objs: seq<Obj>, objs': seq<Obj>, lo: nat, hi: nat)
    requires Tiles(objs, lo, hi) && |objs'| == |objs|
    requires forall i :: 0 <= i < |objs| ==>
      objs'[i].front == objs[i].front && objs'[i].p == objs[i].p && objs'[i].end == objs[i].end
    ensures Tiles(objs', lo, hi)
  {
    forall i, j | 0 <= i && j == i + 1 && j < |objs'|
      ensures objs'[i].end == objs'[j].front
    {
      assert objs[i].end == objs[j].front;
    }
  }
}
