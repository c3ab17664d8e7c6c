// The region stack: push saves the base of the enclosing region in the buffer,
// pop restores it.  Word offsets from the start of the buffer; sizes in words.

module Regions {

  datatype Frame = Frame(base: nat, top: nat)

  // What one run of the program does with regions.
  datatype Event = Push | Alloc(words: nat) | Pop

  // The regions that are open: the current one and, innermost last, those around it.
  datatype Open = Open(base: nat, top: nat, outer: seq<Frame>)

  // Regions stand one after the other, each behind a word with the base of the
  // one around it, down to the start of the buffer.
  ghost predicate Nested(o: Open)
    decreases |o.outer|
  {
    && o.base <= o.top
    && (if o.outer == [] then o.base == 0
        else var f := o.outer[|o.outer| - 1];
          f.base <= f.top && o.base == f.top + 1 && Nested(Open(f.base, f.top, o.outer[..|o.outer| - 1])))
  }

  ghost predicate Saved(buffer: seq<nat>, outer: seq<Frame>) {
    forall i :: 0 <= i < |outer| ==> outer[i].top < |buffer| && buffer[outer[i].top] == outer[i].base
  }

  lemma {:induction false} NestedFrames(o: Open, i: nat)
    requires Nested(o) && i < |o.outer|
    ensures o.outer[i].base <= o.outer[i].top < o.base
    ensures i > 0 ==> o.outer[i - 1].top < o.outer[i].base
    decreases |o.outer|
  {
    var n := |o.outer| - 1;
    var f := o.outer[n];
    var rest := Open(f.base, f.top, o.outer[..n]);
    if i < n {
      NestedFrames(rest, i);
      assert rest.outer[i] == o.outer[i];
      if i > 0 { assert rest.outer[i - 1] == o.outer[i - 1]; }
    } else if i > 0 {
      NestedFrames(rest, i - 1);
      assert rest.outer[i - 1] == o.outer[i - 1];
    }
  }

  // The saved bases descend strictly to the start of the buffer.
  lemma {:induction false} Descending(o: Open, i: nat, j: nat)
    requires Nested(o) && i < j < |o.outer|
    ensures o.outer[i].base < o.outer[j].base < o.base && o.outer[0].base == 0
    decreases |o.outer|, j
  {
    NestedFrames(o, j);
    NestedFrames(o, j - 1);
    if i < j - 1 { Descending(o, i, j - 1); }
    Outermost(o);
  }

  lemma {:induction false} Outermost(o: Open)
    requires Nested(o) && o.outer != []
    ensures o.outer[0].base == 0
    decreases |o.outer|
  {
    var n := |o.outer| - 1;
    var rest := Open(o.outer[n].base, o.outer[n].top, o.outer[..n]);
    if n > 0 {
      Outermost(rest);
      assert rest.outer[0] == o.outer[0];
    }
  }

  // ----------------------------------------------------------- the abstract run

  function Step(o: Open, e: Event): Open {
    match e
    case Push => Open(o.top + 1, o.top + 1, o.outer + [Frame(o.base, o.top)])
    case Alloc(words) => o.(top := o.top + words)
    case Pop =>
      if o.outer == [] then Open(o.base, 0, [])
      else var f := o.outer[|o.outer| - 1]; Open(f.base, f.top, o.outer[..|o.outer| - 1])
  }

  function Run(o: Open, events: seq<Event>): Open
    decreases |events|
  {
    if events == [] then o else Run(Step(o, events[0]), events[1..])
  }

  // A run whose pops each have a push in it, and whose pushes are all popped.
  function Depth(events: seq<Event>): int {
    if events == [] then 0 else Depth(events[..|events| - 1]) + Change(events[|events| - 1])
  }

  function Change(e: Event): int { if e.Push? then 1 else if e.Pop? then -1 else 0 }

  ghost predicate Balanced(events: seq<Event>) {
    Depth(events) == 0 && forall n :: 0 <= n <= |events| ==> Depth(events[..n]) >= 0
  }

  lemma {:induction false} RunLast(o: Open, events: seq<Event>, e: Event)
    ensures Run(o, events + [e]) == Step(Run(o, events), e)
    decreases |events|
  {
    if events == [] {
      assert (events + [e])[1..] == [];
    } else {
      RunLast(Step(o, events[0]), events[1..], e);
      assert (events + [e])[1..] == events[1..] + [e];
    }
  }

  // As long as no region of the start is popped, those around it stay.
  lemma {:induction false} RunKeeps(o: Open, events: seq<Event>)
    requires forall n :: 0 <= n <= |events| ==> Depth(events[..n]) >= 0
    ensures |Run(o, events).outer| == |o.outer| + Depth(events)
    ensures Depth(events) >= 0 && o.outer <= Run(o, events).outer
    ensures Depth(events) == 0 ==> Run(o, events).base == o.base
    ensures Depth(events) > 0 ==> Run(o, events).outer[|o.outer|].base == o.base
    decreases |events|
  {
    assert events[..|events|] == events;
    if events != [] {
      var rest, e := events[..|events| - 1], events[|events| - 1];
      assert events == rest + [e];
      forall n | 0 <= n <= |rest|
        ensures Depth(rest[..n]) >= 0
      {
        assert rest[..n] == events[..n];
      }
      RunKeeps(o, rest);
      RunLast(o, rest, e);
    }
  }

  // Every pop restores exactly the base and top of its matching push.
  lemma PopMatchesPush(o: Open, events: seq<Event>)
    requires Balanced(events)
    ensures Run(o, [Push] + events + [Pop]) == o
  {
    var o' := Step(o, Push);
    assert events[..|events|] == events;
    RunKeeps(o', events);
    RunLast(o, [Push] + events, Pop);
    assert ([Push] + events)[1..] == events;
    var last := Run(o', events);
    assert last.outer == o'.outer;
    assert o'.outer[..|o'.outer| - 1] == o.outer;
  }

  // ----------------------------------------------------------------- the buffer

  class RegionState {
    const buffer: array<nat>
    var regionBase: nat
    var regionTop: nat
    var bytesStackAllocated: nat
    var maxRegionBytesLive: nat
    ghost var outer: seq<Frame>
    // Words allocated and pushed since the buffer was last reset to empty.
    ghost var taken: int

    constructor (buffer: array<nat>)
      ensures this.buffer == buffer && Valid() && Abstract() == Open(0, 0, []) && bytesStackAllocated == 0 && taken == 0
    {
      this.buffer, regionBase, regionTop, bytesStackAllocated, maxRegionBytesLive := buffer, 0, 0, 0, 0;
      outer, taken := [], 0;
    }

    ghost function Abstract(): Open
      reads this
    {
      Open(regionBase, regionTop, outer)
    }

    // Bytes popped and bytes in use make up all bytes allocated and pushed.
    ghost predicate Valid()
      reads this, buffer
    {
      && Nested(Abstract()) && Saved(buffer[..], outer) && regionTop <= buffer.Length
      && bytesStackAllocated + 8 * regionTop == 8 * taken
    }

    // GC_regionPush.
    method RegionPush()
      requires Valid() && regionTop < buffer.Length
      modifies this, buffer
      ensures Valid() && Abstract() == Step(old(Abstract()), Push)
      ensures taken == old(taken) + 1 && bytesStackAllocated == old(bytesStackAllocated)
    {
      var oldBase, oldTop := regionBase, regionTop;
      forall i | 0 <= i < |outer|
        ensures outer[i].top < oldTop
      {
        NestedFrames(Abstract(), i);
      }
      buffer[oldTop] := oldBase;
      var newBase := oldTop + 1;
      outer := outer + [Frame(oldBase, oldTop)];
      regionBase, regionTop, taken := newBase, newBase, taken + 1;
      assert outer[..|outer| - 1] == old(outer);
    }

    // The program allocates at the top and fills in what it allocates.
    method Allocate(data: seq<nat>)
      requires Valid() && regionTop + |data| <= buffer.Length
      modifies this, buffer
      ensures Valid() && Abstract() == Step(old(Abstract()), Alloc(|data|))
      ensures buffer[old(regionTop)..regionTop] == data
      ensures taken == old(taken) + |data| && bytesStackAllocated == old(bytesStackAllocated)
    {
      forall i | 0 <= i < |outer|
        ensures outer[i].top < regionTop
      {
        NestedFrames(Abstract(), i);
      }
      forall i | 0 <= i < |data| {
        buffer[regionTop + i] := data[i];
      }
      regionTop, taken := regionTop + |data|, taken + |data|;
    }

    // GC_regionPop: underflow, the reset of the outermost region, or a return to
    // the enclosing region.
    method RegionPop()
      requires Valid()
      modifies this
      ensures Valid() && Abstract() == Step(old(Abstract()), Pop)
      ensures old(outer) != [] ==>
        taken == old(taken) && bytesStackAllocated == old(bytesStackAllocated) + 8 * (old(regionTop) - regionTop)
      ensures old(outer) == [] ==>
        taken == old(taken) - old(regionTop) && bytesStackAllocated == old(bytesStackAllocated)
      ensures maxRegionBytesLive >= old(maxRegionBytesLive)
      ensures old(outer) != [] ==> maxRegionBytesLive >= 8 * old(regionTop)
    {
      BaseIsOutermost();
      if regionTop == 0 { return; }
      if regionBase == 0 {
        taken := taken - regionTop;
        regionTop := 0;
        return;
      }
      var currTop, currBase := regionTop, regionBase;
      var newTop := currBase - 1;
      assert outer[|outer| - 1].top == newTop;
      var oldBase := buffer[newTop];
      if currTop > newTop {
        var poppedBytes := 8 * (currTop - newTop);
        bytesStackAllocated := bytesStackAllocated + poppedBytes;
      }
      var liveBytes := 8 * currTop;
      if liveBytes > maxRegionBytesLive { maxRegionBytesLive := liveBytes; }
      regionTop := newTop;
      regionBase := oldBase;
      outer := outer[..|outer| - 1];
    }

    // Only the outermost region starts at the start of the buffer.
    lemma BaseIsOutermost()
      requires Valid()
      ensures regionBase == 0 <==> outer == []
      ensures regionTop == 0 ==> outer == []
    {
    }
  }
}
