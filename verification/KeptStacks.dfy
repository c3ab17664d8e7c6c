// What a collection does to the size of a stack, read from the words of memory
// before and after it.

module KeptStacks {
  import opened Layout
  import opened Heap
  import opened StackSize
  import opened StackObject
  import opened Relocate
  import opened DfsInvariant
  import opened Collection
  import opened MinorHeap
  import opened MinorCopy
  import MinorThenMajor
  import Driver

  // Reserved and used bytes of the stack at p, and those of its top frame.
  function ReservedBytes(m: Memory, p: nat): nat { if p + 2 < |m| && NonNeg(m[p + 2]) then m[p + 2].val else 0 }

  function UsedBytes(m: Memory, p: nat): nat { if p + 3 < |m| && NonNeg(m[p + 3]) then m[p + 3].val else 0 }

  function TopFrameBytes(env: Env, m: Memory, p: nat): nat {
    var a := p + 3 + UsedBytes(m, p) / 8;
    if UsedBytes(m, p) > 0 && a < |m| && m[a].Bits? && m[a].val in env.frames then 8 * env.frames[m[a].val].size else 0
  }

  // The mutator's stack invariant.
  predicate HasRoom(env: Env, k: StackControls, m: Memory, p: nat) {
    UsedBytes(m, p) + 2 * k.maxFrameSize <= ReservedBytes(m, p) + TopFrameBytes(env, m, p)
  }

  // ------------------------------------------------------------- the sizing rules

  function LesserFloor(x: real, y: real): int { if x.Floor < y.Floor then x.Floor else y.Floor }

  // What the current stack would be shrunk to by its ratios alone.
  function CurrentAim(k: StackControls, reserved: nat, used: nat): int {
    LesserFloor(k.currentMaxReserved * used as real,
      if reserved as real <= k.currentPermitReserved * used as real then reserved as real
      else k.currentShrink * reserved as real)
  }

  predicate WithinRatios(k: StackControls, reserved: nat, used: nat) {
    && reserved as real <= k.currentPermitReserved * used as real
    && reserved as real <= k.currentMaxReserved * used as real
  }

  // And a paused one.
  function PausedAim(k: StackControls, reserved: nat, used: nat): int {
    LesserFloor(k.maxReserved * used as real, k.shrink * reserved as real)
  }

  // A size after shrinking: whole words, no larger than before, at least what is
  // needed; less than a word above need and aim, and below the aim only if that
  // is all there was.
  predicate Shrunk(reserved: nat, reserved': int, need: int, aim: int) {
    && reserved' <= reserved && reserved' % 8 == 0
    && (need <= reserved' || reserved' == reserved)
    && (reserved' < aim + 8 || reserved' < need + 8)
    && (reserved <= 0x3FFF_FFFF_FFFF_FFFF ==> aim <= reserved' || reserved' == reserved)
  }

  lemma CappedIs(x: real)
    ensures Capped(x) <= x.Floor
    ensures x <= 0x3FFF_FFFF_FFFF_FFFF as real ==> Capped(x) == x.Floor
    ensures x > 0x3FFF_FFFF_FFFF_FFFF as real ==> Capped(x) == 0x3FFF_FFFF_FFFF_FFFF
  {
  }

  // A cap on the larger product does not matter for sizes below the cap.
  lemma CappedAim(x: real, y: real, reserved: nat)
    ensures Min(Capped(x), y.Floor) <= LesserFloor(x, y)
    ensures reserved <= 0x3FFF_FFFF_FFFF_FFFF ==>
      Min(Capped(x), y.Floor) == LesserFloor(x, y) || Min(Capped(x), y.Floor) >= reserved
  {
    hide Capped;
    CappedIs(x);
    if x > 0x3FFF_FFFF_FFFF_FFFF as real { FloorAbove(x, 0x3FFF_FFFF_FFFF_FFFF); }
  }

  lemma FloorAbove(x: real, n: nat)
    requires x >= n as real
    ensures x.Floor >= n
  {
  }

  // Being at most a product, with and without the cap.
  lemma CappedPermits(x: real, reserved: nat)
    ensures reserved <= Capped(x) ==> reserved as real <= x
    ensures reserved <= 0x3FFF_FFFF_FFFF_FFFF && reserved as real <= x ==> reserved <= Capped(x)
  {
  }

  lemma ShrunkIs(reserved: nat, asked: int, least: int, need: int, aim: int)
    requires reserved % 8 == 0 && need <= least < need + 8 && least % 8 == 0 && 0 <= least
    requires asked <= aim
    requires reserved <= 0x3FFF_FFFF_FFFF_FFFF ==> asked == aim || asked >= reserved
    ensures Shrunk(reserved, Min(reserved, AlignStackReserved(Max(0, Max(asked, least)))), need, aim)
  {
    hide AlignStackReserved;
    AlignUp(Max(0, Max(asked, least)));
  }

  lemma AimsAre(k: StackControls, reserved: nat, used: nat)
    ensures PausedAim(k, reserved, used) == LesserFloor(Times(k.maxReserved, used), Times(k.shrink, reserved))
    ensures CurrentAim(k, reserved, used) ==
      LesserFloor(Times(k.currentMaxReserved, used),
        if reserved as real <= Times(k.currentPermitReserved, used) then reserved as real
        else Times(k.currentShrink, reserved))
  {
  }

  lemma PausedRule(k: StackControls, st: StackInfo)
    requires ValidStack(k, st)
    ensures Shrunk(st.reserved, ShrinkReserved(k, st, false), st.used, PausedAim(k, st.reserved, st.used))
  {
    hide AlignStackReserved, Times, Capped, Shrunk, LesserFloor, Min, Max, PausedAim;
    var x, y := Times(k.maxReserved, st.used), Times(k.shrink, st.reserved);
    CappedAim(x, y, st.reserved);
    ShrunkIs(st.reserved, Min(Capped(x), y.Floor), st.used, st.used, LesserFloor(x, y));
    AimsAre(k, st.reserved, st.used);
  }

  lemma CurrentRule(k: StackControls, st: StackInfo)
    requires ValidStack(k, st) && st.reserved <= 0x3FFF_FFFF_FFFF_FFFF
    ensures Shrunk(st.reserved, ShrinkReserved(k, st, true), st.used + 2 * k.maxFrameSize - st.topFrame,
      CurrentAim(k, st.reserved, st.used))
  {
    hide AlignStackReserved, Times, Capped, Shrunk, LesserFloor, Min, Max, MinimumReserved, CurrentAim;
    var x, permit := Times(k.currentMaxReserved, st.used), Times(k.currentPermitReserved, st.used);
    var y := if st.reserved as real <= permit then st.reserved as real else Times(k.currentShrink, st.reserved);
    AimsAre(k, st.reserved, st.used);
    CappedPermits(permit, st.reserved);
    CappedAim(x, y, st.reserved);
    MinimumIs(k, st);
    ShrunkIs(st.reserved, Min(Capped(x), y.Floor), MinimumReserved(k, st), st.used + 2 * k.maxFrameSize - st.topFrame,
      LesserFloor(x, y));
  }

  lemma MinimumIs(k: StackControls, st: StackInfo)
    requires ValidStack(k, st)
    ensures var need := st.used + 2 * k.maxFrameSize - st.topFrame;
      0 <= need <= MinimumReserved(k, st) < need + 8 && MinimumReserved(k, st) % 8 == 0
  {
    hide AlignStackReserved;
    AlignUp(Max(0, st.used + SizeofStackSlop(k) - st.topFrame));
  }

  // The size that a stack without room is given: at least what is needed and what
  // the ratio asks for, and less than a word above the larger of the two.
  lemma GrowRule(k: StackControls, st: StackInfo)
    requires ValidStack(k, st)
    ensures var need, aim := st.used + 2 * k.maxFrameSize - st.topFrame, (k.currentGrow * st.reserved as real).Floor;
      && need <= GrowReserved(k, st) && GrowReserved(k, st) % 8 == 0
      && (GrowReserved(k, st) < need + 8 || GrowReserved(k, st) < aim + 8)
      && (aim <= 0x3FFF_FFFF_FFFF_FFFF ==> aim <= GrowReserved(k, st))
  {
    hide AlignStackReserved, Times, Capped, MinimumReserved;
    MinimumIs(k, st);
    GrowTimes(k, st);
    AlignUp(Max(0, Max(ReservedGrow(k, st), MinimumReserved(k, st))));
  }

  lemma GrowTimes(k: StackControls, st: StackInfo)
    ensures var aim := (k.currentGrow * st.reserved as real).Floor;
      ReservedGrow(k, st) <= aim && (aim <= 0x3FFF_FFFF_FFFF_FFFF ==> aim <= ReservedGrow(k, st))
  {
    CappedIs(k.currentGrow * st.reserved as real);
  }

  // ------------------------------------------------------------ stacks in memory

  lemma InfoIs(env: Env, k: StackControls, m: Memory, o: Obj)
    requires ValidEnv(env) && IsObject(env, m, o) && IsStack(env, o) && FramesBounded(env, k)
    ensures StackInfoOf(env, m, o.p) == StackInfo(ReservedBytes(m, o.p), UsedBytes(m, o.p), TopFrameBytes(env, m, o.p))
    ensures ValidStack(k, StackInfoOf(env, m, o.p))
  {
    StackFrames(env, m, o);
  }

  // What is on a kept stack is still on it.
  lemma SameContents(c: Collection, order: seq<nat>, m': Memory, start: nat, end: nat, p: nat)
    requires HeapOk(c) && Collected(c, order, m', start, end) && p in c.dest && p in c.H && IsStack(c.env, c.H[p])
    ensures var d := c.dest[p];
      && UsedBytes(m', d) == UsedBytes(c.m, p) && TopFrameBytes(c.env, m', d) == TopFrameBytes(c.env, c.m, p)
      && ReservedBytes(m', d) == ReservedAfter(c.env, c.k, c.m, c.currentStack, p)
  {
    hide *;
    HeapParts(c);
    OldObject(c, p);
    CollectedParts(c, order, m', start, end);
    StackNotWeak(c, p);
    StackAt(c, p);
    StackFields(c.env, c.k, c.m, c.H[p], c.currentStack);
    KeptMoved(c, p, m');
    var o, d := c.H[p], c.dest[p];
    MovedBasics(c.env, c.k, c.m, c.currentStack, o, m', d);
    MovedSame(c.env, c.k, c.m, c.currentStack, o, m', d);
    StackFrames(c.env, c.m, o);
    PlainInStack(c.env, c.m, o);
    SameWordAt(c.env, c.m, o, m', d, p + 3);
    if c.m[p + 3].val > 0 {
      TopNotSlot(c.env, c.m, o);
      SameWordAt(c.env, c.m, o, m', d, p + 3 + c.m[p + 3].val / 8);
    }
    SameTop(c.env, c.m, m', p, d, ReservedAfter(c.env, c.k, c.m, c.currentStack, p));
  }

  lemma StackAt(c: Collection, p: nat)
    requires p in c.H && c.H[p].p == p && IsObject(c.env, c.m, c.H[p]) && IsStack(c.env, c.H[p])
    ensures p + 4 <= |c.m| && NonNeg(c.m[p + 3]) && c.m[p + 3].val % 8 == 0
    ensures c.H[p].front <= p + 3 < CopiedEnd(c.env, c.m, c.H[p])
  {
    StackFrames(c.env, c.m, c.H[p]);
  }

  lemma StackNotWeak(c: Collection, p: nat)
    requires p in c.H && IsStack(c.env, c.H[p])
    ensures !Cleared(c, p)
  {
  }

  lemma SameTop(env: Env, m: Memory, m': Memory, p: nat, d: nat, reserved: int)
    requires p + 3 < |m| && d + 3 < |m'| && m[p + 3].Bits? && m'[d + 3] == m[p + 3] && m[p + 3].val >= 0
    requires m[p + 3].val % 8 == 0 && m'[d + 2] == Bits(reserved) && reserved >= 0
    requires m[p + 3].val > 0 ==>
      var n := 3 + m[p + 3].val / 8; p + n < |m| && d + n < |m'| && m'[d + n] == m[p + n]
    ensures UsedBytes(m', d) == UsedBytes(m, p) && TopFrameBytes(env, m', d) == TopFrameBytes(env, m, p)
    ensures ReservedBytes(m', d) == reserved
  {
  }

  // The stack at p of m is the stack at d of m'.  The current stack has room if it
  // had, and is left alone if it had not, or if its size is within its ratios;
  // otherwise it is shrunk towards them, but not below what the mutator needs.
  // Every other stack is shrunk towards its own ratios, whatever it holds.
  predicate Resized(env: Env, k: StackControls, m: Memory, m': Memory, p: nat, d: nat, current: bool) {
    var reserved, reserved', used := ReservedBytes(m, p), ReservedBytes(m', d), UsedBytes(m, p);
    && used <= reserved && UsedBytes(m', d) == used && TopFrameBytes(env, m', d) == TopFrameBytes(env, m, p)
    && (current ==>
          && (if HasRoom(env, k, m, p) then HasRoom(env, k, m', d) else reserved' == reserved)
          && (reserved <= 0x3FFF_FFFF_FFFF_FFFF ==>
                && (WithinRatios(k, reserved, used) ==> reserved' == reserved)
                && Shrunk(reserved, reserved', used + 2 * k.maxFrameSize - TopFrameBytes(env, m, p),
                     CurrentAim(k, reserved, used))))
    && (!current ==> Shrunk(reserved, reserved', used, PausedAim(k, reserved, used)))
  }

  // So it is after any collection.
  lemma StackResized(c: Collection, order: seq<nat>, m': Memory, start: nat, end: nat, p: nat)
    requires HeapOk(c) && Collected(c, order, m', start, end) && p in c.dest && p in c.H && IsStack(c.env, c.H[p])
    ensures Resized(c.env, c.k, c.m, m', p, c.dest[p], p == c.currentStack)
  {
    hide *;
    HeapParts(c);
    OldObject(c, p);
    InfoIs(c.env, c.k, c.m, c.H[p]);
    SameContents(c, order, m', start, end, p);
    if p == c.currentStack {
      CurrentResult(c.env, c.k, c.m, m', p, c.dest[p]);
    } else {
      PausedResult(c.env, c.k, c.m, m', p, c.dest[p], c.currentStack);
    }
  }

  lemma CurrentResult(env: Env, k: StackControls, m: Memory, m': Memory, p: nat, d: nat)
    requires ValidStack(k, StackInfoOf(env, m, p))
    requires StackInfoOf(env, m, p) == StackInfo(ReservedBytes(m, p), UsedBytes(m, p), TopFrameBytes(env, m, p))
    requires UsedBytes(m', d) == UsedBytes(m, p) && TopFrameBytes(env, m', d) == TopFrameBytes(env, m, p)
    requires ReservedBytes(m', d) == ReservedAfter(env, k, m, p, p)
    ensures Resized(env, k, m, m', p, d, true)
  {
    hide ShrinkReserved, Shrunk, CurrentAim, WithinRatios, StackInfoOf, ReservedBytes, UsedBytes, TopFrameBytes;
    var st := StackInfoOf(env, m, p);
    if StackRoom(k, st) { ShrinkKeepsRoom(k, st); } else { NoRoomNoShrink(k, st); }
    if st.reserved <= 0x3FFF_FFFF_FFFF_FFFF {
      CurrentRule(k, st);
      if WithinRatios(k, st.reserved, st.used) {
        WithinStays(k, st.reserved, st.used, ReservedBytes(m', d), st.used + 2 * k.maxFrameSize - st.topFrame);
      }
    }
  }

  lemma WithinStays(k: StackControls, reserved: nat, used: nat, reserved': int, need: int)
    requires Shrunk(reserved, reserved', need, CurrentAim(k, reserved, used)) && reserved <= 0x3FFF_FFFF_FFFF_FFFF
    requires WithinRatios(k, reserved, used)
    ensures reserved' == reserved
  {
    FloorAbove(k.currentMaxReserved * used as real, reserved);
  }

  lemma PausedResult(env: Env, k: StackControls, m: Memory, m': Memory, p: nat, d: nat, currentStack: nat)
    requires ValidStack(k, StackInfoOf(env, m, p)) && p != currentStack
    requires StackInfoOf(env, m, p) == StackInfo(ReservedBytes(m, p), UsedBytes(m, p), TopFrameBytes(env, m, p))
    requires UsedBytes(m', d) == UsedBytes(m, p) && TopFrameBytes(env, m', d) == TopFrameBytes(env, m, p)
    requires ReservedBytes(m', d) == ReservedAfter(env, k, m, currentStack, p)
    ensures Resized(env, k, m, m', p, d, false)
  {
    hide ShrinkReserved, Shrunk, PausedAim, StackInfoOf, ReservedBytes, UsedBytes, TopFrameBytes;
    PausedRule(k, StackInfoOf(env, m, p));
  }

  // The same for the stacks that a minor collection copies; those of the old
  // generation keep their size.
  lemma CopiedStackResized(h: Generations, c: Collection, order: seq<nat>, m': Memory, end: nat, p: nat)
    requires MinorDone(h, c, order, m', end) && p in c.dest && p in h.f.H && IsStack(h.f.env, h.f.H[p])
    ensures Resized(h.f.env, h.f.k, h.f.m, m', p, c.dest[p], p == h.f.currentStack)
  {
    hide *;
    DoneParts(h, c, order, m', end);
    DoneIs(h, c, order, m', end);
    NurseryFields(h);
    KeptIsOld(c, p);
    MinorThenMajor.YoungSame(h, c, p);
    StackResized(c, order, m', h.f.sp.oldEnd, end, p);
  }

  lemma OldStackStays(h: Generations, c: Collection, order: seq<nat>, m': Memory, end: nat, p: nat)
    requires MinorDone(h, c, order, m', end) && p in OldHeap(h) && p in h.f.H && IsStack(h.f.env, h.f.H[p])
    ensures ReservedBytes(m', p) == ReservedBytes(h.f.m, p) && UsedBytes(m', p) == UsedBytes(h.f.m, p)
  {
    hide *;
    DoneParts(h, c, order, m', end);
    OldBelow(h, p);
    OldObject(h.f, p);
    StackSlotsHigh(h.f.env, h.f.m, h.f.H[p]);
    MinorThenMajor.OldWordStays(h, c, order, m', end, p, p + 2);
    MinorThenMajor.OldWordStays(h, c, order, m', end, p, p + 3);
    SameSizes(h.f.m, m', p);
  }

  lemma SameSizes(m: Memory, m': Memory, p: nat)
    requires p + 4 <= |m| == |m'| && m'[p + 2] == m[p + 2] && m'[p + 3] == m[p + 3]
    ensures ReservedBytes(m', p) == ReservedBytes(m, p) && UsedBytes(m', p) == UsedBytes(m, p)
  {
  }

  // The sizes of the current stack afterwards are those that the driver of the
  // collections goes on with.
  lemma DriverStack(c: Collection, order: seq<nat>, m': Memory, start: nat, end: nat, p: nat)
    requires HeapOk(c) && Collected(c, order, m', start, end) && p in c.dest && p in c.H && IsStack(c.env, c.H[p])
    requires p == c.currentStack
    ensures var st, d := StackInfoOf(c.env, c.m, p), c.dest[p];
      && UsedBytes(m', d) == st.used && TopFrameBytes(c.env, m', d) == st.topFrame
      && ReservedBytes(m', d) == Driver.NatOf(ShrinkReserved(c.k, st, true))
  {
    hide *;
    HeapParts(c);
    OldObject(c, p);
    InfoIs(c.env, c.k, c.m, c.H[p]);
    SameContents(c, order, m', start, end, p);
    AfterIs(c.env, c.k, c.m, p);
    ShrinkFits(c.k, StackInfoOf(c.env, c.m, p), true);
    Driver.NatIs(ShrinkReserved(c.k, StackInfoOf(c.env, c.m, p), true));
  }

  lemma AfterIs(env: Env, k: StackControls, m: Memory, p: nat)
    ensures ReservedAfter(env, k, m, p, p) == ShrinkReserved(k, StackInfoOf(env, m, p), true)
  {
    hide ShrinkReserved, StackInfoOf;
  }
}
