// Stack sizing: how much space a stack must, may and should have.

module StackSize {
  import opened Align

  // The ratios that control stack resizing; exact reals stand for the floats.
  datatype StackControls = StackControls(
    maxFrameSize: nat,
    currentGrow: real,
    currentMaxReserved: real,
    currentPermitReserved: real,
    currentShrink: real,
    maxReserved: real,
    shrink: real)

  predicate ValidControls(k: StackControls) {
    && k.currentGrow >= 0.0 && k.currentMaxReserved >= 0.0 && k.currentPermitReserved >= 0.0
    && k.currentShrink >= 0.0 && k.maxReserved >= 0.0 && k.shrink >= 0.0
  }

  // SIZE_MAX >> 2
  const RESERVED_MAX: nat := 0x3FFF_FFFF_FFFF_FFFF

  function Max(a: int, b: int): int { if a > b then a else b }
  function Min(a: int, b: int): int { if a < b then a else b }

  // A product truncated to a size, at most RESERVED_MAX.
  function Capped(x: real): int {
    if x > RESERVED_MAX as real then RESERVED_MAX else x.Floor
  }

  // A ratio of a size.
  function Times(ratio: real, size: nat): real { ratio * size as real }

  function SizeofStackSlop(k: StackControls): nat { 2 * k.maxFrameSize }

  function AlignStackReserved(reserved: nat): int {
    AlignWithExtra(reserved, STACK_METADATA_SIZE + STACK_STRUCT_SIZE)
  }

  // The sizes of one stack: reserved and used bytes, and those of its top frame.
  datatype StackInfo = StackInfo(reserved: nat, used: nat, topFrame: nat)

  predicate ValidStack(k: StackControls, st: StackInfo) {
    st.used <= st.reserved && st.used % 8 == 0 && st.reserved % 8 == 0 && st.topFrame <= k.maxFrameSize
  }

  function MinimumReserved(k: StackControls, st: StackInfo): int {
    AlignStackReserved(Max(0, st.used + SizeofStackSlop(k) - st.topFrame))
  }

  function ReservedGrow(k: StackControls, st: StackInfo): int {
    Capped(Times(k.currentGrow, st.reserved))
  }

  function GrowReserved(k: StackControls, st: StackInfo): int {
    AlignStackReserved(Max(0, Max(ReservedGrow(k, st), MinimumReserved(k, st))))
  }

  function ReservedMax(k: StackControls, st: StackInfo, current: bool): int {
    if current then Capped(Times(k.currentMaxReserved, st.used))
    else Capped(Times(k.maxReserved, st.used))
  }

  function ReservedShrink(k: StackControls, st: StackInfo, current: bool): int {
    if current then
      if st.reserved <= Capped(Times(k.currentPermitReserved, st.used)) then st.reserved
      else Times(k.currentShrink, st.reserved).Floor
    else Times(k.shrink, st.reserved).Floor
  }

  function ReservedMin(k: StackControls, st: StackInfo, current: bool): int {
    if current then MinimumReserved(k, st) else st.used
  }

  function Wanted(k: StackControls, st: StackInfo, current: bool): nat {
    Max(0, Max(Min(ReservedMax(k, st, current), ReservedShrink(k, st, current)), ReservedMin(k, st, current)))
  }

  // Never more than it was: growing is done elsewhere.
  function ShrinkReserved(k: StackControls, st: StackInfo, current: bool): int {
    Min(st.reserved, AlignStackReserved(Wanted(k, st, current)))
  }

  // The stack invariant of the mutator: stackTop <= stackLimit + topFrameSize.
  predicate StackRoom(k: StackControls, st: StackInfo) {
    st.used <= st.reserved - SizeofStackSlop(k) + st.topFrame
  }

  lemma AlignUp(reserved: nat)
    ensures reserved <= AlignStackReserved(reserved) < reserved + 8
    ensures AlignStackReserved(reserved) % 8 == 0
    ensures reserved % 8 == 0 ==> AlignStackReserved(reserved) == reserved
  {
  }

  lemma WantedEnough(k: StackControls, st: StackInfo, current: bool)
    requires ValidStack(k, st)
    ensures Wanted(k, st, current) >= ReservedMin(k, st, current) >= st.used
    ensures MinimumReserved(k, st) >= st.used + SizeofStackSlop(k) - st.topFrame
  {
    hide AlignStackReserved, ReservedMax, ReservedShrink;
    AlignUp(Max(0, st.used + SizeofStackSlop(k) - st.topFrame));
  }

  // A shrunk stack still holds its contents and its size is aligned.
  lemma ShrinkFits(k: StackControls, st: StackInfo, current: bool)
    requires ValidStack(k, st)
    ensures st.used <= ShrinkReserved(k, st, current) <= st.reserved
    ensures ShrinkReserved(k, st, current) % 8 == 0
  {
    hide AlignStackReserved, Wanted, ReservedMin;
    WantedEnough(k, st, current);
    AlignUp(Wanted(k, st, current));
  }

  // Shrinking the current stack never breaks its invariant.
  lemma ShrinkKeepsRoom(k: StackControls, st: StackInfo)
    requires ValidStack(k, st) && StackRoom(k, st)
    ensures StackRoom(k, st.(reserved := ShrinkReserved(k, st, true)))
  {
    hide AlignStackReserved, Wanted, MinimumReserved;
    ShrinkFits(k, st, true);
    WantedEnough(k, st, true);
    AlignUp(Wanted(k, st, true));
  }

  // A stack without room is left alone by the collectors, so that the space
  // computed for growing it before a collection is exactly what growing takes after.
  lemma NoRoomNoShrink(k: StackControls, st: StackInfo)
    requires ValidStack(k, st) && !StackRoom(k, st)
    ensures ShrinkReserved(k, st, true) == st.reserved
  {
    hide AlignStackReserved, Wanted, MinimumReserved;
    WantedEnough(k, st, true);
    AlignUp(Wanted(k, st, true));
  }

  // A grown stack has room for its contents and the slop.
  lemma GrowGivesRoom(k: StackControls, st: StackInfo)
    requires ValidStack(k, st)
    ensures GrowReserved(k, st) >= st.used && GrowReserved(k, st) % 8 == 0
    ensures StackRoom(k, st.(reserved := GrowReserved(k, st)))
  {
    hide AlignStackReserved, MinimumReserved, ReservedGrow;
    WantedEnough(k, st, true);
    AlignUp(Max(0, Max(ReservedGrow(k, st), MinimumReserved(k, st))));
  }

  lemma TimesMono(ratio: real, x: nat, y: nat)
    requires ratio >= 0.0 && x <= y
    ensures Times(ratio, x) <= Times(ratio, y)
  {
  }

  lemma CappedMono(x: real, y: real)
    requires x <= y
    ensures Capped(x) <= Capped(y)
  {
  }

  lemma AlignMono(a: nat, b: nat)
    requires a <= b
    ensures AlignStackReserved(a) <= AlignStackReserved(b)
  {
  }

  lemma GrowPartMono(k: StackControls, st: StackInfo, reserved: nat)
    requires ValidControls(k) && reserved <= st.reserved
    ensures ReservedGrow(k, st.(reserved := reserved)) <= ReservedGrow(k, st)
  {
    hide Capped, Times;
    TimesMono(k.currentGrow, reserved, st.reserved);
    CappedMono(Times(k.currentGrow, reserved), Times(k.currentGrow, st.reserved));
  }

  // The space computed for growing a stack suffices after the stack was shrunk.
  lemma GrowMonotone(k: StackControls, st: StackInfo, reserved: nat)
    requires ValidControls(k) && reserved <= st.reserved
    ensures GrowReserved(k, st.(reserved := reserved)) <= GrowReserved(k, st)
  {
    hide AlignStackReserved, ReservedGrow, MinimumReserved;
    var st' := st.(reserved := reserved);
    GrowPartMono(k, st, reserved);
    assert MinimumReserved(k, st') == MinimumReserved(k, st) by { MinimumSame(k, st, reserved); }
    AlignMono(Max(0, Max(ReservedGrow(k, st'), MinimumReserved(k, st'))),
              Max(0, Max(ReservedGrow(k, st), MinimumReserved(k, st))));
  }

  lemma MinimumSame(k: StackControls, st: StackInfo, reserved: nat)
    ensures MinimumReserved(k, st.(reserved := reserved)) == MinimumReserved(k, st)
  {
  }
}
