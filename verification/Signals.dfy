// Signals against atomic sections.  A signal handler may run between any two
// statements of the mutator's atomic sections, of GC_collect and of
// GC_switchToThread.  It asks for service by setting limit to zero, which makes
// the next heap check fail; in an atomic section it must not.

module Signals {

  const GC_HEAP_LIMIT_SLOP: int := 512

  // Where beginAtomic returns to.
  datatype Then = ToMutator | ToCollect | ToSwitch

  // The statement about to be executed.
  datatype PC =
    | Mutator
    // beginAtomic, after atomicState++: the test of limit, and its reset
    | BeginTest(then_: Then)
    | BeginReset(then_: Then)
    // GC_switchToThread: atomicState--
    | SwitchDecrement
    // switchToSignalHandlerThreadIfNonAtomicAndSignalPending
    | CheckAtomic
    | CheckPending
    // GC_startSignalHandler: signalIsPending, amInSignalHandler, atomicState
    | StartClear(collect: bool)
    | StartFlag(collect: bool)
    | StartAtomic(collect: bool)
    // performGC: perhaps none; limitPlusSlop, limit, and the GC signal
    | Ensure
    | GCLimitPlusSlop
    | GCLimit
    | GCSignal
    // endAtomic: atomicState--, its two tests, and limit
    | Leave
    | EndTest
    | EndPending
    | EndZero

  // The clock counts steps; arrived, started, finished and left are the times of
  // the last signal, of the last start and the last end of the mutator's handler,
  // and of the last decrement in endAtomic.
  datatype State = State(
    pc: PC, atomicState: int, limit: int, limitPlusSlop: int, signalIsPending: bool, amInSignalHandler: bool,
    clock: nat, arrived: nat, started: nat, finished: nat, left: nat)

  function Return(t: Then): PC {
    match t
    case ToMutator => Mutator
    case ToCollect => CheckAtomic
    case ToSwitch => SwitchDecrement
  }

  function NormalLimit(s: State): int { s.limitPlusSlop - GC_HEAP_LIMIT_SLOP }

  function Tick(s: State): State { s.(clock := s.clock + 1) }

  // GC_handler runs to completion, since signals are blocked meanwhile.
  predicate Handler(s: State, s': State) {
    s' == Tick(s).(limit := if s.atomicState == 0 then 0 else s.limit, signalIsPending := true, arrived := s.clock + 1)
  }

  // The mutator starts or ends an atomic section, collects, switches threads, or
  // starts or finishes a signal handler.  The runtime's assertions are the
  // conditions under which it may.
  predicate MutatorStep(s: State, s': State) {
    && s.pc == Mutator
    && (|| s' == Tick(s).(atomicState := s.atomicState + 1, pc := BeginTest(ToMutator))
        || (s.atomicState > 0 && s' == Tick(s).(atomicState := s.atomicState - 1, left := s.clock + 1, pc := EndTest))
        || s' == Tick(s).(atomicState := s.atomicState + 1, pc := BeginTest(ToCollect))
        || (s.atomicState > 0 && s' == Tick(s).(atomicState := s.atomicState + 1, pc := BeginTest(ToSwitch)))
        || (s.atomicState == 1 && s.signalIsPending && s' == Tick(s).(pc := StartClear(false)))
        || (s.atomicState == 1 && s' == Tick(s).(amInSignalHandler := false, finished := s.clock + 1)))
  }

  // One statement of the runtime.
  predicate RuntimeStep(s: State, s': State) {
    match s.pc
    case Mutator => false
    case BeginTest(t) => s' == Tick(s).(pc := if s.limit == 0 then BeginReset(t) else Return(t))
    case BeginReset(t) => s' == Tick(s).(limit := NormalLimit(s), pc := Return(t))
    case SwitchDecrement => s' == Tick(s).(atomicState := s.atomicState - 1, pc := CheckAtomic)
    case CheckAtomic => s' == Tick(s).(pc := if s.atomicState == 1 then CheckPending else Ensure)
    case CheckPending => s' == Tick(s).(pc := if s.signalIsPending then StartClear(true) else Ensure)
    case StartClear(c) => s' == Tick(s).(signalIsPending := false, started := s.clock + 1, pc := StartFlag(c))
    case StartFlag(c) => s' == Tick(s).(amInSignalHandler := true, pc := StartAtomic(c))
    case StartAtomic(c) => s' == Tick(s).(atomicState := 2, pc := if c then Ensure else Mutator)
    case Ensure => s' == Tick(s).(pc := Leave) || s' == Tick(s).(pc := GCLimitPlusSlop)
    case GCLimitPlusSlop =>
      s' == Tick(s).(limitPlusSlop := s'.limitPlusSlop, pc := GCLimit) && s'.limitPlusSlop > GC_HEAP_LIMIT_SLOP
    case GCLimit => s' == Tick(s).(limit := NormalLimit(s), pc := Leave) ||
      s' == Tick(s).(limit := NormalLimit(s), pc := GCSignal)
    case GCSignal =>
      if s.amInSignalHandler then s' == Tick(s).(pc := Leave)
      else s' == Tick(s).(signalIsPending := true, arrived := s.clock + 1, pc := Leave)
    case Leave => s' == Tick(s).(atomicState := s.atomicState - 1, left := s.clock + 1, pc := EndTest)
    case EndTest => s' == Tick(s).(pc := if s.atomicState == 0 then EndPending else Mutator)
    case EndPending => s' == Tick(s).(pc := if s.signalIsPending then EndZero else Mutator)
    case EndZero => s' == Tick(s).(limit := 0, pc := Mutator)
  }

  predicate Step(s: State, s': State) { Handler(s, s') || MutatorStep(s, s') || RuntimeStep(s, s') }

  predicate Init(s: State) {
    s.pc == Mutator && s.atomicState == 0 && s.limitPlusSlop > GC_HEAP_LIMIT_SLOP && s.limit == NormalLimit(s)
    && !s.signalIsPending && !s.amInSignalHandler
    && s.arrived == 0 && s.started == 0 && s.finished == 0 && s.left == 0
  }

  predicate Run(r: seq<State>) {
    |r| > 0 && Init(r[0]) && forall i :: 0 <= i < |r| - 1 ==> Step(r[i], r[i + 1])
  }

  // ------------------------------------------------------------------ invariant

  // The nesting of atomic sections at each statement.
  predicate NestingOk(s: State) {
    match s.pc
    case Mutator => s.atomicState >= 0
    case BeginTest(t) => s.atomicState >= if t == ToSwitch then 2 else 1
    case BeginReset(t) => s.atomicState >= if t == ToSwitch then 2 else 1
    case SwitchDecrement => s.atomicState >= 2
    case CheckPending => s.atomicState == 1
    case StartClear(_) => s.atomicState == 1 && s.signalIsPending
    case StartFlag(_) => s.atomicState == 1
    case StartAtomic(_) => s.atomicState == 1
    case EndTest => s.atomicState >= 0
    case EndPending => s.atomicState == 0
    case EndZero => s.atomicState == 0
    case _ => s.atomicState >= 1
  }

  predicate InEndAtomic(pc: PC) { pc == EndTest || pc == EndPending || pc == EndZero }

  predicate MidChange(pc: PC) { pc.BeginTest? || pc.BeginReset? || pc == GCLimit }

  predicate Inv(s: State) {
    && NestingOk(s)
    && s.limitPlusSlop > GC_HEAP_LIMIT_SLOP
    // no wake-up is lost: outside atomic sections limit is zero for a pending
    // signal, but for one from the atomic section that endAtomic is leaving
    && (s.atomicState == 0 && s.signalIsPending ==> (s.limit == 0 <==> !InEndAtomic(s.pc) || s.arrived > s.left))
    // no heap check fails spuriously in an atomic section
    && (s.atomicState > 0 ==> s.limit == NormalLimit(s) || MidChange(s.pc))
    && (s.pc != GCLimit ==> s.limit == 0 || s.limit == NormalLimit(s))
    // a signal is pending exactly if one arrived after the last handler start
    && s.arrived <= s.clock && s.started <= s.clock && s.left <= s.clock
    && (s.signalIsPending <==> s.started < s.arrived)
    // the handler runs from its last start until it has finished
    && s.finished <= s.clock && (s.pc.StartAtomic? ==> s.amInSignalHandler)
    && (if s.pc.StartFlag? then s.finished < s.started else (s.amInSignalHandler <==> s.finished < s.started))
  }

  lemma HandlerKeeps(s: State, s': State)
    requires Inv(s) && Handler(s, s')
    ensures Inv(s')
  {
  }

  lemma MutatorKeeps(s: State, s': State)
    requires Inv(s) && MutatorStep(s, s')
    ensures Inv(s')
  {
  }

  lemma CallKeeps(s: State, s': State)
    requires Inv(s) && RuntimeStep(s, s') && Distance(s.pc) > 8
    ensures Inv(s')
  {
  }

  lemma ReturnKeeps(s: State, s': State)
    requires Inv(s) && RuntimeStep(s, s') && Distance(s.pc) <= 8
    ensures Inv(s')
  {
  }

  lemma RuntimeKeeps(s: State, s': State)
    requires Inv(s) && RuntimeStep(s, s')
    ensures Inv(s')
  {
    hide Inv, RuntimeStep, Distance;
    if Distance(s.pc) > 8 { CallKeeps(s, s'); } else { ReturnKeeps(s, s'); }
  }

  // The invariant holds in every state of every run, wherever signals arrive.
  lemma {:induction false} Safe(r: seq<State>, i: nat)
    requires Run(r) && i < |r|
    ensures Inv(r[i])
    decreases i
  {
    hide Inv, Handler, MutatorStep, RuntimeStep;
    if i == 0 {
      InitKeeps(r[0]);
    } else {
      Safe(r, i - 1);
      assert Step(r[i - 1], r[i - 1 + 1]);
      if Handler(r[i - 1], r[i]) { HandlerKeeps(r[i - 1], r[i]); }
      else if MutatorStep(r[i - 1], r[i]) { MutatorKeeps(r[i - 1], r[i]); }
      else { RuntimeKeeps(r[i - 1], r[i]); }
    }
  }

  lemma InitKeeps(s: State)
    requires Init(s)
    ensures Inv(s)
  {
  }

  // While the mutator runs outside atomic sections with a signal pending, limit
  // is zero; inside them limit is what the heap says.
  lemma MutatorLimit(r: seq<State>, i: nat)
    requires Run(r) && i < |r| && r[i].pc == Mutator
    ensures r[i].atomicState == 0 && r[i].signalIsPending ==> r[i].limit == 0
    ensures r[i].atomicState > 0 ==> r[i].limit == NormalLimit(r[i]) > 0
    ensures r[i].atomicState >= 0
  {
    Safe(r, i);
  }

  // In every state of every run, outside atomic sections and with a signal
  // pending: limit is zero exactly unless endAtomic is still to act on a signal
  // that arrived before it left the atomic section.
  lemma LimitExactly(r: seq<State>, i: nat)
    requires Run(r) && i < |r| && r[i].atomicState == 0 && r[i].signalIsPending
    ensures r[i].limit == 0 <==> !(InEndAtomic(r[i].pc) && r[i].arrived <= r[i].left)
    ensures InEndAtomic(r[i].pc) || r[i].pc == Mutator
  {
    Safe(r, i);
  }

  // The three statements at the end of endAtomic are a real window: a run goes
  // through all of them with a signal pending and a nonzero limit, and ends with
  // limit zero.
  lemma WindowIsReal() returns (r: seq<State>)
    ensures Run(r) && |r| == 8
    ensures r[4].pc == EndTest && r[5].pc == EndPending && r[6].pc == EndZero && r[7].pc == Mutator
    ensures forall i :: 4 <= i < 8 ==> r[i].atomicState == 0 && r[i].signalIsPending && (r[i].limit != 0 <==> i < 7)
  {
    r := Window();
    forall i | 0 <= i < |r| - 1
      ensures Step(r[i], r[i + 1])
    {
      WindowStep(i);
    }
  }

  function Window(): seq<State> {
    [State(Mutator, 0, 488, 1000, false, false, 0, 0, 0, 0, 0),
     State(BeginTest(ToMutator), 1, 488, 1000, false, false, 1, 0, 0, 0, 0),
     State(Mutator, 1, 488, 1000, false, false, 2, 0, 0, 0, 0),
     State(Mutator, 1, 488, 1000, true, false, 3, 3, 0, 0, 0),
     State(EndTest, 0, 488, 1000, true, false, 4, 3, 0, 0, 4),
     State(EndPending, 0, 488, 1000, true, false, 5, 3, 0, 0, 4),
     State(EndZero, 0, 488, 1000, true, false, 6, 3, 0, 0, 4),
     State(Mutator, 0, 0, 1000, true, false, 7, 3, 0, 0, 4)]
  }

  lemma WindowStep(i: nat)
    requires i < 7
    ensures Step(Window()[i], Window()[i + 1])
  {
    var s, s' := Window()[i], Window()[i + 1];
    if i == 0 || i == 3 { assert MutatorStep(s, s'); }
    else if i == 2 { assert Handler(s, s'); }
    else { assert RuntimeStep(s, s'); }
  }

  // A signal that arrives inside the window is not lost either: the handler
  // itself zeroes limit.
  lemma ArrivesInWindow(r: seq<State>, i: nat)
    requires Run(r) && i + 1 < |r| && r[i].atomicState == 0 && Handler(r[i], r[i + 1])
    ensures r[i + 1].limit == 0 && r[i + 1].signalIsPending && r[i + 1].arrived > r[i + 1].left
  {
    Safe(r, i);
  }

  // -------------------------------------------------------------------- nesting

  // The atomic sections that the runtime itself has open at each statement.
  function Extra(pc: PC): nat {
    match pc
    case BeginTest(t) => if t == ToMutator then 0 else if t == ToCollect then 1 else 2
    case BeginReset(t) => if t == ToMutator then 0 else if t == ToCollect then 1 else 2
    case SwitchDecrement => 2
    case StartClear(collect) => if collect then 1 else 0
    case StartFlag(collect) => if collect then 1 else 0
    case StartAtomic(collect) => if collect then 1 else 0
    case CheckAtomic => 1
    case CheckPending => 1
    case Ensure => 1
    case GCLimitPlusSlop => 1
    case GCLimit => 1
    case GCSignal => 1
    case Leave => 1
    case _ => 0
  }

  // The atomic sections that the mutator is in.
  function Nesting(s: State): int { s.atomicState - Extra(s.pc) }

  // The nesting of the handler when it is started: one section if the runtime
  // switches to it, two if the mutator is about to switch, which ends one.
  function HandlerNesting(collect: bool): nat { if collect then 1 else 2 }

  // A runtime call leaves the mutator's nesting alone, but for a handler started;
  // beginning and ending an atomic section change it by one, and a switch of
  // threads ends a section.
  lemma NestingSteps(s: State, s': State)
    requires Inv(s)
    ensures Handler(s, s') ==> Nesting(s') == Nesting(s)
    ensures RuntimeStep(s, s') ==>
      Nesting(s') == if s.pc.StartAtomic? then HandlerNesting(s.pc.collect) else Nesting(s)
    ensures MutatorStep(s, s') ==>
      Nesting(s') == Nesting(s) +
        if s'.pc == BeginTest(ToMutator) then 1 else if s'.pc == EndTest || s'.pc == BeginTest(ToSwitch) then -1 else 0
  {
    hide Inv, RuntimeStep, Nesting, Handler, HandlerNesting, Distance;
    QuietNesting(s, s');
    if RuntimeStep(s, s') {
      if Distance(s.pc) > 8 { CallNestingStep(s, s'); } else { ReturnNestingStep(s, s'); }
    }
    if MutatorStep(s, s') { MutatorNesting(s, s'); }
  }

  lemma QuietNesting(s: State, s': State)
    ensures Handler(s, s') ==> Nesting(s') == Nesting(s)
  {
  }

  lemma MutatorNesting(s: State, s': State)
    requires MutatorStep(s, s')
    ensures Nesting(s') == Nesting(s) +
      if s'.pc == BeginTest(ToMutator) then 1 else if s'.pc == EndTest || s'.pc == BeginTest(ToSwitch) then -1 else 0
  {
  }

  lemma CallNestingStep(s: State, s': State)
    requires RuntimeStep(s, s') && Distance(s.pc) > 8
    ensures Nesting(s') == if s.pc.StartAtomic? then HandlerNesting(s.pc.collect) else Nesting(s)
  {
  }

  lemma ReturnNestingStep(s: State, s': State)
    requires Inv(s) && RuntimeStep(s, s') && Distance(s.pc) <= 8
    ensures Nesting(s') == Nesting(s) && !s.pc.StartAtomic?
  {
  }

  // The handler has been started, and the runtime is on its way back.
  predicate AfterStart(s: State, collect: bool) {
    && s.amInSignalHandler
    && (|| s.pc == StartAtomic(collect)
        || (collect && Distance(s.pc) <= 8 && Nesting(s) == 1)
        || (!collect && s.pc == Mutator && Nesting(s) == 2))
  }

  lemma AfterStartKeeps(s: State, s': State, collect: bool)
    requires AfterStart(s, collect) && s.pc != Mutator && Step(s, s')
    ensures AfterStart(s', collect)
  {
  }

  // In every run, when the mutator goes on after a start of the handler it is in
  // the handler, inside exactly one atomic section, or two if it called for the
  // start itself.
  lemma {:induction false} HandlerIsAtomic(r: seq<State>, i: nat, j: nat, collect: bool)
    requires Run(r) && i <= j < |r| && r[i].pc == StartAtomic(collect)
    requires forall k :: i <= k < j ==> r[k].pc != Mutator
    ensures AfterStart(r[j], collect)
    ensures r[j].pc == Mutator ==> r[j].amInSignalHandler && r[j].atomicState == HandlerNesting(collect)
    decreases j
  {
    hide Handler, MutatorStep, RuntimeStep, Step, Init, Inv, NestingOk;
    if i == j {
      Safe(r, i);
      AtStart(r[i]);
    } else {
      HandlerIsAtomic(r, i, j - 1, collect);
      assert Step(r[j - 1], r[j - 1 + 1]);
      AfterStartKeeps(r[j - 1], r[j], collect);
    }
  }

  lemma AtStart(s: State)
    requires Inv(s)
    ensures s.pc.StartAtomic? ==> s.amInSignalHandler
    ensures s.pc == StartClear(true) ==> Nesting(s) == 0
  {
  }

  // The runtime starts no handler inside another: as long as the mutator stays in
  // an atomic section, and does not call for a start itself, there is no start.
  lemma {:induction false} NoNestedStart(r: seq<State>, i: nat, j: nat)
    requires Run(r) && i <= j < |r|
    requires forall k :: i <= k <= j ==> Nesting(r[k]) >= 1 && r[k].pc != StartClear(false)
    ensures r[j].started == r[i].started
    decreases j
  {
    hide Nesting, Init, Inv, NestingOk, Handler, MutatorStep, RuntimeStep, Step;
    if i < j {
      NoNestedStart(r, i, j - 1);
      Safe(r, j - 1);
      AtStart(r[j - 1]);
      assert Step(r[j - 1], r[j - 1 + 1]);
      StartsAt(r[j - 1], r[j]);
    }
  }

  lemma StartsAt(s: State, s': State)
    requires Step(s, s')
    ensures s.pc.StartClear? || s'.started == s.started
  {
  }

  // The collector raises its own signal where the program wants it, but not in the
  // handler; nothing else in the program does.
  lemma OwnSignal(s: State, s': State)
    requires Inv(s) && (MutatorStep(s, s') || RuntimeStep(s, s'))
    ensures s'.arrived == s'.clock <==> s.pc == GCSignal && !s.amInSignalHandler
    ensures s'.arrived == s'.clock ==> s'.signalIsPending
    ensures s'.arrived == s'.clock || s'.arrived == s.arrived
    ensures s'.signalIsPending ==> s.signalIsPending || s'.arrived == s'.clock
  {
  }

  // Only starting the handler makes a pending signal not pending.
  lemma OnlyStartClears(s: State, s': State)
    requires Step(s, s') && s.signalIsPending && !s'.signalIsPending
    ensures s.pc.StartClear? && s'.started == s'.clock
  {
  }

  // ------------------------------------------------------------------- delivery

  // GC_collect, entered with a signal pending and no atomic section open, has
  // started the handler, or not yet but will.
  predicate Owed(s: State, started0: nat) {
    || (s.started > started0 && (s.pc == StartFlag(true) || AfterStart(s, true)))
    || (s.signalIsPending && s.started == started0 && s.atomicState == 1
        && (s.pc == BeginTest(ToCollect) || s.pc == BeginReset(ToCollect) || s.pc == CheckAtomic ||
           s.pc == CheckPending || s.pc == StartClear(true)))
  }

  // A stretch of one runtime call: no mutator steps.
  predicate Call(r: seq<State>) {
    |r| > 0 && forall i :: 0 <= i < |r| - 1 ==> Handler(r[i], r[i + 1]) || RuntimeStep(r[i], r[i + 1])
  }

  lemma OwedKeeps(s: State, s': State, started0: nat)
    requires Inv(s) && Owed(s, started0) && (Handler(s, s') || RuntimeStep(s, s'))
    ensures Owed(s', started0)
  {
  }

  lemma {:induction false} OwedAlong(r: seq<State>, i: nat, started0: nat)
    requires Call(r) && Inv(r[0]) && Owed(r[0], started0) && i < |r|
    ensures Inv(r[i]) && Owed(r[i], started0)
    decreases i
  {
    hide Inv, Owed, Handler, RuntimeStep;
    if i > 0 {
      OwedAlong(r, i - 1, started0);
      assert Handler(r[i - 1], r[i - 1 + 1]) || RuntimeStep(r[i - 1], r[i - 1 + 1]);
      OwedKeeps(r[i - 1], r[i], started0);
      if Handler(r[i - 1], r[i]) { HandlerKeeps(r[i - 1], r[i]); } else { RuntimeKeeps(r[i - 1], r[i]); }
    }
  }

  // A pending signal is delivered: the heap check fails, GC_collect is entered,
  // and before it returns it starts the signal handler, whatever else arrives; the
  // mutator goes on in the handler, in one atomic section.
  lemma Delivered(s: State, r: seq<State>)
    requires Inv(s) && s.pc == Mutator && s.atomicState == 0 && s.signalIsPending
    requires Call(r) && r[0] == Tick(s).(atomicState := 1, pc := BeginTest(ToCollect)) && r[|r| - 1].pc == Mutator
    ensures s.limit == 0
    ensures r[|r| - 1].started > s.started
    ensures r[|r| - 1].amInSignalHandler && r[|r| - 1].atomicState == 1
  {
    assert MutatorStep(s, r[0]);
    MutatorKeeps(s, r[0]);
    OwedAlong(r, |r| - 1, s.started);
  }

  // A runtime call ends: each of its statements brings it closer to the end,
  // and a signal does not take it back.
  function Distance(pc: PC): nat {
    match pc
    case Mutator => 0
    case EndZero => 1
    case EndPending => 2
    case EndTest => 3
    case Leave => 4
    case GCSignal => 5
    case GCLimit => 6
    case GCLimitPlusSlop => 7
    case Ensure => 8
    case StartAtomic(_) => 9
    case StartFlag(_) => 10
    case StartClear(_) => 11
    case CheckPending => 12
    case CheckAtomic => 13
    case SwitchDecrement => 14
    case BeginReset(_) => 15
    case BeginTest(_) => 16
  }

  // A call that starts no handler returns at the nesting it was made at.
  lemma {:induction false} CallNesting(r: seq<State>, i: nat)
    requires Call(r) && Inv(r[0]) && i < |r| && !r[0].pc.StartFlag? && !r[0].pc.StartAtomic?
    ensures Inv(r[i])
    ensures r[i].started == r[0].started ==>
      Nesting(r[i]) == Nesting(r[0]) && !r[i].pc.StartFlag? && !r[i].pc.StartAtomic?
    ensures r[0].started <= r[i].started
    decreases i
  {
    hide Inv, Handler, RuntimeStep, Nesting;
    if i > 0 {
      CallNesting(r, i - 1);
      var s, s' := r[i - 1], r[i - 1 + 1];
      assert Handler(s, s') || RuntimeStep(s, s');
      NestingSteps(s, s');
      CallStep(s, s');
      if Handler(s, s') { HandlerKeeps(s, s'); } else { RuntimeKeeps(s, s'); }
    }
  }

  lemma CallStep(s: State, s': State)
    requires Inv(s) && (Handler(s, s') || RuntimeStep(s, s'))
    ensures s.started <= s'.started && (s.started < s'.started || (s'.pc.StartFlag? ==> s.pc.StartFlag?))
    ensures s'.pc.StartAtomic? ==> s.pc.StartFlag? || s.pc.StartAtomic?
  {
  }

  function Statements(r: seq<State>): nat
    decreases |r|
  {
    if |r| < 2 then 0
    else Statements(r[..|r| - 1]) + if Handler(r[|r| - 2], r[|r| - 1]) then 0 else 1
  }

  lemma Closer(s: State, s': State)
    ensures RuntimeStep(s, s') ==> Distance(s'.pc) < Distance(s.pc)
    ensures Handler(s, s') ==> s'.pc == s.pc
  {
  }

  lemma {:induction false} CallEnds(r: seq<State>)
    requires Call(r)
    ensures Statements(r) + Distance(r[|r| - 1].pc) <= Distance(r[0].pc) <= 16
    decreases |r|
  {
    hide Handler, RuntimeStep;
    if |r| > 1 {
      var q := r[..|r| - 1];
      forall i | 0 <= i < |q| - 1
        ensures Handler(q[i], q[i + 1]) || RuntimeStep(q[i], q[i + 1])
      {
        assert Handler(r[i], r[i + 1]) || RuntimeStep(r[i], r[i + 1]);
      }
      CallEnds(q);
      var n := |r| - 2;
      assert Handler(r[n], r[n + 1]) || RuntimeStep(r[n], r[n + 1]);
      Closer(r[n], r[n + 1]);
    }
  }
}
