// Profile data: ticks are charged to the function on top and to every function
// on the stack, once however often it recurs.

module Profiling {

  const UNKNOWN_SOURCE_INDEX: nat := 0
  const GC_SOURCE_INDEX: nat := 1

  // sourceNameIndex has one entry per source; a source sequence lists the sources
  // of a frame, outermost first.
  datatype SourceMaps = SourceMaps(sourceNameIndex: seq<nat>, sourceNamesLength: nat, sourceSeqs: seq<seq<nat>>)

  predicate MapsOk(sm: SourceMaps) {
    && |sm.sourceNameIndex| > GC_SOURCE_INDEX
    && (forall i :: 0 <= i < |sm.sourceNameIndex| ==> sm.sourceNameIndex[i] < sm.sourceNamesLength)
    && (forall q :: 0 <= q < |sm.sourceSeqs| ==> SeqOk(sm, sm.sourceSeqs[q]))
  }

  predicate SeqOk(sm: SourceMaps, sources: seq<nat>) {
    forall j :: 0 <= j < |sources| ==> sources[j] < |sm.sourceNameIndex|
  }

  // sourceIndexToProfileMasterIndex.
  function Master(sm: SourceMaps, i: nat): nat {
    if i < |sm.sourceNameIndex| then sm.sourceNameIndex[i] + |sm.sourceNameIndex| else |sm.sourceNameIndex|
  }

  function ProfileMasterLength(sm: SourceMaps): nat { |sm.sourceNameIndex| + sm.sourceNamesLength }

  function SeqAt(sm: SourceMaps, q: nat): seq<nat> { if q < |sm.sourceSeqs| then sm.sourceSeqs[q] else [] }

  function TopSource(sm: SourceMaps, q: nat): nat {
    var sources := SeqAt(sm, q);
    if |sources| > 0 then sources[|sources| - 1] else UNKNOWN_SOURCE_INDEX
  }

  // ------------------------------------------------------ what should be counted

  datatype Event = Enter(q: nat) | Leave(q: nat) | Inc(amount: nat, q: nat)

  function One(b: bool): nat { if b then 1 else 0 }

  // How often row f, a source or a master, is among the first n of these sources.
  function Times(sm: SourceMaps, sources: seq<nat>, n: nat, f: nat): nat {
    if n == 0 || n > |sources| then 0
    else Times(sm, sources, n - 1, f) + One(sources[n - 1] == f) + One(Master(sm, sources[n - 1]) == f)
  }

  function InSeq(sm: SourceMaps, q: nat, f: nat): nat { Times(sm, SeqAt(sm, q), |SeqAt(sm, q)|, f) }

  // How often f is on the stack after these events.
  function OnStack(sm: SourceMaps, events: seq<Event>, f: nat): int {
    if events == [] then 0
    else OnStack(sm, events[..|events| - 1], f) + match events[|events| - 1]
      case Enter(q) => InSeq(sm, q, f)
      case Leave(q) => 0 - InSeq(sm, q, f)
      case Inc(_, _) => 0
  }

  // Leaving follows entering.
  predicate MayLeave(sm: SourceMaps, events: seq<Event>, q: nat) {
    forall f: nat :: f < ProfileMasterLength(sm) ==> InSeq(sm, q, f) <= OnStack(sm, events, f)
  }

  // The ticks made while f was on the stack, those of the collector or the others.
  function Due(sm: SourceMaps, events: seq<Event>, f: nat, gc: bool): nat {
    if events == [] then 0
    else Due(sm, events[..|events| - 1], f, gc) + DueAt(sm, events[..|events| - 1], events[|events| - 1], f, gc)
  }

  function DueAt(sm: SourceMaps, before: seq<Event>, e: Event, f: nat, gc: bool): nat {
    match e
    case Enter(_) => 0
    case Leave(_) => 0
    case Inc(amount, q) =>
      if OnStack(sm, before, f) + InSeq(sm, q, f) > 0 && (TopSource(sm, q) == GC_SOURCE_INDEX) == gc then amount else 0
  }

  // How often each of the first n rows is on the stack.
  ghost function CountsAfter(sm: SourceMaps, events: seq<Event>, n: nat): (ns: seq<int>)
    ensures |ns| == n && forall f :: 0 <= f < n ==> ns[f] == OnStack(sm, events, f)
  {
    seq(n, f requires 0 <= f => OnStack(sm, events, f))
  }

  function Total(sm: SourceMaps, events: seq<Event>, gc: bool): nat {
    if events == [] then 0
    else Total(sm, events[..|events| - 1], gc) + match events[|events| - 1]
      case Enter(_) => 0
      case Leave(_) => 0
      case Inc(amount, q) => if (TopSource(sm, q) == GC_SOURCE_INDEX) == gc then amount else 0
  }

  // Row f is that of the innermost source of sequence q, or of its master; a
  // sequence without sources counts for the unknown source.
  predicate OnTop(sm: SourceMaps, q: nat, f: nat) {
    var source := if q < |sm.sourceSeqs| && sm.sourceSeqs[q] != [] then sm.sourceSeqs[q][|sm.sourceSeqs[q]| - 1] else 0;
    f == source || (source < |sm.sourceNameIndex| && f == |sm.sourceNameIndex| + sm.sourceNameIndex[source])
  }

  // The ticks made while f was on top.
  function TopTicks(sm: SourceMaps, events: seq<Event>, f: nat): nat {
    if events == [] then 0
    else TopTicks(sm, events[..|events| - 1], f) + TopTicksAt(sm, events[|events| - 1], f)
  }

  function TopTicksAt(sm: SourceMaps, e: Event, f: nat): nat {
    if e.Inc? && OnTop(sm, e.q, f) then e.amount else 0
  }

  lemma TopAdded(sm: SourceMaps, events: seq<Event>, e: Event, f: nat)
    ensures TopTicks(sm, events + [e], f) == TopTicks(sm, events, f) + TopTicksAt(sm, e, f)
  {
    assert (events + [e])[..|events|] == events;
  }

  lemma TopIs(sm: SourceMaps, q: nat, f: nat)
    requires MapsOk(sm)
    ensures OnTop(sm, q, f) <==> f == TopSource(sm, q) || f == Master(sm, TopSource(sm, q))
  {
  }

  // However often a function recurs, it is charged each tick at most once.
  lemma {:induction false} DueBounded(sm: SourceMaps, events: seq<Event>, f: nat, gc: bool)
    ensures Due(sm, events, f, gc) <= Total(sm, events, gc)
    decreases |events|
  {
    if events != [] { DueBounded(sm, events[..|events| - 1], f, gc); }
  }

  function Sum(s: seq<nat>): nat { if s == [] then 0 else Sum(s[..|s| - 1]) + s[|s| - 1] }

  lemma {:induction false} SumSet(s: seq<nat>, i: nat, v: nat)
    requires i < |s|
    ensures Sum(s[i := v]) == Sum(s) - s[i] + v
    decreases |s|
  {
    var t := s[i := v];
    if i == |s| - 1 {
      assert t[..|t| - 1] == s[..|s| - 1];
    } else {
      SumSet(s[..|s| - 1], i, v);
      assert t[..|t| - 1] == s[..|s| - 1][i := v];
    }
  }

  lemma {:induction false} SumZeros(s: seq<nat>)
    requires forall i :: 0 <= i < |s| ==> s[i] == 0
    ensures Sum(s) == 0
    decreases |s|
  {
    if s != [] { SumZeros(s[..|s| - 1]); }
  }

  lemma EventAdded(sm: SourceMaps, events: seq<Event>, e: Event, f: nat, gc: bool)
    ensures var es := events + [e];
      && OnStack(sm, es, f) == OnStack(sm, events, f) +
         (match e case Enter(q) => InSeq(sm, q, f) case Leave(q) => 0 - InSeq(sm, q, f) case Inc(_, _) => 0)
      && Due(sm, es, f, gc) == Due(sm, events, f, gc) + DueAt(sm, events, e, f, gc)
      && Total(sm, es, gc) == Total(sm, events, gc) +
         (if e.Inc? && (TopSource(sm, e.q) == GC_SOURCE_INDEX) == gc then e.amount else 0)
  {
    var es := events + [e];
    assert es[..|es| - 1] == events;
  }

  // ------------------------------------------------------------------ the data

  datatype ProfileStack = ProfileStack(ticks: nat, ticksGC: nat, lastTotal: nat, lastTotalGC: nat, numOccurrences: nat)

  // Row ps, with these totals: on the stack n times, owed these ticks.
  predicate Row(ps: ProfileStack, total: nat, totalGC: nat, n: int, due: nat, dueGC: nat) {
    && ps.numOccurrences == n
    && (if n > 0 then
          && ps.lastTotal <= total && ps.lastTotalGC <= totalGC
          && ps.ticks + (total - ps.lastTotal) == due && ps.ticksGC + (totalGC - ps.lastTotalGC) == dueGC
        else ps.ticks == due && ps.ticksGC == dueGC)
  }

  // A row after the ticks of an increment.
  lemma RowTicked(sm: SourceMaps, before: seq<Event>, amount: nat, q: nat, f: nat, ps: ProfileStack, total: nat,
          totalGC: nat)
    requires Row(ps, total, totalGC, OnStack(sm, before, f) + InSeq(sm, q, f), Due(sm, before, f, false),
      Due(sm, before, f, true))
    ensures var after, gc := before + [Inc(amount, q)], TopSource(sm, q) == GC_SOURCE_INDEX;
      Row(ps, if gc then total else total + amount, if gc then totalGC + amount else totalGC,
          OnStack(sm, before, f) + InSeq(sm, q, f), Due(sm, after, f, false), Due(sm, after, f, true))
  {
    hide Due, OnStack, Times;
    EventAdded(sm, before, Inc(amount, q), f, false);
    EventAdded(sm, before, Inc(amount, q), f, true);
  }

  lemma CountsInc(sm: SourceMaps, before: seq<Event>, amount: nat, q: nat, n: nat)
    ensures CountsAfter(sm, before + [Inc(amount, q)], n) == CountsAfter(sm, before, n)
  {
    hide OnStack;
    forall f | 0 <= f < n
      ensures OnStack(sm, before + [Inc(amount, q)], f) == OnStack(sm, before, f)
    {
      EventAdded(sm, before, Inc(amount, q), f, false);
    }
  }

  class ProfileData {
    const sm: SourceMaps
    const countTop: array<nat>
    const stack: array<ProfileStack>
    var total: nat
    var totalGC: nat
    ghost var history: seq<Event>

    // profileMalloc.
    constructor (sm: SourceMaps)
      requires MapsOk(sm)
      ensures this.sm == sm && history == [] && Valid() && fresh(countTop) && fresh(stack)
    {
      this.sm := sm;
      countTop := new nat[ProfileMasterLength(sm)](_ => 0);
      stack := new ProfileStack[ProfileMasterLength(sm)](_ => ProfileStack(0, 0, 0, 0, 0));
      total, totalGC, history := 0, 0, [];
      new;
      SumZeros(countTop[..|sm.sourceNameIndex|]);
      SumZeros(countTop[|sm.sourceNameIndex|..]);
    }

    ghost predicate Shape()
      reads this
    {
      && MapsOk(sm) && countTop.Length == stack.Length == ProfileMasterLength(sm)
    }

    // Row f says that f is on the stack ns[f] times, and holds the ticks due.
    ghost predicate Rows(ns: seq<int>)
      reads this, stack
    {
      && |ns| == stack.Length
      && forall f :: 0 <= f < stack.Length ==>
           Row(stack[f], total, totalGC, ns[f], Due(sm, history, f, false), Due(sm, history, f, true))
    }

    ghost function Counts(): (ns: seq<int>)
      reads this
      ensures |ns| == stack.Length
    {
      CountsAfter(sm, history, stack.Length)
    }

    // All ticks are counted on top, once by source and once by master.
    ghost predicate Conserved()
      requires Shape()
      reads this, countTop
    {
      && Sum(countTop[..|sm.sourceNameIndex|]) == total + totalGC
      && Sum(countTop[|sm.sourceNameIndex|..]) == total + totalGC
      && total == Total(sm, history, false) && totalGC == Total(sm, history, true)
    }

    // Every row of countTop has the ticks made while its function was on top.
    ghost predicate Tops()
      reads this, countTop
    {
      forall f :: 0 <= f < countTop.Length ==> countTop[f] == TopTicks(sm, history, f)
    }

    ghost predicate Valid()
      reads this, countTop, stack
    {
      Shape() && Rows(Counts()) && (forall f :: 0 <= f < stack.Length ==> Counts()[f] >= 0) && Conserved() && Tops()
    }

    // The counts on top follow an increment that is charged to the row on top and
    // its master.
    lemma TopsAfter(before: seq<Event>, counts: seq<nat>, amount: nat, q: nat)
      requires Shape() && |counts| == countTop.Length
      requires forall f :: 0 <= f < |counts| ==> counts[f] == TopTicks(sm, before, f)
      requires var i, m := TopSource(sm, q), Master(sm, TopSource(sm, q));
        i < m < |counts| && countTop[..] == counts[i := counts[i] + amount][m := counts[m] + amount]
      requires history == before + [Inc(amount, q)]
      ensures Tops()
    {
      hide MapsOk, TopTicks, OnTop, Master, TopSource;
      forall f | 0 <= f < countTop.Length
        ensures countTop[f] == TopTicks(sm, history, f)
      {
        TopAdded(sm, before, Inc(amount, q), f);
        TopIs(sm, q, f);
        assert countTop[f] == countTop[..][f];
      }
    }

    method EnterSource(i: nat, ghost ns: seq<int>)
      requires i < stack.Length && Rows(ns) && ns[i] >= 0
      modifies stack
      ensures Rows(ns[i := ns[i] + 1])
    {
      hide Due;
      stack[i] := stack[i].(numOccurrences := stack[i].numOccurrences + 1);
      if stack[i].numOccurrences == 1 {
        AddToStack(i);
      }
    }

    method AddToStack(i: nat)
      requires i < stack.Length
      modifies stack
      ensures stack[..] == old(stack[..][i := stack[i].(lastTotal := total, lastTotalGC := totalGC)])
    {
      stack[i] := stack[i].(lastTotal := total, lastTotalGC := totalGC);
    }

    method RemoveFromStack(i: nat)
      requires i < stack.Length && stack[i].lastTotal <= total && stack[i].lastTotalGC <= totalGC
      modifies stack
      ensures stack[..] == old(stack[..][i := Removed(stack[i])])
    {
      stack[i] := stack[i].(ticks := stack[i].ticks + (total - stack[i].lastTotal),
        ticksGC := stack[i].ticksGC + (totalGC - stack[i].lastTotalGC));
    }

    ghost function Removed(ps: ProfileStack): ProfileStack
      requires ps.lastTotal <= total && ps.lastTotalGC <= totalGC
      reads this
    {
      ps.(ticks := ps.ticks + (total - ps.lastTotal), ticksGC := ps.ticksGC + (totalGC - ps.lastTotalGC))
    }

    method LeaveSource(i: nat, ghost ns: seq<int>)
      requires i < stack.Length && Rows(ns) && ns[i] > 0
      modifies stack
      ensures Rows(ns[i := ns[i] - 1])
    {
      hide Due;
      stack[i] := stack[i].(numOccurrences := stack[i].numOccurrences - 1);
      if stack[i].numOccurrences == 0 { RemoveFromStack(i); }
    }

    // enterForProfiling.
    method EnterForProfiling(sources: seq<nat>, ghost ns: seq<int>)
      requires Shape() && SeqOk(sm, sources) && Rows(ns) && forall f :: 0 <= f < |ns| ==> ns[f] >= 0
      modifies stack
      ensures Rows(Plus(sm, ns, sources, |sources|))
    {
      hide Rows, Plus;
      PlusNone(sm, ns, sources);
      RowsLength(ns);
      for i := 0 to |sources|
        invariant Rows(Plus(sm, ns, sources, i))
      {
        ghost var now := Plus(sm, ns, sources, i);
        PlusOne(sm, ns, sources, i);
        MasterFits(sm, sources, i);
        EnterSource(sources[i], now);
        EnterSource(Master(sm, sources[i]), now[sources[i] := now[sources[i]] + 1]);
      }
    }

    // leaveForProfiling, backwards.
    method LeaveForProfiling(sources: seq<nat>, ghost ns: seq<int>)
      requires Shape() && SeqOk(sm, sources) && |ns| == stack.Length && forall f :: 0 <= f < |ns| ==> ns[f] >= 0
      requires Rows(Plus(sm, ns, sources, |sources|))
      modifies stack
      ensures Rows(ns)
    {
      hide Rows, Plus;
      PlusNone(sm, ns, sources);
      for i := |sources| downto 0
        invariant Rows(Plus(sm, ns, sources, i))
      {
        ghost var now := Plus(sm, ns, sources, i + 1);
        PlusOne(sm, ns, sources, i);
        MasterFits(sm, sources, i);
        LeaveSource(sources[i], now);
        LeaveSource(Master(sm, sources[i]), now[sources[i] := now[sources[i]] - 1]);
      }
    }

    lemma RowsLength(ns: seq<int>)
      requires Rows(ns)
      ensures |ns| == stack.Length
    {
    }

    // The ticks of the function on top, by source and by master.
    method CountTop(i: nat, amount: nat)
      requires Shape() && i < |sm.sourceNameIndex| <= Master(sm, i) < countTop.Length
      modifies countTop
      ensures Sum(countTop[..|sm.sourceNameIndex|]) == old(Sum(countTop[..|sm.sourceNameIndex|])) + amount
      ensures Sum(countTop[|sm.sourceNameIndex|..]) == old(Sum(countTop[|sm.sourceNameIndex|..])) + amount
      ensures var m := Master(sm, i);
        countTop[..] == old(countTop[..][i := countTop[i] + amount][m := countTop[m] + amount])
    {
      hide Sum;
      var n, m := |sm.sourceNameIndex|, Master(sm, i);
      ghost var sources, masters := countTop[..n], countTop[n..];
      countTop[i] := countTop[i] + amount;
      countTop[m] := countTop[m] + amount;
      SumSet(sources, i, sources[i] + amount);
      SumSet(masters, m - n, masters[m - n] + amount);
      assert countTop[..n] == sources[i := sources[i] + amount];
      assert countTop[n..] == masters[m - n := masters[m - n] + amount];
    }

    method AddTicks(amount: nat, q: nat, ghost ns: seq<int>)
      requires Shape() && |ns| == stack.Length && ns == CountsAfter(sm, history, stack.Length) &&
        Rows(Plus(sm, ns, SeqAt(sm, q), |SeqAt(sm, q)|))
      requires forall f :: 0 <= f < |ns| ==> ns[f] >= 0
      requires Sum(countTop[..|sm.sourceNameIndex|]) == total + totalGC + amount ==
        Sum(countTop[|sm.sourceNameIndex|..])
      requires total == Total(sm, history, false) && totalGC == Total(sm, history, true)
      modifies `total, `totalGC, `history
      ensures history == old(history) + [Inc(amount, q)]
      ensures Rows(Plus(sm, ns, SeqAt(sm, q), |SeqAt(sm, q)|)) && Conserved()
      ensures Counts() == ns
    {
      hide Due, OnStack, Total, Sum, Times, Row, Counts;
      ghost var before, total0, totalGC0 := history, total, totalGC;
      if TopSource(sm, q) == GC_SOURCE_INDEX {
        totalGC := totalGC + amount;
      } else {
        total := total + amount;
      }
      history := history + [Inc(amount, q)];
      EventAdded(sm, before, Inc(amount, q), 0, false);
      EventAdded(sm, before, Inc(amount, q), 0, true);
      CountsInc(sm, before, amount, q, stack.Length);
      CountsAre();
      forall f | 0 <= f < stack.Length
        ensures Row(stack[f], total, totalGC, Plus(sm, ns, SeqAt(sm, q), |SeqAt(sm, q)|)[f], Due(sm, history, f, false),
          Due(sm, history, f, true))
      {
        RowTicked(sm, before, amount, q, f, stack[f], total0, totalGC0);
        assert Plus(sm, ns, SeqAt(sm, q), |SeqAt(sm, q)|)[f] == OnStack(sm, before, f) + InSeq(sm, q, f);
      }
    }

    lemma CountsAre()
      ensures Counts() == CountsAfter(sm, history, stack.Length)
    {
    }

    // incForProfiling.
    method IncForProfiling(amount: nat, q: nat)
      requires Valid() && q < |sm.sourceSeqs|
      modifies this, countTop, stack
      ensures Valid() && history == old(history) + [Inc(amount, q)]
    {
      hide Rows, Sum, Total, Plus, CountsAfter;
      var sources := sm.sourceSeqs[q];
      var topSourceIndex := TopSource(sm, q);
      ghost var ns := Counts();
      ghost var before, counts := history, countTop[..];
      TopFits(sm, q);
      CountTop(topSourceIndex, amount);
      EnterForProfiling(sources, ns);
      AddTicks(amount, q, ns);
      LeaveForProfiling(sources, ns);
      TopsAfter(before, counts, amount, q);
    }

    ghost method Happened(e: Event)
      requires Shape() && !e.Inc?
      modifies `history
      ensures history == old(history) + [e]
      ensures forall ns: seq<int> :: old(Rows(ns)) ==> Rows(ns)
      ensures old(Conserved()) ==> Conserved()
      ensures old(Tops()) ==> Tops()
      ensures forall f :: 0 <= f < stack.Length ==>
        Counts()[f] == old(Counts())[f] + (if e.Enter? then InSeq(sm, e.q, f) else 0 - InSeq(sm, e.q, f))
    {
      hide Due, OnStack, Total, Sum, Times, InSeq, TopTicks, OnTop, MapsOk, Row;
      ghost var before := history;
      history := history + [e];
      EventAdded(sm, before, e, 0, false);
      EventAdded(sm, before, e, 0, true);
      forall f | 0 <= f < countTop.Length
        ensures TopTicks(sm, history, f) == TopTicks(sm, before, f)
      {
        TopAdded(sm, before, e, f);
      }
      forall f | 0 <= f < stack.Length
        ensures Due(sm, history, f, false) == Due(sm, before, f, false) &&
          Due(sm, history, f, true) == Due(sm, before, f, true)
        ensures OnStack(sm, history, f) ==
          OnStack(sm, before, f) + (if e.Enter? then InSeq(sm, e.q, f) else 0 - InSeq(sm, e.q, f))
      {
        EventAdded(sm, before, e, f, false);
        EventAdded(sm, before, e, f, true);
      }
    }

    // GC_profileEnter.
    method ProfileEnter(q: nat)
      requires Valid() && q < |sm.sourceSeqs|
      modifies stack, `history
      ensures Valid() && history == old(history) + [Enter(q)]
    {
      hide Rows, Counts, Sum, Total, Due, OnStack, Times;
      ghost var ns := Counts();
      EnterForProfiling(sm.sourceSeqs[q], ns);
      Happened(Enter(q));
      assert Counts() == Plus(sm, ns, sm.sourceSeqs[q], |sm.sourceSeqs[q]|);
    }

    // GC_profileLeave.
    method ProfileLeave(q: nat)
      requires Valid() && q < |sm.sourceSeqs| && MayLeave(sm, history, q)
      modifies stack, `history
      ensures Valid() && history == old(history) + [Leave(q)]
    {
      hide Rows, Counts, Sum, Total, Due, OnStack, Times, MayLeave, Conserved, InSeq;
      LeaveIs(q);
      ghost var before := Counts();
      Happened(Leave(q));
      ghost var ns := Counts();
      LeavesFrom(sm, before, ns, q);
      LeaveForProfiling(sm.sourceSeqs[q], ns);
    }

    lemma LeaveIs(q: nat)
      requires Shape() && MayLeave(sm, history, q)
      ensures forall f :: 0 <= f < stack.Length ==> Counts()[f] >= InSeq(sm, q, f)
    {
      hide OnStack, InSeq;
    }

    // GC_profileDone: afterwards every function has the ticks made while it was on
    // the stack, and all ticks are accounted for on top.
    method ProfileDone()
      requires Valid()
      modifies stack
      ensures forall f :: 0 <= f < stack.Length ==>
        stack[f].ticks == Due(sm, history, f, false) && stack[f].ticksGC == Due(sm, history, f, true)
      ensures Conserved() && Tops()
    {
      hide Due, OnStack;
      ghost var ns := Counts();
      for i := 0 to stack.Length
        invariant forall f :: 0 <= f < i ==>
          stack[f].ticks == Due(sm, history, f, false) && stack[f].ticksGC == Due(sm, history, f, true)
        invariant forall f :: i <= f < stack.Length ==>
          Row(stack[f], total, totalGC, ns[f], Due(sm, history, f, false), Due(sm, history, f, true))
      {
        if stack[i].numOccurrences > 0 { RemoveFromStack(i); }
      }
    }
  }

  // Counts with the first n of these sources entered.
  ghost function Plus(sm: SourceMaps, ns: seq<int>, sources: seq<nat>, n: nat): (r: seq<int>)
    ensures |r| == |ns|
  {
    seq(|ns|, f requires 0 <= f < |ns| => ns[f] + Times(sm, sources, n, f))
  }

  lemma LeavesFrom(sm: SourceMaps, before: seq<int>, ns: seq<int>, q: nat)
    requires |ns| == |before| && q < |sm.sourceSeqs|
    requires forall f :: 0 <= f < |ns| ==> ns[f] == before[f] - InSeq(sm, q, f)
    ensures before == Plus(sm, ns, sm.sourceSeqs[q], |sm.sourceSeqs[q]|)
  {
  }

  lemma PlusNone(sm: SourceMaps, ns: seq<int>, sources: seq<nat>)
    ensures Plus(sm, ns, sources, 0) == ns
  {
  }

  lemma PlusOne(sm: SourceMaps, ns: seq<int>, sources: seq<nat>, i: nat)
    requires i < |sources| && sources[i] < |ns| && Master(sm, sources[i]) < |ns| && sources[i] != Master(sm, sources[i])
    requires forall f :: 0 <= f < |ns| ==> ns[f] >= 0
    ensures var now, s, m := Plus(sm, ns, sources, i), sources[i], Master(sm, sources[i]);
      && now[s] >= 0 && now[m] >= 0
      && Plus(sm, ns, sources, i + 1) == now[s := now[s] + 1][m := now[m] + 1]
      && now == Plus(sm, ns, sources, i + 1)[s := now[s]][m := now[m]]
  {
  }

  lemma MasterFits(sm: SourceMaps, sources: seq<nat>, i: nat)
    requires MapsOk(sm) && SeqOk(sm, sources) && i < |sources|
    ensures sources[i] < |sm.sourceNameIndex| <= Master(sm, sources[i]) < ProfileMasterLength(sm)
  {
  }

  lemma TopFits(sm: SourceMaps, q: nat)
    requires MapsOk(sm)
    ensures TopSource(sm, q) < |sm.sourceNameIndex| <= Master(sm, TopSource(sm, q)) < ProfileMasterLength(sm)
  {
  }
}
