// Threading: every reference to an object is hung on a chain that starts in
// the object's header word and ends with the header itself.  Undoing a chain
// stores the object's new address in each reference.

module Threading {
  import opened Layout
  import opened Heap
  import opened State

  // The references that a compaction handles: slot to target, and the new
  // address of each live object.
  datatype Refs = Refs(tgt: map<nat, nat>, dest: map<nat, nat>)

  type Chains = map<nat, seq<nat>>

  // base is memory with no reference threaded: slots hold their targets.
  ghost predicate RefsOk(x: Refs, base: Memory) {
    && (forall t :: t in x.dest ==> 0 < t <= |base| && base[t - 1].Header?)
    && (forall s :: s in x.tgt ==> 0 < s < |base| && x.tgt[s] in x.dest && s + 1 !in x.dest)
  }

  ghost predicate InChain(x: Refs, V: set<nat>, R: set<nat>, T: Chains, t: nat)
    requires t in T
  {
    && Distinct(T[t])
    && (forall k :: 0 <= k < |T[t]| ==> T[t][k] in V && T[t][k] !in R && T[t][k] in x.tgt && x.tgt[T[t][k]] == t)
  }

  // The chain of t in memory: header word, last slot, ..., first slot, header.
  ghost predicate ChainAt(base: Memory, m: Memory, T: Chains, t: nat)
    requires t in T
  {
    var c := T[t];
    && 0 < t <= |m| == |base|
    && (|c| == 0 ==> m[t - 1] == base[t - 1])
    && (|c| > 0 ==> m[t - 1] == Ptr(c[|c| - 1]) && c[0] < |m| && m[c[0]] == base[t - 1])
    && (forall k :: 1 <= k < |c| ==> c[k] < |m| && m[c[k]] == Ptr(c[k - 1]))
  }

  // V are the slots threaded so far, R those of them resolved again.
  ghost predicate Threaded(x: Refs, base: Memory, V: set<nat>, R: set<nat>, T: Chains, m: Memory) {
    && |m| == |base|
    && RefsOk(x, base)
    && V <= x.tgt.Keys && R <= V
    && T.Keys == x.dest.Keys
    && (forall t :: t in T ==> InChain(x, V, R, T, t))
    && (forall s :: s in V && s !in R ==> s in T[x.tgt[s]])
    && (forall t :: t in T ==> ChainAt(base, m, T, t))
    && (forall s :: s in R ==> m[s] == Ptr(x.dest[x.tgt[s]]))
    && (forall a :: 0 <= a < |m| && a !in V && a + 1 !in T ==> m[a] == base[a])
  }

  // ------------------------------------------------------------ thread one

  function ThreadMem(m: Memory, s: nat, t: nat): (m': Memory)
    ensures |m'| == |m|
  {
    if s < |m| && 0 < t <= |m| then m[s := m[t - 1]][t - 1 := Ptr(s)] else m
  }

  function AddTo(T: Chains, t: nat, s: nat): (T': Chains)
    ensures t in T ==> T'.Keys == T.Keys
  {
    if t in T then T[t := T[t] + [s]] else T
  }

  ghost predicate CanThread(x: Refs, base: Memory, V: set<nat>, R: set<nat>, T: Chains, m: Memory, s: nat) {
    Threaded(x, base, V, R, T, m) && s in x.tgt && s !in V
  }

  lemma ThreadBasics(x: Refs, base: Memory, V: set<nat>, R: set<nat>, T: Chains, m: Memory, s: nat)
    requires CanThread(x, base, V, R, T, m, s)
    ensures var t := x.tgt[s];
      && t in T && 0 < s < |m| && 0 < t <= |m| && s != t - 1
      && (forall u, k :: u in T && 0 <= k < |T[u]| ==> T[u][k] != s && T[u][k] != t - 1 && T[u][k] < |m|)
      && (forall u :: u in T ==> u - 1 != s)
      && m[s] == base[s]
  {
    hide ChainAt, Distinct;
    var t := x.tgt[s];
    forall u, k | u in T && 0 <= k < |T[u]|
      ensures T[u][k] != s && T[u][k] != t - 1 && T[u][k] < |m|
    {
      assert InChain(x, V, R, T, u);
    }
  }

  lemma ThreadChain(x: Refs, base: Memory, V: set<nat>, R: set<nat>, T: Chains, m: Memory, s: nat, u: nat)
    requires CanThread(x, base, V, R, T, m, s) && u in T
    ensures ChainAt(base, ThreadMem(m, s, x.tgt[s]), AddTo(T, x.tgt[s], s), u)
  {
    hide CanThread, InChain, Threaded, RefsOk;
    CanThreadIs(x, base, V, R, T, m, s);
    ThreadBasics(x, base, V, R, T, m, s);
    ChainOf(x, base, V, R, T, m, u);
    var t := x.tgt[s];
    var m' := ThreadMem(m, s, t);
    var T' := AddTo(T, t, s);
    if u == t {
      var c, c' := T[t], T'[t];
      assert c' == c + [s];
      forall k | 1 <= k < |c'|
        ensures c'[k] < |m'| && m'[c'[k]] == Ptr(c'[k - 1])
      {
        if k < |c| { assert c'[k] == c[k]; }
      }
    }
  }

  lemma CanThreadIs(x: Refs, base: Memory, V: set<nat>, R: set<nat>, T: Chains, m: Memory, s: nat)
    requires CanThread(x, base, V, R, T, m, s)
    ensures Threaded(x, base, V, R, T, m) && s in x.tgt && s !in V && x.tgt[s] in T && |m| == |base|
  {
    hide InChain, ChainAt;
  }

  lemma ChainOf(x: Refs, base: Memory, V: set<nat>, R: set<nat>, T: Chains, m: Memory, u: nat)
    requires Threaded(x, base, V, R, T, m) && u in T
    ensures ChainAt(base, m, T, u) && InChain(x, V, R, T, u)
  {
    hide InChain, ChainAt, RefsOk;
  }

  lemma ThreadMembers(x: Refs, base: Memory, V: set<nat>, R: set<nat>, T: Chains, m: Memory, s: nat, u: nat)
    requires CanThread(x, base, V, R, T, m, s) && u in T
    ensures InChain(x, V + {s}, R, AddTo(T, x.tgt[s], s), u)
  {
    hide ChainAt, RefsOk;
    ThreadBasics(x, base, V, R, T, m, s);
    assert InChain(x, V, R, T, u);
  }

  lemma ThreadStep(x: Refs, base: Memory, V: set<nat>, R: set<nat>, T: Chains, m: Memory, s: nat)
    requires CanThread(x, base, V, R, T, m, s)
    ensures Threaded(x, base, V + {s}, R, AddTo(T, x.tgt[s], s), ThreadMem(m, s, x.tgt[s]))
  {
    hide ChainAt, InChain;
    ThreadBasics(x, base, V, R, T, m, s);
    var T' := AddTo(T, x.tgt[s], s);
    forall u | u in T'
      ensures ChainAt(base, ThreadMem(m, s, x.tgt[s]), T', u) && InChain(x, V + {s}, R, T', u)
    {
      ThreadChain(x, base, V, R, T, m, s, u);
      ThreadMembers(x, base, V, R, T, m, s, u);
    }
  }

  // ---------------------------------------------------------- unthread one

  function UnthreadMem(x: Refs, m: Memory, s: nat, t: nat): (m': Memory)
    ensures |m'| == |m|
  {
    if s < |m| && 0 < t <= |m| && t in x.dest then m[t - 1 := m[s]][s := Ptr(x.dest[t])] else m
  }

  function DropLast(T: Chains, t: nat): (T': Chains)
    ensures t in T ==> T'.Keys == T.Keys
  {
    if t in T && |T[t]| > 0 then T[t := T[t][..|T[t]| - 1]] else T
  }

  function LastOf(T: Chains, t: nat): nat {
    if t in T && |T[t]| > 0 then T[t][|T[t]| - 1] else 0
  }

  ghost predicate CanUnthread(x: Refs, base: Memory, V: set<nat>, R: set<nat>, T: Chains, m: Memory, t: nat) {
    Threaded(x, base, V, R, T, m) && t in T && |T[t]| > 0
  }

  lemma UnthreadBasics(x: Refs, base: Memory, V: set<nat>, R: set<nat>, T: Chains, m: Memory, t: nat)
    requires CanUnthread(x, base, V, R, T, m, t)
    ensures var s := LastOf(T, t);
      && t in x.dest && 0 < t <= |m| && s < |m| && s != t - 1
      && s in V && s !in R && s in x.tgt && x.tgt[s] == t
      && m[t - 1] == Ptr(s)
      && m[s] == (if |T[t]| == 1 then base[t - 1] else Ptr(T[t][|T[t]| - 2]))
      && base[t - 1].Header?
      && (forall u :: u in T ==> u - 1 != s)
      && (forall u, k :: u in T && 0 <= k < |T[u]| && (u != t || k < |T[t]| - 1) ==> T[u][k] != s)
      && (forall u, k :: u in T && 0 <= k < |T[u]| ==> T[u][k] != t - 1)
  {
    hide Threaded, RefsOk, ChainAt, InChain;
    var s := LastOf(T, t);
    LastRef(x, base, V, R, T, m, t);
    forall u, k | u in T && 0 <= k < |T[u]|
      ensures T[u][k] != t - 1 && (u != t || k < |T[t]| - 1 ==> T[u][k] != s)
    {
      OtherRef(x, base, V, R, T, m, t, u, k);
    }
    forall u | u in T
      ensures u - 1 != s
    {
      NotHeader(x, base, V, R, T, m, u, s);
    }
  }

  lemma LastRef(x: Refs, base: Memory, V: set<nat>, R: set<nat>, T: Chains, m: Memory, t: nat)
    requires Threaded(x, base, V, R, T, m) && t in T && |T[t]| > 0
    ensures var s := LastOf(T, t);
      && t in x.dest && 0 < t <= |m| && s < |m| && s != t - 1
      && s in V && s !in R && s in x.tgt && x.tgt[s] == t
      && m[t - 1] == Ptr(s)
      && m[s] == (if |T[t]| == 1 then base[t - 1] else Ptr(T[t][|T[t]| - 2]))
      && |base| == |m| && base[t - 1].Header?
  {
    hide Distinct;
    assert InChain(x, V, R, T, t) && ChainAt(base, m, T, t);
  }

  lemma NotHeader(x: Refs, base: Memory, V: set<nat>, R: set<nat>, T: Chains, m: Memory, u: nat, s: nat)
    requires Threaded(x, base, V, R, T, m) && u in T && s in x.tgt
    ensures u - 1 != s
  {
    hide InChain, ChainAt;
  }

  // A slot is on one chain, once, and is no header.
  lemma OtherRef(x: Refs, base: Memory, V: set<nat>, R: set<nat>, T: Chains, m: Memory, t: nat, u: nat, k: nat)
    requires Threaded(x, base, V, R, T, m) && t in T && |T[t]| > 0 && u in T && k < |T[u]|
    ensures T[u][k] != t - 1
    ensures u != t || k < |T[t]| - 1 ==> T[u][k] != LastOf(T, t)
  {
    hide ChainAt, RefsOk;
    assert InChain(x, V, R, T, u) && InChain(x, V, R, T, t);
    NotHeader(x, base, V, R, T, m, t, T[u][k]);
  }

  lemma UnthreadChain(x: Refs, base: Memory, V: set<nat>, R: set<nat>, T: Chains, m: Memory, t: nat, u: nat)
    requires CanUnthread(x, base, V, R, T, m, t) && u in T
    ensures ChainAt(base, UnthreadMem(x, m, LastOf(T, t), t), DropLast(T, t), u)
  {
    hide CanUnthread, InChain, Threaded, RefsOk;
    UnthreadBasics(x, base, V, R, T, m, t);
    assert Threaded(x, base, V, R, T, m) && t in T && |T[t]| > 0 by { CanUnthreadIs(x, base, V, R, T, m, t); }
    ChainOf(x, base, V, R, T, m, u);
    ChainOf(x, base, V, R, T, m, t);
  }

  lemma CanUnthreadIs(x: Refs, base: Memory, V: set<nat>, R: set<nat>, T: Chains, m: Memory, t: nat)
    requires CanUnthread(x, base, V, R, T, m, t)
    ensures Threaded(x, base, V, R, T, m) && t in T && |T[t]| > 0 && |m| == |base|
  {
    hide InChain, ChainAt;
  }

  lemma UnthreadMembers(x: Refs, base: Memory, V: set<nat>, R: set<nat>, T: Chains, m: Memory, t: nat, u: nat)
    requires CanUnthread(x, base, V, R, T, m, t) && u in T
    ensures InChain(x, V, R + {LastOf(T, t)}, DropLast(T, t), u)
  {
    hide ChainAt, RefsOk;
    UnthreadBasics(x, base, V, R, T, m, t);
    assert InChain(x, V, R, T, u);
  }

  lemma UnthreadCover(x: Refs, base: Memory, V: set<nat>, R: set<nat>, T: Chains, m: Memory, t: nat, s: nat)
    requires CanUnthread(x, base, V, R, T, m, t) && s in V && s !in R && s != LastOf(T, t)
    ensures s in x.tgt && x.tgt[s] in T && s in DropLast(T, t)[x.tgt[s]]
  {
    hide ChainAt, InChain;
    if x.tgt[s] == t {
      var k :| 0 <= k < |T[t]| && T[t][k] == s;
      assert DropLast(T, t)[t][k] == s;
    }
  }

  lemma UnthreadStep(x: Refs, base: Memory, V: set<nat>, R: set<nat>, T: Chains, m: Memory, t: nat)
    requires CanUnthread(x, base, V, R, T, m, t)
    ensures Threaded(x, base, V, R + {LastOf(T, t)}, DropLast(T, t), UnthreadMem(x, m, LastOf(T, t), t))
  {
    hide ChainAt, InChain, DropLast, LastOf;
    UnthreadBasics(x, base, V, R, T, m, t);
    var T' := DropLast(T, t);
    forall u | u in T'
      ensures ChainAt(base, UnthreadMem(x, m, LastOf(T, t), t), T', u) && InChain(x, V, R + {LastOf(T, t)}, T', u)
    {
      UnthreadChain(x, base, V, R, T, m, t, u);
      UnthreadMembers(x, base, V, R, T, m, t, u);
    }
    forall s | s in V && s !in R + {LastOf(T, t)}
      ensures s in T'[x.tgt[s]]
    {
      UnthreadCover(x, base, V, R, T, m, t, s);
    }
  }

  // ------------------------------------------------------------- the loops

  function Elements(c: seq<nat>): set<nat> { set k | 0 <= k < |c| :: c[k] }

  function ChainOfT(T: Chains, t: nat): seq<nat> {
    if t in T then T[t] else []
  }

  function Emptied(T: Chains, t: nat): (T': Chains)
    ensures t in T ==> T'.Keys == T.Keys
  {
    if t in T then T[t := []] else T
  }

  lemma ThreadedHeader(x: Refs, base: Memory, V: set<nat>, R: set<nat>, T: Chains, m: Memory, t: nat)
    requires Threaded(x, base, V, R, T, m) && t in x.dest
    ensures |m| == |base| && t in T && 0 < t <= |m| && base[t - 1].Header?
    ensures m[t - 1].Ptr? <==> |T[t]| > 0
    ensures |T[t]| == 0 ==> m[t - 1] == base[t - 1]
    ensures m[t - 1].Header? <==> |T[t]| == 0
  {
    hide InChain;
    assert ChainAt(base, m, T, t);
  }

  lemma UnthreadIs(x: Refs, base: Memory, V: set<nat>, R: set<nat>, T: Chains, m: Memory, t: nat)
    requires CanUnthread(x, base, V, R, T, m, t)
    ensures var s := LastOf(T, t);
      && 0 < t <= |m| && m[t - 1] == Ptr(s) && s < |m| && t in x.dest
      && UnthreadMem(x, m, s, t) == m[t - 1 := m[s]][s := Ptr(x.dest[t])]
      && s in V && s !in R && s in x.tgt && x.tgt[s] == t && s != t - 1
  {
    hide Threaded;
    UnthreadBasics(x, base, V, R, T, m, t);
  }

  lemma EmptyChain(T: Chains, t: nat)
    requires t in T && |T[t]| == 0
    ensures Emptied(T, t) == T && Elements(ChainOfT(T, t)) == {}
  {
  }

  lemma ShorterChain(T: Chains, t: nat)
    requires t in T && |T[t]| > 0
    ensures Emptied(DropLast(T, t), t) == Emptied(T, t)
    ensures Elements(ChainOfT(T, t)) == Elements(ChainOfT(DropLast(T, t), t)) + {LastOf(T, t)}
    ensures t in DropLast(T, t) && |DropLast(T, t)[t]| < |T[t]|
  {
    var c := T[t];
    var n := |c| - 1;
    assert DropLast(T, t)[t] == c[..n];
    forall e | e in Elements(c)
      ensures e in Elements(c[..n]) + {c[n]}
    {
      var k :| 0 <= k < |c| && c[k] == e;
      if k < n { assert c[..n][k] == e; }
    }
    forall e | e in Elements(c[..n]) + {c[n]}
      ensures e in Elements(c)
    {
      if e in Elements(c[..n]) {
        var k :| 0 <= k < n && c[..n][k] == e;
        assert c[k] == e;
      } else {
        assert c[n] == e;
      }
    }
  }

  // m' is m from address lo on.
  ghost predicate AgreeFrom(lo: nat, m: Memory, m': Memory) {
    |m| == |m'| && forall a :: lo <= a < |m| ==> m'[a] == m[a]
  }

  ghost predicate AgreeBelow(hi: nat, m: Memory, m': Memory) {
    |m| == |m'| && forall a :: 0 <= a < |m| && a < hi ==> m'[a] == m[a]
  }

  ghost predicate ChainFrom(lo: nat, T: Chains, t: nat) {
    forall k :: 0 <= k < |ChainOfT(T, t)| ==> lo <= ChainOfT(T, t)[k]
  }

  lemma AgreeWrite(lo: nat, m: Memory, m': Memory, a: nat, w: Word)
    requires AgreeFrom(lo, m, m') && lo <= a < |m|
    ensures m'[a] == m[a] && AgreeFrom(lo, m[a := w], m'[a := w])
    ensures AgreeBelow(lo, m, m[a := w])
  {
  }

  lemma AgreeBelowTrans(hi: nat, m0: Memory, m1: Memory, m2: Memory)
    requires AgreeBelow(hi, m0, m1) && AgreeBelow(hi, m1, m2)
    ensures AgreeBelow(hi, m0, m2)
  {
  }

  lemma AgreeLength(lo: nat, m: Memory, m': Memory)
    requires AgreeFrom(lo, m, m')
    ensures |m| == |m'| && AgreeBelow(lo, m, m)
  {
  }

  lemma ChainFromShorter(lo: nat, T: Chains, t: nat)
    requires t in T && |T[t]| > 0 && ChainFrom(lo, T, t)
    ensures lo <= LastOf(T, t) && ChainFrom(lo, DropLast(T, t), t)
  {
    var c := ChainOfT(T, t);
    assert lo <= c[|c| - 1];
    forall k | 0 <= k < |c| - 1
      ensures lo <= DropLast(T, t)[t][k]
    {
      assert DropLast(T, t)[t][k] == c[k];
    }
  }

  // Fix every reference on the chain of p, and put its header back.  The walk
  // may already have overwritten memory below lo; mv is memory without that.
  method Unthread(s: GCState, p: nat, to: nat, ghost x: Refs, ghost base: Memory, ghost V: set<nat>, ghost R: set<nat>,
          ghost T: Chains, ghost lo: nat, ghost mv0: Memory)
    returns (ghost mv: Memory)
    requires Threaded(x, base, V, R, T, mv0) && p in x.dest && x.dest[p] == to
    requires AgreeFrom(lo, mv0, s.mem[..]) && lo < p && ChainFrom(lo, T, p)
    modifies s.mem
    ensures Threaded(x, base, V, R + Elements(ChainOfT(T, p)), Emptied(T, p), mv)
    ensures 0 < p <= |base| == s.mem.Length && s.mem[p - 1] == base[p - 1]
    ensures AgreeFrom(lo, mv, s.mem[..]) && AgreeBelow(lo, old(s.mem[..]), s.mem[..]) && AgreeBelow(lo, mv0, mv)
  {
    hide *;
    mv := mv0;
    AgreeLength(lo, mv0, s.mem[..]);
    AgreeRefl(lo, s.mem[..]);
    AgreeRefl(lo, mv0);
    ThreadedHeader(x, base, V, R, T, mv, p);
    AgreeAt(lo, mv, s.mem[..], p - 1);
    ghost var R1: set<nat>, T1: Chains := R, T;
    assert R + Elements(ChainOfT(T, p)) == R1 + Elements(ChainOfT(T1, p));
    while s.mem[p - 1].Ptr?
      invariant s.mem.Length == |base| == |mv|
      invariant Threaded(x, base, V, R1, T1, mv)
      invariant AgreeFrom(lo, mv, s.mem[..]) && AgreeBelow(lo, old(s.mem[..]), s.mem[..]) && AgreeBelow(lo, mv0, mv)
      invariant s.mem[p - 1] == mv[p - 1]
      invariant p in T1 && Emptied(T1, p) == Emptied(T, p) && ChainFrom(lo, T1, p)
      invariant R + Elements(ChainOfT(T, p)) == R1 + Elements(ChainOfT(T1, p))
      decreases |T1[p]|
    {
      ghost var m1 := s.mem[..];
      ThreadedHeader(x, base, V, R1, T1, mv, p);
      CanUnthreadIntro(x, base, V, R1, T1, mv, p);
      UnthreadIs(x, base, V, R1, T1, mv, p);
      UnthreadStep(x, base, V, R1, T1, mv, p);
      ShorterChain(T1, p);
      ChainFromShorter(lo, T1, p);
      ghost var c := LastOf(T1, p);
      AgreeAt(lo, mv, m1, c);
      AgreeWrite(lo, mv, m1, p - 1, mv[c]);
      AgreeRefl(lo, m1);
      AgreeWrite(lo, m1, m1, p - 1, mv[c]);
      AgreeWrite(lo, mv[p - 1 := mv[c]], m1[p - 1 := mv[c]], c, Ptr(to));
      AgreeRefl(lo, m1[p - 1 := mv[c]]);
      AgreeWrite(lo, m1[p - 1 := mv[c]], m1[p - 1 := mv[c]], c, Ptr(to));
      AgreeBelowTrans(lo, m1, m1[p - 1 := mv[c]], m1[p - 1 := mv[c]][c := Ptr(to)]);
      AgreeBelowTrans(lo, old(s.mem[..]), m1, m1[p - 1 := mv[c]][c := Ptr(to)]);
      AgreeBelowTrans(lo, mv, mv[p - 1 := mv[c]], mv[p - 1 := mv[c]][c := Ptr(to)]);
      AgreeBelowTrans(lo, mv0, mv, mv[p - 1 := mv[c]][c := Ptr(to)]);
      var cur := s.mem[p - 1].addr;
      s.Store(p - 1, s.mem[cur]);
      s.Store(cur, Ptr(to));
      mv := UnthreadMem(x, mv, c, p);
      R1, T1 := R1 + {c}, DropLast(T1, p);
      ThreadedHeader(x, base, V, R1, T1, mv, p);
      AgreeAt(lo, mv, s.mem[..], p - 1);
    }
    ThreadedHeader(x, base, V, R1, T1, mv, p);
    EmptyChain(T1, p);
    assert R1 == R + Elements(ChainOfT(T, p));
  }

  lemma AgreeAt(lo: nat, m: Memory, m': Memory, a: nat)
    requires AgreeFrom(lo, m, m') && lo <= a < |m|
    ensures |m'| == |m| && m'[a] == m[a]
  {
  }

  lemma AgreeRefl(lo: nat, m: Memory)
    ensures AgreeFrom(lo, m, m) && AgreeBelow(lo, m, m)
  {
  }

  lemma AgreeAll(m: Memory, m': Memory)
    requires AgreeFrom(0, m, m')
    ensures m' == m
  {
  }

  lemma ChainFromStart(T: Chains, t: nat)
    ensures ChainFrom(0, T, t)
  {
  }

  lemma CanUnthreadIntro(x: Refs, base: Memory, V: set<nat>, R: set<nat>, T: Chains, m: Memory, t: nat)
    requires Threaded(x, base, V, R, T, m) && t in T && |T[t]| > 0
    ensures CanUnthread(x, base, V, R, T, m, t)
  {
  }

  // The slots that are about to be threaded: tgt is right about them.
  ghost predicate SlotsReady(x: Refs, base: Memory, sp: Spaces, V: set<nat>, slots: seq<nat>) {
    && Distinct(slots)
    && forall i :: 0 <= i < |slots| ==>
         && slots[i] !in V && slots[i] < |base| && slots[i] + 1 !in x.dest
         && (slots[i] in x.tgt <==> base[slots[i]].Ptr? && InSpaces(sp, base[slots[i]].addr))
         && (slots[i] in x.tgt ==> base[slots[i]] == Ptr(x.tgt[slots[i]]))
  }

  function RefsIn(x: Refs, slots: seq<nat>): set<nat> {
    set i | 0 <= i < |slots| && slots[i] in x.tgt :: slots[i]
  }

  lemma RefsNext(x: Refs, slots: seq<nat>, i: nat)
    requires i < |slots|
    ensures RefsIn(x, slots[..i + 1]) == RefsIn(x, slots[..i]) + if slots[i] in x.tgt then {slots[i]} else {}
  {
    var a, b := slots[..i], slots[..i + 1];
    forall e | e in RefsIn(x, b)
      ensures e in RefsIn(x, a) || e == slots[i]
    {
      var k :| 0 <= k < |b| && b[k] in x.tgt && b[k] == e;
      if k < i { assert a[k] == e; }
    }
    forall e | e in RefsIn(x, a)
      ensures e in RefsIn(x, b)
    {
      var k :| 0 <= k < |a| && a[k] in x.tgt && a[k] == e;
      assert b[k] == e;
    }
    assert b[i] == slots[i];
  }

  lemma ReadySlot(x: Refs, base: Memory, sp: Spaces, V: set<nat>, R: set<nat>, slots: seq<nat>, i: nat, V1: set<nat>,
          T: Chains, m: Memory)
    requires SlotsReady(x, base, sp, V, slots) && i < |slots|
    requires V1 == V + RefsIn(x, slots[..i]) && Threaded(x, base, V1, R, T, m)
    ensures slots[i] !in V1 && slots[i] < |m| && m[slots[i]] == base[slots[i]]
    ensures m[slots[i]].Ptr? && InSpaces(sp, m[slots[i]].addr) <==> slots[i] in x.tgt
    ensures slots[i] in x.tgt ==> m[slots[i]] == Ptr(x.tgt[slots[i]]) && CanThread(x, base, V1, R, T, m, slots[i])
  {
    hide ChainAt, InChain, RefsOk;
    forall e | e in RefsIn(x, slots[..i])
      ensures e != slots[i]
    {
      var k :| 0 <= k < i && slots[..i][k] in x.tgt && slots[..i][k] == e;
      assert slots[k] != slots[i];
    }
  }

  lemma ThreadIs(x: Refs, base: Memory, V: set<nat>, R: set<nat>, T: Chains, m: Memory, s: nat)
    requires CanThread(x, base, V, R, T, m, s)
    ensures var t := x.tgt[s];
      && 0 < t <= |m| && s < |m|
      && ThreadMem(m, s, t) == m[s := m[t - 1]][t - 1 := Ptr(s)]
  {
    hide Threaded, InChain, ChainAt;
    ThreadBasics(x, base, V, R, T, m, s);
  }

  // threadInternalObjptr applied to each of the slots.
  method ThreadSlots(s: GCState, slots: seq<nat>, ghost x: Refs, ghost base: Memory, ghost V: set<nat>,
          ghost R: set<nat>, ghost T: Chains)
    returns (ghost T': Chains)
    requires Threaded(x, base, V, R, T, s.mem[..])
    requires SlotsReady(x, base, s.Spaces(), V, slots)
    modifies s.mem
    ensures Threaded(x, base, V + RefsIn(x, slots), R, T', s.mem[..])
  {
    hide *;
    T' := T;
    NoRefs(x, slots, V);
    for i := 0 to |slots|
      invariant Threaded(x, base, V + RefsIn(x, slots[..i]), R, T', s.mem[..])
    {
      ghost var V1 := V + RefsIn(x, slots[..i]);
      ghost var m := s.mem[..];
      ReadySlot(x, base, s.Spaces(), V, R, slots, i, V1, T', m);
      RefsNext(x, slots, i);
      var opp := slots[i];
      if s.mem[opp].Ptr? && InSpaces(s.Spaces(), s.mem[opp].addr) {
        ThreadIs(x, base, V1, R, T', m, opp);
        ThreadStep(x, base, V1, R, T', m, opp);
        var p := s.mem[opp].addr;
        s.Store(opp, s.mem[p - 1]);
        s.Store(p - 1, Ptr(opp));
        T' := AddTo(T', p, opp);
        assert V1 + {opp} == V + RefsIn(x, slots[..i + 1]);
      } else {
        assert V1 == V + RefsIn(x, slots[..i + 1]);
      }
    }
    assert slots[..|slots|] == slots;
  }

  lemma NoRefs(x: Refs, slots: seq<nat>, V: set<nat>)
    ensures V + RefsIn(x, slots[..0]) == V
  {
  }
}
