// Reachability in a finite graph, given as the successor set of each node.

module Graph {

  type Graph = map<nat, set<nat>>

  // ps is a walk through nodes of g.
  predicate IsPath(g: Graph, ps: seq<nat>) {
    && |ps| > 0
    && (forall k :: 0 <= k < |ps| ==> ps[k] in g)
    && (forall k :: 0 <= k < |ps| - 1 ==> ps[k + 1] in g[ps[k]])
  }

  ghost predicate Reachable(g: Graph, roots: set<nat>, x: nat) {
    exists ps :: IsPath(g, ps) && ps[0] in roots && ps[|ps| - 1] == x
  }

  ghost function Reach(g: Graph, roots: set<nat>): set<nat> {
    set x | x in g.Keys && Reachable(g, roots, x)
  }

  // The graph without the nodes in avoid.
  function Without(g: Graph, avoid: set<nat>): (r: Graph)
    ensures r.Keys == g.Keys - avoid
    ensures forall x :: x in r ==> r[x] == g[x]
  {
    map x | x in g.Keys - avoid :: g[x]
  }

  predicate Closed(g: Graph, s: set<nat>) {
    forall x, y :: x in s && x in g && y in g[x] && y in g ==> y in s
  }

  lemma ReachRoot(g: Graph, roots: set<nat>, x: nat)
    requires x in roots && x in g
    ensures x in Reach(g, roots)
  {
    assert IsPath(g, [x]) && [x][0] in roots && [x][|[x]| - 1] == x;
  }

  lemma ReachStep(g: Graph, roots: set<nat>, x: nat, y: nat)
    requires x in Reach(g, roots) && y in g[x] && y in g
    ensures y in Reach(g, roots)
  {
    var ps :| IsPath(g, ps) && ps[0] in roots && ps[|ps| - 1] == x;
    var qs := ps + [y];
    forall k | 0 <= k < |qs| - 1
      ensures qs[k + 1] in g[qs[k]]
    {
      if k < |ps| - 1 { assert ps[k + 1] in g[ps[k]]; }
    }
    assert IsPath(g, qs) && qs[0] in roots && qs[|qs| - 1] == y;
  }

  lemma {:induction false} PathStays(g: Graph, ps: seq<nat>, s: set<nat>, k: nat)
    requires IsPath(g, ps) && ps[0] in s && Closed(g, s) && k < |ps|
    ensures ps[k] in s
  {
    if k > 0 {
      PathStays(g, ps, s, k - 1);
      assert ps[(k - 1) + 1] in g[ps[k - 1]];
    }
  }

  // Reach is the least closed set that holds the roots.
  lemma ReachLeast(g: Graph, roots: set<nat>, s: set<nat>)
    requires forall x :: x in roots && x in g ==> x in s
    requires Closed(g, s)
    ensures Reach(g, roots) <= s
  {
    forall x | x in Reach(g, roots)
      ensures x in s
    {
      var ps :| IsPath(g, ps) && ps[0] in roots && ps[|ps| - 1] == x;
      PathStays(g, ps, s, |ps| - 1);
    }
  }

  lemma ReachClosed(g: Graph, roots: set<nat>)
    ensures Closed(g, Reach(g, roots))
  {
    forall x, y | x in Reach(g, roots) && x in g && y in g[x] && y in g
      ensures y in Reach(g, roots)
    {
      ReachStep(g, roots, x, y);
    }
  }

  // A set that holds the roots, is closed, and is itself reachable is Reach.
  lemma ReachUnique(g: Graph, roots: set<nat>, s: set<nat>)
    requires forall x :: x in roots && x in g ==> x in s
    requires Closed(g, s)
    requires s <= Reach(g, roots)
    ensures s == Reach(g, roots)
  {
    ReachLeast(g, roots, s);
  }

  // Roots can be followed one at a time, each time past what is reached already.
  lemma ReachSplit(g: Graph, roots: set<nat>, r: nat)
    ensures Reach(g, roots + {r}) == Reach(g, roots) + Reach(Without(g, Reach(g, roots)), {r})
  {
    hide Reach;
    var first := Reach(g, roots);
    var rest := Without(g, first);
    var more := Reach(rest, {r});
    var all := Reach(g, roots + {r});
    SplitBelow(g, roots, r);
    SplitAbove(g, roots, r);
  }

  lemma ReachInside(g: Graph, roots: set<nat>)
    ensures Reach(g, roots) <= g.Keys
  {
  }

  lemma SplitBelow(g: Graph, roots: set<nat>, r: nat)
    ensures Reach(g, roots + {r}) <= Reach(g, roots) + Reach(Without(g, Reach(g, roots)), {r})
  {
    hide Reach;
    var first := Reach(g, roots);
    var rest := Without(g, first);
    var more := Reach(rest, {r});
    ReachClosed(g, roots);
    ReachClosed(rest, {r});
    ReachInside(rest, {r});
    forall x | x in roots + {r} && x in g
      ensures x in first + more
    {
      if x in roots { ReachRoot(g, roots, x); }
      else if x !in first { ReachRoot(rest, {r}, x); }
    }
    ReachLeast(g, roots + {r}, first + more);
  }

  lemma SplitAbove(g: Graph, roots: set<nat>, r: nat)
    ensures Reach(g, roots) + Reach(Without(g, Reach(g, roots)), {r}) <= Reach(g, roots + {r})
  {
    hide Reach;
    var rest := Without(g, Reach(g, roots));
    var all := Reach(g, roots + {r});
    ReachClosed(g, roots + {r});
    forall x | x in roots + {r} && x in g
      ensures x in all
    {
      ReachRoot(g, roots + {r}, x);
    }
    ReachLeast(g, roots, all);
    ReachLeast(rest, {r}, all);
  }

  lemma ReachNone(g: Graph)
    ensures Reach(g, {}) == {}
  {
    ReachLeast(g, {}, {});
  }
}
