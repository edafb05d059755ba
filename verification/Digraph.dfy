/** Finite directed graphs given by successor lists: cycles, and orders that exclude them. */
module Digraph {

  /** `g[u]` are the successors of `u`. */
  type Graph = seq<seq<nat>>

  ghost predicate Closed(g: Graph) {
    forall u: nat, v: nat :: u < |g| && v in g[u] ==> v < |g|
  }

  ghost predicate Edge(g: Graph, u: nat, v: nat) {
    u < |g| && v in g[u]
  }

  /** Each vertex of `p` is followed by one of its successors. */
  ghost predicate Path(g: Graph, p: seq<nat>) {
    && (forall i :: 0 <= i < |p| ==> p[i] < |g|)
    && (forall i :: 0 < i < |p| ==> Edge(g, p[i - 1], p[i]))
  }

  ghost predicate Cycle(g: Graph, p: seq<nat>) {
    |p| > 0 && Path(g, p) && Edge(g, p[|p| - 1], p[0])
  }

  ghost predicate Cyclic(g: Graph) {
    exists p: seq<nat> :: Cycle(g, p)
  }

  ghost predicate Distinct(s: seq<nat>) {
    forall i, j :: 0 <= i < j < |s| ==> s[i] != s[j]
  }

  /** Every vertex of `order` has all its successors before it. */
  ghost predicate Ordered(g: Graph, order: seq<nat>) {
    && Distinct(order)
    && (forall i :: 0 <= i < |order| ==> order[i] < |g|)
    && (forall i: nat, v: nat :: i < |order| && v in g[order[i]] ==> v in order[..i])
  }

  lemma SomethingBelow(s: seq<nat>, n: nat)
    requires |s| > 0 && forall i :: 0 <= i < |s| ==> s[i] < n
    ensures n > 0
  {
    assert s[0] < n;
  }

  /** Distinct numbers below `n` are at most `n` many. */
  lemma {:induction false} Pigeonhole(s: seq<nat>, n: nat)
    requires Distinct(s) && forall i :: 0 <= i < |s| ==> s[i] < n
    ensures |s| <= n
  {
    if |s| == 0 {
      return;
    }
    SomethingBelow(s, n);
    if m :| 0 <= m < |s| && s[m] == n - 1 {
      var rest := s[..m] + s[m + 1..];
      Pigeonhole(rest, n - 1);
    } else {
      Pigeonhole(s, n - 1);
    }
  }

  // ----- An order of all vertices excludes cycles

  ghost function Position(order: seq<nat>, v: nat): (i: nat)
    requires v in order
    ensures i < |order| && order[i] == v
  {
    var i :| 0 <= i < |order| && order[i] == v;
    i
  }

  lemma SuccessorsComeFirst(g: Graph, order: seq<nat>, u: nat, v: nat)
    requires Ordered(g, order) && u in order && Edge(g, u, v)
    ensures v in order && Position(order, v) < Position(order, u)
  {
    var i := Position(order, u);
    assert v in order[..i];
    var j :| 0 <= j < i && order[..i][j] == v;
    assert order[j] == v;
  }

  lemma {:induction false} PathDescends(g: Graph, order: seq<nat>, p: seq<nat>, k: nat)
    requires Ordered(g, order) && Path(g, p) && k < |p| && p[0] in order
    ensures p[k] in order && Position(order, p[k]) <= Position(order, p[0])
  {
    if k == 0 {
    } else {
      PathDescends(g, order, p, k - 1);
      SuccessorsComeFirst(g, order, p[k - 1], p[k]);
    }
  }

  /** No cycle passes through an ordered vertex. */
  lemma OrderedIsNotOnCycle(g: Graph, order: seq<nat>, p: seq<nat>)
    requires Ordered(g, order) && Cycle(g, p)
    ensures p[0] !in order
  {
    if p[0] in order {
      PathDescends(g, order, p, |p| - 1);
      SuccessorsComeFirst(g, order, p[|p| - 1], p[0]);
    }
  }

  lemma AllOrdered(g: Graph, order: seq<nat>)
    requires Ordered(g, order) && |order| == |g|
    ensures forall v: nat :: v < |g| ==> v in order
  {
    forall v: nat | v < |g| ensures v in order {
      if v !in order {
        Pigeonhole(order + [v], |g|);
      }
    }
  }

  // ----- Without cycles there is such an order

  /** Walks along unordered vertices until one has only ordered successors. */
  lemma {:induction false} FindNext(g: Graph, order: seq<nat>, walk: seq<nat>) returns (v: nat)
    requires Closed(g) && Ordered(g, order) && !Cyclic(g)
    requires |walk| > 0 && Path(g, walk) && Distinct(walk) && forall i :: 0 <= i < |walk| ==> walk[i] !in order
    ensures v < |g| && v !in order && forall w: nat :: w in g[v] ==> w in order
    decreases |g| - |walk|
  {
    Pigeonhole(walk, |g|);
    v := walk[|walk| - 1];
    if next: nat :| next in g[v] && next !in order {
      if i :| 0 <= i < |walk| && walk[i] == next {
        assert Cycle(g, walk[i..]);
        assert false;
      }
      Pigeonhole(walk + [next], |g|);
      v := FindNext(g, order, walk + [next]);
    }
  }

  lemma {:induction false} CompleteOrder(g: Graph, order: seq<nat>) returns (all: seq<nat>)
    requires Closed(g) && Ordered(g, order) && !Cyclic(g)
    ensures Ordered(g, all) && |all| == |g|
    decreases |g| - |order|
  {
    Pigeonhole(order, |g|);
    if |order| == |g| {
      all := order;
    } else {
      var u := Missing(order, |g|);
      var v := FindNext(g, order, [u]);
      var longer := order + [v];
      forall i: nat, w: nat | i < |longer| && w in g[longer[i]] ensures w in longer[..i] {
        assert longer[..i] == if i < |order| then order[..i] else order;
      }
      Pigeonhole(longer, |g|);
      all := CompleteOrder(g, longer);
    }
  }

  lemma {:induction false} Missing(s: seq<nat>, n: nat) returns (u: nat)
    requires |s| < n
    ensures u < n && u !in s
  {
    u := n - 1;
    if m :| 0 <= m < |s| && s[m] == u {
      var rest := s[..m] + s[m + 1..];
      u := Missing(rest, n - 1);
      assert forall i :: 0 <= i < |s| && i != m ==> s[i] in rest;
    }
  }

  // ----- Ranks

  /** `rank` falls along every edge. */
  ghost predicate Ranked(g: Graph, rank: nat -> nat) {
    forall u: nat, v: nat :: Edge(g, u, v) ==> rank(v) < rank(u)
  }

  lemma {:induction false} RankedPath(g: Graph, rank: nat -> nat, p: seq<nat>, k: nat)
    requires Ranked(g, rank) && Path(g, p) && k < |p|
    ensures rank(p[k]) <= rank(p[0])
  {
    if k == 0 {
    } else {
      RankedPath(g, rank, p, k - 1);
      assert Edge(g, p[k - 1], p[k]);
    }
  }

  /** A graph has no cycle exactly when ranks exist. */
  lemma AcyclicIffRanked(g: Graph)
    requires Closed(g)
    ensures !Cyclic(g) <==> exists rank: nat -> nat :: Ranked(g, rank)
  {
    if rank: nat -> nat :| Ranked(g, rank) {
      forall p: seq<nat> ensures !Cycle(g, p) {
        if Cycle(g, p) {
          RankedPath(g, rank, p, |p| - 1);
        }
      }
    }
    if !Cyclic(g) {
      var order := CompleteOrder(g, []);
      AllOrdered(g, order);
      var rank := (v: nat) => if v in order then Position(order, v) else 0;
      forall u: nat, v: nat | Edge(g, u, v) ensures rank(v) < rank(u) {
        SuccessorsComeFirst(g, order, u, v);
      }
      assert Ranked(g, rank);
    }
  }
}
