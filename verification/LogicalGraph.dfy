/** Logical graphs: nodes, edges between their ports, and where the data of a port comes from. */
module LogicalGraph {
  import opened Ports

  datatype Node = Process(vertex: nat) | Shuffle | Gather | ValueSort

  /** The physical task of the consumer that waits for the producer. */
  datatype Successor = Entry | Barrier | Terminal

  datatype Edge = Edge(producer: Port, consumer: Port, successor: Successor)

  datatype Graph = Graph(nodes: seq<Node>, edges: seq<Edge>)

  /** The producers connected to port `c`. */
  ghost function Feeding(edges: seq<Edge>, c: Port): seq<Port> {
    if |edges| == 0 then []
    else Feeding(edges[..|edges| - 1], c) + if edges[|edges| - 1].consumer == c then [edges[|edges| - 1].producer] else []
  }

  lemma FeedingNext(edges: seq<Edge>, e: Edge, c: Port)
    ensures Feeding(edges + [e], c) == Feeding(edges, c) + if e.consumer == c then [e.producer] else []
  {
    assert (edges + [e])[..|edges|] == edges;
  }

  lemma {:induction false} EdgesFeed(edges: seq<Edge>, e: Edge)
    requires e in edges
    ensures e.producer in Feeding(edges, e.consumer)
  {
    var m := |edges| - 1;
    if e != edges[m] {
      assert edges == edges[..m] + [edges[m]];
      EdgesFeed(edges[..m], e);
    }
  }

  lemma {:induction false} NothingFed(edges: seq<Edge>, c: Port)
    requires forall e :: e in edges ==> e.consumer != c
    ensures Feeding(edges, c) == []
  {
    if |edges| == 0 {
    } else {
      assert edges[|edges| - 1] in edges;
      NothingFed(edges[..|edges| - 1], c);
    }
  }

  // ----- Origins

  /** The ports of processors whose output reaches the given ports through at most `depth`
      intermediate nodes, with multiplicity. */
  ghost function Origins(g: Graph, ps: seq<Port>, depth: nat): multiset<Port>
    decreases depth, |ps|
  {
    if |ps| == 0 then multiset{}
    else Origins(g, ps[..|ps| - 1], depth) + Origin(g, ps[|ps| - 1], depth)
  }

  ghost function Origin(g: Graph, p: Port, depth: nat): multiset<Port>
    decreases depth, 0
  {
    if p.vertex < |g.nodes| && g.nodes[p.vertex].Process? then multiset{p}
    else if depth == 0 then multiset{}
    else Origins(g, Feeding(g.edges, Port(p.vertex, 0)), depth - 1)
  }

  /** The processors' ports that reach port `c`. */
  ghost function Reaching(g: Graph, c: Port, depth: nat): multiset<Port> {
    Origins(g, Feeding(g.edges, c), depth)
  }

  lemma {:induction false} ProcessOrigins(g: Graph, ps: seq<Port>, depth: nat)
    requires forall p :: p in ps ==> p.vertex < |g.nodes| && g.nodes[p.vertex].Process?
    ensures Origins(g, ps, depth) == multiset(ps)
  {
    if |ps| == 0 {
    } else {
      var m := |ps| - 1;
      assert ps == ps[..m] + [ps[m]];
      ProcessOrigins(g, ps[..m], depth);
    }
  }

  lemma SingleOrigin(g: Graph, t: nat, depth: nat)
    requires depth > 0 && (t < |g.nodes| ==> !g.nodes[t].Process?)
    ensures Origins(g, [Port(t, 0)], depth) == Origins(g, Feeding(g.edges, Port(t, 0)), depth - 1)
  {
    var one := [Port(t, 0)];
    assert one[..0] == [];
    assert Origins(g, one, depth) == Origins(g, one[..0], depth) + Origin(g, one[0], depth);
  }
}
