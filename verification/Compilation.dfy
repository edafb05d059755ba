/** Compiling keeps graphs acyclic, and makes no acyclic graph out of a cyclic one. */
module Compilation {
  import opened Ports
  import opened PortSets
  import opened LogicalGraph
  import opened FlowGraph
  import opened LogicalGraphBuilder
  import D = Digraph

  // ----- The relation between nodes

  /** The nodes that feed node `t`. */
  ghost function Producers(edges: seq<Edge>, t: nat): seq<nat> {
    if |edges| == 0 then [] else
      var last := edges[|edges| - 1];
      Producers(edges[..|edges| - 1], t) + if last.consumer.vertex == t then [last.producer.vertex] else []
  }

  /** Consumers point to their producers, as in the flow graph. */
  ghost function NodeGraph(g: Graph): (d: D.Graph)
    ensures |d| == |g.nodes| && forall t :: 0 <= t < |d| ==> d[t] == Producers(g.edges, t)
  {
    seq(|g.nodes|, t requires 0 <= t < |g.nodes| => Producers(g.edges, t))
  }

  lemma {:induction false} ProducersOfEdges(edges: seq<Edge>, t: nat, v: nat)
    ensures v in Producers(edges, t) <==> exists e :: e in edges && e.consumer.vertex == t && e.producer.vertex == v
  {
    if |edges| == 0 {
    } else {
      var m := |edges| - 1;
      assert edges == edges[..m] + [edges[m]];
      ProducersOfEdges(edges[..m], t, v);
    }
  }

  lemma {:induction false} FeedingAreProducers(edges: seq<Edge>, c: Port, p: Port)
    requires p in Feeding(edges, c)
    ensures exists e :: e in edges && e.consumer == c && e.producer == p
  {
    var m := |edges| - 1;
    assert edges == edges[..m] + [edges[m]];
    if p in Feeding(edges[..m], c) {
      FeedingAreProducers(edges[..m], c, p);
    }
  }

  lemma FeedingIsEdge(g: Graph, c: Port, p: Port)
    requires p in Feeding(g.edges, c) && c.vertex < |g.nodes|
    ensures D.Edge(NodeGraph(g), c.vertex, p.vertex)
  {
    FeedingAreProducers(g.edges, c, p);
    ProducersOfEdges(g.edges, c.vertex, p.vertex);
  }

  lemma NodeGraphClosed(b: Build, n: nat)
    requires WellBuilt(b, n)
    ensures D.Closed(NodeGraph(Graph(b.nodes, b.edges)))
  {
    hide Fed;
    forall t: nat, v: nat | t < |b.nodes| && v in Producers(b.edges, t) ensures v < |b.nodes| {
      ProducersOfEdges(b.edges, t, v);
    }
  }

  // ----- Ranks of the flow graph give ranks of the nodes

  /** Above all processors that feed a shared node. */
  ghost function Peak(ps: seq<Port>, rank: nat -> nat): nat {
    if |ps| == 0 then 1 else
      var front, last := Peak(ps[..|ps| - 1], rank), 4 * rank(ps[|ps| - 1].vertex) + 5;
      if front < last then last else front
  }

  lemma {:induction false} PeakIsAbove(ps: seq<Port>, rank: nat -> nat, p: Port)
    requires p in ps
    ensures 4 * rank(p.vertex) + 4 < Peak(ps, rank)
  {
    var m := |ps| - 1;
    assert ps == ps[..m] + [ps[m]];
    if p in ps[..m] {
      PeakIsAbove(ps[..m], rank, p);
    }
  }

  lemma {:induction false} PeakIsBelow(ps: seq<Port>, rank: nat -> nat, r: nat)
    requires forall p :: p in ps ==> rank(p.vertex) < r
    ensures Peak(ps, rank) + 1 < 4 * r + 4
  {
    if |ps| == 0 {
    } else {
      var m := |ps| - 1;
      assert ps == ps[..m] + [ps[m]];
      PeakIsBelow(ps[..m], rank, r);
    }
  }

  ghost function NodeRank(b: Build, rank: nat -> nat, t: nat): nat {
    if t >= |b.nodes| then 0 else
      var fed := Feeding(b.edges, Port(t, 0));
      match b.nodes[t]
      case Process(i) => 4 * rank(i) + 4
      case ValueSort => if |fed| == 0 then 1 else Peak(Feeding(b.edges, Port(fed[0].vertex, 0)), rank) + 1
      case _ => Peak(fed, rank)
  }

  /** Along the edges into nodes that are not processors. */
  lemma RankIntoNode(b: Build, vertices: seq<Vertex>, rank: nat -> nat, t: nat, p: Port)
    requires Compiled(b, vertices) && |vertices| <= t < |b.nodes| && p in Feeding(b.edges, Port(t, 0))
    ensures NodeRank(b, rank, p.vertex) < NodeRank(b, rank, t)
  {
    hide Feeding, Peak, Routed, SharedNode, Kinds;
    assert NodeFed(b, |vertices|, t);
    if !b.nodes[t].ValueSort? {
      PeakIsAbove(Feeding(b.edges, Port(t, 0)), rank, p);
    }
  }

  lemma SourceRanks(vertices: seq<Vertex>, rank: nat -> nat, i: nat, j: nat, p: Port)
    requires D.Ranked(SourceGraph(vertices), rank) && HasPort(vertices, i, j) && p in vertices[i].sources[j]
    ensures rank(p.vertex) < rank(i)
  {
    var src := vertices[i].sources[j];
    var k :| 0 <= k < |src| && src[k] == p;
    SourceIdsMembers(vertices[i].sources, p.vertex);
    assert D.Edge(SourceGraph(vertices), i, p.vertex);
  }

  lemma KeyRanks(vertices: seq<Vertex>, rank: nat -> nat, i: nat, j: nat)
    requires D.Ranked(SourceGraph(vertices), rank) && HasPort(vertices, i, j)
    ensures Peak(Key(vertices, i, j), rank) + 1 < 4 * rank(i) + 4
  {
    forall p | p in Key(vertices, i, j) ensures rank(p.vertex) < rank(i) {
      assert p in multiset(Key(vertices, i, j));
      assert p in vertices[i].sources[j];
      SourceRanks(vertices, rank, i, j, p);
    }
    PeakIsBelow(Key(vertices, i, j), rank, rank(i));
  }

  /** Along the edges into processors. */
  lemma RankIntoProcessor(b: Build, vertices: seq<Vertex>, rank: nat -> nat, i: nat, j: nat, p: Port)
    requires WellConnected(vertices) && Compiled(b, vertices) && D.Ranked(SourceGraph(vertices), rank)
    requires HasPort(vertices, i, j) && p in Feeding(b.edges, Port(i, j))
    ensures NodeRank(b, rank, p.vertex) < NodeRank(b, rank, i)
  {
    hide Feeding, Peak, Normalize, NodeFed, Kinds, D.Ranked, SourceGraph, WellConnected;
    assert Routed(b, vertices, i, j);
    KeyRanks(vertices, rank, i, j);
    SourcesAreProcessors(vertices, i, j);
    var m, key := vertices[i].inputs[j], Key(vertices, i, j);
    if m.movement.OneToOne? {
      SourceRanks(vertices, rank, i, j, p);
    } else if m.movement.Broadcast? {
      assert SharedNode(b, |vertices|, key, b.gathers[key], Gather);
    } else {
      assert SharedNode(b, |vertices|, key, b.shuffles[key], Shuffle);
    }
  }

  lemma RanksCompile(b: Build, vertices: seq<Vertex>, rank: nat -> nat)
    requires WellConnected(vertices) && Compiled(b, vertices) && D.Ranked(SourceGraph(vertices), rank)
    ensures D.Ranked(NodeGraph(Graph(b.nodes, b.edges)), (t: nat) => NodeRank(b, rank, t))
  {
    hide Feeding, Routed, Kinds, SourceGraph, WellConnected, NodeRank, Fed;
    var g := Graph(b.nodes, b.edges);
    forall t: nat, v: nat | D.Edge(NodeGraph(g), t, v) ensures NodeRank(b, rank, v) < NodeRank(b, rank, t) {
      ProducersOfEdges(b.edges, t, v);
      var e :| e in b.edges && e.consumer.vertex == t && e.producer.vertex == v;
      EdgesFeed(b.edges, e);
      if t >= |vertices| {
        RankIntoNode(b, vertices, rank, t, e.producer);
      } else {
        assert HasPort(vertices, t, e.consumer.port);
        RankIntoProcessor(b, vertices, rank, t, e.consumer.port, e.producer);
      }
    }
  }

  // ----- Ranks of the nodes give ranks of the flow graph

  /** The rank falls from a processor to each of its sources. */
  lemma RankThroughNodes(b: Build, vertices: seq<Vertex>, rank: nat -> nat, i: nat, j: nat, p: Port)
    requires WellConnected(vertices) && Compiled(b, vertices) && D.Ranked(NodeGraph(Graph(b.nodes, b.edges)), rank)
    requires HasPort(vertices, i, j) && p in vertices[i].sources[j]
    ensures rank(p.vertex) < rank(i)
  {
    hide Feeding, Normalize, NodeFed, Kinds, SourceGraph, WellConnected, NodeGraph;
    var g, m, key := Graph(b.nodes, b.edges), vertices[i].inputs[j], Key(vertices, i, j);
    assert Routed(b, vertices, i, j);
    assert p in multiset(key) && p in key;
    if m.movement.OneToOne? {
      FeedingIsEdge(g, Port(i, j), p);
    } else if m.movement.Broadcast? {
      assert SharedNode(b, |vertices|, key, b.gathers[key], Gather);
      FeedingIsEdge(g, Port(b.gathers[key], 0), p);
      FeedingIsEdge(g, Port(i, j), Port(b.gathers[key], 0));
    } else {
      var t := b.shuffles[key];
      assert SharedNode(b, |vertices|, key, t, Shuffle);
      FeedingIsEdge(g, Port(t, 0), p);
      if m.sorted {
        var s: nat :| |vertices| <= s < |b.nodes| && Feeding(b.edges, Port(i, j)) == [Port(s, 0)]
          && Feeding(b.edges, Port(s, 0)) == [Port(t, 0)];
        FeedingIsEdge(g, Port(s, 0), Port(t, 0));
        FeedingIsEdge(g, Port(i, j), Port(s, 0));
      } else {
        FeedingIsEdge(g, Port(i, j), Port(t, 0));
      }
    }
  }

  lemma RanksDecompile(b: Build, vertices: seq<Vertex>, rank: nat -> nat)
    requires WellConnected(vertices) && Compiled(b, vertices) && D.Ranked(NodeGraph(Graph(b.nodes, b.edges)), rank)
    ensures D.Ranked(SourceGraph(vertices), rank)
  {
    hide Compiled, NodeGraph, WellConnected;
    forall i: nat, v: nat | D.Edge(SourceGraph(vertices), i, v) ensures rank(v) < rank(i) {
      SourceIdsMembers(vertices[i].sources, v);
      var j, k :| 0 <= j < |vertices[i].sources| && 0 <= k < |vertices[i].sources[j]|
        && vertices[i].sources[j][k].vertex == v;
      assert |vertices[i].sources| == |vertices[i].inputs| by { PortCount(vertices, i); }
      RankThroughNodes(b, vertices, rank, i, j, vertices[i].sources[j][k]);
    }
  }

  /** The logical graph is acyclic exactly when the flow graph is. */
  lemma CompilationKeepsCycles(b: Build, vertices: seq<Vertex>)
    requires WellConnected(vertices) && Compiled(b, vertices)
    ensures D.Cyclic(NodeGraph(Graph(b.nodes, b.edges))) <==> D.Cyclic(SourceGraph(vertices))
  {
    var g := Graph(b.nodes, b.edges);
    SourceGraphClosed(vertices);
    NodeGraphClosed(b, |vertices|);
    hide WellConnected, Compiled, NodeGraph, SourceGraph, D.Ranked;
    D.AcyclicIffRanked(SourceGraph(vertices));
    D.AcyclicIffRanked(NodeGraph(g));
    if rank: nat -> nat :| D.Ranked(SourceGraph(vertices), rank) {
      RanksCompile(b, vertices, rank);
    }
    if rank: nat -> nat :| D.Ranked(NodeGraph(g), rank) {
      RanksDecompile(b, vertices, rank);
    }
  }
}
