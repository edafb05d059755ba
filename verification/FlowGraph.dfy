/** The user's flow graph: validated edges and the search for cycles. */
module FlowGraph {
  import opened Ports
  import opened Digraph

  // ----- Edges

  ghost predicate IsOutput(vertices: seq<Vertex>, p: Port) {
    p.vertex < |vertices| && p.port < |vertices[p.vertex].outputs|
  }

  ghost predicate IsInput(vertices: seq<Vertex>, p: Port) {
    p.vertex < |vertices| && p.port < |vertices[p.vertex].inputs|
  }

  /** A scatter-gather port only takes producers with keys. */
  ghost predicate Compatible(vertices: seq<Vertex>, producer: Port, consumer: Port)
    requires IsOutput(vertices, producer) && IsInput(vertices, consumer)
  {
    vertices[consumer.vertex].inputs[consumer.port].movement.ScatterGather? ==>
      vertices[producer.vertex].outputs[producer.port].hasKey
  }

  /** Every recorded source is a port that exists and suits its consumer. */
  ghost predicate WellConnected(vertices: seq<Vertex>) {
    && (forall i :: 0 <= i < |vertices| ==> |vertices[i].sources| == |vertices[i].inputs|)
    && (forall i: nat, j: nat, k: nat ::
          i < |vertices| && j < |vertices[i].sources| && k < |vertices[i].sources[j]| ==>
          && IsOutput(vertices, vertices[i].sources[j][k]) && IsInput(vertices, Port(i, j))
          && Compatible(vertices, vertices[i].sources[j][k], Port(i, j)))
  }

  function WithEdge(vertices: seq<Vertex>, producer: Port, consumer: Port): seq<Vertex>
    requires consumer.vertex < |vertices| && consumer.port < |vertices[consumer.vertex].sources|
  {
    var v := vertices[consumer.vertex];
    vertices[consumer.vertex := v.(sources := v.sources[consumer.port := v.sources[consumer.port] + [producer]])]
  }

  datatype AddEdgeResult = Added | InvalidDescriptor | MismatchedPorts

  // ----- Sequences of calls

  datatype Call = NewVertex(inputs: seq<InputPort>, outputs: seq<OutputPort>) | NewEdge(producer: Port, consumer: Port)

  ghost predicate Accepted(vertices: seq<Vertex>, producer: Port, consumer: Port) {
    IsOutput(vertices, producer) && IsInput(vertices, consumer) && Compatible(vertices, producer, consumer)
  }

  ghost function AfterCall(vertices: seq<Vertex>, call: Call): seq<Vertex>
    requires WellConnected(vertices)
  {
    match call
    case NewVertex(inputs, outputs) => vertices + [Vertex(inputs, outputs, seq(|inputs|, _ => []))]
    case NewEdge(producer, consumer) =>
      if Accepted(vertices, producer, consumer) then WithEdge(vertices, producer, consumer) else vertices
  }

  /** The graph after a sequence of calls on an empty one. */
  ghost function Built(calls: seq<Call>): (vertices: seq<Vertex>)
    ensures WellConnected(vertices)
  {
    if |calls| == 0 then [] else
      var before, call := Built(calls[..|calls| - 1]), calls[|calls| - 1];
      CallKeepsConnections(before, call);
      AfterCall(before, call)
  }

  lemma CallKeepsConnections(vertices: seq<Vertex>, call: Call)
    requires WellConnected(vertices)
    ensures WellConnected(AfterCall(vertices, call))
  {
    if call.NewVertex? {
      var v := Vertex(call.inputs, call.outputs, seq(|call.inputs|, _ => []));
      VertexKeepsConnections(vertices, v);
    } else if Accepted(vertices, call.producer, call.consumer) {
      EdgeKeepsConnections(vertices, call.producer, call.consumer);
    }
  }

  /** The producers of the accepted calls for a port, in the order of the calls. */
  ghost function AcceptedProducers(calls: seq<Call>, c: Port): seq<Port> {
    if |calls| == 0 then [] else
      var front, call := calls[..|calls| - 1], calls[|calls| - 1];
      AcceptedProducers(front, c) +
        if call.NewEdge? && call.consumer == c && Accepted(Built(front), call.producer, c) then [call.producer] else []
  }

  /** The sources of a port are exactly the producers of its accepted calls, in order and with multiplicity. */
  lemma {:induction false} SourcesAreAccepted(calls: seq<Call>, i: nat, j: nat)
    requires i < |Built(calls)| && j < |Built(calls)[i].sources|
    ensures Built(calls)[i].sources[j] == AcceptedProducers(calls, Port(i, j))
  {
    var front, call := calls[..|calls| - 1], calls[|calls| - 1];
    var before := Built(front);
    if i < |before| {
      assert |before[i].sources| == |Built(calls)[i].sources|;
      SourcesAreAccepted(front, i, j);
    } else {
      NothingAccepted(front, Port(i, j));
    }
  }

  /** No edge is accepted into a port that is not there. */
  lemma {:induction false} NothingAccepted(calls: seq<Call>, c: Port)
    requires c.vertex >= |Built(calls)|
    ensures AcceptedProducers(calls, c) == []
  {
    if |calls| == 0 {
    } else {
      NothingAccepted(calls[..|calls| - 1], c);
    }
  }

  // ----- The graph of source relations

  function VertexIds(ports: seq<Port>): (ids: seq<nat>)
    ensures |ids| == |ports| && forall k :: 0 <= k < |ports| ==> ids[k] == ports[k].vertex
  {
    seq(|ports|, k requires 0 <= k < |ports| => ports[k].vertex)
  }

  function SourceIds(sources: seq<seq<Port>>): seq<nat> {
    if |sources| == 0 then [] else SourceIds(sources[..|sources| - 1]) + VertexIds(sources[|sources| - 1])
  }

  /** Consumers point to their producers. */
  function SourceGraph(vertices: seq<Vertex>): (g: Graph)
    ensures |g| == |vertices| && forall u :: 0 <= u < |g| ==> g[u] == SourceIds(vertices[u].sources)
  {
    seq(|vertices|, u requires 0 <= u < |vertices| => SourceIds(vertices[u].sources))
  }

  lemma {:induction false} SourceIdsMembers(sources: seq<seq<Port>>, w: nat)
    ensures w in SourceIds(sources) <==>
      exists j, k :: 0 <= j < |sources| && 0 <= k < |sources[j]| && sources[j][k].vertex == w
  {
    if |sources| == 0 {
    } else {
      var m := |sources| - 1;
      SourceIdsMembers(sources[..m], w);
      if w in VertexIds(sources[m]) {
        var k :| 0 <= k < |sources[m]| && VertexIds(sources[m])[k] == w;
        assert sources[m][k].vertex == w;
      }
      if j, k :| 0 <= j < |sources| && 0 <= k < |sources[j]| && sources[j][k].vertex == w {
        if j == m {
          assert VertexIds(sources[m])[k] == w;
        } else {
          assert sources[..m][j][k].vertex == w;
        }
      }
    }
  }

  lemma SourceGraphClosed(vertices: seq<Vertex>)
    requires WellConnected(vertices)
    ensures Closed(SourceGraph(vertices))
  {
    forall u: nat, w: nat | u < |vertices| && w in SourceGraph(vertices)[u] ensures w < |vertices| {
      SourceIdsMembers(vertices[u].sources, w);
      var j, k :| 0 <= j < |vertices[u].sources| && 0 <= k < |vertices[u].sources[j]|
        && vertices[u].sources[j][k].vertex == w;
      assert IsOutput(vertices, vertices[u].sources[j][k]);
    }
  }

  // ----- The search

  /** `stack` is the path being explored, `order` the vertices left behind, successors first; `done` marks
      both and `inStack` the first. */
  ghost predicate Searching(g: Graph, done: seq<bool>, inStack: seq<bool>, stack: seq<nat>, order: seq<nat>) {
    && |done| == |inStack| == |g|
    && Path(g, stack) && Ordered(g, order) && Distinct(order + stack)
    && (forall v: nat :: v < |g| ==> (inStack[v] <==> v in stack))
    && (forall v: nat :: v < |g| ==> (done[v] <==> v in order || v in stack))
  }

  lemma Repeated(g: Graph, stack: seq<nat>, u: nat)
    requires Path(g, stack) && u in stack && Edge(g, stack[|stack| - 1], u)
    ensures Cyclic(g)
  {
    var i :| 0 <= i < |stack| && stack[i] == u;
    assert Cycle(g, stack[i..]);
  }

  lemma Entered(g: Graph, done: seq<bool>, inStack: seq<bool>, stack: seq<nat>, order: seq<nat>, u: nat)
    requires Searching(g, done, inStack, stack, order) && u < |g| && !done[u]
    requires |stack| > 0 ==> Edge(g, stack[|stack| - 1], u)
    ensures Searching(g, done[u := true], inStack[u := true], stack + [u], order)
    ensures |order| + |stack| < |g|
  {
    assert order + (stack + [u]) == order + stack + [u];
    forall i | 0 <= i < |order + stack| ensures (order + stack)[i] != u && (order + stack)[i] < |g| {
      if i < |order| {
        assert order[i] in order;
      } else {
        assert stack[i - |order|] in stack;
      }
    }
    Pigeonhole(order + stack + [u], |g|);
  }

  /** All successors of `u` are ordered: `u` can be, too. */
  lemma Left(g: Graph, done: seq<bool>, inStack: seq<bool>, stack: seq<nat>, order: seq<nat>, u: nat)
    requires Searching(g, done, inStack, stack + [u], order) && u < |g|
    requires forall w: nat :: w in g[u] ==> w in order
    ensures Searching(g, done, inStack[u := false], stack, order + [u])
  {
    var all := order + (stack + [u]);
    var p := stack + [u];
    assert forall i :: 0 <= i < |p| ==> all[|order| + i] == p[i];
    forall i | 0 < i < |stack| ensures Edge(g, stack[i - 1], stack[i]) {
      assert p[i] == stack[i] && p[i - 1] == stack[i - 1];
    }
    forall i | 0 <= i < |stack| ensures stack[i] < |g| && stack[i] != u {
      assert p[i] == stack[i] && p[|stack|] == u;
      assert all[|order| + i] != all[|order| + |stack|];
    }
    forall i | 0 <= i < |order| ensures order[i] != u {
      assert all[i] == order[i] && all[|order| + |stack|] == p[|stack|] == u;
    }
    OrderedNext(g, order, u);
    DistinctSwap(order, stack, u);
  }

  lemma OrderedNext(g: Graph, order: seq<nat>, u: nat)
    requires Ordered(g, order) && u < |g| && u !in order && forall w: nat :: w in g[u] ==> w in order
    ensures Ordered(g, order + [u])
  {
    var longer := order + [u];
    forall i: nat, w: nat | i < |longer| && w in g[longer[i]] ensures w in longer[..i] {
      assert longer[..i] == if i < |order| then order[..i] else order;
    }
  }

  lemma DistinctSwap(order: seq<nat>, stack: seq<nat>, u: nat)
    requires Distinct(order + (stack + [u]))
    ensures Distinct(order + [u] + stack)
  {
    var a, b := order + (stack + [u]), order + [u] + stack;
    var n, m := |order|, |stack|;
    forall i, j | 0 <= i < j < |b| ensures b[i] != b[j] {
      var i' := if i < n then i else if i == n then n + m else i - 1;
      var j' := if j < n then j else if j == n then n + m else j - 1;
      assert b[i] == a[i'] && b[j] == a[j'] && i' != j';
    }
  }

  // ----- The object

  class FlowGraph {
    var vertices: seq<Vertex>

    ghost predicate Valid()
      reads this
    {
      WellConnected(vertices)
    }

    constructor ()
      ensures Valid() && vertices == []
    {
      vertices := [];
    }

    method AddVertex(inputs: seq<InputPort>, outputs: seq<OutputPort>) returns (id: nat)
      requires Valid()
      modifies this
      ensures Valid() && id == |old(vertices)|
      ensures vertices == old(vertices) + [Vertex(inputs, outputs, seq(|inputs|, _ => []))]
      ensures vertices == AfterCall(old(vertices), NewVertex(inputs, outputs))
    {
      id := |vertices|;
      ghost var was := vertices;
      vertices := vertices + [Vertex(inputs, outputs, seq(|inputs|, _ => []))];
      VertexKeepsConnections(was, vertices[id]);
    }

    method AddEdge(producer: Port, consumer: Port) returns (r: AddEdgeResult)
      requires Valid()
      modifies this
      ensures Valid()
      ensures r.InvalidDescriptor? <==> !(IsOutput(old(vertices), producer) && IsInput(old(vertices), consumer))
      ensures r.MismatchedPorts? <==>
        && IsOutput(old(vertices), producer) && IsInput(old(vertices), consumer)
        && !Compatible(old(vertices), producer, consumer)
      ensures r.Added? ==> vertices == WithEdge(old(vertices), producer, consumer)
      ensures !r.Added? ==> vertices == old(vertices)
      ensures vertices == AfterCall(old(vertices), NewEdge(producer, consumer))
      ensures r.MismatchedPorts? ==>
        && old(vertices)[consumer.vertex].inputs[consumer.port].movement.ScatterGather?
        && !old(vertices)[producer.vertex].outputs[producer.port].hasKey
      ensures r.Added? ==>
        && producer.vertex < |vertices| && producer.port < |vertices[producer.vertex].outputs|
        && consumer.vertex < |vertices| && consumer.port < |vertices[consumer.vertex].inputs|
        && (vertices[consumer.vertex].inputs[consumer.port].movement.ScatterGather? ==>
              vertices[producer.vertex].outputs[producer.port].hasKey)
      ensures r.Added? ==> |vertices| == |old(vertices)| && forall i :: 0 <= i < |vertices| ==>
        && vertices[i].inputs == old(vertices)[i].inputs && vertices[i].outputs == old(vertices)[i].outputs
        && |vertices[i].sources| == |old(vertices)[i].sources|
        && forall j: nat :: j < |vertices[i].sources| ==>
             vertices[i].sources[j] == old(vertices)[i].sources[j] + if Port(i, j) == consumer then [producer] else []
    {
      if producer.vertex >= |vertices| || producer.port >= |vertices[producer.vertex].outputs| {
        return InvalidDescriptor;
      }
      if consumer.vertex >= |vertices| || consumer.port >= |vertices[consumer.vertex].inputs| {
        return InvalidDescriptor;
      }
      var v := vertices[consumer.vertex];
      if v.inputs[consumer.port].movement.ScatterGather? && !vertices[producer.vertex].outputs[producer.port].hasKey {
        return MismatchedPorts;
      }
      EdgeKeepsConnections(vertices, producer, consumer);
      var sources := v.sources[consumer.port] + [producer];
      vertices := vertices[consumer.vertex := v.(sources := v.sources[consumer.port := sources])];
      r := Added;
    }

    /** The recursion, with the two mark arrays. `order` returns the vertices left behind so far. */
    method HasCycleRecur(done: array<bool>, inStack: array<bool>, u: nat, ghost stack: seq<nat>, ghost order: seq<nat>)
      returns (found: bool, ghost order': seq<nat>)
      requires Valid() && u < |vertices| && done != inStack
      requires Searching(SourceGraph(vertices), done[..], inStack[..], stack, order)
      requires |stack| > 0 ==> Edge(SourceGraph(vertices), stack[|stack| - 1], u)
      requires |stack| == 0 ==> !done[u]
      modifies done, inStack
      ensures found ==> Cyclic(SourceGraph(vertices))
      ensures !found ==> Searching(SourceGraph(vertices), done[..], inStack[..], stack, order')
      ensures !found ==> u in order' && order <= order'
      decreases |vertices| - |order| - |stack|
    {
      hide Searching, SourceGraph, WellConnected;
      ghost var g := SourceGraph(vertices);
      GraphFacts(vertices, u);
      MarkFacts(g, done[..], inStack[..], stack, order, u);
      if inStack[u] {
        Repeated(g, stack, u);
        return true, order;
      }
      if done[u] {
        return false, order;
      }
      Entered(g, done[..], inStack[..], stack, order, u);
      done[u] := true;
      inStack[u] := true;
      ghost var path := stack + [u];
      order' := order;
      var sources := vertices[u].sources;
      for j := 0 to |sources|
        invariant Searching(g, done[..], inStack[..], path, order') && order <= order'
        invariant forall w: nat :: w in SourceIds(sources[..j]) ==> w in order'
      {
        ghost var before := order';
        for k := 0 to |sources[j]|
          invariant Searching(g, done[..], inStack[..], path, order') && before <= order'
          invariant forall i :: 0 <= i < k ==> sources[j][i].vertex in order'
        {
          SourceFacts(vertices, u, j, k);
          found, order' := HasCycleRecur(done, inStack, sources[j][k].vertex, path, order');
          if found {
            return;
          }
        }
        SourceIdsNext(sources, j);
        assert forall w: nat :: w in SourceIds(sources[..j]) ==> w in before;
        PrefixMembers(before, order');
      }
      assert sources[..|sources|] == sources;
      Left(g, done[..], inStack[..], stack, order', u);
      inStack[u] := false;
      order' := order' + [u];
      found := false;
    }

    method HasCycle() returns (found: bool)
      requires Valid()
      ensures found <==> Cyclic(SourceGraph(vertices))
    {
      hide Searching, SourceGraph, WellConnected, Cyclic;
      ghost var g := SourceGraph(vertices);
      var n := |vertices|;
      var done, inStack := new bool[n](_ => false), new bool[n](_ => false);
      ghost var order: seq<nat> := [];
      NothingSearched(vertices, done[..], inStack[..]);
      for i := 0 to n
        invariant Searching(g, done[..], inStack[..], [], order)
        invariant forall v: nat :: v < i ==> v in order
      {
        MarkFacts(g, done[..], inStack[..], [], order, i);
        if done[i] {
          continue;
        }
        ghost var before := order;
        found, order := HasCycleRecur(done, inStack, i, [], order);
        if found {
          return;
        }
        PrefixMembers(before, order);
      }
      NoCycleLeft(g, done[..], inStack[..], order);
      found := false;
    }
  }

  // ----- What the search uses

  lemma GraphFacts(vertices: seq<Vertex>, u: nat)
    requires u < |vertices|
    ensures |SourceGraph(vertices)| == |vertices| && SourceGraph(vertices)[u] == SourceIds(vertices[u].sources)
  {}

  lemma MarkFacts(g: Graph, done: seq<bool>, inStack: seq<bool>, stack: seq<nat>, order: seq<nat>, u: nat)
    requires Searching(g, done, inStack, stack, order) && u < |g|
    ensures |done| == |inStack| == |g| && Path(g, stack)
    ensures inStack[u] <==> u in stack
    ensures done[u] <==> u in order || u in stack
  {}

  lemma SourceFacts(vertices: seq<Vertex>, u: nat, j: nat, k: nat)
    requires WellConnected(vertices) && u < |vertices| && j < |vertices[u].sources| && k < |vertices[u].sources[j]|
    ensures vertices[u].sources[j][k].vertex < |vertices|
    ensures Edge(SourceGraph(vertices), u, vertices[u].sources[j][k].vertex)
  {
    assert IsOutput(vertices, vertices[u].sources[j][k]);
    SourceIdsMembers(vertices[u].sources, vertices[u].sources[j][k].vertex);
  }

  lemma SourceIdsNext(sources: seq<seq<Port>>, j: nat)
    requires j < |sources|
    ensures SourceIds(sources[..j + 1]) == SourceIds(sources[..j]) + VertexIds(sources[j])
  {
    assert sources[..j + 1][..j] == sources[..j];
  }

  lemma PrefixMembers(a: seq<nat>, b: seq<nat>)
    requires a <= b
    ensures forall v: nat :: v in a ==> v in b
  {
    assert b == a + b[|a|..];
  }

  lemma NothingSearched(vertices: seq<Vertex>, done: seq<bool>, inStack: seq<bool>)
    requires |done| == |inStack| == |vertices|
    requires forall v :: 0 <= v < |done| ==> !done[v] && !inStack[v]
    ensures Searching(SourceGraph(vertices), done, inStack, [], [])
  {}

  lemma NoCycleLeft(g: Graph, done: seq<bool>, inStack: seq<bool>, order: seq<nat>)
    requires Searching(g, done, inStack, [], order) && forall v: nat :: v < |g| ==> v in order
    ensures !Cyclic(g)
  {
    forall p: seq<nat> ensures !Cycle(g, p) {
      if Cycle(g, p) {
        OrderedIsNotOnCycle(g, order, p);
      }
    }
  }

  lemma VertexKeepsConnections(vertices: seq<Vertex>, v: Vertex)
    requires WellConnected(vertices) && v.sources == seq(|v.inputs|, _ => [])
    ensures WellConnected(vertices + [v])
  {
  }

  lemma EdgeKeepsConnections(vertices: seq<Vertex>, producer: Port, consumer: Port)
    requires WellConnected(vertices) && IsOutput(vertices, producer) && IsInput(vertices, consumer)
    requires Compatible(vertices, producer, consumer)
    ensures WellConnected(WithEdge(vertices, producer, consumer))
  {
  }
}
