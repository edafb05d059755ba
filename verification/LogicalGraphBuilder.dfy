/** Compiling a flow graph into a logical graph with shared shuffle and gather nodes. */
module LogicalGraphBuilder {
  import opened Options
  import opened Ports
  import opened PortSets
  import opened LogicalGraph
  import opened FlowGraph

  /** The graph under construction, and the shared nodes by the normalised set of their producers. */
  datatype Build = Partial(nodes: seq<Node>, edges: seq<Edge>, shuffles: map<seq<Port>, nat>, gathers: map<seq<Port>, nat>)

  ghost predicate FromProcessors(ps: seq<Port>, n: nat) {
    forall p :: p in ps ==> p.vertex < n
  }

  ghost predicate SharedNode(b: Build, n: nat, ps: seq<Port>, t: nat, kind: Node) {
    && n <= t < |b.nodes| && b.nodes[t] == kind && FromProcessors(ps, n)
    && Feeding(b.edges, Port(t, 0)) == ps
  }

  /** Vertex `i` is node `i`; the other nodes are not processors and have one input port. */
  ghost predicate Skeleton(b: Build, n: nat) {
    && n <= |b.nodes|
    && (forall i :: 0 <= i < n ==> b.nodes[i] == Process(i))
    && (forall t :: n <= t < |b.nodes| ==> !b.nodes[t].Process?)
    && (forall e :: e in b.edges ==> e.producer.vertex < |b.nodes| && e.consumer.vertex < |b.nodes|)
    && (forall e :: e in b.edges && n <= e.consumer.vertex ==> e.consumer.port == 0)
  }

  /** Shared nodes are fed by their key, and every node that is not a processor as its kind demands. */
  ghost predicate Fed(b: Build, n: nat) {
    && (forall ps :: ps in b.shuffles ==> SharedNode(b, n, ps, b.shuffles[ps], Shuffle))
    && (forall ps :: ps in b.gathers ==> SharedNode(b, n, ps, b.gathers[ps], Gather))
    && (forall t: nat :: n <= t < |b.nodes| ==> NodeFed(b, n, t))
  }

  ghost predicate WellBuilt(b: Build, n: nat) {
    Skeleton(b, n) && Fed(b, n)
  }

  ghost predicate NodeFed(b: Build, n: nat, t: nat) {
    t < |b.nodes| &&
    if b.nodes[t].ValueSort? then
      exists s: nat :: n <= s < |b.nodes| && b.nodes[s].Shuffle? && Feeding(b.edges, Port(t, 0)) == [Port(s, 0)]
    else FromProcessors(Feeding(b.edges, Port(t, 0)), n)
  }

  /** `b` grows into `b'`; of the ports that were there, only `at` gets new producers. */
  ghost predicate GrowsAt(b: Build, b': Build, at: Port) {
    && b.nodes <= b'.nodes
    && (forall c: Port :: c.vertex < |b.nodes| && c != at ==> Feeding(b'.edges, c) == Feeding(b.edges, c))
    && (forall ps :: ps in b.shuffles ==> ps in b'.shuffles && b'.shuffles[ps] == b.shuffles[ps])
    && (forall ps :: ps in b.gathers ==> ps in b'.gathers && b'.gathers[ps] == b.gathers[ps])
  }

  ghost predicate HasPort(vertices: seq<Vertex>, i: nat, j: nat) {
    i < |vertices| && j < |vertices[i].inputs| && j < |vertices[i].sources|
  }

  ghost function Key(vertices: seq<Vertex>, i: nat, j: nat): seq<Port>
    requires HasPort(vertices, i, j)
  {
    Normalize(vertices[i].sources[j])
  }

  // ----- Adding edges and nodes

  function EdgesTo(ps: seq<Port>, c: Port, s: Successor): (edges: seq<Edge>)
    ensures |edges| == |ps| && forall i :: 0 <= i < |ps| ==> edges[i] == Edge(ps[i], c, s)
  {
    seq(|ps|, i requires 0 <= i < |ps| => Edge(ps[i], c, s))
  }

  lemma {:induction false} FedBy(edges: seq<Edge>, ps: seq<Port>, at: Port, s: Successor, c: Port)
    ensures Feeding(edges + EdgesTo(ps, at, s), c) == Feeding(edges, c) + if c == at then ps else []
  {
    hide Feeding;
    if |ps| == 0 {
      assert edges + EdgesTo(ps, at, s) == edges;
    } else {
      var front, last := ps[..|ps| - 1], ps[|ps| - 1];
      FedBy(edges, front, at, s, c);
      assert EdgesTo(ps, at, s) == EdgesTo(front, at, s) + [Edge(last, at, s)];
      Associate(edges, EdgesTo(front, at, s), Edge(last, at, s));
      FeedingNext(edges + EdgesTo(front, at, s), Edge(last, at, s), c);
      Associate(Feeding(edges, c), front, last);
      assert ps == front + [last];
    }
  }

  lemma Associate<T>(a: seq<T>, b: seq<T>, x: T)
    ensures a + (b + [x]) == (a + b) + [x]
  {}

  lemma NewNodeUnfed(b: Build, n: nat, c: Port)
    requires Skeleton(b, n) && c.vertex >= |b.nodes|
    ensures Feeding(b.edges, c) == []
  {
    NothingFed(b.edges, c);
  }

  lemma GrowthKeepsNodes(b: Build, b': Build, n: nat, at: Port)
    requires Fed(b, n) && GrowsAt(b, b', at) && (at.vertex < n || at.vertex >= |b.nodes|)
    ensures forall ps :: ps in b.shuffles ==> SharedNode(b', n, ps, b.shuffles[ps], Shuffle)
    ensures forall ps :: ps in b.gathers ==> SharedNode(b', n, ps, b.gathers[ps], Gather)
    ensures forall t: nat :: n <= t < |b.nodes| ==> NodeFed(b', n, t)
  {
    hide Feeding;
    forall ps | ps in b.shuffles ensures SharedNode(b', n, ps, b.shuffles[ps], Shuffle) {
      assert SharedNode(b, n, ps, b.shuffles[ps], Shuffle);
    }
    forall ps | ps in b.gathers ensures SharedNode(b', n, ps, b.gathers[ps], Gather) {
      assert SharedNode(b, n, ps, b.gathers[ps], Gather);
    }
    forall t: nat | n <= t < |b.nodes| ensures NodeFed(b', n, t) {
      assert NodeFed(b, n, t);
    }
  }

  /** What a new node may be fed by. */
  ghost predicate MayFeed(b: Build, n: nat, kind: Node, ps: seq<Port>) {
    match kind
    case Process(_) => false
    case ValueSort => exists s: nat :: n <= s < |b.nodes| && b.nodes[s].Shuffle? && ps == [Port(s, 0)]
    case _ => FromProcessors(ps, n)
  }

  /** `b` with a new node fed by `ps`. */
  function WithNode(b: Build, kind: Node, ps: seq<Port>, s: Successor): Build {
    b.(nodes := b.nodes + [kind], edges := b.edges + EdgesTo(ps, Port(|b.nodes|, 0), s))
  }

  lemma NodeAdded(b: Build, n: nat, kind: Node, ps: seq<Port>, s: Successor)
    requires WellBuilt(b, n) && MayFeed(b, n, kind, ps)
    ensures WellBuilt(WithNode(b, kind, ps, s), n)
    ensures GrowsAt(b, WithNode(b, kind, ps, s), Port(|b.nodes|, 0))
    ensures Feeding(WithNode(b, kind, ps, s).edges, Port(|b.nodes|, 0)) == ps
  {
    hide Skeleton, Fed, NodeFed, MayFeed, GrowsAt, WithNode;
    NewNodeUnfed(b, n, Port(|b.nodes|, 0));
    NodeGrows(b, kind, ps, s);
    NodeKeepsSkeleton(b, n, kind, ps, s);
    assert n <= |b.nodes| by { EnoughNodes(b, n); }
    NodeIsFed(b, n, kind, ps, s);
  }

  lemma EnoughNodes(b: Build, n: nat)
    requires Skeleton(b, n)
    ensures n <= |b.nodes|
  {}

  lemma NodeGrows(b: Build, kind: Node, ps: seq<Port>, s: Successor)
    requires Feeding(b.edges, Port(|b.nodes|, 0)) == []
    ensures GrowsAt(b, WithNode(b, kind, ps, s), Port(|b.nodes|, 0))
    ensures Feeding(WithNode(b, kind, ps, s).edges, Port(|b.nodes|, 0)) == ps
  {
    hide Feeding, EdgesTo;
    var b', at := WithNode(b, kind, ps, s), Port(|b.nodes|, 0);
    forall c: Port ensures Feeding(b'.edges, c) == Feeding(b.edges, c) + if c == at then ps else [] {
      FedBy(b.edges, ps, at, s, c);
    }
  }

  lemma NodeKeepsSkeleton(b: Build, n: nat, kind: Node, ps: seq<Port>, s: Successor)
    requires Skeleton(b, n) && MayFeed(b, n, kind, ps)
    ensures Skeleton(WithNode(b, kind, ps, s), n)
  {
    hide NodeFed, SharedNode;
    NewEdges(b, WithNode(b, kind, ps, s), n, ps, Port(|b.nodes|, 0), s);
  }

  lemma NodeIsFed(b: Build, n: nat, kind: Node, ps: seq<Port>, s: Successor)
    requires Fed(b, n) && MayFeed(b, n, kind, ps) && n <= |b.nodes|
    requires GrowsAt(b, WithNode(b, kind, ps, s), Port(|b.nodes|, 0))
    requires Feeding(WithNode(b, kind, ps, s).edges, Port(|b.nodes|, 0)) == ps
    ensures Fed(WithNode(b, kind, ps, s), n)
  {
    hide Feeding;
    var b' := WithNode(b, kind, ps, s);
    GrowthKeepsNodes(b, b', n, Port(|b.nodes|, 0));
    assert NodeFed(b', n, |b.nodes|);
    hide NodeFed, SharedNode;
  }

  lemma NewEdges(b: Build, b': Build, n: nat, ps: seq<Port>, at: Port, s: Successor)
    requires Skeleton(b, n) && |b.nodes| <= |b'.nodes| && b'.edges == b.edges + EdgesTo(ps, at, s)
    requires forall p :: p in ps ==> p.vertex < |b'.nodes|
    requires at.vertex < |b'.nodes| && (n <= at.vertex ==> at.port == 0)
    ensures forall e :: e in b'.edges ==> e.producer.vertex < |b'.nodes| && e.consumer.vertex < |b'.nodes|
    ensures forall e :: e in b'.edges && n <= e.consumer.vertex ==> e.consumer.port == 0
  {
    hide NodeFed, SharedNode;
    forall e | e in b'.edges
      ensures e.producer.vertex < |b'.nodes| && e.consumer.vertex < |b'.nodes|
      ensures n <= e.consumer.vertex ==> e.consumer.port == 0
    {
      if e !in b.edges {
        assert e in EdgesTo(ps, at, s);
        var i :| 0 <= i < |ps| && e == EdgesTo(ps, at, s)[i];
        assert ps[i] in ps;
      }
    }
  }

  /** `b` with `ps` connected to port `at` of a processor. */
  function WithEdges(b: Build, ps: seq<Port>, at: Port, s: Successor): Build {
    b.(edges := b.edges + EdgesTo(ps, at, s))
  }

  lemma EdgesAdded(b: Build, n: nat, ps: seq<Port>, at: Port, s: Successor)
    requires WellBuilt(b, n) && at.vertex < n && forall p :: p in ps ==> p.vertex < |b.nodes|
    ensures WellBuilt(WithEdges(b, ps, at, s), n) && GrowsAt(b, WithEdges(b, ps, at, s), at)
    ensures Feeding(WithEdges(b, ps, at, s).edges, at) == Feeding(b.edges, at) + ps
  {
    var b' := WithEdges(b, ps, at, s);
    hide Feeding, NodeFed, SharedNode;
    forall c: Port ensures Feeding(b'.edges, c) == Feeding(b.edges, c) + if c == at then ps else [] {
      FedBy(b.edges, ps, at, s, c);
    }
    assert GrowsAt(b, b', at);
    GrowthKeepsNodes(b, b', n, at);
    NewEdges(b, b', n, ps, at, s);
  }

  lemma HasAllVertices(b: Build, n: nat)
    requires WellBuilt(b, n)
    ensures n <= |b.nodes|
  {}

  lemma Registered(b: Build, n: nat, ps: seq<Port>, t: nat)
    requires WellBuilt(b, n) && n <= t < |b.nodes| && FromProcessors(ps, n) && Feeding(b.edges, Port(t, 0)) == ps
    ensures b.nodes[t].Shuffle? ==> WellBuilt(b.(shuffles := b.shuffles[ps := t]), n)
    ensures b.nodes[t].Gather? ==> WellBuilt(b.(gathers := b.gathers[ps := t]), n)
  {
    hide Feeding, NodeFed;
    var b1, b2 := b.(shuffles := b.shuffles[ps := t]), b.(gathers := b.gathers[ps := t]);
    if b.nodes[t].Shuffle? {
      RegisteredShuffle(b, b1, n, ps, t);
    }
    if b.nodes[t].Gather? {
      RegisteredGather(b, b2, n, ps, t);
    }
  }

  lemma SameNodesFed(b: Build, b': Build, n: nat)
    requires Fed(b, n) && b'.nodes == b.nodes && b'.edges == b.edges
    ensures forall u: nat :: n <= u < |b.nodes| ==> NodeFed(b', n, u)
    ensures forall qs, u: nat, k :: SharedNode(b, n, qs, u, k) ==> SharedNode(b', n, qs, u, k)
  {
    hide Feeding;
    forall u: nat | n <= u < |b.nodes| ensures NodeFed(b', n, u) {
      assert NodeFed(b, n, u);
    }
  }

  lemma RegisteredShuffle(b: Build, b': Build, n: nat, ps: seq<Port>, t: nat)
    requires WellBuilt(b, n) && SharedNode(b, n, ps, t, Shuffle) && b' == b.(shuffles := b.shuffles[ps := t])
    ensures WellBuilt(b', n)
  {
    SameNodesFed(b, b', n);
    hide Feeding, NodeFed, SharedNode;
  }

  lemma RegisteredGather(b: Build, b': Build, n: nat, ps: seq<Port>, t: nat)
    requires WellBuilt(b, n) && SharedNode(b, n, ps, t, Gather) && b' == b.(gathers := b.gathers[ps := t])
    ensures WellBuilt(b', n)
  {
    SameNodesFed(b, b', n);
    hide Feeding, NodeFed, SharedNode;
  }

  // ----- How the ports of processors are connected

  /** Port `j` of vertex `i` is connected as its movement demands. */
  ghost predicate Routed(b: Build, vertices: seq<Vertex>, i: nat, j: nat) {
    HasPort(vertices, i, j) &&
    var key, fed := Key(vertices, i, j), Feeding(b.edges, Port(i, j));
    match vertices[i].inputs[j].movement
    case OneToOne => fed == vertices[i].sources[j]
    case Broadcast => key in b.gathers && fed == [Port(b.gathers[key], 0)]
    case _ =>
      && key in b.shuffles
      && if vertices[i].inputs[j].sorted then SortedFeed(b, |vertices|, fed, b.shuffles[key])
         else fed == [Port(b.shuffles[key], 0)]
  }

  ghost predicate SortedFeed(b: Build, n: nat, fed: seq<Port>, shuffle: nat) {
    exists s: nat :: n <= s < |b.nodes| && b.nodes[s].ValueSort? && fed == [Port(s, 0)]
      && Feeding(b.edges, Port(s, 0)) == [Port(shuffle, 0)]
  }

  lemma RoutedKept(b: Build, b': Build, vertices: seq<Vertex>, at: Port, i: nat, j: nat)
    requires Routed(b, vertices, i, j) && GrowsAt(b, b', at) && Port(i, j) != at && at.vertex < |vertices| <= |b.nodes|
    ensures Routed(b', vertices, i, j)
  {
    hide Feeding;
    var fed := Feeding(b.edges, Port(i, j));
    assert Feeding(b'.edges, Port(i, j)) == fed;
    var m, key := vertices[i].inputs[j], Key(vertices, i, j);
    if !m.movement.OneToOne? && !m.movement.Broadcast? && m.sorted {
      var s: nat :| |vertices| <= s < |b.nodes| && b.nodes[s].ValueSort? && fed == [Port(s, 0)]
        && Feeding(b.edges, Port(s, 0)) == [Port(b.shuffles[key], 0)];
      assert b'.nodes[s] == b.nodes[s];
      assert SortedFeed(b', |vertices|, fed, b'.shuffles[key]);
    }
  }

  lemma SourcesAreProcessors(vertices: seq<Vertex>, i: nat, j: nat)
    requires WellConnected(vertices) && HasPort(vertices, i, j)
    ensures FromProcessors(vertices[i].sources[j], |vertices|) && FromProcessors(Key(vertices, i, j), |vertices|)
  {
    var src := vertices[i].sources[j];
    forall p | p in src ensures p.vertex < |vertices| {
      var k: nat :| k < |src| && src[k] == p;
      assert IsOutput(vertices, vertices[i].sources[j][k]);
    }
    forall p | p in Key(vertices, i, j) ensures p in src {
      assert p in multiset(Key(vertices, i, j));
    }
  }

  /** Exactly the flow graph's sources reach a routed port, with multiplicity, although the nodes on the
      way are shared. */
  lemma RoutingPreserved(b: Build, vertices: seq<Vertex>, i: nat, j: nat, depth: nat)
    requires WellConnected(vertices) && WellBuilt(b, |vertices|) && Routed(b, vertices, i, j) && depth >= 2
    ensures Reaching(Graph(b.nodes, b.edges), Port(i, j), depth) == multiset(vertices[i].sources[j])
  {
    hide Feeding, Origins, WellConnected, NodeFed;
    var g, key := Graph(b.nodes, b.edges), Key(vertices, i, j);
    var m := vertices[i].inputs[j];
    SourcesAreProcessors(vertices, i, j);
    ProcessOrigins(g, vertices[i].sources[j], depth);
    ProcessOrigins(g, key, depth - 1);
    ProcessOrigins(g, key, depth - 2);
    if m.movement.Broadcast? {
      assert SharedNode(b, |vertices|, key, b.gathers[key], Gather);
      SingleOrigin(g, b.gathers[key], depth);
    } else if !m.movement.OneToOne? {
      var t := b.shuffles[key];
      assert SharedNode(b, |vertices|, key, t, Shuffle);
      SingleOrigin(g, t, depth);
      if m.sorted {
        var s: nat :| |vertices| <= s < |b.nodes| && b.nodes[s].ValueSort?
          && Feeding(b.edges, Port(i, j)) == [Port(s, 0)] && Feeding(b.edges, Port(s, 0)) == [Port(t, 0)];
        SingleOrigin(g, s, depth);
        SingleOrigin(g, t, depth - 1);
      }
    }
  }

  /** Two ports share a shuffle node exactly when they have the same producers. */
  lemma SharedIffSameProducers(b: Build, vertices: seq<Vertex>, i: nat, j: nat, k: nat, l: nat)
    requires WellBuilt(b, |vertices|) && HasPort(vertices, i, j) && HasPort(vertices, k, l)
    requires Key(vertices, i, j) in b.shuffles && Key(vertices, k, l) in b.shuffles
    ensures b.shuffles[Key(vertices, i, j)] == b.shuffles[Key(vertices, k, l)]
      <==> multiset(vertices[i].sources[j]) == multiset(vertices[k].sources[l])
  {
    hide Feeding, NodeFed, Normalize;
    SameKeyIffSamePorts(vertices[i].sources[j], vertices[k].sources[l]);
    var a, c := Key(vertices, i, j), Key(vertices, k, l);
    assert SharedNode(b, |vertices|, a, b.shuffles[a], Shuffle);
    assert SharedNode(b, |vertices|, c, b.shuffles[c], Shuffle);
  }

  // ----- Which task waits

  function NodeSuccessor(kind: Node): Successor {
    match kind
    case Gather => Entry
    case ValueSort => Terminal
    case _ => Barrier
  }

  /** A broadcast port has to be complete before the processor is initialised. */
  function PortSuccessor(vertices: seq<Vertex>, c: Port): Successor {
    if c.vertex < |vertices| && c.port < |vertices[c.vertex].inputs| && vertices[c.vertex].inputs[c.port].movement.Broadcast?
    then Entry else Barrier
  }

  function Awaited(nodes: seq<Node>, vertices: seq<Vertex>, c: Port): Successor
    requires c.vertex < |nodes|
  {
    if c.vertex < |vertices| then PortSuccessor(vertices, c) else NodeSuccessor(nodes[c.vertex])
  }

  ghost predicate Kinds(b: Build, vertices: seq<Vertex>) {
    forall e :: e in b.edges ==> e.consumer.vertex < |b.nodes| && e.successor == Awaited(b.nodes, vertices, e.consumer)
  }

  lemma NodeKinds(b: Build, vertices: seq<Vertex>, kind: Node, ps: seq<Port>)
    requires Kinds(b, vertices) && |vertices| <= |b.nodes|
    ensures Kinds(WithNode(b, kind, ps, NodeSuccessor(kind)), vertices)
  {
    var b' := WithNode(b, kind, ps, NodeSuccessor(kind));
    var more := EdgesTo(ps, Port(|b.nodes|, 0), NodeSuccessor(kind));
    forall e | e in b'.edges
      ensures e.consumer.vertex < |b'.nodes| && e.successor == Awaited(b'.nodes, vertices, e.consumer)
    {
      assert e in b.edges || e in more;
    }
  }

  lemma EdgeKinds(b: Build, vertices: seq<Vertex>, ps: seq<Port>, at: Port)
    requires Kinds(b, vertices) && at.vertex < |vertices| <= |b.nodes|
    ensures Kinds(WithEdges(b, ps, at, PortSuccessor(vertices, at)), vertices)
  {
    var b' := WithEdges(b, ps, at, PortSuccessor(vertices, at));
    var more := EdgesTo(ps, at, PortSuccessor(vertices, at));
    forall e | e in b'.edges
      ensures e.consumer.vertex < |b'.nodes| && e.successor == Awaited(b'.nodes, vertices, e.consumer)
    {
      assert e in b.edges || e in more;
    }
  }

  lemma LookupsKeepKinds(b: Build, vertices: seq<Vertex>)
    requires Kinds(b, vertices)
    ensures forall m :: Kinds(b.(shuffles := m), vertices) && Kinds(b.(gathers := m), vertices)
  {}

  // ----- Progress of the loops over all input ports

  ghost predicate Earlier(a: nat, c: nat, i: nat, j: nat) {
    a < i || (a == i && c < j)
  }

  /** The nodes that the ports before (`i`, `j`) will look up exist, and no others. */
  ghost predicate NodesUpTo(b: Build, vertices: seq<Vertex>, i: nat, j: nat) {
    && (forall a: nat, c: nat :: HasPort(vertices, a, c) && Earlier(a, c, i, j) ==>
          && (vertices[a].inputs[c].movement.ScatterGather? ==> Key(vertices, a, c) in b.shuffles)
          && (vertices[a].inputs[c].movement.Broadcast? ==> Key(vertices, a, c) in b.gathers))
    && (forall ps :: ps in b.shuffles ==> exists a: nat, c: nat :: ShufflePort(vertices, a, c, ps))
  }

  ghost predicate ShufflePort(vertices: seq<Vertex>, a: nat, c: nat, ps: seq<Port>) {
    HasPort(vertices, a, c) && vertices[a].inputs[c].movement.ScatterGather? && Key(vertices, a, c) == ps
  }

  /** The ports before (`i`, `j`) are routed, the others are not connected. */
  ghost predicate ConnectedUpTo(b: Build, vertices: seq<Vertex>, i: nat, j: nat) {
    && (forall a: nat, c: nat :: HasPort(vertices, a, c) && Earlier(a, c, i, j) ==> Routed(b, vertices, a, c))
    && (forall a: nat, c: nat :: a < |vertices| && !(HasPort(vertices, a, c) && Earlier(a, c, i, j)) ==>
          Feeding(b.edges, Port(a, c)) == [])
  }

  /** A port without a declared movement is looked up like a scatter-gather port. */
  ghost predicate Found(b: Build, vertices: seq<Vertex>, i: nat, j: nat)
    requires HasPort(vertices, i, j)
  {
    match vertices[i].inputs[j].movement
    case OneToOne => true
    case Broadcast => Key(vertices, i, j) in b.gathers
    case _ => Key(vertices, i, j) in b.shuffles
  }

  // ----- The object

  class Builder {
    const vertices: seq<Vertex>
    var nodes: seq<Node>
    var edges: seq<Edge>
    var shuffles: map<seq<Port>, nat>
    var gathers: map<seq<Port>, nat>

    function State(): Build
      reads this
    {
      Partial(nodes, edges, shuffles, gathers)
    }

    /** The graph is well built, and every edge ends at the task its consumer expects. */
    ghost predicate Valid()
      reads this
    {
      WellBuilt(State(), |vertices|) && Kinds(State(), vertices)
    }

    constructor (graph: seq<Vertex>)
      ensures vertices == graph && State() == Partial([], [], map[], map[])
    {
      vertices := graph;
      nodes, edges, shuffles, gathers := [], [], map[], map[];
    }

    method CreateProcessorNodes()
      requires State() == Partial([], [], map[], map[])
      modifies this
      ensures Valid() && |nodes| == |vertices| && edges == [] && shuffles == map[] && gathers == map[]
    {
      for i := 0 to |vertices|
        invariant |nodes| == i && forall k :: 0 <= k < i ==> nodes[k] == Process(k)
        invariant edges == [] && shuffles == map[] && gathers == map[]
      {
        nodes := nodes + [Process(i)];
      }
    }

    /** Adds a node of the given kind and the edges that feed it. */
    method AddNode(kind: Node, ps: seq<Port>, s: Successor) returns (id: nat)
      requires Valid() && MayFeed(State(), |vertices|, kind, ps) && s == NodeSuccessor(kind)
      modifies this
      ensures id == |old(nodes)| && State() == WithNode(old(State()), kind, ps, s)
      ensures Valid() && GrowsAt(old(State()), State(), Port(id, 0))
      ensures Feeding(edges, Port(id, 0)) == ps
    {
      hide WellBuilt, MayFeed, Feeding, Kinds;
      NodeAdded(State(), |vertices|, kind, ps, s);
      HasAllVertices(State(), |vertices|);
      NodeKinds(State(), vertices, kind, ps);
      id := |nodes|;
      nodes := nodes + [kind];
      ghost var was := edges;
      for i := 0 to |ps|
        invariant edges == was + EdgesTo(ps[..i], Port(id, 0), s)
        invariant nodes == old(nodes) + [kind] && shuffles == old(shuffles) && gathers == old(gathers)
      {
        edges := edges + [Edge(ps[i], Port(id, 0), s)];
        assert EdgesTo(ps[..i + 1], Port(id, 0), s) == EdgesTo(ps[..i], Port(id, 0), s) + [Edge(ps[i], Port(id, 0), s)];
      }
      assert ps[..|ps|] == ps;
    }

    method CreateShuffleNode(ps: seq<Port>) returns (id: nat)
      requires Valid() && FromProcessors(ps, |vertices|)
      modifies this
      ensures Valid() && gathers == old(gathers)
      ensures ps in shuffles && id == shuffles[ps] && shuffles.Keys == old(shuffles).Keys + {ps}
      ensures ps in old(shuffles) ==> State() == old(State())
      ensures ps !in old(shuffles) ==>
        id == |old(nodes)| &&
        State() == WithNode(old(State()), Shuffle, ps, Barrier).(shuffles := old(shuffles)[ps := id])
      ensures forall c: Port :: c.vertex < |vertices| ==> Feeding(edges, c) == Feeding(old(edges), c)
    {
      hide NodeFed, Feeding, WellBuilt, Kinds;
      assert |vertices| <= |nodes| by { HasAllVertices(State(), |vertices|); }
      if ps in shuffles {
        return shuffles[ps];
      }
      id := AddNode(Shuffle, ps, Barrier);
      Registered(State(), |vertices|, ps, id);
      LookupsKeepKinds(State(), vertices);
      shuffles := shuffles[ps := id];
    }

    method CreateGatherNode(ps: seq<Port>) returns (id: nat)
      requires Valid() && FromProcessors(ps, |vertices|)
      modifies this
      ensures Valid() && shuffles == old(shuffles)
      ensures ps in gathers && id == gathers[ps] && gathers.Keys == old(gathers).Keys + {ps}
      ensures ps in old(gathers) ==> State() == old(State())
      ensures ps !in old(gathers) ==>
        id == |old(nodes)| &&
        State() == WithNode(old(State()), Gather, ps, Entry).(gathers := old(gathers)[ps := id])
      ensures forall c: Port :: c.vertex < |vertices| ==> Feeding(edges, c) == Feeding(old(edges), c)
    {
      hide NodeFed, Feeding, WellBuilt, Kinds;
      assert |vertices| <= |nodes| by { HasAllVertices(State(), |vertices|); }
      if ps in gathers {
        return gathers[ps];
      }
      id := AddNode(Gather, ps, Entry);
      Registered(State(), |vertices|, ps, id);
      LookupsKeepKinds(State(), vertices);
      gathers := gathers[ps := id];
    }

    method CreateIntermediateNodes()
      requires WellConnected(vertices) && Valid() && shuffles == map[] && gathers == map[] && edges == []
      modifies this
      ensures Valid() && NodesUpTo(State(), vertices, |vertices|, 0)
      ensures ConnectedUpTo(State(), vertices, 0, 0)
    {
      hide WellBuilt, NodesUpTo, Feeding, WellConnected, Kinds;
      NoNodesYet(State(), vertices);
      ghost var none := edges;
      for i := 0 to |vertices|
        invariant Valid() && NodesUpTo(State(), vertices, i, 0)
        invariant forall c: Port :: c.vertex < |vertices| ==> Feeding(edges, c) == Feeding(none, c)
      {
        PortCount(vertices, i);
        for j := 0 to |vertices[i].inputs|
          invariant Valid() && NodesUpTo(State(), vertices, i, j)
          invariant forall c: Port :: c.vertex < |vertices| ==> Feeding(edges, c) == Feeding(none, c)
        {
          SourcesAreProcessors(vertices, i, j);
          ghost var was := State();
          var ps := Normalize(vertices[i].sources[j]);
          if vertices[i].inputs[j].movement.ScatterGather? {
            var id := CreateShuffleNode(ps);
          } else if vertices[i].inputs[j].movement.Broadcast? {
            var id := CreateGatherNode(ps);
          }
          NodesNext(was, State(), vertices, i, j);
        }
        NodesRow(State(), vertices, i);
      }
      forall i: nat, j: nat | i < |vertices| ensures Feeding(edges, Port(i, j)) == [] {
        assert Feeding(edges, Port(i, j)) == Feeding(none, Port(i, j));
        assert Feeding([], Port(i, j)) == [] by { NothingFed([], Port(i, j)); }
      }
    }

    /** Connects one port. It fails when the node to connect it to does not exist. */
    method ConnectPort(i: nat, j: nat) returns (ok: bool)
      requires WellConnected(vertices) && Valid() && HasPort(vertices, i, j)
      requires Feeding(edges, Port(i, j)) == []
      modifies this
      ensures Valid() && GrowsAt(old(State()), State(), Port(i, j))
      ensures shuffles == old(shuffles) && gathers == old(gathers)
      ensures ok <==> Found(old(State()), vertices, i, j)
      ensures ok ==> Routed(State(), vertices, i, j)
    {
      hide WellBuilt, Feeding, WellConnected, NodeFed, Kinds;
      SourcesAreProcessors(vertices, i, j);
      HasAllVertices(State(), |vertices|);
      ghost var b0 := State();
      var ps := Normalize(vertices[i].sources[j]);
      var m := vertices[i].inputs[j];
      if m.movement.OneToOne? {
        AddEdges(vertices[i].sources[j], Port(i, j), Barrier);
        ok := true;
      } else if m.movement.Broadcast? {
        ok := ps in gathers;
        if ok {
          SharedNodeThere(State(), |vertices|, ps, gathers[ps]);
          AddEdges([Port(gathers[ps], 0)], Port(i, j), Entry);
        }
      } else {
        ok := ps in shuffles;
        if ok {
          SharedNodeThere(State(), |vertices|, ps, shuffles[ps]);
          var from := shuffles[ps];
          if m.sorted {
            from := AddNode(ValueSort, [Port(shuffles[ps], 0)], Terminal);
          }
          AddEdges([Port(from, 0)], Port(i, j), Barrier);
          if m.sorted {
            assert SortedFeed(State(), |vertices|, [Port(from, 0)], shuffles[ps]);
          }
        }
      }
    }

    method AddEdges(ps: seq<Port>, at: Port, s: Successor)
      requires Valid() && at.vertex < |vertices| && forall p :: p in ps ==> p.vertex < |nodes|
      requires s == PortSuccessor(vertices, at)
      modifies this
      ensures State() == WithEdges(old(State()), ps, at, s)
      ensures Valid() && GrowsAt(old(State()), State(), at)
      ensures Feeding(edges, at) == Feeding(old(edges), at) + ps
    {
      hide WellBuilt, Feeding, Kinds;
      EdgesAdded(State(), |vertices|, ps, at, s);
      HasAllVertices(State(), |vertices|);
      EdgeKinds(State(), vertices, ps, at);
      ghost var was := edges;
      for i := 0 to |ps|
        invariant edges == was + EdgesTo(ps[..i], at, s)
        invariant nodes == old(nodes) && shuffles == old(shuffles) && gathers == old(gathers)
      {
        edges := edges + [Edge(ps[i], at, s)];
        assert EdgesTo(ps[..i + 1], at, s) == EdgesTo(ps[..i], at, s) + [Edge(ps[i], at, s)];
      }
      assert ps[..|ps|] == ps;
    }

    method CreateEdges() returns (ok: bool)
      requires WellConnected(vertices) && Valid() && ConnectedUpTo(State(), vertices, 0, 0)
      modifies this
      ensures shuffles == old(shuffles) && gathers == old(gathers)
      ensures ok <==> forall i: nat, j: nat :: HasPort(vertices, i, j) ==> Found(State(), vertices, i, j)
      ensures ok ==> Valid() && ConnectedUpTo(State(), vertices, |vertices|, 0)
    {
      hide WellBuilt, Feeding, WellConnected, Kinds, ConnectedUpTo, Found;
      for i := 0 to |vertices|
        invariant Valid() && ConnectedUpTo(State(), vertices, i, 0)
        invariant shuffles == old(shuffles) && gathers == old(gathers)
        invariant forall a: nat, c: nat :: HasPort(vertices, a, c) && Earlier(a, c, i, 0) ==> Found(State(), vertices, a, c)
      {
        PortCount(vertices, i);
        for j := 0 to |vertices[i].inputs|
          invariant Valid() && ConnectedUpTo(State(), vertices, i, j)
          invariant shuffles == old(shuffles) && gathers == old(gathers)
          invariant forall a: nat, c: nat :: HasPort(vertices, a, c) && Earlier(a, c, i, j) ==> Found(State(), vertices, a, c)
        {
          ghost var was := State();
          NotConnectedYet(was, vertices, i, j);
          ok := ConnectPort(i, j);
          SameLookups(was, State(), vertices);
          if !ok {
            return;
          }
          ConnectedNext(was, State(), vertices, i, j);
        }
        ConnectedRow(State(), vertices, i);
      }
      ok := true;
    }

    /** The whole compilation. It fails exactly when a port without a declared movement has producers that
        no scatter-gather port has. */
    method Build() returns (g: Option<Graph>)
      requires WellConnected(vertices) && State() == Partial([], [], map[], map[])
      modifies this
      ensures g.Some? <==> Buildable(vertices)
      ensures g.Some? ==> g == Some(Graph(nodes, edges)) && Compiled(State(), vertices)
    {
      hide WellBuilt, Feeding, WellConnected, Kinds, ConnectedUpTo, NodesUpTo, Found;
      CreateProcessorNodes();
      CreateIntermediateNodes();
      FoundIffSameProducers(State(), vertices);
      ghost var was := State();
      var ok := CreateEdges();
      SameLookups(was, State(), vertices);
      if !ok {
        return None;
      }
      AllConnected(State(), vertices);
      g := Some(Graph(nodes, edges));
    }
  }

  ghost predicate Buildable(vertices: seq<Vertex>) {
    forall i: nat, j: nat :: HasPort(vertices, i, j) && vertices[i].inputs[j].movement.Undefined? ==>
      exists a: nat, c: nat :: SameShuffle(vertices, a, c, i, j)
  }

  ghost predicate SameShuffle(vertices: seq<Vertex>, a: nat, c: nat, i: nat, j: nat) {
    && HasPort(vertices, a, c) && HasPort(vertices, i, j) && vertices[a].inputs[c].movement.ScatterGather?
    && multiset(vertices[a].sources[c]) == multiset(vertices[i].sources[j])
  }

  /** One producer, and a consumer whose only port has no declared movement. */
  function LoneUndefined(): seq<Vertex> {
    [Vertex([], [OutputPort(true)], []), Vertex([InputPort(Undefined, false)], [], [[Port(0, 0)]])]
  }

  /** The smallest flow graph that cannot be compiled. */
  lemma LoneUndefinedIsNotBuildable()
    ensures WellConnected(LoneUndefined()) && !Buildable(LoneUndefined())
  {
    assert HasPort(LoneUndefined(), 1, 0);
    assert forall a: nat, c: nat :: !SameShuffle(LoneUndefined(), a, c, 1, 0);
  }

  lemma FoundIffSameProducers(b: Build, vertices: seq<Vertex>)
    requires NodesUpTo(b, vertices, |vertices|, 0)
    ensures (forall i: nat, j: nat :: HasPort(vertices, i, j) ==> Found(b, vertices, i, j)) <==> Buildable(vertices)
  {
    hide Normalize;
    forall i: nat, j: nat | HasPort(vertices, i, j)
      ensures Found(b, vertices, i, j) <==>
        (vertices[i].inputs[j].movement.Undefined? ==> exists a: nat, c: nat :: SameShuffle(vertices, a, c, i, j))
    {
      assert Earlier(i, j, |vertices|, 0);
      if a: nat, c: nat :| SameShuffle(vertices, a, c, i, j) {
        SameKeyIffSamePorts(vertices[a].sources[c], vertices[i].sources[j]);
        assert Earlier(a, c, |vertices|, 0);
      }
      if Key(vertices, i, j) in b.shuffles {
        var a: nat, c: nat :| ShufflePort(vertices, a, c, Key(vertices, i, j));
        SameKeyIffSamePorts(vertices[a].sources[c], vertices[i].sources[j]);
        assert SameShuffle(vertices, a, c, i, j);
      }
    }
  }

  /** A finished graph: every input port is routed and nothing else is connected. */
  ghost predicate Compiled(b: Build, vertices: seq<Vertex>) {
    && WellBuilt(b, |vertices|) && Kinds(b, vertices)
    && (forall i: nat, j: nat :: HasPort(vertices, i, j) ==> Routed(b, vertices, i, j))
    && (forall i: nat, j: nat :: i < |vertices| && !HasPort(vertices, i, j) ==> Feeding(b.edges, Port(i, j)) == [])
  }

  /** A node of this kind that is fed by exactly these producers, with multiplicity. */
  ghost predicate Collects(b: Build, p: Port, kind: Node, src: seq<Port>) {
    && p.port == 0 && p.vertex < |b.nodes| && b.nodes[p.vertex] == kind
    && multiset(Feeding(b.edges, Port(p.vertex, 0))) == multiset(src)
  }

  /** What lies between a port and its sources: nothing for a one-to-one port, a gather for a broadcast port, a
      shuffle for the others, and behind the shuffle a value sort when the port asks for sorted values. */
  lemma {:induction false} PathsOfPorts(b: Build, vertices: seq<Vertex>, i: nat, j: nat)
    requires Compiled(b, vertices) && HasPort(vertices, i, j)
    ensures var fed, src := Feeding(b.edges, Port(i, j)), vertices[i].sources[j];
      match vertices[i].inputs[j].movement
      case OneToOne => fed == src
      case Broadcast => |fed| == 1 && Collects(b, fed[0], Gather, src)
      case _ =>
        && |fed| == 1
        && if !vertices[i].inputs[j].sorted then Collects(b, fed[0], Shuffle, src)
           else
             && fed[0].port == 0 && fed[0].vertex < |b.nodes| && b.nodes[fed[0].vertex].ValueSort?
             && |Feeding(b.edges, Port(fed[0].vertex, 0))| == 1
             && Collects(b, Feeding(b.edges, Port(fed[0].vertex, 0))[0], Shuffle, src)
  {
    hide Feeding, Normalize, NodeFed, Kinds;
    var key := Key(vertices, i, j);
    assert Routed(b, vertices, i, j);
    if key in b.gathers {
      assert SharedNode(b, |vertices|, key, b.gathers[key], Gather);
    }
    if key in b.shuffles {
      assert SharedNode(b, |vertices|, key, b.shuffles[key], Shuffle);
    }
  }

  /** Which task of the consumer an edge makes wait: the entry of gathers and of processors with a broadcast port
      there, the terminal of value sorts, the barrier of all others. */
  lemma SuccessorsOfEdges(b: Build, vertices: seq<Vertex>, e: Edge)
    requires Compiled(b, vertices) && e in b.edges
    ensures e.consumer.vertex < |b.nodes| && e.producer.vertex < |b.nodes|
    ensures match b.nodes[e.consumer.vertex]
      case Process(i) =>
        && i == e.consumer.vertex && HasPort(vertices, i, e.consumer.port)
        && e.successor == if vertices[i].inputs[e.consumer.port].movement.Broadcast? then Entry else Barrier
      case Gather => e.successor == Entry
      case ValueSort => e.successor == Terminal
      case Shuffle => e.successor == Barrier
  {
    hide Feeding, Fed, Routed;
    EdgesFeed(b.edges, e);
    var c := e.consumer;
    if c.vertex < |vertices| {
      assert Port(c.vertex, c.port) == c;
      assert HasPort(vertices, c.vertex, c.port);
    }
  }

  lemma AllConnected(b: Build, vertices: seq<Vertex>)
    requires WellBuilt(b, |vertices|) && Kinds(b, vertices) && ConnectedUpTo(b, vertices, |vertices|, 0)
    ensures Compiled(b, vertices)
  {
    hide WellBuilt, Routed, Feeding, Kinds;
    assert forall i: nat, j: nat :: HasPort(vertices, i, j) ==> Earlier(i, j, |vertices|, 0);
  }

  lemma PortCount(vertices: seq<Vertex>, i: nat)
    requires WellConnected(vertices) && i < |vertices|
    ensures |vertices[i].sources| == |vertices[i].inputs|
  {}

  lemma NoNodesYet(b: Build, vertices: seq<Vertex>)
    requires b.shuffles == map[]
    ensures NodesUpTo(b, vertices, 0, 0)
  {}

  lemma NodesNext(b: Build, b': Build, vertices: seq<Vertex>, i: nat, j: nat)
    requires NodesUpTo(b, vertices, i, j) && HasPort(vertices, i, j)
    requires b'.shuffles.Keys == b.shuffles.Keys +
      if vertices[i].inputs[j].movement.ScatterGather? then {Key(vertices, i, j)} else {}
    requires b'.gathers.Keys == b.gathers.Keys +
      if vertices[i].inputs[j].movement.Broadcast? then {Key(vertices, i, j)} else {}
    ensures NodesUpTo(b', vertices, i, j + 1)
  {
    hide Normalize;
    forall ps | ps in b'.shuffles ensures exists a: nat, c: nat :: ShufflePort(vertices, a, c, ps) {
      assert ps in b'.shuffles.Keys;
      if ps in b.shuffles.Keys {
        assert ps in b.shuffles;
      } else {
        assert ShufflePort(vertices, i, j, ps);
      }
    }
    assert forall ps :: ps in b.shuffles.Keys ==> ps in b'.shuffles.Keys;
    assert forall ps :: ps in b.gathers.Keys ==> ps in b'.gathers.Keys;
    forall a: nat, c: nat | HasPort(vertices, a, c) && Earlier(a, c, i, j + 1)
      ensures vertices[a].inputs[c].movement.ScatterGather? ==> Key(vertices, a, c) in b'.shuffles.Keys
      ensures vertices[a].inputs[c].movement.Broadcast? ==> Key(vertices, a, c) in b'.gathers.Keys
    {
      if !Earlier(a, c, i, j) {
        assert a == i && c == j;
      }
    }
  }

  lemma NodesRow(b: Build, vertices: seq<Vertex>, i: nat)
    requires i < |vertices| && NodesUpTo(b, vertices, i, |vertices[i].inputs|)
    ensures NodesUpTo(b, vertices, i + 1, 0)
  {
    forall a: nat, c: nat | HasPort(vertices, a, c) && Earlier(a, c, i + 1, 0)
      ensures Earlier(a, c, i, |vertices[i].inputs|)
    {}
  }

  lemma SharedNodeThere(b: Build, n: nat, ps: seq<Port>, t: nat)
    requires WellBuilt(b, n) && ((ps in b.shuffles && t == b.shuffles[ps]) || (ps in b.gathers && t == b.gathers[ps]))
    ensures n <= t < |b.nodes|
    ensures ps in b.shuffles && t == b.shuffles[ps] ==> b.nodes[t].Shuffle? && MayFeed(b, n, ValueSort, [Port(t, 0)])
  {
    hide Feeding, NodeFed;
    if ps in b.shuffles && t == b.shuffles[ps] {
      assert SharedNode(b, n, ps, t, Shuffle);
    } else {
      assert SharedNode(b, n, ps, t, Gather);
    }
  }

  lemma NotConnectedYet(b: Build, vertices: seq<Vertex>, i: nat, j: nat)
    requires ConnectedUpTo(b, vertices, i, j) && HasPort(vertices, i, j)
    ensures Feeding(b.edges, Port(i, j)) == []
  {}

  lemma SameLookups(b: Build, b': Build, vertices: seq<Vertex>)
    requires b'.shuffles == b.shuffles && b'.gathers == b.gathers
    ensures forall i: nat, j: nat :: HasPort(vertices, i, j) ==> Found(b', vertices, i, j) == Found(b, vertices, i, j)
  {}

  lemma ConnectedNext(b: Build, b': Build, vertices: seq<Vertex>, i: nat, j: nat)
    requires ConnectedUpTo(b, vertices, i, j) && GrowsAt(b, b', Port(i, j)) && WellBuilt(b, |vertices|)
    requires HasPort(vertices, i, j) && Routed(b', vertices, i, j)
    ensures ConnectedUpTo(b', vertices, i, j + 1)
  {
    hide Feeding, Routed;
    HasAllVertices(b, |vertices|);
    hide WellBuilt;
    forall a: nat, c: nat | a < |vertices|
      ensures HasPort(vertices, a, c) && Earlier(a, c, i, j + 1) ==> Routed(b', vertices, a, c)
      ensures !(HasPort(vertices, a, c) && Earlier(a, c, i, j + 1)) ==> Feeding(b'.edges, Port(a, c)) == []
    {
      if HasPort(vertices, a, c) && Earlier(a, c, i, j) {
        RoutedKept(b, b', vertices, Port(i, j), a, c);
      } else if Port(a, c) != Port(i, j) {
        assert Feeding(b'.edges, Port(a, c)) == Feeding(b.edges, Port(a, c));
      }
    }
  }

  lemma ConnectedRow(b: Build, vertices: seq<Vertex>, i: nat)
    requires i < |vertices| && ConnectedUpTo(b, vertices, i, |vertices[i].inputs|)
    ensures ConnectedUpTo(b, vertices, i + 1, 0)
  {
    hide Routed, Feeding;
    forall a: nat, c: nat | HasPort(vertices, a, c)
      ensures Earlier(a, c, i + 1, 0) <==> Earlier(a, c, i, |vertices[i].inputs|)
    {}
  }
}
