/** From a logical graph to a network of process tasks: the dependencies of its physical tasks are what the
    process tasks rely on. */
module GraphNetworks {
  import opened TaskGraph
  import opened LogicalGraph
  import opened PhysicalTasks
  import opened Throttle
  import opened ProcessLife
  import opened ProcessRuns
  import opened ProcessNetworks
  import D = Digraph
  import F = FlowGraph
  import P = Ports
  import B = LogicalGraphBuilder
  import C = Compilation
  import SR = SchedulerRuns
  import SP = SchedulerProgress

  // ----- The scheduler with all tasks of a graph, before the commits

  /** `n` tasks, none of them committed, with exactly these dependencies. */
  ghost predicate Holds(s: SR.State, n: nat, deps: seq<Dep>) {
    && SR.Inv(s) && s.core.created == n && s.deps == (set d | d in deps)
    && (forall t: TaskId :: t in s.tokens <==> t < n)
    && Registered(s.core, n, deps, 0)
  }

  lemma {:induction false} TasksCreated(nodeOf: seq<nat>, nodes: nat, n: nat) returns (s: SR.State)
    requires |nodeOf| > 0 && forall w :: 0 <= w < |nodeOf| ==> nodeOf[w] < nodes
    ensures Holds(s, n, [])
  {
    hide SR.Inv, Registered, SR.Apply;
    if n == 0 {
      s := SR.Start(nodeOf, nodes);
      SR.InvAtStart(nodeOf, nodes);
      EmptySchedulerRegistered(nodeOf, nodes);
    } else {
      var before := TasksCreated(nodeOf, nodes, n - 1);
      CreateNextFacts(before);
      RegisteredCreate(before.core, n - 1, []);
      s := CreateNext(before);
      CreatedTokens(before);
    }
  }

  lemma CreatedTokens(s: SR.State)
    requires WellFormed(s.core)
    ensures CreateNext(s).tokens == s.tokens + {s.core.created} && CreateNext(s).core == Create(s.core, Anywhere)
  {}

  lemma {:induction false} DependenciesAdded(s: SR.State, n: nat, deps: seq<Dep>) returns (s': SR.State)
    requires Holds(s, n, []) && Within(deps, n)
    ensures Holds(s', n, deps)
  {
    hide SR.Inv, Registered, SR.Apply, SR.Enabled;
    if |deps| == 0 {
      s' := s;
    } else {
      var m := |deps| - 1;
      var before := DependenciesAdded(s, n, deps[..m]);
      var d := deps[m];
      assert d in deps && deps == deps[..m] + [d];
      DependFacts(before, d.0, d.1);
      RegisteredDepend(before.core, n, deps[..m], d.0, d.1);
      s' := SR.Apply(before, SR.Depend(d.0, d.1));
      DependedTokens(before, d.0, d.1);
    }
  }

  lemma DependedTokens(s: SR.State, x: TaskId, t: TaskId)
    requires SR.Enabled(s, SR.Depend(x, t))
    ensures SR.Apply(s, SR.Depend(x, t)).tokens == s.tokens
    ensures SR.Apply(s, SR.Depend(x, t)).core == AddDependency(s.core, x, t)
  {}

  // ----- The process tasks among the nodes

  /** The nodes below `t` that are process tasks. */
  ghost function ProcessNodes(nodes: seq<Node>, t: nat): (ks: seq<nat>)
    requires t <= |nodes|
    ensures forall i :: 0 <= i < |ks| ==> ks[i] < t && nodes[ks[i]].Process?
  {
    if t == 0 then [] else ProcessNodes(nodes, t - 1) + if nodes[t - 1].Process? then [t - 1] else []
  }

  /** All of them, ascending. */
  lemma {:induction false} ProcessNodesAre(nodes: seq<Node>, t: nat)
    requires t <= |nodes|
    ensures forall i, j :: 0 <= i < j < |ProcessNodes(nodes, t)| ==> ProcessNodes(nodes, t)[i] < ProcessNodes(nodes, t)[j]
    ensures forall k: nat :: k < t ==> (k in ProcessNodes(nodes, t) <==> nodes[k].Process?)
  {
    if t == 0 {
    } else {
      ProcessNodesAre(nodes, t - 1);
    }
  }

  /** The last tasks of the producers that node `u` waits for with its barrier. */
  ghost function Upstream(g: Graph, u: nat): set<TaskId>
    requires EdgesWithin(g)
  {
    set e | e in g.edges && e.consumer.vertex == u && e.successor.Barrier? :: LastTask(g.nodes, e.producer.vertex)
  }

  ghost function ProcOf(g: Graph, s: SR.State, max: nat, u: nat): State
    requires EdgesWithin(g) && u < |g.nodes|
  {
    State(s, FirstTask(g.nodes, u), BarrierTask(g.nodes, u), LastTask(g.nodes, u), Upstream(g, u), map[], map[], {}, {}, 0,
      Life(false, seq(|s.core.nodeOf|, _ => false), []), Fresh(max))
  }

  /** The network of all process tasks of a graph. */
  ghost function NetOf(g: Graph, s: SR.State, max: nat): Net
    requires EdgesWithin(g)
  {
    var ks := ProcessNodes(g.nodes, |g.nodes|);
    Net(seq(|ks|, i requires 0 <= i < |ks| => ProcOf(g, s, max, ks[i])), map[])
  }

  lemma NoSelfEdge(g: Graph, e: Edge)
    requires EdgesWithin(g) && !D.Cyclic(C.NodeGraph(g)) && e in g.edges
    ensures e.producer.vertex != e.consumer.vertex
  {
    var v := e.consumer.vertex;
    if e.producer.vertex == v {
      C.ProducersOfEdges(g.edges, v, v);
      assert D.Cycle(C.NodeGraph(g), [v]);
    }
  }

  /** A process node with its tasks in the scheduler is a process task at its creation. */
  lemma ProcCreated(g: Graph, s: SR.State, max: nat, u: nat)
    requires EdgesWithin(g) && !D.Cyclic(C.NodeGraph(g)) && u < |g.nodes| && g.nodes[u].Process?
    requires Holds(s, Base(g.nodes, |g.nodes|), Dependencies(g))
    ensures Created(ProcOf(g, s, max, u))
  {
    hide SR.Inv, Registered, Dependencies, Base;
    var p := ProcOf(g, s, max, u);
    NodeTasks(g, u);
    forall x: TaskId | x in p.upstream ensures !Fixed(p, x) && (x, p.barrier) in s.deps {
      var e :| e in g.edges && e.consumer.vertex == u && e.successor.Barrier? && x == LastTask(g.nodes, e.producer.vertex);
      NoSelfEdge(g, e);
      assert WaitsFor(g, e, (x, p.barrier));
      DependenciesAre(g, (x, p.barrier));
      NodesApart(g.nodes, e.producer.vertex, u);
    }
  }

  lemma NodeTasks(g: Graph, u: nat)
    requires EdgesWithin(g) && u < |g.nodes| && g.nodes[u].Process?
    ensures BarrierTask(g.nodes, u) == FirstTask(g.nodes, u) + 1 && LastTask(g.nodes, u) == FirstTask(g.nodes, u) + 2
    ensures LastTask(g.nodes, u) < Base(g.nodes, |g.nodes|)
    ensures (FirstTask(g.nodes, u), BarrierTask(g.nodes, u)) in Dependencies(g)
    ensures (BarrierTask(g.nodes, u), LastTask(g.nodes, u)) in Dependencies(g)
  {
    BaseGrows(g.nodes, u, |g.nodes|);
    hide Base, Dependencies;
    DependenciesAre(g, (FirstTask(g.nodes, u), BarrierTask(g.nodes, u)));
    DependenciesAre(g, (BarrierTask(g.nodes, u), LastTask(g.nodes, u)));
  }

  /** The tasks of different nodes are different. */
  lemma NodesApart(nodes: seq<Node>, t: nat, u: nat)
    requires t < |nodes| && u < |nodes| && t != u
    ensures LastTask(nodes, t) < FirstTask(nodes, u) || LastTask(nodes, u) < FirstTask(nodes, t)
    ensures FirstTask(nodes, t) <= LastTask(nodes, t) && FirstTask(nodes, u) <= LastTask(nodes, u)
  {
    if t < u {
      BaseGrows(nodes, t, u);
    } else {
      BaseGrows(nodes, u, t);
    }
    hide Base;
  }

  /** The edge leads to the `i`-th process task, which waits for it with its barrier. */
  ghost predicate HandsTo(g: Graph, e: Edge, i: nat) {
    var ks := ProcessNodes(g.nodes, |g.nodes|);
    i < |ks| && e.successor.Barrier? && e.consumer.vertex == ks[i]
  }

  /** The tasks that an acyclic graph's nodes register before they are committed are a start for the network of
      its process tasks: the producers that hand over to a process task are upstream of it, because its barrier
      waits for them. */
  lemma GraphIsNetwork(g: Graph, nodeOf: seq<nat>, nodes: nat, max: nat) returns (s: SR.State)
    requires EdgesWithin(g) && !D.Cyclic(C.NodeGraph(g))
    requires |nodeOf| > 0 && forall w :: 0 <= w < |nodeOf| ==> nodeOf[w] < nodes
    ensures Holds(s, Base(g.nodes, |g.nodes|), Dependencies(g))
    ensures NetCreated(NetOf(g, s, max))
    ensures forall i, e :: 0 <= i < |NetOf(g, s, max).procs| && e in g.edges && HandsTo(g, e, i) ==>
      LastTask(g.nodes, e.producer.vertex) in NetOf(g, s, max).procs[i].upstream
  {
    hide SR.Inv, Registered, Dependencies, Base, Created, D.Cyclic, LastTask, FirstTask, BarrierTask;
    var n := Base(g.nodes, |g.nodes|);
    var empty := TasksCreated(nodeOf, nodes, n);
    forall d | d in Dependencies(g) ensures d.0 < n && d.1 < n {
      DepsBounded(g, d);
    }
    s := DependenciesAdded(empty, n, Dependencies(g));
    var ks, net := ProcessNodes(g.nodes, |g.nodes|), NetOf(g, s, max);
    ProcessNodesAre(g.nodes, |g.nodes|);
    forall i | 0 <= i < |ks| ensures Created(net.procs[i]) {
      ProcCreated(g, s, max, ks[i]);
    }
    forall i, j, t: TaskId | 0 <= i < |ks| && 0 <= j < |ks| && Own(net.procs[i], t) && Own(net.procs[j], t)
      ensures i == j
    {
      OwnIsOfNode(g, s, max, ks[i], t);
      OwnIsOfNode(g, s, max, ks[j], t);
      if i != j {
        NodesApart(g.nodes, ks[i], ks[j]);
      }
    }
  }

  lemma OwnIsOfNode(g: Graph, s: SR.State, max: nat, u: nat, t: TaskId)
    requires EdgesWithin(g) && u < |g.nodes| && g.nodes[u].Process?
    ensures Own(ProcOf(g, s, max, u), t) ==> FirstTask(g.nodes, u) <= t <= LastTask(g.nodes, u)
  {
    NodeTasks(g, u);
    hide Base, Dependencies;
  }

  // ----- All tasks of a graph are run

  lemma GraphIsRanked(c: Core, g: Graph) returns (rank: TaskId -> nat)
    requires EdgesWithin(g) && !D.Cyclic(C.NodeGraph(g)) && SuccessorsAre(c, g)
    ensures SR.Ranked(c, rank)
  {
    GraphsClosed(g);
    hide D.Closed, D.Cyclic, D.Ranked, C.NodeGraph, Dependencies, TaskRank, IsDependency, NodesOrdered;
    D.AcyclicIffRanked(C.NodeGraph(g));
    var order: nat -> nat :| D.Ranked(C.NodeGraph(g), order);
    RanksAreOrders(g, order);
    OrderedNodesOrderTasks(g, order);
    rank := (x: TaskId) => TaskRank(g.nodes, order, x);
    forall p: TaskId, t: TaskId | p in c.vertices && t in c.vertices[p].successors ensures rank(p) < rank(t) {
      DependenciesAre(g, (p, t));
    }
  }

  /** When the scheduler holds the tasks of an acyclic graph, all committed, then whatever its threads do, they can go
      on until every task is finished, and they finish after exactly as many steps as there were left. */
  lemma GraphRunsToTheEnd(g: Graph, s: SR.State, run: seq<SR.State>)
    requires EdgesWithin(g) && !D.Cyclic(C.NodeGraph(g)) && SuccessorsAre(s.core, g)
    requires SR.Inv(s) && SP.AllCommitted(s) && SP.WorkRun(run, s)
    ensures |run| - 1 <= SP.StepsLeft(s)
    ensures |run| - 1 < SP.StepsLeft(s) ==> exists step :: SP.Working(step) && SR.Enabled(run[|run| - 1], step)
    ensures |run| - 1 == SP.StepsLeft(s) <==> SP.AllFinished(run[|run| - 1])
  {
    hide SR.Inv, SP.AllCommitted, SR.Ranked, SP.WorkRun, SuccessorsAre, D.Cyclic;
    var rank := GraphIsRanked(s.core, g);
    SP.AllWorkEnds(run, s, rank);
  }

  // ----- From the flow graph

  lemma {:induction false} ProcessorsFirst(nodes: seq<Node>, n: nat, t: nat)
    requires n <= |nodes| && t <= |nodes| && forall i :: 0 <= i < |nodes| ==> (nodes[i].Process? <==> i < n)
    ensures |ProcessNodes(nodes, t)| == if t < n then t else n
    ensures forall i :: 0 <= i < |ProcessNodes(nodes, t)| ==> ProcessNodes(nodes, t)[i] == i
  {
    if t == 0 {
    } else {
      ProcessorsFirst(nodes, n, t - 1);
      var front := ProcessNodes(nodes, t - 1);
      assert ProcessNodes(nodes, t) == if t - 1 < n then front + [t - 1] else front;
      hide ProcessNodes;
    }
  }

  /** The compiled graph of an acyclic flow graph gives a network with one process task for every processor. Every
      port that does not receive broadcasts is fed by a node whose last task is upstream of the process task. */
  lemma FlowGraphIsNetwork(b: B.Build, vertices: seq<P.Vertex>, nodeOf: seq<nat>, nodes: nat, max: nat)
    returns (s: SR.State)
    requires F.WellConnected(vertices) && B.Compiled(b, vertices) && !D.Cyclic(F.SourceGraph(vertices))
    requires |nodeOf| > 0 && forall w :: 0 <= w < |nodeOf| ==> nodeOf[w] < nodes
    ensures EdgesWithin(Graph(b.nodes, b.edges))
    ensures NetCreated(NetOf(Graph(b.nodes, b.edges), s, max))
    ensures |NetOf(Graph(b.nodes, b.edges), s, max).procs| == |vertices|
    ensures forall i: nat, j: nat, p :: HandsOverAt(b, vertices, i, j, p) ==>
      FeedsProcess(b, NetOf(Graph(b.nodes, b.edges), s, max), i, p)
  {
    hide D.Cyclic, F.WellConnected, F.SourceGraph, B.Compiled, NetCreated, Feeding, Dependencies;
    var g := Graph(b.nodes, b.edges);
    AllEdgesWithin(b, vertices);
    C.CompilationKeepsCycles(b, vertices);
    s := GraphIsNetwork(g, nodeOf, nodes, max);
    NodesOfCompiled(b, vertices);
    ProcessorsFirst(b.nodes, |vertices|, |b.nodes|);
    forall i: nat, j: nat, p | HandsOverAt(b, vertices, i, j, p)
      ensures FeedsProcess(b, NetOf(g, s, max), i, p)
    {
      var e := EdgeOf(b.edges, P.Port(i, j), p);
      B.SuccessorsOfEdges(b, vertices, e);
      assert HandsTo(g, e, i);
    }
  }

  /** `p` feeds a port that does not receive broadcasts. */
  ghost predicate HandsOverAt(b: B.Build, vertices: seq<P.Vertex>, i: nat, j: nat, p: P.Port) {
    && B.HasPort(vertices, i, j) && !vertices[i].inputs[j].movement.Broadcast?
    && p in Feeding(b.edges, P.Port(i, j))
  }

  /** The node of a producer is upstream of process task `i`. */
  ghost predicate FeedsProcess(b: B.Build, net: Net, i: nat, p: P.Port) {
    i < |net.procs| && p.vertex < |b.nodes| && LastTask(b.nodes, p.vertex) in net.procs[i].upstream
  }

  lemma NodesOfCompiled(b: B.Build, vertices: seq<P.Vertex>)
    requires B.Compiled(b, vertices)
    ensures |vertices| <= |b.nodes| && forall i :: 0 <= i < |b.nodes| ==> (b.nodes[i].Process? <==> i < |vertices|)
  {
    hide B.Fed, B.Routed, B.Kinds;
  }
}
