/** Turning a logical graph into physical tasks with dependencies in the scheduler. */
module PhysicalTasks {
  import opened TaskGraph
  import opened LogicalGraph
  import opened Scheduler
  import D = Digraph
  import F = FlowGraph
  import P = Ports
  import B = LogicalGraphBuilder
  import C = Compilation

  /** The physical tasks of a node. A gather has one task, and a value sort no barrier of its own. */
  datatype Trio = Trio(entry: TaskId, barrier: TaskId, terminal: TaskId)

  type Dep = (TaskId, TaskId)

  function Width(kind: Node): nat {
    match kind
    case Gather => 1
    case ValueSort => 2
    case _ => 3
  }

  /** The number of the first task of node `t`. */
  function Base(nodes: seq<Node>, t: nat): nat
    requires t <= |nodes|
  {
    if t == 0 then 0 else Base(nodes, t - 1) + Width(nodes[t - 1])
  }

  function TrioAt(kind: Node, base: TaskId): Trio {
    match kind
    case Gather => Trio(base, base, base)
    case ValueSort => Trio(base, base, base + 1)
    case _ => Trio(base, base + 1, base + 2)
  }

  function TrioOf(nodes: seq<Node>, t: nat): Trio
    requires t < |nodes|
  {
    TrioAt(nodes[t], Base(nodes, t))
  }

  function InnerDeps(kind: Node, base: TaskId): seq<Dep> {
    match kind
    case Gather => []
    case ValueSort => [(base, base + 1)]
    case _ => [(base, base + 1), (base + 1, base + 2)]
  }

  function AllInner(nodes: seq<Node>, t: nat): seq<Dep>
    requires t <= |nodes|
  {
    if t == 0 then [] else AllInner(nodes, t - 1) + InnerDeps(nodes[t - 1], Base(nodes, t - 1))
  }

  function Awaiting(x: Trio, s: Successor): TaskId {
    match s
    case Entry => x.entry
    case Barrier => x.barrier
    case Terminal => x.terminal
  }

  ghost predicate EdgesWithin(g: Graph) {
    forall e :: e in g.edges ==> e.producer.vertex < |g.nodes| && e.consumer.vertex < |g.nodes|
  }

  /** The producer's terminal comes before the consumer's task that the edge names. */
  function CrossDep(nodes: seq<Node>, e: Edge): Dep
    requires e.producer.vertex < |nodes| && e.consumer.vertex < |nodes|
  {
    (TrioOf(nodes, e.producer.vertex).terminal, Awaiting(TrioOf(nodes, e.consumer.vertex), e.successor))
  }

  function AllCross(g: Graph, k: nat): seq<Dep>
    requires EdgesWithin(g) && k <= |g.edges|
  {
    if k == 0 then []
    else
      assert g.edges[k - 1] in g.edges;
      AllCross(g, k - 1) + [CrossDep(g.nodes, g.edges[k - 1])]
  }

  /** Every dependency, in the order in which it is added. */
  function Dependencies(g: Graph): seq<Dep>
    requires EdgesWithin(g)
  {
    AllInner(g.nodes, |g.nodes|) + AllCross(g, |g.edges|)
  }

  // ----- Bounds

  lemma {:induction false} BaseGrows(nodes: seq<Node>, t: nat, u: nat)
    requires t < u <= |nodes|
    ensures Base(nodes, t) + Width(nodes[t]) <= Base(nodes, u)
  {
    if t < u - 1 {
      BaseGrows(nodes, t, u - 1);
    }
  }

  lemma {:induction false} InnerBounded(nodes: seq<Node>, t: nat, d: Dep)
    requires t <= |nodes| && d in AllInner(nodes, t)
    ensures exists u: nat :: u < t && d in InnerDeps(nodes[u], Base(nodes, u))
    ensures d.0 < Base(nodes, t) && d.1 < Base(nodes, t)
  {
    if d in AllInner(nodes, t - 1) {
      InnerBounded(nodes, t - 1, d);
    }
  }

  lemma CrossBounded(g: Graph, e: Edge)
    requires EdgesWithin(g) && e in g.edges
    ensures CrossDep(g.nodes, e).0 < Base(g.nodes, |g.nodes|) && CrossDep(g.nodes, e).1 < Base(g.nodes, |g.nodes|)
  {
    BaseGrows(g.nodes, e.producer.vertex, |g.nodes|);
    BaseGrows(g.nodes, e.consumer.vertex, |g.nodes|);
  }

  lemma {:induction false} CrossMembers(g: Graph, k: nat, d: Dep)
    requires EdgesWithin(g) && k <= |g.edges| && d in AllCross(g, k)
    ensures exists e :: e in g.edges && d == CrossDep(g.nodes, e)
  {
    assert g.edges[k - 1] in g.edges;
    if d in AllCross(g, k - 1) {
      CrossMembers(g, k - 1, d);
    }
  }

  // ----- Ranks

  ghost function NodeOf(nodes: seq<Node>, x: TaskId, t: nat): nat
    requires t <= |nodes|
  {
    if t == 0 then 0 else if Base(nodes, t - 1) <= x then t - 1 else NodeOf(nodes, x, t - 1)
  }

  lemma {:induction false} NodeOfTask(nodes: seq<Node>, t: nat, n: nat, x: TaskId)
    requires t < n <= |nodes| && Base(nodes, t) <= x < Base(nodes, t) + Width(nodes[t])
    ensures NodeOf(nodes, x, n) == t
  {
    if t < n - 1 {
      BaseGrows(nodes, t, n - 1);
      NodeOfTask(nodes, t, n - 1, x);
    }
  }

  /** The rank of a task: that of its node, and its place there. */
  ghost function TaskRank(nodes: seq<Node>, order: nat -> nat, x: TaskId): nat {
    var t := NodeOf(nodes, x, |nodes|);
    if t >= |nodes| || x < Base(nodes, t) then 0
    else if nodes[t].ValueSort? && x == Base(nodes, t) + 1 then 4 * order(t) + 2
    else 4 * order(t) + (x - Base(nodes, t))
  }

  lemma TrioRanks(nodes: seq<Node>, order: nat -> nat, t: nat)
    requires t < |nodes|
    ensures TaskRank(nodes, order, TrioOf(nodes, t).entry) == 4 * order(t)
    ensures 4 * order(t) <= TaskRank(nodes, order, TrioOf(nodes, t).barrier) <= 4 * order(t) + 1
    ensures 4 * order(t) <= TaskRank(nodes, order, TrioOf(nodes, t).terminal) <= 4 * order(t) + 2
  {
    hide TaskRank, Base, NodeOf;
    var base := Base(nodes, t);
    TaskRankAt(nodes, order, t, base);
    if !nodes[t].Gather? {
      TaskRankAt(nodes, order, t, base + 1);
    }
    if nodes[t].Process? || nodes[t].Shuffle? {
      TaskRankAt(nodes, order, t, base + 2);
    }
  }

  /** Ranks rise along the chain of a node's tasks. */
  lemma InnerRise(nodes: seq<Node>, order: nat -> nat, t: nat, d: Dep)
    requires t < |nodes| && d in InnerDeps(nodes[t], Base(nodes, t))
    ensures TaskRank(nodes, order, d.0) < TaskRank(nodes, order, d.1)
  {
    hide TaskRank, Base, NodeOf;
    TaskRankAt(nodes, order, t, d.0);
    TaskRankAt(nodes, order, t, d.1);
  }

  lemma TaskRankAt(nodes: seq<Node>, order: nat -> nat, t: nat, x: TaskId)
    requires t < |nodes| && Base(nodes, t) <= x < Base(nodes, t) + Width(nodes[t])
    ensures TaskRank(nodes, order, x)
      == 4 * order(t) + (if nodes[t].ValueSort? then 2 * (x - Base(nodes, t)) else x - Base(nodes, t))
  {
    hide Base, NodeOf;
    NodeOfTask(nodes, t, |nodes|, x);
  }

  /** `order` rises from the producer to the consumer of every edge. */
  ghost predicate NodesOrdered(g: Graph, order: nat -> nat) {
    forall e :: e in g.edges ==> order(e.producer.vertex) < order(e.consumer.vertex)
  }

  /** `rank` rises along every dependency. */
  ghost predicate DepsOrdered(deps: seq<Dep>, rank: nat -> nat) {
    forall d :: d in deps ==> rank(d.0) < rank(d.1)
  }

  lemma CrossRises(g: Graph, order: nat -> nat, e: Edge)
    requires EdgesWithin(g) && NodesOrdered(g, order) && e in g.edges
    ensures TaskRank(g.nodes, order, CrossDep(g.nodes, e).0) < TaskRank(g.nodes, order, CrossDep(g.nodes, e).1)
  {
    hide TaskRank;
    TrioRanks(g.nodes, order, e.producer.vertex);
    TrioRanks(g.nodes, order, e.consumer.vertex);
  }

  lemma OrderedNodesOrderTasks(g: Graph, order: nat -> nat)
    requires EdgesWithin(g) && NodesOrdered(g, order)
    ensures DepsOrdered(Dependencies(g), (x: nat) => TaskRank(g.nodes, order, x))
  {
    hide TaskRank, TrioOf, InnerDeps, Awaiting;
    forall d | d in Dependencies(g) ensures TaskRank(g.nodes, order, d.0) < TaskRank(g.nodes, order, d.1) {
      if d in AllInner(g.nodes, |g.nodes|) {
        InnerBounded(g.nodes, |g.nodes|, d);
        var u: nat :| u < |g.nodes| && d in InnerDeps(g.nodes[u], Base(g.nodes, u));
        InnerRise(g.nodes, order, u, d);
      } else {
        CrossMembers(g, |g.edges|, d);
        var e :| e in g.edges && d == CrossDep(g.nodes, e);
        CrossRises(g, order, e);
      }
    }
  }

  lemma {:induction false} InnerIsDep(nodes: seq<Node>, t: nat, n: nat, d: Dep)
    requires t < n <= |nodes| && d in InnerDeps(nodes[t], Base(nodes, t))
    ensures d in AllInner(nodes, n)
  {
    if t < n - 1 {
      InnerIsDep(nodes, t, n - 1, d);
    }
  }

  lemma {:induction false} CrossIsDep(g: Graph, k: nat, e: Edge)
    requires EdgesWithin(g) && k <= |g.edges| && e in g.edges[..k]
    ensures e in g.edges && CrossDep(g.nodes, e) in AllCross(g, k)
  {
    assert g.edges[k - 1] in g.edges;
    assert g.edges[..k] == g.edges[..k - 1] + [g.edges[k - 1]];
    if e in g.edges[..k - 1] {
      CrossIsDep(g, k - 1, e);
    }
  }

  // ----- Who waits for whom, in task numbers

  ghost function FirstTask(nodes: seq<Node>, t: nat): TaskId
    requires t < |nodes|
  {
    Base(nodes, t)
  }

  ghost function LastTask(nodes: seq<Node>, t: nat): TaskId
    requires t < |nodes|
  {
    Base(nodes, t) + Width(nodes[t]) - 1
  }

  /** The task after which the work handed over to a node may start: the second of the three tasks of a process
      or a shuffle, the first one of a gather or a value sort. */
  ghost function BarrierTask(nodes: seq<Node>, t: nat): TaskId
    requires t < |nodes|
  {
    Base(nodes, t) + if nodes[t].Process? || nodes[t].Shuffle? then 1 else 0
  }

  /** `d` is a link in the chain of one node's tasks, or makes the task that an edge names wait for the last task
      of the producer. */
  ghost predicate IsDependency(g: Graph, d: Dep)
    requires EdgesWithin(g)
  {
    || (exists t: nat :: t < |g.nodes| && FirstTask(g.nodes, t) <= d.0 < d.1 <= LastTask(g.nodes, t) && d.1 == d.0 + 1)
    || (exists e :: e in g.edges && WaitsFor(g, e, d))
  }

  ghost predicate WaitsFor(g: Graph, e: Edge, d: Dep)
    requires EdgesWithin(g) && e in g.edges
  {
    && d.0 == LastTask(g.nodes, e.producer.vertex)
    && match e.successor
       case Entry => d.1 == FirstTask(g.nodes, e.consumer.vertex)
       case Barrier => d.1 == BarrierTask(g.nodes, e.consumer.vertex)
       case Terminal => d.1 == LastTask(g.nodes, e.consumer.vertex)
  }

  lemma TriosAreTasks(nodes: seq<Node>, t: nat)
    requires t < |nodes|
    ensures TrioOf(nodes, t) == Trio(FirstTask(nodes, t), BarrierTask(nodes, t), LastTask(nodes, t))
  {}

  /** The dependencies are exactly these. */
  lemma DependenciesAre(g: Graph, d: Dep)
    requires EdgesWithin(g)
    ensures d in Dependencies(g) <==> IsDependency(g, d)
  {
    hide Base, Width, TrioOf;
    if d in AllInner(g.nodes, |g.nodes|) {
      InnerBounded(g.nodes, |g.nodes|, d);
      var t: nat :| t < |g.nodes| && d in InnerDeps(g.nodes[t], Base(g.nodes, t));
      InnerLinks(g.nodes, t, d);
    } else if d in Dependencies(g) {
      CrossMembers(g, |g.edges|, d);
      var e :| e in g.edges && d == CrossDep(g.nodes, e);
      TriosAreTasks(g.nodes, e.producer.vertex);
      TriosAreTasks(g.nodes, e.consumer.vertex);
      assert WaitsFor(g, e, d);
    }
    if t: nat :| t < |g.nodes| && FirstTask(g.nodes, t) <= d.0 < d.1 <= LastTask(g.nodes, t) && d.1 == d.0 + 1 {
      InnerLinks(g.nodes, t, d);
      InnerIsDep(g.nodes, t, |g.nodes|, d);
    }
    if e :| e in g.edges && WaitsFor(g, e, d) {
      TriosAreTasks(g.nodes, e.producer.vertex);
      TriosAreTasks(g.nodes, e.consumer.vertex);
      assert g.edges[..|g.edges|] == g.edges;
      CrossIsDep(g, |g.edges|, e);
      assert d == (d.0, d.1);
    }
  }

  lemma InnerLinks(nodes: seq<Node>, t: nat, d: Dep)
    requires t < |nodes|
    ensures d in InnerDeps(nodes[t], Base(nodes, t)) <==>
      FirstTask(nodes, t) <= d.0 < d.1 <= LastTask(nodes, t) && d.1 == d.0 + 1
  {
    hide Base;
    assert d == (d.0, d.1);
  }

  /** A producer's last task precedes the consumer's barrier, except along an edge that says Terminal, where it
      precedes the consumer's last task. */
  lemma ProducerBeforeBarrier(g: Graph, e: Edge)
    requires EdgesWithin(g) && e in g.edges
    ensures !e.successor.Terminal? ==>
      Precedes(Dependencies(g), LastTask(g.nodes, e.producer.vertex), BarrierTask(g.nodes, e.consumer.vertex))
    ensures Precedes(Dependencies(g), LastTask(g.nodes, e.producer.vertex), LastTask(g.nodes, e.consumer.vertex))
    ensures e.successor.Entry? ==>
      (LastTask(g.nodes, e.producer.vertex), FirstTask(g.nodes, e.consumer.vertex)) in Dependencies(g)
  {
    hide Base, Width, Dependencies;
    var t, u := e.producer.vertex, e.consumer.vertex;
    TriosAreTasks(g.nodes, t);
    TriosAreTasks(g.nodes, u);
    TerminalsInOrder(g, e);
    var last, first, barrier := LastTask(g.nodes, t), FirstTask(g.nodes, u), BarrierTask(g.nodes, u);
    if e.successor.Barrier? || (e.successor.Entry? && first == barrier) {
      assert WaitsFor(g, e, (last, barrier));
      DependenciesAre(g, (last, barrier));
      assert Chain(Dependencies(g), [last, barrier]);
    }
    if e.successor.Entry? {
      assert WaitsFor(g, e, (last, first));
      DependenciesAre(g, (last, first));
      if first != barrier {
        BarrierIsSecond(g.nodes, u);
        DependenciesAre(g, (first, barrier));
        assert Chain(Dependencies(g), [last, first, barrier]);
      }
    }
  }

  lemma BarrierIsSecond(nodes: seq<Node>, t: nat)
    requires t < |nodes| && FirstTask(nodes, t) != BarrierTask(nodes, t)
    ensures FirstTask(nodes, t) < BarrierTask(nodes, t) <= LastTask(nodes, t)
    ensures BarrierTask(nodes, t) == FirstTask(nodes, t) + 1
  {}

  // ----- Producers' terminals come first

  ghost predicate Chain(deps: seq<Dep>, p: seq<TaskId>) {
    |p| > 0 && forall i :: 0 < i < |p| ==> (p[i - 1], p[i]) in deps
  }

  /** A chain of dependencies leads from `x` to `y`. */
  ghost predicate Precedes(deps: seq<Dep>, x: TaskId, y: TaskId) {
    exists p: seq<TaskId> :: Chain(deps, p) && |p| > 1 && p[0] == x && p[|p| - 1] == y
  }

  lemma InsideNode(g: Graph, t: nat, s: Successor) returns (p: seq<TaskId>)
    requires EdgesWithin(g) && t < |g.nodes|
    ensures Chain(Dependencies(g), p) && p[0] == Awaiting(TrioOf(g.nodes, t), s) && p[|p| - 1] == TrioOf(g.nodes, t).terminal
  {
    var x, kind := TrioOf(g.nodes, t), g.nodes[t];
    forall d | d in InnerDeps(kind, Base(g.nodes, t)) ensures d in Dependencies(g) {
      InnerIsDep(g.nodes, t, |g.nodes|, d);
    }
    if s.Terminal? || kind.Gather? {
      p := [x.terminal];
    } else if kind.ValueSort? || s.Barrier? {
      assert (x.barrier, x.terminal) in InnerDeps(kind, Base(g.nodes, t));
      p := [x.barrier, x.terminal];
    } else {
      assert (x.entry, x.barrier) in InnerDeps(kind, Base(g.nodes, t));
      assert (x.barrier, x.terminal) in InnerDeps(kind, Base(g.nodes, t));
      p := [x.entry, x.barrier, x.terminal];
    }
  }

  /** The terminal of a producer precedes the terminal of each of its consumers, and the task that the edge
      names. */
  lemma TerminalsInOrder(g: Graph, e: Edge)
    requires EdgesWithin(g) && e in g.edges
    ensures CrossDep(g.nodes, e) in Dependencies(g)
    ensures Precedes(Dependencies(g), TrioOf(g.nodes, e.producer.vertex).terminal,
      TrioOf(g.nodes, e.consumer.vertex).terminal)
  {
    assert g.edges[..|g.edges|] == g.edges;
    CrossIsDep(g, |g.edges|, e);
    var rest := InsideNode(g, e.consumer.vertex, e.successor);
    var p := [TrioOf(g.nodes, e.producer.vertex).terminal] + rest;
    assert Chain(Dependencies(g), p);
  }

  lemma {:induction false} ChainRises(deps: seq<Dep>, rank: nat -> nat, p: seq<TaskId>, k: nat)
    requires DepsOrdered(deps, rank) && Chain(deps, p) && k < |p|
    ensures rank(p[0]) <= rank(p[k]) && (k > 0 ==> rank(p[0]) < rank(p[k]))
  {
    if k == 0 {
    } else {
      ChainRises(deps, rank, p, k - 1);
      assert (p[k - 1], p[k]) in deps;
    }
  }

  ghost function TerminalRank(nodes: seq<Node>, rank: nat -> nat, t: nat): nat {
    if t < |nodes| then rank(TrioOf(nodes, t).terminal) else 0
  }

  lemma OrderedTasksOrderNodes(g: Graph, rank: nat -> nat)
    requires EdgesWithin(g) && DepsOrdered(Dependencies(g), rank)
    ensures NodesOrdered(g, (t: nat) => TerminalRank(g.nodes, rank, t))
  {
    forall e | e in g.edges
      ensures rank(TrioOf(g.nodes, e.producer.vertex).terminal) < rank(TrioOf(g.nodes, e.consumer.vertex).terminal)
    {
      TerminalsInOrder(g, e);
      var p: seq<TaskId> :| Chain(Dependencies(g), p) && |p| > 1 && p[0] == TrioOf(g.nodes, e.producer.vertex).terminal
        && p[|p| - 1] == TrioOf(g.nodes, e.consumer.vertex).terminal;
      ChainRises(Dependencies(g), rank, p, |p| - 1);
    }
  }

  // ----- Cycles

  /** The predecessors of a task. */
  ghost function Before(deps: seq<Dep>, x: TaskId): seq<TaskId> {
    if |deps| == 0 then [] else
      var last := deps[|deps| - 1];
      Before(deps[..|deps| - 1], x) + if last.1 == x then [last.0] else []
  }

  lemma {:induction false} BeforeMembers(deps: seq<Dep>, x: TaskId, y: TaskId)
    ensures y in Before(deps, x) <==> (y, x) in deps
  {
    if |deps| == 0 {
    } else {
      var m := |deps| - 1;
      assert deps == deps[..m] + [deps[m]];
      BeforeMembers(deps[..m], x, y);
    }
  }

  /** Each task points to its predecessors. */
  ghost function TaskGraphOf(g: Graph): (d: D.Graph)
    requires EdgesWithin(g)
    ensures |d| == Base(g.nodes, |g.nodes|) && forall x :: 0 <= x < |d| ==> d[x] == Before(Dependencies(g), x)
  {
    seq(Base(g.nodes, |g.nodes|), x requires 0 <= x => Before(Dependencies(g), x))
  }

  lemma DepsBounded(g: Graph, d: Dep)
    requires EdgesWithin(g) && d in Dependencies(g)
    ensures d.0 < Base(g.nodes, |g.nodes|) && d.1 < Base(g.nodes, |g.nodes|)
  {
    if d in AllInner(g.nodes, |g.nodes|) {
      InnerBounded(g.nodes, |g.nodes|, d);
    } else {
      CrossMembers(g, |g.edges|, d);
      var e :| e in g.edges && d == CrossDep(g.nodes, e);
      CrossBounded(g, e);
    }
  }

  lemma TaskEdges(g: Graph, x: TaskId, y: TaskId)
    requires EdgesWithin(g)
    ensures D.Edge(TaskGraphOf(g), x, y) <==> (y, x) in Dependencies(g)
  {
    hide Dependencies;
    BeforeMembers(Dependencies(g), x, y);
    if (y, x) in Dependencies(g) {
      DepsBounded(g, (y, x));
    }
  }

  lemma NodeEdges(g: Graph, t: nat, v: nat)
    requires EdgesWithin(g)
    ensures D.Edge(C.NodeGraph(g), t, v) <==> exists e :: e in g.edges && e.consumer.vertex == t && e.producer.vertex == v
  {
    C.ProducersOfEdges(g.edges, t, v);
  }

  lemma RanksAreOrders(g: Graph, rank: nat -> nat)
    requires EdgesWithin(g)
    ensures D.Ranked(C.NodeGraph(g), rank) <==> NodesOrdered(g, rank)
    ensures D.Ranked(TaskGraphOf(g), rank) <==> DepsOrdered(Dependencies(g), rank)
  {
    hide Dependencies, C.NodeGraph, TaskGraphOf;
    forall t: nat, v: nat
      ensures D.Edge(C.NodeGraph(g), t, v) <==> exists e :: e in g.edges && e.consumer.vertex == t && e.producer.vertex == v
      ensures D.Edge(TaskGraphOf(g), t, v) <==> (v, t) in Dependencies(g)
    {
      NodeEdges(g, t, v);
      TaskEdges(g, t, v);
    }
    if D.Ranked(C.NodeGraph(g), rank) {
      forall e | e in g.edges ensures rank(e.producer.vertex) < rank(e.consumer.vertex) {
        assert D.Edge(C.NodeGraph(g), e.consumer.vertex, e.producer.vertex);
      }
    }
    if D.Ranked(TaskGraphOf(g), rank) {
      forall d | d in Dependencies(g) ensures rank(d.0) < rank(d.1) {
        assert d == (d.0, d.1);
        assert D.Edge(TaskGraphOf(g), d.1, d.0);
      }
    }
  }

  lemma GraphsClosed(g: Graph)
    requires EdgesWithin(g)
    ensures D.Closed(C.NodeGraph(g)) && D.Closed(TaskGraphOf(g))
  {
    hide Dependencies, C.NodeGraph, TaskGraphOf;
    forall t: nat, v: nat | t < |C.NodeGraph(g)| && v in C.NodeGraph(g)[t] ensures v < |C.NodeGraph(g)| {
      assert D.Edge(C.NodeGraph(g), t, v);
      NodeEdges(g, t, v);
    }
    forall t: nat, v: nat | t < |TaskGraphOf(g)| && v in TaskGraphOf(g)[t] ensures v < |TaskGraphOf(g)| {
      assert D.Edge(TaskGraphOf(g), t, v);
      TaskEdges(g, t, v);
      DepsBounded(g, (v, t));
    }
  }

  lemma RankedNodesRankTasks(g: Graph, order: nat -> nat)
    requires EdgesWithin(g) && D.Ranked(C.NodeGraph(g), order)
    ensures D.Ranked(TaskGraphOf(g), (x: nat) => TaskRank(g.nodes, order, x))
  {
    hide D.Ranked, TaskGraphOf, C.NodeGraph, Dependencies, NodesOrdered, DepsOrdered, TaskRank;
    RanksAreOrders(g, order);
    OrderedNodesOrderTasks(g, order);
    RanksAreOrders(g, (x: nat) => TaskRank(g.nodes, order, x));
  }

  lemma RankedTasksRankNodes(g: Graph, rank: nat -> nat)
    requires EdgesWithin(g) && D.Ranked(TaskGraphOf(g), rank)
    ensures D.Ranked(C.NodeGraph(g), (t: nat) => TerminalRank(g.nodes, rank, t))
  {
    hide D.Ranked, TaskGraphOf, C.NodeGraph, Dependencies, NodesOrdered, DepsOrdered, TerminalRank;
    RanksAreOrders(g, rank);
    OrderedTasksOrderNodes(g, rank);
    RanksAreOrders(g, (t: nat) => TerminalRank(g.nodes, rank, t));
  }

  /** The physical dependencies are acyclic exactly when the logical graph is. */
  lemma PhysicalTasksKeepCycles(g: Graph)
    requires EdgesWithin(g)
    ensures D.Cyclic(TaskGraphOf(g)) <==> D.Cyclic(C.NodeGraph(g))
  {
    GraphsClosed(g);
    hide D.Closed, D.Cyclic, D.Ranked, TaskGraphOf, C.NodeGraph, Dependencies, TaskRank, TerminalRank;
    D.AcyclicIffRanked(C.NodeGraph(g));
    D.AcyclicIffRanked(TaskGraphOf(g));
    if !D.Cyclic(C.NodeGraph(g)) {
      var order: nat -> nat :| D.Ranked(C.NodeGraph(g), order);
      RankedNodesRankTasks(g, order);
    }
    if !D.Cyclic(TaskGraphOf(g)) {
      var rank: nat -> nat :| D.Ranked(TaskGraphOf(g), rank);
      RankedTasksRankNodes(g, rank);
    }
  }

  /** From the user's flow graph to the scheduler: the physical dependencies are acyclic exactly when the
      flow graph is. */
  lemma AcyclicEndToEnd(b: B.Build, vertices: seq<P.Vertex>)
    requires F.WellConnected(vertices) && B.Compiled(b, vertices)
    ensures EdgesWithin(Graph(b.nodes, b.edges))
    ensures D.Cyclic(TaskGraphOf(Graph(b.nodes, b.edges))) <==> D.Cyclic(F.SourceGraph(vertices))
  {
    C.CompilationKeepsCycles(b, vertices);
    hide D.Cyclic, F.WellConnected, F.SourceGraph, B.Fed, B.Routed, B.Kinds;
    assert EdgesWithin(Graph(b.nodes, b.edges));
    PhysicalTasksKeepCycles(Graph(b.nodes, b.edges));
  }

  // ----- All the data is there in time

  lemma {:induction false} PrecedesTwice(deps: seq<Dep>, x: TaskId, y: TaskId, z: TaskId)
    requires Precedes(deps, x, y) && Precedes(deps, y, z)
    ensures Precedes(deps, x, z)
  {
    var p: seq<TaskId> :| Chain(deps, p) && |p| > 1 && p[0] == x && p[|p| - 1] == y;
    var q: seq<TaskId> :| Chain(deps, q) && |q| > 1 && q[0] == y && q[|q| - 1] == z;
    var r := p + q[1..];
    forall i | 0 < i < |r| ensures (r[i - 1], r[i]) in deps {
      assert i >= |p| ==> r[i] == q[i - |p| + 1] && r[i - 1] == q[i - |p|];
      assert i < |p| ==> r[i] == p[i] && r[i - 1] == p[i - 1];
    }
    assert Chain(deps, r);
  }

  /** The edge by which a port is fed. */
  lemma {:induction false} EdgeOf(edges: seq<Edge>, c: P.Port, p: P.Port) returns (e: Edge)
    requires p in Feeding(edges, c)
    ensures e in edges && e.producer == p && e.consumer == c
  {
    var m := |edges| - 1;
    if edges[m].consumer == c && edges[m].producer == p {
      e := edges[m];
    } else {
      e := EdgeOf(edges[..m], c, p);
    }
  }

  /** From the flow graph to the scheduler: the last task of every processor that is a source of an input port
      precedes the barrier of the port's processor, through whatever lies in between. With a broadcast port it
      precedes even the entry, so the processor is initialised with all its broadcast input. */
  lemma SourcesComplete(b: B.Build, vertices: seq<P.Vertex>, i: nat, j: nat, p: P.Port)
    requires B.Compiled(b, vertices) && B.HasPort(vertices, i, j) && p in vertices[i].sources[j]
    ensures EdgesWithin(Graph(b.nodes, b.edges)) && i < |b.nodes| && p.vertex < |b.nodes|
    ensures Precedes(Dependencies(Graph(b.nodes, b.edges)), LastTask(b.nodes, p.vertex), BarrierTask(b.nodes, i))
    ensures vertices[i].inputs[j].movement.Broadcast? ==>
      Precedes(Dependencies(Graph(b.nodes, b.edges)), LastTask(b.nodes, p.vertex), FirstTask(b.nodes, i))
  {
    hide Feeding, Dependencies, LastTask, FirstTask, BarrierTask, Precedes, B.Compiled;
    var g := Graph(b.nodes, b.edges);
    AllEdgesWithin(b, vertices);
    B.PathsOfPorts(b, vertices, i, j);
    var fed := Feeding(b.edges, P.Port(i, j));
    var m := vertices[i].inputs[j];
    IsProcessor(b, vertices, i);
    if m.movement.OneToOne? {
      var e := EdgeOf(b.edges, P.Port(i, j), p);
      B.SuccessorsOfEdges(b, vertices, e);
      ProducerBeforeBarrier(g, e);
    } else {
      var e := EdgeOf(b.edges, P.Port(i, j), fed[0]);
      B.SuccessorsOfEdges(b, vertices, e);
      ProducerBeforeBarrier(g, e);
      if m.movement.Broadcast? {
        ReachesCollector(b, vertices, fed[0], Gather, vertices[i].sources[j], p);
        OneStep(Dependencies(g), LastTask(b.nodes, fed[0].vertex), FirstTask(b.nodes, i));
        PrecedesTwice(Dependencies(g), LastTask(b.nodes, p.vertex), LastTask(b.nodes, fed[0].vertex), FirstTask(b.nodes, i));
      } else if m.sorted {
        var up := Feeding(b.edges, P.Port(fed[0].vertex, 0))[0];
        var e2 := EdgeOf(b.edges, P.Port(fed[0].vertex, 0), up);
        B.SuccessorsOfEdges(b, vertices, e2);
        ProducerBeforeBarrier(g, e2);
        ReachesCollector(b, vertices, up, Shuffle, vertices[i].sources[j], p);
        PrecedesTwice(Dependencies(g), LastTask(b.nodes, p.vertex), LastTask(b.nodes, up.vertex),
          LastTask(b.nodes, fed[0].vertex));
      } else {
        ReachesCollector(b, vertices, fed[0], Shuffle, vertices[i].sources[j], p);
      }
      PrecedesTwice(Dependencies(g), LastTask(b.nodes, p.vertex), LastTask(b.nodes, fed[0].vertex), BarrierTask(b.nodes, i));
    }
  }

  lemma OneStep(deps: seq<Dep>, x: TaskId, y: TaskId)
    requires (x, y) in deps
    ensures Precedes(deps, x, y)
  {
    assert Chain(deps, [x, y]);
  }

  lemma AllEdgesWithin(b: B.Build, vertices: seq<P.Vertex>)
    requires B.Compiled(b, vertices)
    ensures EdgesWithin(Graph(b.nodes, b.edges))
  {
    hide B.Fed, B.Routed, B.Kinds;
  }

  lemma IsProcessor(b: B.Build, vertices: seq<P.Vertex>, i: nat)
    requires B.Compiled(b, vertices) && i < |vertices|
    ensures i < |b.nodes| && b.nodes[i] == Process(i)
  {
    hide B.Fed, B.Routed, B.Kinds;
  }

  /** A source's last task precedes the last task of the node that collects it. */
  lemma ReachesCollector(b: B.Build, vertices: seq<P.Vertex>, c: P.Port, kind: Node, src: seq<P.Port>, p: P.Port)
    requires B.Compiled(b, vertices) && B.Collects(b, c, kind, src) && p in src && EdgesWithin(Graph(b.nodes, b.edges))
    ensures p.vertex < |b.nodes|
    ensures Precedes(Dependencies(Graph(b.nodes, b.edges)), LastTask(b.nodes, p.vertex), LastTask(b.nodes, c.vertex))
  {
    hide Feeding, Dependencies, LastTask, Precedes, B.Compiled;
    assert p in multiset(src);
    assert p in Feeding(b.edges, P.Port(c.vertex, 0));
    var e := EdgeOf(b.edges, P.Port(c.vertex, 0), p);
    B.SuccessorsOfEdges(b, vertices, e);
    ProducerBeforeBarrier(Graph(b.nodes, b.edges), e);
  }

  // ----- Registering the tasks in the scheduler

  ghost function Successors(deps: seq<Dep>, x: TaskId): seq<TaskId> {
    if |deps| == 0 then [] else
      var last := deps[|deps| - 1];
      Successors(deps[..|deps| - 1], x) + if last.0 == x then [last.1] else []
  }

  lemma DepsNext(deps: seq<Dep>, d: Dep, x: TaskId)
    ensures Successors(deps + [d], x) == Successors(deps, x) + if d.0 == x then [d.1] else []
    ensures Before(deps + [d], x) == Before(deps, x) + if d.1 == x then [d.0] else []
  {
    assert (deps + [d])[..|deps|] == deps;
  }

  lemma {:induction false} NoDeps(deps: seq<Dep>, x: TaskId)
    requires forall d :: d in deps ==> d.0 != x && d.1 != x
    ensures Successors(deps, x) == [] && Before(deps, x) == []
  {
    if |deps| == 0 {
    } else {
      assert deps[|deps| - 1] in deps;
      NoDeps(deps[..|deps| - 1], x);
    }
  }

  ghost predicate Within(deps: seq<Dep>, n: nat) {
    forall d :: d in deps ==> d.0 < n && d.1 < n
  }

  /** `n` tasks with exactly the given dependencies; those below `k` are committed, and the committed ones
      without predecessors are queued. */
  ghost predicate Registered(c: Core, n: nat, deps: seq<Dep>, k: nat) {
    && WellFormed(c) && c.created == n && c.unfinished == k && k <= n && Within(deps, n)
    && (forall x: TaskId :: x in c.vertices <==> x < n)
    && (forall x: TaskId :: x in c.vertices ==>
          c.vertices[x] == Vertex(|Before(deps, x)| + (if x < k then 0 else 1), Successors(deps, x), Anywhere))
    && (forall x: TaskId :: Queued(c, x) == if x < k && Before(deps, x) == [] then 1 else 0)
  }

  lemma RegisteredCreate(c: Core, n: nat, deps: seq<Dep>)
    requires Registered(c, n, deps, 0)
    ensures Registered(Create(c, Anywhere), n + 1, deps, 0)
  {
    hide Before, Successors, Queued;
    CreateKeepsShape(c, Anywhere);
    NoDeps(deps, n);
    forall x: TaskId ensures Queued(Create(c, Anywhere), x) == Queued(c, x) {
      SameQueues(c, Create(c, Anywhere), x);
    }
  }

  lemma SameQueues(c: Core, c': Core, x: TaskId)
    requires c'.stealable == c.stealable && c'.unstealable == c.unstealable
    ensures Queued(c', x) == Queued(c, x)
  {}

  lemma RegisteredDepend(c: Core, n: nat, deps: seq<Dep>, p: TaskId, s: TaskId)
    requires Registered(c, n, deps, 0) && p < n && s < n
    ensures p in c.vertices && s in c.vertices
    ensures Registered(AddDependency(c, p, s), n, deps + [(p, s)], 0)
  {
    hide Before, Successors, Queued;
    AddDependencyKeepsShape(c, p, s);
    var c' := AddDependency(c, p, s);
    forall x: TaskId
      ensures Queued(c', x) == Queued(c, x)
      ensures x in c'.vertices <==> x < n
      ensures Successors(deps + [(p, s)], x) == Successors(deps, x) + if p == x then [s] else []
      ensures Before(deps + [(p, s)], x) == Before(deps, x) + if s == x then [p] else []
    {
      SameQueues(c, c', x);
      DepsNext(deps, (p, s), x);
      assert x in c'.vertices <==> x in c'.vertices.Keys;
    }
  }

  lemma RegisteredCommit(c: Core, n: nat, deps: seq<Dep>, k: nat, w: nat)
    requires Registered(c, n, deps, k) && k < n && w < |c.nodeOf|
    ensures k in c.vertices && c.vertices[k].count > 0
    ensures WellFormed(c.(unfinished := c.unfinished + 1))
    ensures Registered(Decrement(c.(unfinished := c.unfinished + 1), k, w), n, deps, k + 1)
  {
    hide Before, Successors, Queued, Decrement;
    var counted := c.(unfinished := c.unfinished + 1);
    assert k in c.vertices;
    DecrementKeepsShape(counted, k, w);
    DecrementQueues(counted, k, w, k);
    forall x: TaskId
      ensures Queued(Decrement(counted, k, w), x) == Queued(c, x) + if x == k && c.vertices[k].count == 1 then 1 else 0
    {
      SameQueues(c, counted, x);
      DecrementQueues(counted, k, w, x);
    }
  }

  method CreateNodeTasks(kind: Node, scheduler: PhysicalGraph, ghost deps: seq<Dep>) returns (x: Trio)
    requires Registered(scheduler.State(), scheduler.created, deps, 0)
    modifies scheduler
    ensures x == TrioAt(kind, old(scheduler.created)) && scheduler.created == old(scheduler.created) + Width(kind)
    ensures Registered(scheduler.State(), scheduler.created, deps + InnerDeps(kind, old(scheduler.created)), 0)
    ensures var n := old(scheduler.created);
      match kind
      case Gather => x == Trio(n, n, n) && scheduler.created == n + 1
      case ValueSort => x == Trio(n, n, n + 1) && scheduler.created == n + 2
      case _ => x == Trio(n, n + 1, n + 2) && scheduler.created == n + 3
  {
    hide Registered;
    ghost var n := scheduler.created;
    var entry := Create1(scheduler, deps);
    if kind.Gather? {
      assert deps + [] == deps;
      return Trio(entry, entry, entry);
    }
    var second := Create1(scheduler, deps);
    if kind.ValueSort? {
      Depend1(scheduler, entry, second, deps);
      return Trio(entry, entry, second);
    }
    var terminal := Create1(scheduler, deps);
    Depend1(scheduler, entry, second, deps);
    Depend1(scheduler, second, terminal, deps + [(entry, second)]);
    assert deps + [(entry, second)] + [(second, terminal)] == deps + InnerDeps(kind, n);
    x := Trio(entry, second, terminal);
  }

  method Create1(scheduler: PhysicalGraph, ghost deps: seq<Dep>) returns (id: TaskId)
    requires Registered(scheduler.State(), scheduler.created, deps, 0)
    modifies scheduler
    ensures id == old(scheduler.created) && scheduler.created == id + 1
    ensures Registered(scheduler.State(), scheduler.created, deps, 0)
  {
    hide Before, Successors, Queued;
    RegisteredCreate(scheduler.State(), scheduler.created, deps);
    id := scheduler.CreatePhysicalTask(Anywhere);
  }

  method Depend1(scheduler: PhysicalGraph, p: TaskId, s: TaskId, ghost deps: seq<Dep>)
    requires Registered(scheduler.State(), scheduler.created, deps, 0) && p < scheduler.created && s < scheduler.created
    modifies scheduler
    ensures scheduler.created == old(scheduler.created)
    ensures Registered(scheduler.State(), scheduler.created, deps + [(p, s)], 0)
  {
    hide Before, Successors, Queued;
    RegisteredDepend(scheduler.State(), scheduler.created, deps, p, s);
    scheduler.AddDependency(p, s);
  }

  /** create_physical_tasks: all tasks, all dependencies, then the commits. Afterwards the scheduler holds
      exactly the dependencies of the graph, every task is committed, and exactly those without
      predecessors are queued, each once. */
  method CreatePhysicalTasks(g: Graph, scheduler: PhysicalGraph) returns (trios: seq<Trio>)
    requires EdgesWithin(g) && Registered(scheduler.State(), 0, [], 0)
    modifies scheduler
    ensures |trios| == |g.nodes| && forall t :: 0 <= t < |g.nodes| ==> trios[t] == TrioOf(g.nodes, t)
    ensures forall t :: 0 <= t < |g.nodes| ==>
      trios[t] == Trio(FirstTask(g.nodes, t), BarrierTask(g.nodes, t), LastTask(g.nodes, t))
    ensures Registered(scheduler.State(), Base(g.nodes, |g.nodes|), Dependencies(g), Base(g.nodes, |g.nodes|))
    ensures SuccessorsAre(scheduler.State(), g) && QueuedAre(scheduler.State(), g)
  {
    hide Registered, AllCross, AllInner, SuccessorsAre, QueuedAre;
    trios := CreateAllTasks(g.nodes, scheduler);
    AddCrossDependencies(g, trios, scheduler);
    CommitAllTasks(g.nodes, trios, scheduler, Dependencies(g));
    RegisteredSuccessors(scheduler.State(), g, Base(g.nodes, |g.nodes|));
    RegisteredQueues(scheduler.State(), g);
  }

  /** The tasks queued, each once, are those that wait for nothing. */
  ghost predicate QueuedAre(c: Core, g: Graph)
    requires EdgesWithin(g)
  {
    forall x: TaskId :: Queued(c, x) ==
      if x < Base(g.nodes, |g.nodes|) && (forall y: TaskId :: !IsDependency(g, (y, x))) then 1 else 0
  }

  lemma RegisteredQueues(c: Core, g: Graph)
    requires EdgesWithin(g) && Registered(c, Base(g.nodes, |g.nodes|), Dependencies(g), Base(g.nodes, |g.nodes|))
    ensures QueuedAre(c, g)
  {
    hide Dependencies, IsDependency, Queued, Before, Successors, WellFormed;
    forall x: TaskId
      ensures Before(Dependencies(g), x) == [] <==> forall y: TaskId :: !IsDependency(g, (y, x))
    {
      forall y: TaskId ensures y in Before(Dependencies(g), x) <==> IsDependency(g, (y, x)) {
        BeforeMembers(Dependencies(g), x, y);
        DependenciesAre(g, (y, x));
      }
      if Before(Dependencies(g), x) != [] {
        assert Before(Dependencies(g), x)[0] in Before(Dependencies(g), x);
      }
    }
  }

  /** The tasks that wait for a task are exactly those that the graph says. */
  ghost predicate SuccessorsAre(c: Core, g: Graph)
    requires EdgesWithin(g)
  {
    && (forall x: TaskId :: x in c.vertices <==> x < Base(g.nodes, |g.nodes|))
    && (forall x: TaskId, y: TaskId :: x in c.vertices ==> (y in c.vertices[x].successors <==> IsDependency(g, (x, y))))
  }

  lemma RegisteredSuccessors(c: Core, g: Graph, k: nat)
    requires EdgesWithin(g) && Registered(c, Base(g.nodes, |g.nodes|), Dependencies(g), k)
    ensures SuccessorsAre(c, g)
  {
    hide Dependencies, IsDependency, Queued, Before, Successors, WellFormed;
    forall x: TaskId, y: TaskId | x in c.vertices ensures y in c.vertices[x].successors <==> IsDependency(g, (x, y)) {
      SuccessorsMembers(Dependencies(g), x, y);
      DependenciesAre(g, (x, y));
    }
  }

  lemma {:induction false} SuccessorsMembers(deps: seq<Dep>, x: TaskId, y: TaskId)
    ensures y in Successors(deps, x) <==> (x, y) in deps
  {
    if |deps| == 0 {
    } else {
      var m := |deps| - 1;
      assert deps == deps[..m] + [deps[m]];
      SuccessorsMembers(deps[..m], x, y);
    }
  }

  method CreateAllTasks(nodes: seq<Node>, scheduler: PhysicalGraph) returns (trios: seq<Trio>)
    requires Registered(scheduler.State(), 0, [], 0)
    modifies scheduler
    ensures |trios| == |nodes| && forall t :: 0 <= t < |nodes| ==> trios[t] == TrioOf(nodes, t)
    ensures scheduler.created == Base(nodes, |nodes|)
    ensures Registered(scheduler.State(), Base(nodes, |nodes|), AllInner(nodes, |nodes|), 0)
  {
    hide Registered;
    trios := [];
    assert scheduler.created == 0 by { RegisteredSize(scheduler.State(), 0, [], 0); }
    for t := 0 to |nodes|
      invariant |trios| == t && forall u :: 0 <= u < t ==> trios[u] == TrioOf(nodes, u)
      invariant scheduler.created == Base(nodes, t)
      invariant Registered(scheduler.State(), Base(nodes, t), AllInner(nodes, t), 0)
    {
      var x := CreateNodeTasks(nodes[t], scheduler, AllInner(nodes, t));
      trios := trios + [x];
    }
  }

  method AddCrossDependencies(g: Graph, trios: seq<Trio>, scheduler: PhysicalGraph)
    requires EdgesWithin(g) && |trios| == |g.nodes| && forall t :: 0 <= t < |g.nodes| ==> trios[t] == TrioOf(g.nodes, t)
    requires scheduler.created == Base(g.nodes, |g.nodes|)
    requires Registered(scheduler.State(), scheduler.created, AllInner(g.nodes, |g.nodes|), 0)
    modifies scheduler
    ensures scheduler.created == old(scheduler.created)
    ensures Registered(scheduler.State(), scheduler.created, Dependencies(g), 0)
  {
    hide Registered, TrioOf, Awaiting;
    ghost var inner := AllInner(g.nodes, |g.nodes|);
    assert inner + [] == inner;
    for k := 0 to |g.edges|
      invariant scheduler.created == old(scheduler.created)
      invariant Registered(scheduler.State(), scheduler.created, inner + AllCross(g, k), 0)
    {
      var e := g.edges[k];
      assert e in g.edges;
      CrossBounded(g, e);
      assert inner + AllCross(g, k + 1) == inner + AllCross(g, k) + [CrossDep(g.nodes, e)];
      Depend1(scheduler, trios[e.producer.vertex].terminal, Awaiting(trios[e.consumer.vertex], e.successor),
        inner + AllCross(g, k));
    }
  }

  method CommitAllTasks(nodes: seq<Node>, trios: seq<Trio>, scheduler: PhysicalGraph, ghost deps: seq<Dep>)
    requires |trios| == |nodes| && forall t :: 0 <= t < |nodes| ==> trios[t] == TrioOf(nodes, t)
    requires Registered(scheduler.State(), Base(nodes, |nodes|), deps, 0)
    modifies scheduler
    ensures Registered(scheduler.State(), Base(nodes, |nodes|), deps, Base(nodes, |nodes|))
  {
    hide Registered;
    for t := 0 to |nodes|
      invariant Registered(scheduler.State(), Base(nodes, |nodes|), deps, Base(nodes, t))
    {
      BaseGrows(nodes, t, |nodes|);
      CommitNodeTasks(nodes[t], trios[t], scheduler, Base(nodes, |nodes|), deps);
    }
  }

  /** commit_physical_tasks of one node. */
  method CommitNodeTasks(kind: Node, x: Trio, scheduler: PhysicalGraph, ghost n: nat, ghost deps: seq<Dep>)
    requires x == TrioAt(kind, x.entry) && Registered(scheduler.State(), n, deps, x.entry) && x.entry + Width(kind) <= n
    modifies scheduler
    ensures Registered(scheduler.State(), n, deps, x.entry + Width(kind))
  {
    hide Registered;
    Commit1(scheduler, x.entry, n, deps);
    if !kind.Gather? {
      if !kind.ValueSort? {
        Commit1(scheduler, x.barrier, n, deps);
      }
      Commit1(scheduler, x.terminal, n, deps);
    }
  }

  method Commit1(scheduler: PhysicalGraph, task: TaskId, ghost n: nat, ghost deps: seq<Dep>)
    requires Registered(scheduler.State(), n, deps, task) && task < n
    modifies scheduler
    ensures Registered(scheduler.State(), n, deps, task + 1)
  {
    hide Before, Successors, Queued, Decrement;
    ghost var c := scheduler.State();
    assert |c.nodeOf| > 0;
    RegisteredCommit(c, n, deps, task, 0);
    var drawn, queued := scheduler.CommitTask(task);
    RegisteredCommit(c, n, deps, task, drawn);
  }

  lemma RegisteredSize(c: Core, n: nat, deps: seq<Dep>, k: nat)
    requires Registered(c, n, deps, k)
    ensures c.created == n
  {}

  lemma EmptySchedulerRegistered(nodeOf: seq<nat>, nodes: nat)
    requires |nodeOf| > 0 && forall w :: 0 <= w < |nodeOf| ==> nodeOf[w] < nodes
    ensures Registered(Initial(nodeOf, nodes), 0, [], 0)
  {
    var c := Initial(nodeOf, nodes);
    forall x: TaskId ensures Queued(c, x) == 0 {
      CountZero(c.stealable, x);
      CountZero(c.unstealable, x);
    }
  }
}
