/** The scheduler object: every method does to the fields what the functions of TaskGraph say. */
module Scheduler {
  import opened Options
  import opened TaskGraph

  // ----- Completing a task decrements all its successors

  /** Every listed task is there, with a count that covers its occurrences. */
  ghost predicate Covers(c: Core, ts: seq<TaskId>) {
    forall t: TaskId :: t in ts ==> t in c.vertices && multiset(ts)[t] <= c.vertices[t].count
  }

  /** `r` is `c` with every listed task decremented once for each occurrence; those whose count
      reaches zero, and no others, have been queued, each once. */
  ghost predicate Decremented(c: Core, ts: seq<TaskId>, r: Core) {
    && WellFormed(r) && r.nodeOf == c.nodeOf && r.created == c.created && r.unfinished == c.unfinished
    && CountsLowered(c.vertices, ts, r.vertices)
    && (forall t: TaskId :: Queued(r, t) == Queued(c, t) + if Exhausted(c, ts, t) then 1 else 0)
  }

  ghost predicate CountsLowered(was: map<TaskId, Vertex>, ts: seq<TaskId>, now: map<TaskId, Vertex>) {
    && now.Keys == was.Keys
    && forall t: TaskId {:trigger now[t]} :: t in was && multiset(ts)[t] <= was[t].count ==>
         now[t] == was[t].(count := was[t].count - multiset(ts)[t])
  }

  ghost predicate Exhausted(c: Core, ts: seq<TaskId>, t: TaskId) {
    t in ts && t in c.vertices && c.vertices[t].count == multiset(ts)[t]
  }

  lemma CoversFront(c: Core, ts: seq<TaskId>)
    requires Covers(c, ts) && |ts| > 0
    ensures Covers(c, ts[..|ts| - 1])
    ensures ts[|ts| - 1] in c.vertices
    ensures c.vertices[ts[|ts| - 1]].count > multiset(ts[..|ts| - 1])[ts[|ts| - 1]]
  {
    var m := |ts| - 1;
    assert ts == ts[..m] + [ts[m]];
    assert ts[m] in ts;
    forall t | t in ts[..m] ensures t in ts && multiset(ts[..m])[t] <= multiset(ts)[t] {}
  }

  lemma DecrementNext(c: Core, ts: seq<TaskId>, w: nat, before: Core)
    requires Covers(c, ts) && |ts| > 0 && w < |c.nodeOf| && Decremented(c, ts[..|ts| - 1], before)
    ensures ts[|ts| - 1] in before.vertices && before.vertices[ts[|ts| - 1]].count > 0
    ensures Decremented(c, ts, Decrement(before, ts[|ts| - 1], w))
  {
    hide Queued, Decrement, WellFormed, Exhausted, CountsLowered, Covers;
    var front, u := ts[..|ts| - 1], ts[|ts| - 1];
    CoversFront(c, ts);
    assert ts == front + [u];
    LoweredNext(c.vertices, front, u, before.vertices);
    DecrementKeepsShape(before, u, w);
    DecrementQueues(before, u, w, u);
    forall t: TaskId ensures Queued(Decrement(before, u, w), t) == Queued(c, t) + if Exhausted(c, ts, t) then 1 else 0 {
      DecrementQueues(before, u, w, t);
      ExhaustedNext(c, front, u, t);
    }
  }

  lemma LoweredNext(was: map<TaskId, Vertex>, ts: seq<TaskId>, u: TaskId, now: map<TaskId, Vertex>)
    requires CountsLowered(was, ts, now) && u in was && was[u].count > multiset(ts)[u]
    ensures u in now && now[u].count == was[u].count - multiset(ts)[u]
    ensures CountsLowered(was, ts + [u], now[u := now[u].(count := now[u].count - 1)])
  {
    assert multiset(ts + [u]) == multiset(ts) + multiset{u};
  }

  lemma ExhaustedNext(c: Core, ts: seq<TaskId>, u: TaskId, t: TaskId)
    requires u in c.vertices && c.vertices[u].count > multiset(ts)[u]
    ensures Exhausted(c, ts + [u], t) <==>
      if t == u then c.vertices[u].count == multiset(ts)[u] + 1 else Exhausted(c, ts, t)
    ensures !Exhausted(c, ts, u)
  {
    assert multiset(ts + [u]) == multiset(ts) + multiset{u};
    assert t in ts + [u] <==> t == u || t in ts;
  }

  /** Queues only grow at their ends. */
  ghost predicate Appended(was: seq<seq<TaskId>>, now: seq<seq<TaskId>>) {
    |now| == |was| && forall q :: 0 <= q < |was| ==> was[q] <= now[q]
  }

  lemma AppendedNothing(q: seq<seq<TaskId>>)
    ensures Appended(q, q)
  {}

  lemma AppendedTwice(a: seq<seq<TaskId>>, b: seq<seq<TaskId>>, c: seq<seq<TaskId>>)
    requires Appended(a, b) && Appended(b, c)
    ensures Appended(a, c)
  {}

  lemma DecrementedShape(c: Core, ts: seq<TaskId>, r: Core)
    requires Decremented(c, ts, r)
    ensures WellFormed(r) && r.nodeOf == c.nodeOf && r.created == c.created && r.unfinished == c.unfinished
  {
    hide WellFormed, Queued;
  }

  lemma HasWorkers(c: Core)
    requires WellFormed(c)
    ensures |c.nodeOf| > 0
  {}

  // ----- Taking tasks

  ghost predicate FrontTaken(was: seq<seq<TaskId>>, now: seq<seq<TaskId>>, q: nat, t: TaskId) {
    q < |was| && |was[q]| > 0 && t == was[q][0] && now == was[q := was[q][1..]]
  }

  ghost predicate BackTaken(was: seq<seq<TaskId>>, now: seq<seq<TaskId>>, q: nat, t: TaskId) {
    q < |was| && |was[q]| > 0 && t == was[q][|was[q]| - 1] && now == was[q := was[q][..|was[q]| - 1]]
  }

  /** The front of the first node that has something, `i` steps round from `start`. */
  ghost predicate StolenAfter(was: seq<seq<TaskId>>, now: seq<seq<TaskId>>, start: nat, t: TaskId, i: nat) {
    && i < |was| && FrontTaken(was, now, Around(start, i, |was|), t)
    && forall k :: 0 <= k < i ==> was[Around(start, k, |was|)] == []
  }

  ghost predicate Stolen(was: seq<seq<TaskId>>, now: seq<seq<TaskId>>, start: nat, t: TaskId) {
    exists i: nat :: StolenAfter(was, now, start, t, i)
  }

  // ----- The object

  class PhysicalGraph {
    const nodeOf: seq<nat>
    var vertices: map<TaskId, Vertex>
    var created: nat
    var unfinished: int
    var stealable: seq<seq<TaskId>>
    var unstealable: seq<seq<TaskId>>

    function State(): Core
      reads this
    {
      Core(nodeOf, vertices, created, unfinished, stealable, unstealable)
    }

    constructor (workers: seq<nat>, nodes: nat)
      requires |workers| > 0 && forall w :: 0 <= w < |workers| ==> workers[w] < nodes
      ensures State() == Initial(workers, nodes) && WellFormed(State())
    {
      nodeOf := workers;
      vertices, created, unfinished := map[], 0, 0;
      stealable, unstealable := seq(nodes, _ => []), seq(|workers|, _ => []);
    }

    method CreatePhysicalTask(option: Affinity) returns (id: TaskId)
      requires WellFormed(State()) && ValidAffinity(option, |nodeOf|)
      modifies this
      ensures id == old(created) && id !in old(vertices)
      ensures State() == Create(old(State()), option) && WellFormed(State())
      ensures vertices == old(vertices)[id := Vertex(1, [], option)] && created == old(created) + 1
      ensures unfinished == old(unfinished) && stealable == old(stealable) && unstealable == old(unstealable)
    {
      id := created;
      created := created + 1;
      vertices := vertices[id := Vertex(1, [], option)];
    }

    method AddDependency(predecessor: TaskId, successor: TaskId)
      requires WellFormed(State()) && (predecessor in vertices ==> successor in vertices)
      modifies this
      ensures State() == TaskGraph.AddDependency(old(State()), predecessor, successor) && WellFormed(State())
      ensures predecessor !in old(vertices) ==> State() == old(State())
      ensures predecessor in old(vertices) ==>
        && State() == old(State()).(vertices := vertices) && vertices.Keys == old(vertices).Keys
        && forall t: TaskId :: t in vertices ==>
             && vertices[t].count == old(vertices)[t].count + (if t == successor then 1 else 0)
             && vertices[t].successors == old(vertices)[t].successors + (if t == predecessor then [successor] else [])
             && vertices[t].affinity == old(vertices)[t].affinity
    {
      AddDependencyKeepsShape(State(), predecessor, successor);
      if predecessor !in vertices {
        return;
      }
      var p := vertices[predecessor];
      vertices := vertices[predecessor := p.(successors := p.successors + [successor])];
      var s := vertices[successor];
      vertices := vertices[successor := s.(count := s.count + 1)];
    }

    /** Returns the worker drawn, and whether the task was queued. A pinned task goes to the end of its worker's
        queue, one with a preferred worker to that worker's node, any other to the node of the worker drawn. */
    method DecrementPredecessorCount(task: TaskId) returns (drawn: nat, queued: bool)
      requires WellFormed(State()) && task in vertices && vertices[task].count > 0
      modifies this
      ensures drawn < |nodeOf| && queued == (old(vertices[task].count) == 1)
      ensures State() == Decrement(old(State()), task, drawn) && WellFormed(State())
      ensures vertices == old(vertices)[task := old(vertices)[task].(count := old(vertices)[task].count - 1)]
      ensures created == old(created) && unfinished == old(unfinished)
      ensures !queued ==> stealable == old(stealable) && unstealable == old(unstealable)
      ensures queued ==> match old(vertices)[task].affinity
        case Pinned(x) =>
          unstealable == old(unstealable)[x := old(unstealable)[x] + [task]] && stealable == old(stealable)
        case Preferred(x) =>
          && stealable == old(stealable)[nodeOf[x] := old(stealable)[nodeOf[x]] + [task]]
          && unstealable == old(unstealable)
        case Anywhere =>
          && stealable == old(stealable)[nodeOf[drawn] := old(stealable)[nodeOf[drawn]] + [task]]
          && unstealable == old(unstealable)
      ensures Appended(old(stealable), stealable) && Appended(old(unstealable), unstealable)
      ensures old(QueuesPlaced(State())) ==> QueuesPlaced(State())
    {
      hide QueuesPlaced, Queued;
      drawn :| 0 <= drawn < |nodeOf|;
      DecrementKeepsShape(State(), task, drawn);
      if QueuesPlaced(State()) {
        DecrementPlaced(State(), task, drawn);
      }
      var v := vertices[task];
      vertices := vertices[task := v.(count := v.count - 1)];
      queued := v.count == 1;
      if queued {
        match v.affinity {
          case Pinned(x) =>
            unstealable := unstealable[x := unstealable[x] + [task]];
          case Preferred(x) =>
            var n := nodeOf[x];
            stealable := stealable[n := stealable[n] + [task]];
          case Anywhere =>
            var n := nodeOf[drawn];
            stealable := stealable[n := stealable[n] + [task]];
        }
      }
    }

    method CommitTask(task: TaskId) returns (drawn: nat, queued: bool)
      requires WellFormed(State()) && task in vertices && vertices[task].count > 0
      modifies this
      ensures drawn < |nodeOf| && queued == (old(vertices[task].count) == 1)
      ensures var counted := old(State()).(unfinished := old(unfinished) + 1);
        WellFormed(counted) && State() == Decrement(counted, task, drawn) && WellFormed(State())
      ensures unfinished == old(unfinished) + 1
      ensures vertices == old(vertices)[task := old(vertices)[task].(count := old(vertices)[task].count - 1)]
    {
      unfinished := unfinished + 1;
      drawn, queued := DecrementPredecessorCount(task);
    }

    /** Pops the front of the worker's own queue. */
    method TakeUnstealable(worker: nat) returns (task: Option<TaskId>)
      requires WellFormed(State()) && worker < |nodeOf|
      modifies this
      ensures WellFormed(State()) && (task.None? <==> old(unstealable[worker]) == [])
      ensures task.None? ==> State() == old(State())
      ensures task.Some? ==> FrontTaken(old(unstealable), unstealable, worker, task.value)
      ensures task.Some? ==> Takes(old(State()), State(), worker, task.value)
    {
      if unstealable[worker] == [] {
        return None;
      }
      task := Some(unstealable[worker][0]);
      ghost var was := unstealable;
      unstealable := unstealable[worker := unstealable[worker][1..]];
      assert RemovedFrom(unstealable, was, worker, task.value);
    }

    /** Pops the back of the worker's node. */
    method TakeLocalStealable(worker: nat) returns (task: Option<TaskId>)
      requires WellFormed(State()) && worker < |nodeOf|
      modifies this
      ensures WellFormed(State()) && (task.None? <==> old(stealable[nodeOf[worker]]) == [])
      ensures task.None? ==> State() == old(State())
      ensures task.Some? ==> BackTaken(old(stealable), stealable, nodeOf[worker], task.value)
      ensures task.Some? ==> Takes(old(State()), State(), worker, task.value)
    {
      var n := nodeOf[worker];
      if stealable[n] == [] {
        return None;
      }
      var last := |stealable[n]| - 1;
      task := Some(stealable[n][last]);
      ghost var was := stealable;
      stealable := stealable[n := stealable[n][..last]];
      assert RemovedFrom(stealable, was, n, task.value);
    }

    /** Tries the fronts of all nodes, starting at the worker's own. */
    method StealTask(worker: nat) returns (task: Option<TaskId>)
      requires WellFormed(State()) && worker < |nodeOf|
      modifies this
      ensures WellFormed(State())
      ensures task.None? <==> forall q :: 0 <= q < old(|stealable|) ==> old(stealable)[q] == []
      ensures task.None? ==> State() == old(State())
      ensures task.Some? ==> Stolen(old(stealable), stealable, nodeOf[worker], task.value)
      ensures task.Some? ==> Takes(old(State()), State(), worker, task.value)
    {
      ghost var was := stealable;
      var n := |stealable|;
      var i := 0;
      while i < n
        invariant 0 <= i <= n && State() == old(State())
        invariant forall k :: 0 <= k < i ==> stealable[Around(nodeOf[worker], k, n)] == []
      {
        var q := Around(nodeOf[worker], i, n);
        if stealable[q] != [] {
          task := Some(stealable[q][0]);
          stealable := stealable[q := stealable[q][1..]];
          assert RemovedFrom(stealable, was, q, task.value);
          assert StolenAfter(was, stealable, nodeOf[worker], task.value, i);
          return;
        }
        i := i + 1;
      }
      forall q | 0 <= q < n ensures stealable[q] == [] {
        var k := Reached(nodeOf[worker], q, n);
      }
      task := None;
    }

    /** One round without sleeping. It comes back empty-handed only when there is nothing to take. */
    method TryTake(worker: nat) returns (task: Option<TaskId>)
      requires WellFormed(State()) && worker < |nodeOf|
      modifies this
      ensures WellFormed(State())
      ensures task.None? <==>
        old(unstealable[worker]) == [] && forall q :: 0 <= q < old(|stealable|) ==> old(stealable)[q] == []
      ensures task.None? ==> State() == old(State())
      ensures task.Some? ==> Takes(old(State()), State(), worker, task.value)
      ensures task.Some? ==>
        if old(unstealable[worker]) != [] then FrontTaken(old(unstealable), unstealable, worker, task.value)
        else if old(stealable[nodeOf[worker]]) != [] then BackTaken(old(stealable), stealable, nodeOf[worker], task.value)
        else Stolen(old(stealable), stealable, nodeOf[worker], task.value)
    {
      task := TakeUnstealable(worker);
      if task.None? {
        task := TakeLocalStealable(worker);
      }
      if task.None? {
        task := StealTask(worker);
      }
    }

    /** Erases the vertex, decrements its successors, and reports whether this was the last task. */
    method NotifyTaskCompletion(task: TaskId) returns (last: bool)
      requires WellFormed(State()) && task in vertices
      requires Covers(Erase(State(), task), vertices[task].successors)
      modifies this
      ensures WellFormed(State()) && last == (unfinished == 0)
      ensures unfinished == old(unfinished) - 1
      ensures Appended(old(stealable), stealable) && Appended(old(unstealable), unstealable)
      ensures old(QueuesPlaced(State()) && Queued(State(), task) == 0) ==> QueuesPlaced(State())
      ensures Decremented(Erase(old(State()), task), old(vertices[task].successors), State().(unfinished := old(unfinished)))
    {
      hide Queued, Decrement, Exhausted, CountsLowered, QueuesPlaced, Appended, Decremented;
      var successors := vertices[task].successors;
      vertices := map u | u in vertices && u != task :: vertices[u];
      ghost var erased := State();
      if old(QueuesPlaced(State()) && Queued(State(), task) == 0) {
        SameQueuesPlaced(old(State()), erased);
      }
      DecrementAll(successors);
      ghost var decremented := State();
      DecrementedShape(erased, successors, decremented);
      unfinished := unfinished - 1;
      if QueuesPlaced(decremented) {
        SameQueuesPlaced(decremented, State());
      }
      last := unfinished == 0;
    }

    /** The loop over the successors. */
    method DecrementAll(successors: seq<TaskId>)
      requires WellFormed(State()) && Covers(State(), successors)
      modifies this
      ensures Decremented(old(State()), successors, State())
      ensures Appended(old(stealable), stealable) && Appended(old(unstealable), unstealable)
      ensures old(QueuesPlaced(State())) ==> QueuesPlaced(State())
    {
      hide Queued, Decrement, WellFormed, QueuesPlaced, Appended, Decremented, Covers;
      AppendedNothing(stealable);
      AppendedNothing(unstealable);
      ghost var erased := State();
      NoneDecremented(erased);
      assert successors[..0] == [];
      for i := 0 to |successors|
        invariant Decremented(erased, successors[..i], State())
        invariant Appended(old(stealable), stealable) && Appended(old(unstealable), unstealable)
        invariant old(QueuesPlaced(State())) ==> QueuesPlaced(State())
      {
        assert successors[..i + 1][..i] == successors[..i];
        CoversMore(erased, successors, i + 1);
        ghost var before := State();
        var drawn := MustDecrement(successors[i], erased, successors[..i + 1]);
        AppendedTwice(old(stealable), before.stealable, stealable);
        AppendedTwice(old(unstealable), before.unstealable, unstealable);
      }
      assert successors[..|successors|] == successors;
    }

    /** One decrement in the row. */
    method MustDecrement(task: TaskId, ghost base: Core, ghost done: seq<TaskId>) returns (drawn: nat)
      requires |done| > 0 && task == done[|done| - 1] && Covers(base, done)
      requires Decremented(base, done[..|done| - 1], State())
      modifies this
      ensures Decremented(base, done, State()) && WellFormed(State())
      ensures Appended(old(stealable), stealable) && Appended(old(unstealable), unstealable)
      ensures old(QueuesPlaced(State())) ==> QueuesPlaced(State())
    {
      hide Queued, Decrement, WellFormed, QueuesPlaced, Decremented, Covers;
      DecrementedShape(base, done[..|done| - 1], State());
      HasWorkers(State());
      ghost var before := State();
      DecrementNext(base, done, 0, before);
      var queued;
      drawn, queued := DecrementPredecessorCount(task);
      DecrementNext(base, done, drawn, before);
    }
  }

  lemma NoneDecremented(c: Core)
    requires WellFormed(c)
    ensures Decremented(c, [], c)
  {}

  lemma CoversMore(c: Core, ts: seq<TaskId>, i: nat)
    requires Covers(c, ts) && i <= |ts|
    ensures Covers(c, ts[..i])
  {
    assert ts == ts[..i] + ts[i..];
    assert multiset(ts) == multiset(ts[..i]) + multiset(ts[i..]);
  }

  // ----- Going round the nodes

  function Around(start: nat, i: nat, n: nat): (q: nat)
    requires n > 0
    ensures q < n
    ensures start < n && i < n ==> q == if start + i < n then start + i else start + i - n
  {
    assert start < n && i < n && start + i >= n ==> (start + i) % n == start + i - n by {
      if start < n && i < n && start + i >= n {
        WrapOnce(start + i, n);
      }
    }
    (start + i) % n
  }

  lemma WrapOnce(x: nat, n: nat)
    requires n <= x < 2 * n
    ensures x % n == x - n
  {
    assert x / n == 1;
  }

  /** Going round once visits every node. */
  lemma Reached(start: nat, q: nat, n: nat) returns (k: nat)
    requires start < n && q < n
    ensures k < n && Around(start, k, n) == q
  {
    k := if start <= q then q - start else n - start + q;
  }
}
